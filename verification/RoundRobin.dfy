/** The default policy of a queue group: getQueue of src/common/QueueGroup.hpp loads a shared counter
    and tries once to advance it. Any number of threads. */
module RoundRobin {
  import opened Tallies

  /** `at` is history: how many swaps had succeeded when the counter was loaded. */
  datatype Pc = Idle | Loaded(offset: nat, at: nat)

  datatype Action = Load(t: nat) | Swap(t: nat)

  /** A call that has returned: its thread, its queue, and `at` of its load. */
  datatype Answer = Answer(t: nat, queue: nat, at: nat)

  /** `wins` counts the successful swaps. */
  datatype Group = Group(first: nat, num: nat, counter: nat, pcs: seq<Pc>, wins: nat, answers: seq<Answer>)

  function Init(first: nat, num: nat, threads: nat): Group {
    Group(first, num, 0, seq(threads, i => Idle), 0, [])
  }

  predicate Enabled(s: Group, a: Action) {
    match a
    case Load(t) => t < |s.pcs| && s.pcs[t].Idle?
    case Swap(t) => t < |s.pcs| && s.pcs[t].Loaded?
  }

  function NextOffset(offset: nat, num: nat): nat {
    if offset < num - 1 then offset + 1 else 0
  }

  predicate Swaps(s: Group, t: nat)
    requires Enabled(s, Swap(t))
  {
    s.counter == s.pcs[t].offset
  }

  function Apply(s: Group, a: Action): Group
    requires Enabled(s, a)
  {
    match a
    case Load(t) => s.(pcs := s.pcs[t := Loaded(s.counter, s.wins)])
    case Swap(t) =>
      var p := s.pcs[t];
      var s' := s.(pcs := s.pcs[t := Idle], answers := s.answers + [Answer(t, s.first + p.offset, p.at)]);
      if Swaps(s, t) then s'.(counter := NextOffset(p.offset, s.num), wins := s.wins + 1) else s'
  }

  function Step(s: Group, a: Action): Group {
    if Enabled(s, a) then Apply(s, a) else s
  }

  function Run(s: Group, acts: seq<Action>): Group {
    if acts == [] then s else Step(Run(s, acts[..|acts| - 1]), acts[|acts| - 1])
  }

  // ---- The invariant ---------------------------------------------------

  ghost predicate PcOk(s: Group, p: Pc)
    requires s.num > 0
  {
    p.Loaded? ==> p.at <= s.wins && p.offset == p.at % s.num
  }

  ghost predicate AnswerOk(s: Group, a: Answer)
    requires s.num > 0
  {
    a.at <= s.wins && a.queue == s.first + a.at % s.num
  }

  ghost predicate Inv(s: Group) {
    && s.num > 0
    && s.counter == s.wins % s.num
    && (forall t :: 0 <= t < |s.pcs| ==> PcOk(s, s.pcs[t]))
    && (forall i :: 0 <= i < |s.answers| ==> AnswerOk(s, s.answers[i]))
  }

  lemma InitInv(first: nat, num: nat, threads: nat)
    requires num > 0
    ensures Inv(Init(first, num, threads))
  {
    ModSmall(0, num);
  }

  lemma WinNext(s: Group, t: nat)
    requires Inv(s) && Enabled(s, Swap(t)) && Swaps(s, t)
    ensures NextOffset(s.pcs[t].offset, s.num) == (s.wins + 1) % s.num
  {
    ModNext(s.wins, s.num);
  }

  lemma StepInv(s: Group, a: Action)
    requires Inv(s)
    ensures Inv(Step(s, a))
    ensures Step(s, a).first == s.first && Step(s, a).num == s.num && s.wins <= Step(s, a).wins
    ensures |Step(s, a).pcs| == |s.pcs| && s.answers <= Step(s, a).answers
  {
    var s' := Step(s, a);
    if a.Swap? && Enabled(s, a) && Swaps(s, a.t) {
      WinNext(s, a.t);
    }
    forall t | 0 <= t < |s'.pcs| ensures PcOk(s', s'.pcs[t]) {
      assert PcOk(s, s.pcs[t]);
    }
    forall i | 0 <= i < |s'.answers| ensures AnswerOk(s', s'.answers[i]) {
      if i < |s.answers| {
        assert AnswerOk(s, s.answers[i]);
      } else {
        assert PcOk(s, s.pcs[a.t]);
      }
    }
  }

  lemma {:induction false} RunInv(s: Group, acts: seq<Action>)
    requires Inv(s)
    ensures Inv(Run(s, acts))
    ensures Run(s, acts).first == s.first && Run(s, acts).num == s.num && s.wins <= Run(s, acts).wins
    ensures |Run(s, acts).pcs| == |s.pcs| && s.answers <= Run(s, acts).answers
  {
    hide Inv, Step;
    if acts != [] {
      RunInv(s, acts[..|acts| - 1]);
      StepInv(Run(s, acts[..|acts| - 1]), acts[|acts| - 1]);
    }
  }

  // ---- What every run guarantees ---------------------------------------

  /** In every run the counter is the number of successful swaps modulo the group's size, and every
      queue handed out belongs to the group and is the one the counter showed at the load. */
  lemma CounterCountsWins(first: nat, num: nat, threads: nat, acts: seq<Action>)
    requires num > 0
    ensures var s := Run(Init(first, num, threads), acts);
            && s.counter == s.wins % num
            && forall i :: 0 <= i < |s.answers| ==>
                 first <= s.answers[i].queue < first + num && s.answers[i].queue == first + s.answers[i].at % num
  {
    InitInv(first, num, threads);
    RunInv(Init(first, num, threads), acts);
    var s := Run(Init(first, num, threads), acts);
    forall i | 0 <= i < |s.answers| ensures first <= s.answers[i].queue < first + num && s.answers[i].queue == first + s.answers[i].at % num {
      assert AnswerOk(s, s.answers[i]);
    }
  }

  predicate NotBy(acts: seq<Action>, t: nat) {
    forall a :: a in acts ==> a.t != t
  }

  lemma {:induction false} OthersLeave(s: Group, acts: seq<Action>, t: nat)
    requires t < |s.pcs| && NotBy(acts, t)
    ensures |Run(s, acts).pcs| == |s.pcs| && Run(s, acts).pcs[t] == s.pcs[t]
  {
    if acts != [] {
      OthersLeave(s, acts[..|acts| - 1], t);
    }
  }

  /** How many swaps succeed in the run. */
  ghost function Wins(s: Group, acts: seq<Action>): nat {
    if acts == [] then 0 else
    var mid, a := Run(s, acts[..|acts| - 1]), acts[|acts| - 1];
    Wins(s, acts[..|acts| - 1]) + if a.Swap? && Enabled(mid, a) && Swaps(mid, a.t) then 1 else 0
  }

  lemma {:induction false} WinsAdd(s: Group, acts: seq<Action>)
    ensures Run(s, acts).wins == s.wins + Wins(s, acts)
  {
    if acts != [] {
      WinsAdd(s, acts[..|acts| - 1]);
    }
  }

  /** One call with everybody else's steps between its load and its swap: the swap succeeds exactly
      if the others' successes in between are a multiple of the group's size. So it fails only if
      some other thread succeeded, and the counter moves on either way. */
  lemma SwapExactly(s: Group, t: nat, others: seq<Action>)
    requires Inv(s) && Enabled(s, Load(t)) && NotBy(others, t)
    ensures var loaded := Step(s, Load(t));
            var mid := Run(loaded, others);
            && Enabled(mid, Swap(t))
            && (Swaps(mid, t) <==> Wins(loaded, others) % s.num == 0)
            && (!Swaps(mid, t) ==> Wins(loaded, others) > 0)
            && Step(mid, Swap(t)).wins > s.wins
            && Step(mid, Swap(t)).answers == mid.answers + [Answer(t, s.first + s.wins % s.num, s.wins)]
  {
    hide Run, Wins, NotBy;
    var loaded := Step(s, Load(t));
    StepInv(s, Load(t));
    OthersLeave(loaded, others, t);
    RunInv(loaded, others);
    WinsAdd(loaded, others);
    ModShift(s.wins, Wins(loaded, others), s.num);
  }

  lemma ModShift(a: nat, d: nat, num: nat)
    requires num > 0
    ensures (a + d) % num == a % num <==> d % num == 0
  {
    if d % num == 0 {
      assert a + d == num * (a / num + d / num) + a % num;
      ModUnique(a + d, num, a / num + d / num, a % num);
    }
    if (a + d) % num == a % num {
      assert d == num * ((a + d) / num - a / num);
      ModUnique(d, num, (a + d) / num - a / num, 0);
    }
  }

  /** Two calls are given the same queue exactly if the successes between their loads are a multiple
      of the group's size; in particular when no swap succeeded between the loads. */
  lemma SameQueueExactly(first: nat, num: nat, threads: nat, acts: seq<Action>, i: nat, j: nat)
    requires num > 0
    requires i < |Run(Init(first, num, threads), acts).answers| && j < |Run(Init(first, num, threads), acts).answers|
    requires Run(Init(first, num, threads), acts).answers[i].at <= Run(Init(first, num, threads), acts).answers[j].at
    ensures var answers := Run(Init(first, num, threads), acts).answers;
            answers[i].queue == answers[j].queue <==> (answers[j].at - answers[i].at) % num == 0
  {
    CounterCountsWins(first, num, threads, acts);
    var answers := Run(Init(first, num, threads), acts).answers;
    ModShift(answers[i].at, answers[j].at - answers[i].at, num);
  }

  lemma RunSnoc(s: Group, acts: seq<Action>, a: Action)
    ensures Run(s, acts + [a]) == Step(Run(s, acts), a)
  {
    assert (acts + [a])[..|acts|] == acts;
  }

  lemma RunFour(s: Group, a: Action, b: Action, c: Action, d: Action)
    ensures Run(s, [a, b, c, d]) == Step(Step(Step(Step(s, a), b), c), d)
  {
    hide Step;
    RunSnoc(s, [], a);
    RunSnoc(s, [a], b);
    RunSnoc(s, [a, b], c);
    RunSnoc(s, [a, b, c], d);
    assert [] + [a] == [a] && [a] + [b] == [a, b] && [a, b] + [c] == [a, b, c] && [a, b, c] + [d] == [a, b, c, d];
  }

  /** Two overlapping calls on a group of two queues get the same queue. */
  lemma OverlappingCallsShare()
    ensures Run(Init(4, 2, 2), [Load(0), Load(1), Swap(0), Swap(1)]).answers == [Answer(0, 4, 0), Answer(1, 4, 0)]
  {
    hide Run;
    RunFour(Init(4, 2, 2), Load(0), Load(1), Swap(0), Swap(1));
  }

  /** The calls of the given threads, one after the other. */
  function OneByOne(callers: seq<nat>): seq<Action> {
    if callers == [] then [] else OneByOne(callers[..|callers| - 1]) + [Load(callers[|callers| - 1]), Swap(callers[|callers| - 1])]
  }

  ghost predicate AllIdle(s: Group) {
    forall t :: 0 <= t < |s.pcs| ==> s.pcs[t].Idle?
  }

  /** One undisturbed call. */
  lemma LoneCall(s: Group, acts: seq<Action>, t: nat)
    requires Inv(Run(s, acts)) && AllIdle(Run(s, acts)) && t < |Run(s, acts).pcs|
    ensures var mid, end := Run(s, acts), Run(s, acts + [Load(t), Swap(t)]);
            && AllIdle(end) && |end.pcs| == |mid.pcs| && end.wins == mid.wins + 1
            && end.answers == mid.answers + [Answer(t, mid.first + mid.wins % mid.num, mid.wins)]
  {
    RunSnoc(s, acts, Load(t));
    RunSnoc(s, acts + [Load(t)], Swap(t));
    assert acts + [Load(t)] + [Swap(t)] == acts + [Load(t), Swap(t)];
  }

  /** Without overlap the k-th call gets queue first + k modulo the group's size, so any calls as many
      as the group has queues get all different ones. */
  lemma {:induction false} SequentialCalls(first: nat, num: nat, threads: nat, callers: seq<nat>)
    requires num > 0 && forall t :: t in callers ==> t < threads
    ensures var s := Run(Init(first, num, threads), OneByOne(callers));
            && AllIdle(s) && |s.pcs| == threads && s.wins == |s.answers| == |callers|
            && forall k :: 0 <= k < |callers| ==> s.answers[k] == Answer(callers[k], first + k % num, k)
  {
    if callers != [] {
      var n := |callers| - 1;
      assert forall t :: t in callers[..n] ==> t in callers;
      SequentialCalls(first, num, threads, callers[..n]);
      InitInv(first, num, threads);
      RunInv(Init(first, num, threads), OneByOne(callers[..n]));
      assert callers[n] in callers;
      LoneCall(Init(first, num, threads), OneByOne(callers[..n]), callers[n]);
    }
  }

  lemma SequentialCallsDiffer(first: nat, num: nat, threads: nat, callers: seq<nat>, j: nat, k: nat)
    requires num > 0 && forall t :: t in callers ==> t < threads
    requires j < k < |callers| && k < j + num
    ensures |Run(Init(first, num, threads), OneByOne(callers)).answers| == |callers|
    ensures var answers := Run(Init(first, num, threads), OneByOne(callers)).answers;
            answers[j].queue != answers[k].queue
  {
    SequentialCalls(first, num, threads, callers);
    ModApart(k, j, num);
  }

  // ---- The code --------------------------------------------------------

  class DefaultQueueGroup {
    const firstQueue: nat
    const numQueues: nat
    var counter: nat
    var pcs: seq<Pc>
    var wins: nat
    var answers: seq<Answer>

    function View(): Group
      reads this
    {
      Group(firstQueue, numQueues, counter, pcs, wins, answers)
    }

    ghost predicate Valid()
      reads this
    {
      Inv(View())
    }

    /** Built with at least one queue; the default policy starts the counter at 0. */
    constructor (first: nat, num: nat, threads: nat)
      requires num > 0
      ensures Valid() && View() == Init(first, num, threads)
    {
      firstQueue, numQueues, counter := first, num, 0;
      pcs, wins, answers := seq(threads, i => Idle), 0, [];
      new;
      InitInv(first, num, threads);
    }

    method LoadCounter(t: nat) returns (offset: nat)
      requires Valid() && Enabled(View(), Load(t))
      modifies this
      ensures Valid() && View() == Step(old(View()), Load(t)) && offset == counter == old(counter)
    {
      StepInv(View(), Load(t));
      offset := counter;
      pcs := pcs[t := Loaded(offset, wins)];
    }

    method CompareAndSwap(t: nat, offset: nat, nextOffset: nat)
      requires Valid() && Enabled(View(), Swap(t))
      requires offset == pcs[t].offset && nextOffset == NextOffset(offset, numQueues)
      modifies this
      ensures Valid() && View() == Step(old(View()), Swap(t))
    {
      StepInv(View(), Swap(t));
      answers := answers + [Answer(t, firstQueue + offset, pcs[t].at)];
      pcs := pcs[t := Idle];
      if counter == offset {
        counter := nextOffset;
        wins := wins + 1;
      }
    }

    /** One access of another thread. */
    method Perform(a: Action)
      requires Valid()
      modifies this
      ensures Valid() && View() == Step(old(View()), a)
    {
      StepInv(View(), a);
      var s := Step(View(), a);
      counter, pcs, wins, answers := s.counter, s.pcs, s.wins, s.answers;
    }

    /** The other threads perform `acts`. */
    method Interfere(acts: seq<Action>, ghost t: nat)
      requires Valid() && t < |pcs| && NotBy(acts, t)
      modifies this
      ensures Valid() && View() == Run(old(View()), acts) && |pcs| == old(|pcs|) && pcs[t] == old(pcs[t])
    {
      hide Inv, Step;
      var k := 0;
      while k < |acts|
        invariant 0 <= k <= |acts|
        invariant Valid() && View() == Run(old(View()), acts[..k])
      {
        Perform(acts[k]);
        RunSnoc(old(View()), acts[..k], acts[k]);
        assert acts[..k] + [acts[k]] == acts[..k + 1];
        k := k + 1;
      }
      assert acts[..k] == acts;
      OthersLeave(old(View()), acts, t);
    }

    /** getQueue() under the default policy; `others` is what the other threads do between the load
        and the swap. A group of one queue is answered without touching the counter. */
    method GetQueue(t: nat, others: seq<Action>) returns (queue: nat)
      requires Valid() && t < |pcs| && pcs[t].Idle? && NotBy(others, t)
      modifies this
      ensures Valid() && firstQueue <= queue < firstQueue + numQueues
      ensures queue == firstQueue + old(wins) % numQueues
      ensures numQueues > 1 ==> View() == Step(Run(Step(old(View()), Load(t)), others), Swap(t)) && wins > old(wins)
      ensures numQueues == 1 ==> View() == old(View())
    {
      queue := firstQueue;
      if numQueues > 1 {
        SwapExactly(View(), t, others);
        var offset := LoadCounter(t);
        var nextOffset := if offset < numQueues - 1 then offset + 1 else 0;
        queue := firstQueue + offset;
        Interfere(others, t);
        CompareAndSwap(t, offset, nextOffset);
      } else {
        ModUnique(wins, 1, wins, 0);
      }
    }
  }
}
