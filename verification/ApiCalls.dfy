/** The calls of the library in the form of their code: src/c/Write.cpp, src/c/WriteList.cpp and
    src/c/NotifyAsyncWait.cpp. Other threads, the network and the pollers act between any two
    accesses to shared data, and every call is shown to be a run of the completion protocol. */
module ApiCalls {
  import opened Waits
  import opened Completion
  import opened CompletionProofs
  import opened CompletionTheorems
  import opened CompletionLaws
  import opened Interference
  import opened Scans

  /** How a wait call ended: everything had arrived, its range was published, or it is still trying
      to get a range object. */
  datatype WaitEnd = Immediate | Published(obj: nat) | Starved

  lemma MustPublish(s: Sys, t: nat)
    requires Inv(s) && t < |s.threads| && s.threads[t].Publishing?
    ensures Enabled(s, Publish(t))
  {
    ThreadPc(s, t);
    QueueFits(s, t, s.threads[t].w.seg);
  }

  lemma StillAsks(w: Wait, task: nat, seg: nat, first: nat, num: nat, keep: bool)
    requires SameRequest(w, NewWait(task, seg, first, num, keep))
    ensures Asks(w, task, seg, first, num, keep) && w.seg == seg
  {
  }

  lemma SameAsItself(w: Wait)
    ensures SameRequest(w, w)
  {
  }

  lemma AfterReset(s: Sys, t: nat)
    requires t < |s.threads| && s.threads[t].Resetting? && s.threads[t].w.seg < |s.segs|
    ensures var w, value := s.threads[t].w, At(s.segs[s.threads[t].w.seg].board, s.threads[t].id);
            var s' := Step(s, Action.Reset(t));
            && |s'.threads| == |s.threads| && |s'.segs| == |s.segs| && |s'.queues| == |s.queues|
            && (value == 0 ==> s'.threads[t] == Checked(w))
            && (value != 0 ==> (if w.rem > 1 then s'.threads[t].Looking? else s'.threads[t].Checked?)
                               && SameRequest(s'.threads[t].w, w) && s'.threads[t].w.rem == w.rem - 1
                               && s'.threads[t].w.got == w.got + [Note(w.seg, s.threads[t].id, value)])
  {
  }

  lemma AfterPublish(s: Sys, t: nat)
    requires t < |s.threads| && s.threads[t].Publishing? && Enabled(s, Publish(t))
    ensures var s', p := Step(s, Publish(t)), s.threads[t];
            && |s'.threads| == |s.threads| && |s'.segs| == |s.segs|
            && s'.threads[t] == Idle && s'.events == s.events
            && s'.segs[p.w.seg].queue == s.segs[p.w.seg].queue + [Parked(p.w, p.obj)]
  {
  }

  lemma AfterRaise(s: Sys, t: nat)
    requires Enabled(s, Raise(t))
    ensures var s', w := Step(s, Raise(t)), s.threads[t].w;
            && |s'.threads| == |s.threads| && |s'.segs| == |s.segs|
            && s'.threads[t] == Raised(w) && s'.events == s.events + multiset{w.task}
  {
  }

  /** The last range of its segment's queue is the wait, in the given object. */
  ghost predicate JustPublished(segs: seq<Seg>, w: Wait, obj: nat) {
    && w.seg < |segs| && segs[w.seg].queue != []
    && exists value: nat :: segs[w.seg].queue[|segs[w.seg].queue| - 1] == Parked(w.(value := value), obj)
  }

  lemma JustDone(s: Sys, s': Sys, w: Wait, value: nat, obj: nat, t: nat)
    requires t < |s.threads| && s.threads[t] == Publishing(w.(value := value), obj) && w.seg < |s.segs| == |s'.segs|
    requires s'.segs[w.seg].queue == s.segs[w.seg].queue + [Parked(w.(value := value), obj)]
    ensures JustPublished(s'.segs, w, obj)
  {
    assert s'.segs[w.seg].queue[|s'.segs[w.seg].queue| - 1] == Parked(w.(value := value), obj);
  }

  /** The last range of its segment's queue asks for exactly these ids on behalf of this task, and
      still has something to wait for. */
  ghost predicate PublishedFor(segs: seq<Seg>, task: nat, seg: nat, first: nat, num: nat, keep: bool, obj: nat) {
    exists w: Wait ::
      && w.task == task && w.seg == seg && w.first == first && w.num == num && w.keep == keep
      && 0 < w.rem <= num && JustPublished(segs, w, obj)
  }

  lemma MakePublished(segs: seq<Seg>, w: Wait, task: nat, seg: nat, first: nat, num: nat, keep: bool, obj: nat)
    requires Asks(w, task, seg, first, num, keep) && 0 < w.rem <= num && JustPublished(segs, w, obj)
    ensures PublishedFor(segs, task, seg, first, num, keep, obj)
  {
  }

  lemma AfterEnter(s: Sys, t: nat, task: nat, seg: nat, first: nat, num: nat, keep: bool)
    requires num > 0 && Enabled(s, BeginWait(t, task, seg, first, num, keep))
    ensures var s' := Step(s, BeginWait(t, task, seg, first, num, keep));
            && |s'.threads| == |s.threads| && |s'.segs| == |s.segs|
            && s'.threads[t] == Looking(NewWait(task, seg, first, num, keep))
  {
  }

  lemma AfterReturn(s: Sys, t: nat)
    requires Enabled(s, Return(t))
    ensures var s' := Step(s, Return(t));
            |s'.threads| == |s.threads| && |s'.segs| == |s.segs| && s'.threads[t] == Idle
  {
  }

  lemma AfterLook(s: Sys, t: nat, look: Action)
    requires AtLook(s, t) && (look == LookMiss(t) || (look.LookHit? && look.t == t && Enabled(s, look)))
    ensures var s' := Step(s, look);
            && |s'.threads| == |s.threads| && |s'.segs| == |s.segs| && |s'.queues| == |s.queues|
            && s'.threads[t] == if look.LookHit? then Resetting(s.threads[t].w, look.id) else Checked(s.threads[t].w)
  {
  }

  /** n requests of the task are posted on the given queue, and nothing else changes on any queue. */
  ghost predicate PostsOn(before: seq<Queue>, after: seq<Queue>, queue: nat, task: nat, n: nat) {
    && |after| == |before|
    && forall q :: 0 <= q < |before| ==>
         && after[q].valid == before[q].valid && after[q].done == before[q].done
         && forall tag :: after[q].posted[tag] == before[q].posted[tag] + if q == queue && tag == task then n else 0
  }

  /** What an operation does: it raises its task's counter by its n requests; if the network accepts it,
      exactly these requests are then posted on the caller's queue with the task as tag, and no counter
      changes; if not, the call leaves the state of the interference alone. */
  ghost predicate SubmitOutcome(s: Sys, s': Sys, t: nat, task: nat, n: nat, queue: nat, success: bool,
                                beforeSubmit: seq<Action>, beforeDecrease: seq<Action>) {
    var begun := Step(s, BeginSubmit(t, task, n, queue));
    var mid := Run(begun, beforeSubmit);
    && (forall u :: begun.events[u] == s.events[u] + if u == task then n else 0)
    && begun.queues == s.queues
    && if success then PostsOn(mid.queues, s'.queues, queue, task, n) && s'.events == mid.events && s' == Step(mid, Submit(t, true))
       else s' == Run(s, beforeSubmit + beforeDecrease)
  }

  // ---- What a call does -------------------------------------------------

  /** The event is raised and the pool has been tried k times. */
  ghost function Tried(t: nat, env: nat -> seq<Action>, start: nat, k: nat): seq<Action> {
    if k == 0 then [Raise(t)] else Tried(t, env, start, k - 1) + env(start + k - 1)
  }

  lemma TriedNext(s: Sys, t: nat, env: nat -> seq<Action>, start: nat, k: nat)
    ensures Run(s, Tried(t, env, start, 0)) == Step(s, Raise(t))
    ensures Run(s, Tried(t, env, start, k + 1)) == Run(Run(s, Tried(t, env, start, k)), env(start + k))
  {
    hide Run, Step;
    RunOne(s, Raise(t));
    RunAppend(s, Tried(t, env, start, k), env(start + k));
  }

  /** The first n attempts found the pool empty. */
  ghost predicate FoundEmpty(s: Sys, t: nat, env: nat -> seq<Action>, start: nat, n: int) {
    forall k :: 1 <= k <= n ==> Run(s, Tried(t, env, start, k)).pool == []
  }

  lemma FoundNext(s: Sys, t: nat, env: nat -> seq<Action>, start: nat, n: nat)
    ensures FoundEmpty(s, t, env, start, 0)
    ensures FoundEmpty(s, t, env, start, n + 1) <==> FoundEmpty(s, t, env, start, n) && Run(s, Tried(t, env, start, n + 1)).pool == []
  {
  }

  /** What parking does: it raises one event and takes the front of the pool at the first attempt
      that finds it not empty, then publishes; it starves only if all attempts found it empty. */
  ghost predicate ParkOutcome(s: Sys, s': Sys, t: nat, env: nat -> seq<Action>, start: nat, patience: nat,
                              end: WaitEnd, tries: nat, value: nat) {
    var last := Run(s, Tried(t, env, start, tries));
    match end
    case Immediate => false
    case Starved => tries == patience && FoundEmpty(s, t, env, start, patience) && s' == last
    case Published(obj) =>
      && 1 <= tries <= patience && FoundEmpty(s, t, env, start, tries - 1)
      && last.pool != [] && obj == last.pool[0]
      && s' == Step(Run(Step(last, Allocate(t, value)), env(start + tries)), Publish(t))
  }

  /** What was left open in a wait call: the steps of its early check and the notifications that these
      took, how often it tried the pool, and the value left over in its range object. */
  datatype Choices = Choices(mine: seq<Action>, notes: seq<Note>, tries: nat, value: nat)

  /** What the early check does, from the state s with the range not yet looked at. */
  ghost predicate CheckOutcome(s: Sys, checked: Sys, t: nat, seg: nat, first: nat, num: nat, rem: int, got: seq<Note>,
                               env: nat -> seq<Action>, timeouts: nat -> bool, mine: seq<Action>, notes: seq<Note>) {
    && checked == Run(s, Weave(env, 0, mine))
    && IsScan(mine, t) && Honest(s, env, 0, timeouts, mine, seg, first, num, t)
    && t < |checked.threads| && checked.threads[t].Checked?
    && FromLooks(notes, mine, seg, t)
    && checked.threads[t].w.got == got + notes && checked.threads[t].w.rem == rem - |notes| >= 0
    && StopsRightly(mine, notes, checked.threads[t].w.rem, t)
  }

  /** Every look that hits, and every notification taken, is in the range. */
  lemma CheckFacts(s: Sys, checked: Sys, t: nat, seg: nat, first: nat, num: nat, rem: int, got: seq<Note>,
                   env: nat -> seq<Action>, timeouts: nat -> bool, mine: seq<Action>, notes: seq<Note>)
    requires CheckOutcome(s, checked, t, seg, first, num, rem, got, env, timeouts, mine, notes)
    ensures checked == Run(s, Weave(env, 0, mine)) && t < |checked.threads| && checked.threads[t].Checked?
    ensures 0 <= checked.threads[t].w.rem <= rem
    ensures forall n :: n in notes ==> n.seg == seg && first <= n.id < first + num && n.value != 0
    ensures forall id: nat :: LookHit(t, id) in mine ==> first <= id < first + num
  {
    hide Run, Weave, IsScan, Honest, FromLooks;
    ScanInRange(s, env, 0, timeouts, mine, notes, seg, first, num, t);
  }

  /** What a wait call does: its early check scans; if nothing remains it returns without an event,
      otherwise it parks. */
  ghost predicate WaitOutcome(s: Sys, s': Sys, t: nat, task: nat, seg: nat, first: nat, num: nat, keep: bool,
                              env: nat -> seq<Action>, timeouts: nat -> bool, patience: nat, end: WaitEnd, c: Choices) {
    var entered := Step(s, BeginWait(t, task, seg, first, num, keep));
    var checked := Run(entered, Weave(env, 0, c.mine));
    && CheckOutcome(entered, checked, t, seg, first, num, num, [], env, timeouts, c.mine, c.notes)
    && if checked.threads[t].w.rem == 0 then end.Immediate? && s' == Step(checked, Return(t))
       else ParkOutcome(checked, s', t, env, |c.mine|, patience, end, c.tries, c.value)
  }

  /** Every outcome of a wait call is a run of the protocol. */
  lemma OutcomeIsRun(s: Sys, s': Sys, t: nat, task: nat, seg: nat, first: nat, num: nat, keep: bool,
                     env: nat -> seq<Action>, timeouts: nat -> bool, patience: nat, end: WaitEnd, c: Choices)
    returns (trace: seq<Action>)
    requires WaitOutcome(s, s', t, task, seg, first, num, keep, env, timeouts, patience, end, c)
    ensures s' == Run(s, trace)
  {
    hide Run, Step, IsScan, Honest, FromLooks, StopsRightly, FoundEmpty;
    var begin := BeginWait(t, task, seg, first, num, keep);
    RunOne(s, begin);
    trace := [begin] + Weave(env, 0, c.mine);
    RunAppend(s, [begin], Weave(env, 0, c.mine));
    match end {
      case Immediate =>
        RunSnoc(s, trace, Return(t));
        trace := trace + [Return(t)];
      case Starved =>
        RunAppend(s, trace, Tried(t, env, |c.mine|, c.tries));
        trace := trace + Tried(t, env, |c.mine|, c.tries);
      case Published(_) =>
        RunAppend(s, trace, Tried(t, env, |c.mine|, c.tries));
        trace := trace + Tried(t, env, |c.mine|, c.tries);
        RunSnoc(s, trace, Allocate(t, c.value));
        trace := trace + [Allocate(t, c.value)];
        RunAppend(s, trace, env(|c.mine| + c.tries));
        trace := trace + env(|c.mine| + c.tries);
        RunSnoc(s, trace, Publish(t));
        trace := trace + [Publish(t)];
    }
  }

  class Environment {
    const writeRequests: nat  // numRequests[Operation::WRITE]

    var events: multiset<nat>
    var threads: seq<Pc>
    var queues: seq<Queue>
    var pollers: seq<QueuePoller>
    var segs: seq<Seg>
    var pool: seq<nat>
    var notePc: NotePc
    var noteSeg: nat
    var complete: seq<Live>
    var taken: multiset<Note>
    var retired: multiset<Note>
    var arrived: map<(nat, nat), nat>

    function View(): Sys
      reads this
    {
      Sys(events, threads, queues, pollers, segs, pool, notePc, noteSeg, complete, taken, retired, arrived)
    }

    ghost predicate Valid()
      reads this
    {
      Inv(View())
    }

    // ---- Single accesses to shared data ----------------------------------

    /** increaseCurrentTaskEvents of an operation. */
    method IncreaseEvents(t: nat, task: nat, n: nat, queue: nat)
      requires Valid() && Enabled(View(), BeginSubmit(t, task, n, queue))
      modifies this
      ensures Valid() && View() == Step(old(View()), BeginSubmit(t, task, n, queue))
    {
      hide Inv;
      StepInv(View(), BeginSubmit(t, task, n, queue));
      events := events + Copies(task, n);
      threads := threads[t := Submitting(task, n, queue)];
    }

    /** gaspi_operation_submit: posts all requests on the queue if the network accepts them, else fails. */
    method OperationSubmit(t: nat, accepted: bool) returns (ok: bool)
      requires Valid() && Enabled(View(), Submit(t, accepted))
      modifies this
      ensures Valid() && View() == Step(old(View()), Submit(t, accepted)) && ok == accepted
      ensures if ok then PostsOn(old(queues), queues, old(threads[t].queue), old(threads[t].task), old(threads[t].n))
              else queues == old(queues)
    {
      hide Inv;
      StepInv(View(), Submit(t, accepted));
      ok := accepted;
      var p := threads[t];
      if ok {
        var q := queues[p.queue];
        queues := queues[p.queue := q.(posted := q.posted + Copies(p.task, p.n))];
        threads := threads[t := Idle];
      } else {
        threads := threads[t := RollingBack(p.task, p.n)];
      }
    }

    method DecreaseEvents(t: nat)
      requires Valid() && Enabled(View(), RollBack(t))
      modifies this
      ensures Valid() && View() == Step(old(View()), RollBack(t))
    {
      hide Inv;
      StepInv(View(), RollBack(t));
      events := events - Copies(threads[t].task, threads[t].n);
      threads := threads[t := Idle];
    }

    method EnterWait(t: nat, task: nat, seg: nat, first: nat, num: nat, keep: bool)
      requires Valid() && num > 0 && Enabled(View(), BeginWait(t, task, seg, first, num, keep))
      modifies this
      ensures Valid() && View() == Step(old(View()), BeginWait(t, task, seg, first, num, keep))
    {
      hide Inv;
      StepInv(View(), BeginWait(t, task, seg, first, num, keep));
      threads := threads[t := Looking(NewWait(task, seg, first, num, keep))];
    }

    /** gaspi_notify_waitsome with GASPI_TEST: some set id of the range, or a timeout, which may come
        early. */
    method Waitsome(t: nat, timeout: bool) returns (found: bool, id: nat)
      requires Valid() && t < |threads| && threads[t].Looking? && threads[t].w.seg < |segs|
      modifies this
      ensures var look, w := if found then LookHit(t, id) else LookMiss(t), old(threads[t].w);
              && Valid() && View() == Step(old(View()), look) && Enabled(old(View()), look)
              && Finds(old(View()), w.seg, w.first, w.num, timeout, look, t)
    {
      hide Inv;
      StepInv(View(), LookMiss(t));
      var w := threads[t].w;
      if k: nat :| w.first <= k < w.first + w.num && At(segs[w.seg].board, k) != 0 {
        if !timeout {
          StepInv(View(), LookHit(t, k));
          threads := threads[t := Resetting(w, k)];
          return true, k;
        }
      }
      threads := threads[t := Checked(w)];
      return false, 0;
    }

    /** gaspi_notify_reset, and what the scan does with the value. */
    method ResetNotification(t: nat) returns (value: nat)
      requires Valid() && t < |threads| && threads[t].Resetting? && threads[t].w.seg < |segs|
      modifies this
      ensures Valid() && View() == Step(old(View()), Action.Reset(t))
      ensures value == At(old(segs[threads[t].w.seg].board), old(threads[t].id))
    {
      hide Inv, TakeNote;
      StepInv(View(), Action.Reset(t));
      var w, id := threads[t].w, threads[t].id;
      value := At(segs[w.seg].board, id);
      segs := segs[w.seg := segs[w.seg].(board := segs[w.seg].board[id := 0])];
      if value == 0 {
        threads := threads[t := Checked(w)];
      } else {
        taken := taken + multiset{Note(w.seg, id, value)};
        var w' := TakeNote(w, id, value, false);
        threads := threads[t := if w'.rem > 0 then Looking(w') else Checked(w')];
      }
    }

    method ReturnAtOnce(t: nat)
      requires Valid() && Enabled(View(), Return(t))
      modifies this
      ensures Valid() && View() == Step(old(View()), Return(t))
    {
      hide Inv;
      StepInv(View(), Return(t));
      retired := retired + multiset(threads[t].w.got);
      threads := threads[t := Idle];
    }

    /** increaseCurrentTaskEvents(task, 1) of a wait. */
    method IncreaseEvent(t: nat)
      requires Valid() && Enabled(View(), Raise(t))
      modifies this
      ensures Valid() && View() == Step(old(View()), Raise(t))
    {
      hide Inv;
      StepInv(View(), Raise(t));
      events := events + multiset{threads[t].w.task};
      threads := threads[t := Raised(threads[t].w)];
    }

    /** The pop of Allocator::allocate; the object's value field starts with whatever was there. */
    method Pop(t: nat) returns (ok: bool, ghost garbage: nat)
      requires Valid() && t < |threads| && threads[t].Raised?
      modifies this
      ensures ok == (old(pool) != [])
      ensures Valid() && View() == if ok then Step(old(View()), Allocate(t, garbage)) else old(View())
      ensures segs == old(segs)
      ensures ok ==> threads == old(threads)[t := Publishing(old(threads[t].w.(value := garbage)), old(pool[0]))]
    {
      hide Inv;
      ok, garbage := pool != [], 0;
      if ok {
        var value: nat := *;
        garbage := value;
        StepInv(View(), Allocate(t, value));
        threads := threads[t := Publishing(threads[t].w.(value := value), pool[0])];
        pool := pool[1..];
      }
    }

    /** WaitingRangeQueue::enqueue, whose push under the lock always succeeds. */
    method Enqueue(t: nat)
      requires Valid() && t < |threads| && threads[t].Publishing?
      modifies this
      ensures Enabled(old(View()), Publish(t))
      ensures Valid() && View() == Step(old(View()), Publish(t))
    {
      hide Inv;
      MustPublish(View(), t);
      StepInv(View(), Publish(t));
      var p := threads[t];
      segs := segs[p.w.seg := segs[p.w.seg].(queue := segs[p.w.seg].queue + [Parked(p.w, p.obj)])];
      threads := threads[t := Idle];
    }

    /** One step of anybody. */
    method Perform(a: Action)
      requires Valid()
      modifies this
      ensures Valid() && View() == Step(old(View()), a)
    {
      hide Inv, Step;
      StepInv(View(), a);
      var s := Step(View(), a);
      events, threads, queues, pollers, segs, pool := s.events, s.threads, s.queues, s.pollers, s.segs, s.pool;
      notePc, noteSeg, complete, taken, retired, arrived := s.notePc, s.noteSeg, s.complete, s.taken, s.retired, s.arrived;
    }

    /** Everybody but thread t performs `acts`. */
    method Interfere(acts: seq<Action>, ghost t: nat)
      requires Valid() && t < |threads| && NotBy(acts, t)
      modifies this
      ensures Valid() && View() == Run(old(View()), acts) && Stays(old(View()), View(), t)
    {
      hide Inv, Step;
      var k := 0;
      while k < |acts|
        invariant 0 <= k <= |acts|
        invariant Valid() && View() == Run(old(View()), acts[..k])
      {
        Perform(acts[k]);
        RunSnoc(old(View()), acts[..k], acts[k]);
        assert acts[..k] + [acts[k]] == acts[..k + 1];
        k := k + 1;
      }
      assert acts[..k] == acts;
      RunUnder(old(View()), acts, t, Idle, multiset{});
    }

    // ---- The calls -------------------------------------------------------

    /** Raise, submit, and on failure lower again. */
    method SubmitTagged(t: nat, task: nat, numRequests: nat, queue: nat, accepted: bool,
                        beforeSubmit: seq<Action>, beforeDecrease: seq<Action>)
      returns (success: bool)
      requires Valid() && t < |threads| && threads[t].Idle? && task != TAG_NULL && queue < |queues|
      requires numRequests > 0 && NotBy(beforeSubmit, t) && NotBy(beforeDecrease, t)
      modifies this
      ensures Valid() && Stays(old(View()), View(), t) && success == accepted
      ensures SubmitOutcome(old(View()), View(), t, task, numRequests, queue, success, beforeSubmit, beforeDecrease)
    {
      hide Inv, Run, NotBy, PostsOn;
      ghost var s := View();
      OperationBegins(s, t, task, numRequests, queue);
      IncreaseEvents(t, task, numRequests, queue);
      RunOne(s, BeginSubmit(t, task, numRequests, queue));
      Interfere(beforeSubmit, t);
      ghost var mid := View();
      ghost var trace := [BeginSubmit(t, task, numRequests, queue)] + beforeSubmit;
      RunAppend(s, [BeginSubmit(t, task, numRequests, queue)], beforeSubmit);
      success := OperationSubmit(t, accepted);
      RunSnoc(s, trace, Submit(t, success));
      if !success {
        Interfere(beforeDecrease, t);
        RunAppend(s, trace + [Submit(t, false)], beforeDecrease);
        DecreaseEvents(t);
        RunSnoc(s, trace + [Submit(t, false)] + beforeDecrease, RollBack(t));
        FailedCallInvisible(s, t, task, numRequests, queue, beforeSubmit, beforeDecrease);
      }
    }

    /** tagaspi_write. */
    method Write(t: nat, task: nat, queue: nat, accepted: bool, beforeSubmit: seq<Action>, beforeDecrease: seq<Action>)
      returns (success: bool)
      requires Valid() && t < |threads| && threads[t].Idle? && task != TAG_NULL && queue < |queues|
      requires writeRequests > 0 && NotBy(beforeSubmit, t) && NotBy(beforeDecrease, t)
      modifies this
      ensures Valid() && Stays(old(View()), View(), t) && success == accepted
      ensures SubmitOutcome(old(View()), View(), t, task, writeRequests, queue, success, beforeSubmit, beforeDecrease)
    {
      success := SubmitTagged(t, task, writeRequests, queue, accepted, beforeSubmit, beforeDecrease);
    }

    /** tagaspi_write_list: the number of requests depends on the list's length. */
    method WriteList(t: nat, task: nat, num: nat, numRequestsOf: nat -> nat, queue: nat, accepted: bool,
                     beforeSubmit: seq<Action>, beforeDecrease: seq<Action>)
      returns (success: bool)
      requires Valid() && t < |threads| && threads[t].Idle? && task != TAG_NULL && queue < |queues|
      requires numRequestsOf(num) > 0 && NotBy(beforeSubmit, t) && NotBy(beforeDecrease, t)
      modifies this
      ensures Valid() && Stays(old(View()), View(), t) && success == accepted
      ensures SubmitOutcome(old(View()), View(), t, task, numRequestsOf(num), queue, success, beforeSubmit, beforeDecrease)
    {
      var numRequests := numRequestsOf(num);
      success := SubmitTagged(t, task, numRequests, queue, accepted, beforeSubmit, beforeDecrease);
    }

    /** The reset that follows a look that hit. */
    method ResetHit(t: nat, env: nat -> seq<Action>, start: nat, ghost s: Sys, ghost mine: seq<Action>) returns (value: nat)
      requires Valid() && t < |threads| && threads[t].Resetting? && threads[t].w.seg < |segs|
      requires NotBy(env(start), t) && start == |mine| && View() == Run(s, Weave(env, 0, mine))
      modifies this
      ensures Valid() && View() == Run(s, Weave(env, 0, mine + [Action.Reset(t)])) && |threads| == old(|threads|) && |segs| == old(|segs|)
      ensures value == 0 ==> threads[t] == Checked(old(threads[t].w))
      ensures value != 0 ==>
                var w := old(threads[t].w);
                && (if w.rem > 1 then threads[t].Looking? else threads[t].Checked?)
                && SameRequest(threads[t].w, w) && threads[t].w.rem == w.rem - 1
                && threads[t].w.got == w.got + [Note(w.seg, old(threads[t].id), value)]
    {
      hide Inv, Run, Step, NotBy, Weave, SameRequest;
      Interfere(env(start), t);
      AfterReset(View(), t);
      WeaveNext(s, env, 0, mine, Action.Reset(t));
      value := ResetNotification(t);
    }

    /** One look of the early check and, if it hits, the reset; `ok` tells whether a value was taken. */
    method LookOnce(t: nat, env: nat -> seq<Action>, timeouts: nat -> bool, start: nat, ghost s: Sys, ghost w: Wait,
                    ghost mine: seq<Action>, ghost notes: seq<Note>)
      returns (ok: bool, clock: nat, ghost mine': seq<Action>, ghost notes': seq<Note>)
      requires Valid() && t < |threads| && threads[t].Looking? && threads[t].w.rem > 0 && w.seg < |segs|
      requires (forall k :: NotBy(env(k), t)) && start == |mine| == 2 * |notes| && Hits(mine, t)
      requires View() == Run(s, Weave(env, 0, mine)) && SameRequest(threads[t].w, w)
      requires Honest(s, env, 0, timeouts, mine, w.seg, w.first, w.num, t) && FromLooks(notes, mine, w.seg, t)
      requires threads[t].w.got == w.got + notes && threads[t].w.rem == w.rem - |notes|
      modifies this
      ensures Valid() && View() == Run(s, Weave(env, 0, mine')) && clock == |mine'| <= |mine| + 2
      ensures |threads| == old(|threads|) && |segs| == old(|segs|)
      ensures IsScan(mine', t) && Honest(s, env, 0, timeouts, mine', w.seg, w.first, w.num, t) && FromLooks(notes', mine', w.seg, t)
      ensures ok && threads[t].Looking? ==> Hits(mine', t)
      ensures threads[t].Looking? || threads[t].Checked?
      ensures SameRequest(threads[t].w, w) && threads[t].w.got == w.got + notes' && threads[t].w.rem == w.rem - |notes'| >= 0
      ensures if ok then |mine'| == 2 * |notes'| && |notes'| == |notes| + 1 && threads[t].Looking? == (threads[t].w.rem > 0)
              else threads[t].Checked? && threads[t].w.rem > 0 && notes' == notes && StopsRightly(mine', notes', threads[t].w.rem, t)
    {
      hide Inv, Run, Step, Enabled, NotBy, Weave, Hits, IsScan, Honest, FromLooks, Finds;
      Interfere(env(start), t);
      ghost var before := View();
      var found, id := Waitsome(t, timeouts(start));
      HitsNext(mine, id, t);
      ghost var look := if found then LookHit(t, id) else LookMiss(t);
      AfterLook(before, t, look);
      WeaveNext(s, env, 0, mine, look);
      StopsEarly(mine, notes, id, threads[t].w.rem, t);
      HonestNext(s, env, 0, timeouts, mine, w.seg, w.first, w.num, look, t);
      LooksNext(notes, mine, w.seg, id, 1, t);
      mine', notes', clock, ok := mine + [look], notes, start + 1, false;
      if found {
        HonestNext(s, env, 0, timeouts, mine', w.seg, w.first, w.num, Action.Reset(t), t);
        var value := ResetHit(t, env, clock, s, mine');
        mine', clock := mine' + [Action.Reset(t)], clock + 1;
        ok := value != 0;
        if ok {
          LooksNext(notes, mine, w.seg, id, value, t);
          notes' := notes + [Note(w.seg, id, value)];
          assert w.got + notes' == w.got + notes + [Note(w.seg, id, value)];
        }
      }
    }

    /** The early check of one id: a single look. */
    method CheckNotification(t: nat, env: nat -> seq<Action>, timeouts: nat -> bool)
      returns (remaining: int, clock: nat, ghost mine: seq<Action>, ghost notes: seq<Note>)
      requires Valid() && t < |threads| && threads[t].Looking? && threads[t].w.rem == 1 && threads[t].w.seg < |segs|
      requires forall k :: NotBy(env(k), t)
      modifies this
      ensures Valid() && clock == |mine| <= 2 && |threads| == old(|threads|) && |segs| == old(|segs|)
      ensures var w := old(threads[t].w);
              CheckOutcome(old(View()), View(), t, w.seg, w.first, w.num, 1, w.got, env, timeouts, mine, notes)
      ensures SameRequest(threads[t].w, old(threads[t].w)) && threads[t].w.rem == remaining
    {
      hide Inv, Run, Step, Weave, IsScan, Hits, NotBy, Honest, FromLooks;
      ghost var w := threads[t].w;
      StartScan(View(), env, 0, timeouts, w.seg, w.first, w.num, t);
      assert w.got + [] == w.got;
      var ok;
      ok, clock, mine, notes := LookOnce(t, env, timeouts, 0, View(), w, [], []);
      remaining := if ok then 0 else 1;
    }

    /** The early check of several ids; `env(k)` is what the others do before the k-th access. */
    method CheckNotifications(t: nat, env: nat -> seq<Action>, timeouts: nat -> bool)
      returns (remaining: int, clock: nat, ghost mine: seq<Action>, ghost notes: seq<Note>)
      requires Valid() && t < |threads| && threads[t].Looking? && threads[t].w.rem > 0 && threads[t].w.seg < |segs|
      requires forall k :: NotBy(env(k), t)
      modifies this
      ensures Valid() && clock == |mine| && |threads| == old(|threads|) && |segs| == old(|segs|)
      ensures var w := old(threads[t].w);
              CheckOutcome(old(View()), View(), t, w.seg, w.first, w.num, w.rem, w.got, env, timeouts, mine, notes)
      ensures SameRequest(threads[t].w, old(threads[t].w)) && threads[t].w.rem == remaining
    {
      hide Inv, Run, Step, Enabled, NotBy, Weave, Hits, IsScan, Honest, FromLooks, SameRequest, StopsRightly;
      ghost var s, w := View(), threads[t].w;
      StartScan(s, env, 0, timeouts, w.seg, w.first, w.num, t);
      SameAsItself(w);
      assert w.got + [] == w.got;
      remaining, clock, mine, notes := threads[t].w.rem, 0, [], [];
      var cont := true;
      while cont && remaining > 0
        invariant Valid() && View() == Run(s, Weave(env, 0, mine)) && clock == |mine|
        invariant |threads| == old(|threads|) && |segs| == old(|segs|)
        invariant Honest(s, env, 0, timeouts, mine, w.seg, w.first, w.num, t) && FromLooks(notes, mine, w.seg, t)
        invariant if cont && remaining > 0 then threads[t].Looking? && Hits(mine, t) && |mine| == 2 * |notes|
                  else threads[t].Checked? && IsScan(mine, t) && StopsRightly(mine, notes, remaining, t)
        invariant SameRequest(threads[t].w, w) && threads[t].w.got == w.got + notes
        invariant threads[t].w.rem == remaining == w.rem - |notes| >= 0
        decreases remaining, cont
      {
        cont, clock, mine, notes := LookOnce(t, env, timeouts, clock, s, w, mine, notes);
        if cont {
          remaining := remaining - 1;
          StopsAtNothing(mine, notes, t);
        }
      }
    }

    /** The attempt at the pool that follows k others. */
    method TryPool(t: nat, env: nat -> seq<Action>, start: nat, k: nat, ghost s: Sys, ghost w: Wait)
      returns (ok: bool, obj: nat, ghost value: nat, ghost tried: Sys)
      requires Valid() && t < |threads| && threads[t] == Raised(w) && NotBy(env(start + k), t)
      requires View() == Run(s, Tried(t, env, start, k)) && FoundEmpty(s, t, env, start, k)
      modifies this
      ensures Valid() && tried == Run(s, Tried(t, env, start, k + 1)) && |threads| == old(|threads|) && |segs| == old(|segs|)
      ensures if ok then tried.pool != [] && obj == tried.pool[0] && View() == Step(tried, Allocate(t, value))
                         && threads[t] == Publishing(w.(value := value), obj)
              else View() == tried && threads[t] == Raised(w) && FoundEmpty(s, t, env, start, k + 1)
    {
      hide Inv, Run, Step, NotBy, Tried, FoundEmpty;
      Interfere(env(start + k), t);
      TriedNext(s, t, env, start, k);
      FoundNext(s, t, env, start, k);
      tried := View();
      obj := if pool != [] then pool[0] else 0;
      ok, value := Pop(t);
    }

    /** What a wait does when something remains: raise an event, get a range object, publish it.
        `patience` bounds the attempts at the pool that are looked at. */
    method Park(t: nat, env: nat -> seq<Action>, start: nat, patience: nat) returns (end: WaitEnd, ghost tries: nat, ghost value: nat)
      requires Valid() && t < |threads| && threads[t].Checked? && threads[t].w.rem > 0 && threads[t].w.seg < |segs|
      requires forall k :: NotBy(env(k), t)
      modifies this
      ensures Valid() && ParkOutcome(old(View()), View(), t, env, start, patience, end, tries, value) && !end.Immediate?
      ensures |threads| == old(|threads|) && |segs| == old(|segs|)
      ensures end.Published? ==> threads[t].Idle? && JustPublished(segs, old(threads[t].w), end.obj)
      ensures end.Starved? ==> threads[t] == Raised(old(threads[t].w))
    {
      hide Inv, Run, Step, NotBy, Tried, FoundEmpty, JustPublished;
      ghost var s := View();
      AfterRaise(s, t);
      IncreaseEvent(t);
      TriedNext(s, t, env, start, 0);
      FoundNext(s, t, env, start, 0);
      var k, ok, obj := 0, false, 0;
      tries, value := 0, 0;
      ghost var tried := View();
      while k < patience && !ok
        invariant 0 <= k == tries <= patience && |threads| == old(|threads|) && |segs| == old(|segs|)
        invariant Valid() && tried == Run(s, Tried(t, env, start, k))
        invariant !ok ==> View() == tried && threads[t] == Raised(old(threads[t].w)) && FoundEmpty(s, t, env, start, k)
        invariant ok ==> k > 0 && tried.pool != [] && obj == tried.pool[0] && FoundEmpty(s, t, env, start, k - 1)
        invariant ok ==> View() == Step(tried, Allocate(t, value)) && threads[t] == Publishing(old(threads[t].w).(value := value), obj)
      {
        ok, obj, value, tried := TryPool(t, env, start, k, s, old(threads[t].w));
        k, tries := k + 1, tries + 1;
      }
      if !ok {
        return Starved, tries, value;
      }
      PublishRange(t, env(start + k), old(threads[t].w), value, obj);
      end := Published(obj);
    }

    /** The range goes to its segment's queue. */
    method PublishRange(t: nat, acts: seq<Action>, ghost w: Wait, ghost value: nat, ghost obj: nat)
      requires Valid() && t < |threads| && threads[t] == Publishing(w.(value := value), obj) && w.seg < |segs| && NotBy(acts, t)
      modifies this
      ensures Valid() && View() == Step(Run(old(View()), acts), Publish(t))
      ensures |threads| == old(|threads|) && |segs| == old(|segs|) && threads[t].Idle? && JustPublished(segs, w, obj)
    {
      hide Inv, Run, Step, NotBy, JustPublished;
      Interfere(acts, t);
      ghost var last := View();
      MustPublish(last, t);
      AfterPublish(last, t);
      Enqueue(t);
      JustDone(last, View(), w, value, obj, t);
    }

    /** tagaspi_notify_async_waitall. */
    method NotifyAsyncWaitall(t: nat, task: nat, seg: nat, first: nat, num: nat, keep: bool,
                              env: nat -> seq<Action>, timeouts: nat -> bool, patience: nat)
      returns (end: WaitEnd, ghost c: Choices)
      requires Valid() && t < |threads| && threads[t].Idle? && task != TAG_NULL && seg < |segs|
      requires forall k :: NotBy(env(k), t)
      modifies this
      ensures Valid() && |threads| == old(|threads|) && |segs| == old(|segs|)
      ensures if num == 0 then end.Immediate? && View() == old(View())
              else WaitOutcome(old(View()), View(), t, task, seg, first, num, keep, env, timeouts, patience, end, c)
      ensures num > 0 ==> forall n :: n in c.notes ==> n.seg == seg && first <= n.id < first + num && n.value != 0
      ensures num > 0 ==> forall id: nat :: LookHit(t, id) in c.mine ==> first <= id < first + num
      ensures end.Immediate? ==> threads[t].Idle?
      ensures end.Published? ==> threads[t].Idle? && PublishedFor(segs, task, seg, first, num, keep, end.obj)
      ensures end.Starved? ==> threads[t].Raised? && Asks(threads[t].w, task, seg, first, num, keep)
    {
      hide Inv, Run, Step, NotBy, CheckOutcome, ParkOutcome, JustPublished, PublishedFor, SameRequest, Asks;
      c := Choices([], [], 0, 0);
      if num == 0 {
        return Immediate, c;
      }
      AfterEnter(View(), t, task, seg, first, num, keep);
      EnterWait(t, task, seg, first, num, keep);
      ghost var mine, notes, tries, value;
      ghost var entered := View();
      var remaining, clock;
      remaining, clock, mine, notes := CheckNotifications(t, env, timeouts);
      CheckFacts(entered, View(), t, seg, first, num, num, [], env, timeouts, mine, notes);
      ghost var w := threads[t].w;
      StillAsks(w, task, seg, first, num, keep);
      c := Choices(mine, notes, 0, 0);
      if remaining == 0 {
        AfterReturn(View(), t);
        ReturnAtOnce(t);
        return Immediate, c;
      }
      end, tries, value := Park(t, env, clock, patience);
      c := Choices(mine, notes, tries, value);
      if end.Published? {
        MakePublished(segs, w, task, seg, first, num, keep, end.obj);
      }
    }

    /** tagaspi_notify_async_wait: one look at one id. */
    method NotifyAsyncWait(t: nat, task: nat, seg: nat, id: nat, keep: bool, env: nat -> seq<Action>, timeouts: nat -> bool, patience: nat)
      returns (end: WaitEnd, ghost c: Choices)
      requires Valid() && t < |threads| && threads[t].Idle? && task != TAG_NULL && seg < |segs|
      requires forall k :: NotBy(env(k), t)
      modifies this
      ensures Valid() && |threads| == old(|threads|) && |segs| == old(|segs|)
      ensures WaitOutcome(old(View()), View(), t, task, seg, id, 1, keep, env, timeouts, patience, end, c) && |c.mine| <= 2
      ensures forall n :: n in c.notes ==> n.seg == seg && n.id == id && n.value != 0
      ensures forall k: nat :: LookHit(t, k) in c.mine ==> k == id
      ensures end.Immediate? ==> threads[t].Idle?
      ensures end.Published? ==> threads[t].Idle? && PublishedFor(segs, task, seg, id, 1, keep, end.obj)
      ensures end.Starved? ==> threads[t].Raised? && Asks(threads[t].w, task, seg, id, 1, keep)
    {
      hide Inv, Run, Step, NotBy, CheckOutcome, ParkOutcome, JustPublished, PublishedFor, SameRequest, Asks;
      AfterEnter(View(), t, task, seg, id, 1, keep);
      EnterWait(t, task, seg, id, 1, keep);
      ghost var mine, notes, tries, value;
      ghost var entered := View();
      var remaining, clock;
      remaining, clock, mine, notes := CheckNotification(t, env, timeouts);
      CheckFacts(entered, View(), t, seg, id, 1, 1, [], env, timeouts, mine, notes);
      ghost var w := threads[t].w;
      StillAsks(w, task, seg, id, 1, keep);
      c := Choices(mine, notes, 0, 0);
      if remaining == 0 {
        AfterReturn(View(), t);
        ReturnAtOnce(t);
        return Immediate, c;
      }
      end, tries, value := Park(t, env, clock, patience);
      c := Choices(mine, notes, tries, value);
      if end.Published? {
        MakePublished(segs, w, task, seg, id, 1, keep, end.obj);
      }
    }
  }
}
