/** What the steps of the completion protocol do to a request queue, to the pool of range objects and
    to a notification board, over all runs. */
module CompletionLaws {
  import opened Waits
  import opened Completion

  // ---- Request queues --------------------------------------------------

  /** The tags that the step posts on queue q. */
  ghost function PostedBy(s: Sys, a: Action, q: nat): multiset<nat> {
    if !Enabled(s, a) then multiset{} else
    match a
    case Submit(t, ok) =>
      if ok && s.threads[t].queue == q then multiset{}[s.threads[t].task := s.threads[t].n] else multiset{}
    case ForeignPost(queue) => if queue == q then multiset{TAG_NULL} else multiset{}
    case _ => multiset{}
  }

  /** The tag of the request that the step completes on queue q. */
  ghost function DeliveredBy(s: Sys, a: Action, q: nat): seq<nat> {
    match a
    case Deliver(queue, tag) => if Enabled(s, a) && queue == q then [tag] else []
    case _ => []
  }

  /** The tags that the step hands over from queue q to a poller. */
  ghost function FetchedBy(s: Sys, a: Action, q: nat): seq<nat> {
    match a
    case Fetch(p, k) =>
      if Enabled(s, a) && s.pollers[p].queue == q && s.queues[q].valid then s.queues[q].done[..k] else []
    case _ => []
  }

  ghost function Posted(s: Sys, acts: seq<Action>, q: nat): multiset<nat> {
    if acts == [] then multiset{} else
    var n := |acts| - 1;
    Posted(s, acts[..n], q) + PostedBy(Run(s, acts[..n]), acts[n], q)
  }

  ghost function Delivered(s: Sys, acts: seq<Action>, q: nat): seq<nat> {
    if acts == [] then [] else
    var n := |acts| - 1;
    Delivered(s, acts[..n], q) + DeliveredBy(Run(s, acts[..n]), acts[n], q)
  }

  ghost function Fetched(s: Sys, acts: seq<Action>, q: nat): seq<nat> {
    if acts == [] then [] else
    var n := |acts| - 1;
    Fetched(s, acts[..n], q) + FetchedBy(Run(s, acts[..n]), acts[n], q)
  }

  /** One step on one queue: what was in flight and what is posted is in flight or delivered; what
      was completed and what is delivered is handed over or completed, in order. */
  ghost predicate QueueBalances(before: Queue, after: Queue, posted: multiset<nat>, delivered: seq<nat>, fetched: seq<nat>) {
    && after.valid == before.valid
    && after.posted + multiset(delivered) == before.posted + posted
    && fetched + after.done == before.done + delivered
  }

  /** Nothing happens on the queue. */
  lemma Untouched(q: Queue)
    ensures QueueBalances(q, q, multiset{}, [], [])
  {
    assert [] + q.done == q.done == q.done + [];
  }

  lemma SubmitBalances(s: Sys, t: nat, ok: bool, q: nat)
    requires q < |s.queues| && Enabled(s, Submit(t, ok))
    ensures |SubmitStep(s, t, ok).queues| == |s.queues|
    ensures QueueBalances(s.queues[q], SubmitStep(s, t, ok).queues[q], PostedBy(s, Submit(t, ok), q), [], [])
  {
    Untouched(s.queues[q]);
    var p := s.threads[t];
    assert Copies(p.task, p.n) == multiset{}[p.task := p.n];
  }

  lemma ForeignBalances(s: Sys, queue: nat, q: nat)
    requires q < |s.queues| && Enabled(s, ForeignPost(queue))
    ensures |ForeignPostStep(s, queue).queues| == |s.queues|
    ensures QueueBalances(s.queues[q], ForeignPostStep(s, queue).queues[q], PostedBy(s, ForeignPost(queue), q), [], [])
  {
    Untouched(s.queues[q]);
  }

  lemma DeliverBalances(s: Sys, queue: nat, tag: nat, q: nat)
    requires q < |s.queues| && Enabled(s, Deliver(queue, tag))
    ensures |DeliverStep(s, queue, tag).queues| == |s.queues|
    ensures QueueBalances(s.queues[q], DeliverStep(s, queue, tag).queues[q], multiset{}, DeliveredBy(s, Deliver(queue, tag), q), [])
  {
    Untouched(s.queues[q]);
    assert s.queues[queue].posted - multiset{tag} + multiset{tag} == s.queues[queue].posted;
    assert multiset([tag]) == multiset{tag};
  }

  lemma FetchBalances(s: Sys, p: nat, k: nat, q: nat)
    requires q < |s.queues| && Enabled(s, Fetch(p, k))
    ensures |FetchStep(s, p, k).queues| == |s.queues|
    ensures QueueBalances(s.queues[q], FetchStep(s, p, k).queues[q], multiset{}, [], FetchedBy(s, Fetch(p, k), q))
  {
    Untouched(s.queues[q]);
    var done := s.queues[s.pollers[p].queue].done;
    assert done[..k] + done[k..] == done == done + [];
  }

  lemma RequestStepBalances(s: Sys, a: Action, q: nat)
    requires q < |s.queues| && Enabled(s, a) && (a.Submit? || a.ForeignPost? || a.Deliver? || a.Fetch?)
    ensures |Apply(s, a).queues| == |s.queues|
    ensures QueueBalances(s.queues[q], Apply(s, a).queues[q], PostedBy(s, a, q), DeliveredBy(s, a, q), FetchedBy(s, a, q))
  {
    hide QueueBalances, SubmitStep, ForeignPostStep, DeliverStep, FetchStep;
    match a {
      case Submit(t, ok) => SubmitBalances(s, t, ok, q);
      case ForeignPost(queue) => ForeignBalances(s, queue, q);
      case Deliver(queue, tag) => DeliverBalances(s, queue, tag, q);
      case Fetch(p, k) => FetchBalances(s, p, k, q);
    }
  }

  lemma OtherStepKeepsQueues(s: Sys, a: Action)
    requires Enabled(s, a) && !(a.Submit? || a.ForeignPost? || a.Deliver? || a.Fetch?)
    ensures Apply(s, a).queues == s.queues
  {
    hide TakeNote, EndPoll, At;
  }

  lemma StepBalances(s: Sys, a: Action, q: nat)
    requires q < |s.queues|
    ensures |Step(s, a).queues| == |s.queues|
    ensures QueueBalances(s.queues[q], Step(s, a).queues[q], PostedBy(s, a, q), DeliveredBy(s, a, q), FetchedBy(s, a, q))
  {
    hide Apply, Enabled, PostedBy, DeliveredBy, FetchedBy;
    if Enabled(s, a) && (a.Submit? || a.ForeignPost? || a.Deliver? || a.Fetch?) {
      RequestStepBalances(s, a, q);
    } else {
      NothingMoves(s, a, q);
      if Enabled(s, a) {
        OtherStepKeepsQueues(s, a);
      }
      assert [] + s.queues[q].done == s.queues[q].done == s.queues[q].done + [];
    }
  }

  lemma NothingMoves(s: Sys, a: Action, q: nat)
    requires !(Enabled(s, a) && (a.Submit? || a.ForeignPost? || a.Deliver? || a.Fetch?))
    ensures PostedBy(s, a, q) == multiset{} && DeliveredBy(s, a, q) == [] == FetchedBy(s, a, q)
  {
  }

  lemma BalancesBoth(a: Queue, b: Queue, c: Queue, posted: multiset<nat>, posted': multiset<nat>,
                     delivered: seq<nat>, delivered': seq<nat>, fetched: seq<nat>, fetched': seq<nat>)
    requires QueueBalances(a, b, posted, delivered, fetched) && QueueBalances(b, c, posted', delivered', fetched')
    ensures QueueBalances(a, c, posted + posted', delivered + delivered', fetched + fetched')
  {
    assert multiset(delivered + delivered') == multiset(delivered) + multiset(delivered');
    assert fetched + fetched' + c.done == fetched + (fetched' + c.done);
    assert fetched + (b.done + delivered') == fetched + b.done + delivered';
    assert a.done + delivered + delivered' == a.done + (delivered + delivered');
    MovePosted(a.posted, b.posted, c.posted, posted, posted', multiset(delivered), multiset(delivered'));
  }

  lemma MovePosted(a: multiset<nat>, b: multiset<nat>, c: multiset<nat>, p: multiset<nat>, p': multiset<nat>, d: multiset<nat>, d': multiset<nat>)
    requires b + d == a + p && c + d' == b + p'
    ensures c + (d + d') == a + (p + p')
  {
    forall x ensures (c + (d + d'))[x] == (a + (p + p'))[x] {
      assert (b + d)[x] == (a + p)[x] && (c + d')[x] == (b + p')[x];
    }
  }

  /** Every queue keeps its own books over every run: what was posted on it is in flight on it or was
      completed on it, and what was completed on it waits on it or was handed over, each request once
      and in the order of completion. */
  lemma {:induction false} QueueConservation(s: Sys, acts: seq<Action>, q: nat)
    requires q < |s.queues|
    ensures |Run(s, acts).queues| == |s.queues|
    ensures QueueBalances(s.queues[q], Run(s, acts).queues[q], Posted(s, acts, q), Delivered(s, acts, q), Fetched(s, acts, q))
  {
    hide Step, PostedBy, DeliveredBy, FetchedBy;
    if acts == [] {
      assert [] + s.queues[q].done == s.queues[q].done == s.queues[q].done + [];
    } else {
      hide QueueBalances;
      var rest, a := acts[..|acts| - 1], acts[|acts| - 1];
      QueueConservation(s, rest, q);
      var mid := Run(s, rest);
      StepBalances(mid, a, q);
      BalancesBoth(s.queues[q], mid.queues[q], Step(mid, a).queues[q], Posted(s, rest, q), PostedBy(mid, a, q),
                   Delivered(s, rest, q), DeliveredBy(mid, a, q), Fetched(s, rest, q), FetchedBy(mid, a, q));
    }
  }

  /** The start of an operation raises exactly its own task's counter by its requests and remembers
      the queue it is for. */
  lemma OperationBegins(s: Sys, t: nat, task: nat, n: nat, queue: nat)
    requires Enabled(s, BeginSubmit(t, task, n, queue))
    ensures var s' := Step(s, BeginSubmit(t, task, n, queue));
            && |s'.threads| == |s.threads| && s'.threads[t].Submitting?
            && s'.threads[t].task == task && s'.threads[t].n == n && s'.threads[t].queue == queue
            && (forall u :: s'.events[u] == s.events[u] + if u == task then n else 0)
            && s'.queues == s.queues
  {
  }

  // ---- The pool of range objects ----------------------------------------

  /** The object that the step hands out. */
  ghost function HandedBy(s: Sys, a: Action): seq<nat> {
    if a.Allocate? && Enabled(s, a) && a.t < |Step(s, a).threads| && Step(s, a).threads[a.t].Publishing?
    then [Step(s, a).threads[a.t].obj] else []
  }

  /** The object that the step gives back. */
  ghost function GivenBackBy(s: Sys, a: Action): seq<nat> {
    if a.Free? && Enabled(s, a) then [s.complete[0].obj] else []
  }

  ghost function Handed(s: Sys, acts: seq<Action>): seq<nat> {
    if acts == [] then [] else
    var n := |acts| - 1;
    Handed(s, acts[..n]) + HandedBy(Run(s, acts[..n]), acts[n])
  }

  ghost function GivenBack(s: Sys, acts: seq<Action>): seq<nat> {
    if acts == [] then [] else
    var n := |acts| - 1;
    GivenBack(s, acts[..n]) + GivenBackBy(Run(s, acts[..n]), acts[n])
  }

  lemma OtherStepKeepsPool(s: Sys, a: Action)
    requires Enabled(s, a) && !(a.Allocate? || a.Free?)
    ensures Apply(s, a).pool == s.pool
  {
    hide TakeNote, EndPoll, At;
  }

  lemma StepMovesPool(s: Sys, a: Action)
    ensures HandedBy(s, a) + Step(s, a).pool == s.pool + GivenBackBy(s, a)
  {
    if Enabled(s, a) && (a.Allocate? || a.Free?) {
      if a.Allocate? {
        assert [s.pool[0]] + s.pool[1..] == s.pool == s.pool + [];
      }
    } else {
      hide Apply, Enabled;
      if Enabled(s, a) {
        OtherStepKeepsPool(s, a);
      }
      assert [] + s.pool == s.pool == s.pool + [];
    }
  }

  /** Over every run the pool hands out its objects and then those given back, in order. */
  lemma {:induction false} PoolIsFifo(s: Sys, acts: seq<Action>)
    ensures Handed(s, acts) + Run(s, acts).pool == s.pool + GivenBack(s, acts)
  {
    hide Step, HandedBy, GivenBackBy;
    if acts == [] {
      assert [] + s.pool == s.pool == s.pool + [];
    } else {
      var rest, a := acts[..|acts| - 1], acts[|acts| - 1];
      PoolIsFifo(s, rest);
      var mid := Run(s, rest);
      StepMovesPool(mid, a);
      MoveObjects(s.pool, mid.pool, Step(mid, a).pool, Handed(s, rest), HandedBy(mid, a), GivenBack(s, rest), GivenBackBy(mid, a));
    }
  }

  lemma MoveObjects(a: seq<nat>, b: seq<nat>, c: seq<nat>, h: seq<nat>, h': seq<nat>, g: seq<nat>, g': seq<nat>)
    requires h + b == a + g && h' + c == b + g'
    ensures h + h' + c == a + (g + g')
  {
    assert h + h' + c == h + (h' + c);
    assert h + (b + g') == h + b + g';
    assert a + g + g' == a + (g + g');
  }

  // ---- Notification boards ---------------------------------------------

  ghost function ValueOn(s: Sys, seg: nat, id: nat): nat {
    if seg < |s.segs| then At(s.segs[seg].board, id) else 0
  }

  ghost predicate Resets(s: Sys, s': Sys, seg: nat, id: nat) {
    && ValueOn(s, seg, id) != 0 && ValueOn(s', seg, id) == 0
    && s'.taken == s.taken + multiset{Note(seg, id, ValueOn(s, seg, id))}
  }

  lemma ZeroedResets(s: Sys, i: nat, k: nat, seg: nat, id: nat)
    requires i < |s.segs|
    ensures ValueOn(Zeroed(s, i, k), seg, id) == ValueOn(s, seg, id) || Resets(s, Zeroed(s, i, k), seg, id)
    ensures s.taken <= Zeroed(s, i, k).taken
  {
  }

  /** A notification sets its id to its value and touches no other id. */
  lemma NotifySets(s: Sys, i: nat, k: nat, value: nat, seg: nat, id: nat)
    requires Enabled(s, Notify(i, k, value))
    ensures ValueOn(Step(s, Notify(i, k, value)), seg, id) == if seg == i && id == k then value else ValueOn(s, seg, id)
  {
  }

  lemma ResetStepResets(s: Sys, a: Action, seg: nat, id: nat)
    requires Enabled(s, a) && (a.Reset? || a.PollReset?)
    ensures var s' := Apply(s, a);
            (ValueOn(s', seg, id) == ValueOn(s, seg, id) || Resets(s, s', seg, id)) && s.taken <= s'.taken
  {
    hide TakeNote, At;
    match a {
      case Reset(t) => ZeroedResets(s, s.threads[t].w.seg, s.threads[t].id, seg, id);
      case PollReset => ZeroedResets(s, s.noteSeg, s.notePc.id, seg, id);
    }
  }

  lemma PollerKeepsBoards(s: Sys, a: Action, seg: nat, id: nat)
    requires Enabled(s, a) && (a.Drain? || a.Visit? || a.PollHit? || a.PollMiss? || a.PollEnd? || a.Complete? || a.Free?)
    ensures ValueOn(Apply(s, a), seg, id) == ValueOn(s, seg, id) && Apply(s, a).taken == s.taken
  {
    hide EndPoll, At;
  }

  lemma OtherStepKeepsBoards(s: Sys, a: Action, seg: nat, id: nat)
    requires Enabled(s, a) && !(a.Reset? || a.PollReset? || a.Notify?)
    ensures ValueOn(Apply(s, a), seg, id) == ValueOn(s, seg, id) && Apply(s, a).taken == s.taken
  {
    if a.Drain? || a.Visit? || a.PollHit? || a.PollMiss? || a.PollEnd? || a.Complete? || a.Free? {
      hide Apply, ValueOn;
      PollerKeepsBoards(s, a, seg, id);
    } else {
      hide At, NewWait;
    }
  }

  /** The only step other than a notification that changes the value of an id is a reset that takes
      exactly this value. */
  lemma OnlyResetsClear(s: Sys, a: Action, seg: nat, id: nat)
    requires !a.Notify?
    ensures ValueOn(Step(s, a), seg, id) == ValueOn(s, seg, id) || Resets(s, Step(s, a), seg, id)
    ensures s.taken <= Step(s, a).taken
  {
    hide Apply, Enabled, ValueOn, Resets;
    if Enabled(s, a) {
      if a.Reset? || a.PollReset? {
        ResetStepResets(s, a, seg, id);
      } else {
        OtherStepKeepsBoards(s, a, seg, id);
      }
    }
  }

  lemma NotifyKeepsTaken(s: Sys, a: Action)
    requires a.Notify?
    ensures Step(s, a).taken == s.taken
  {
  }

  /** No notification gets lost: after any run an id that was set is still set, or some value of it
      has been taken meanwhile. */
  lemma {:induction false} SetUntilTaken(s: Sys, acts: seq<Action>, seg: nat, id: nat)
    requires ValueOn(s, seg, id) != 0
    ensures s.taken <= Run(s, acts).taken
    ensures ValueOn(Run(s, acts), seg, id) != 0 || TakenMeanwhile(s, Run(s, acts), seg, id)
  {
    hide Step, ValueOn;
    if acts != [] {
      var rest, a := acts[..|acts| - 1], acts[|acts| - 1];
      SetUntilTaken(s, rest, seg, id);
      OneMore(s, Run(s, rest), a, seg, id);
    }
  }

  ghost predicate TakenMeanwhile(s: Sys, s': Sys, seg: nat, id: nat) {
    exists v :: v != 0 && s'.taken[Note(seg, id, v)] > s.taken[Note(seg, id, v)]
  }

  lemma OneMore(s: Sys, mid: Sys, a: Action, seg: nat, id: nat)
    requires s.taken <= mid.taken
    requires ValueOn(mid, seg, id) != 0 || TakenMeanwhile(s, mid, seg, id)
    ensures s.taken <= Step(mid, a).taken
    ensures ValueOn(Step(mid, a), seg, id) != 0 || TakenMeanwhile(s, Step(mid, a), seg, id)
  {
    var s' := Step(mid, a);
    if a.Notify? {
      NotifyKeepsTaken(mid, a);
      if Enabled(mid, a) {
        NotifySets(mid, a.seg, a.id, a.value, seg, id);
      }
    } else {
      hide Step, ValueOn;
      OnlyResetsClear(mid, a, seg, id);
      if TakenMeanwhile(s, mid, seg, id) {
        var v :| v != 0 && mid.taken[Note(seg, id, v)] > s.taken[Note(seg, id, v)];
        assert s'.taken[Note(seg, id, v)] > s.taken[Note(seg, id, v)];
      } else if ValueOn(s', seg, id) == 0 {
        var v := ValueOn(mid, seg, id);
        assert s'.taken[Note(seg, id, v)] > s.taken[Note(seg, id, v)];
      }
    }
  }
}
