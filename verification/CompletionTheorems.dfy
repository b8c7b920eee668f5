/** What the completion protocol guarantees in every reachable state. */
module CompletionTheorems {
  import opened Tallies
  import opened Completion
  import opened CompletionAccounts
  import opened CompletionProofs

  ghost predicate Reachable(s: Sys) {
    exists threads: nat, queues, ranges, segs: nat, acts :: s == Run(Init(threads, queues, ranges, segs), acts)
  }

  lemma ReachableInv(s: Sys)
    requires Reachable(s)
    ensures Inv(s)
  {
    hide Inv, Run, Init;
    var threads: nat, queues, ranges, segs: nat, acts :| s == Run(Init(threads, queues, ranges, segs), acts);
    InitInv(threads, queues, ranges, segs);
    RunInv(Init(threads, queues, ranges, segs), acts);
  }

  // ---- Events ----------------------------------------------------------

  /** A task's event counter is its announced credit plus its requests not yet worked off plus its
      waits that have raised an event and not been completed. */
  lemma EventConservation(s: Sys, task: nat)
    requires Reachable(s) && task != TAG_NULL
    ensures s.events[task] == Sum(s.threads, PcReqs)[task] + Sum(s.queues, QueueReqs)[task]
                              + Sum(s.pollers, PollerReqs)[task] + Fold(Ledger(s), LiveTasks)[task]
  {
    ReachableInv(s);
  }

  /** The thread is between raising the task's events and handing them over. */
  ghost predicate ThreadOwes(p: Pc, task: nat) {
    match p
    case Submitting(u, _, _) => u == task
    case RollingBack(u, _) => u == task
    case Raised(w) => w.task == task
    case Publishing(w, _) => w.task == task
    case _ => false
  }

  /** Something of the task is still outstanding somewhere. */
  ghost predicate Outstanding(s: Sys, task: nat) {
    || (exists t :: 0 <= t < |s.threads| && ThreadOwes(s.threads[t], task))
    || (exists q :: 0 <= q < |s.queues| && task in QueueReqs(s.queues[q]))
    || (exists p :: 0 <= p < |s.pollers| && task in PollerReqs(s.pollers[p]))
    || (exists l :: l in Parks(s) && l.Parked? && l.w.task == task)
  }

  /** The ranges in the segments' queues and lists and in the poller's completed vector. */
  ghost function Parks(s: Sys): multiset<Live> {
    Sum(s.segs, SegLive) + multiset(s.complete)
  }

  lemma ThreadOwesExactly(p: Pc, task: nat)
    requires (p.Submitting? || p.RollingBack?) ==> p.n > 0
    ensures ThreadOwes(p, task) <==> task in PcReqs(p) || exists l :: l in PcLive(p) && task in LiveTasks(l)
  {
    match p {
      case Raised(w) => assert Charged(w) in PcLive(p);
      case Publishing(w, obj) => assert Parked(w, obj) in PcLive(p);
      case _ =>
    }
  }

  /** A thread owes something exactly if its program counter enters the books. */
  lemma ThreadOwesInBooks(s: Sys, t: nat, task: nat)
    requires ThreadsOk(s) && t < |s.threads|
    ensures ThreadOwes(s.threads[t], task) <==>
            task in PcReqs(s.threads[t]) || exists l :: l in PcLive(s.threads[t]) && task in LiveTasks(l)
  {
    assert PcOk(s, s.threads[t]);
    ThreadOwesExactly(s.threads[t], task);
  }

  lemma OwedByThread(s: Sys, t: nat, task: nat)
    requires ThreadsOk(s) && t < |s.threads| && ThreadOwes(s.threads[t], task)
    ensures task in Sum(s.threads, PcReqs) || exists l :: l in Sum(s.threads, PcLive) && task in LiveTasks(l)
  {
    ThreadOwesInBooks(s, t, task);
    hide ThreadsOk, ThreadOwes, PcReqs, PcLive, LiveTasks;
    SumHas(s.threads, PcReqs, task);
    if task !in PcReqs(s.threads[t]) {
      var l :| l in PcLive(s.threads[t]) && task in LiveTasks(l);
      SumHas(s.threads, PcLive, l);
    }
  }

  lemma OwedBySomeThread(s: Sys, task: nat)
    requires ThreadsOk(s)
    requires task in Sum(s.threads, PcReqs) || exists l :: l in Sum(s.threads, PcLive) && task in LiveTasks(l)
    ensures exists t :: 0 <= t < |s.threads| && ThreadOwes(s.threads[t], task)
  {
    hide ThreadsOk, ThreadOwes, PcReqs, PcLive, LiveTasks;
    SumHas(s.threads, PcReqs, task);
    if task in Sum(s.threads, PcReqs) {
      var t :| 0 <= t < |s.threads| && task in PcReqs(s.threads[t]);
      ThreadOwesInBooks(s, t, task);
    } else {
      var l :| l in Sum(s.threads, PcLive) && task in LiveTasks(l);
      SumHas(s.threads, PcLive, l);
      var t :| 0 <= t < |s.threads| && l in PcLive(s.threads[t]);
      ThreadOwesInBooks(s, t, task);
    }
  }

  lemma ThreadsOweExactly(s: Sys, task: nat)
    requires ThreadsOk(s)
    ensures (exists t :: 0 <= t < |s.threads| && ThreadOwes(s.threads[t], task))
            <==> task in Sum(s.threads, PcReqs) || exists l :: l in Sum(s.threads, PcLive) && task in LiveTasks(l)
  {
    hide ThreadsOk, ThreadOwes, PcReqs, PcLive, LiveTasks;
    if t :| 0 <= t < |s.threads| && ThreadOwes(s.threads[t], task) {
      OwedByThread(s, t, task);
    }
    if task in Sum(s.threads, PcReqs) || exists l :: l in Sum(s.threads, PcLive) && task in LiveTasks(l) {
      OwedBySomeThread(s, task);
    }
  }

  lemma LedgerParts(s: Sys, l: Live)
    ensures l in Ledger(s) <==> l in Sum(s.threads, PcLive) || l in Parks(s)
  {
  }

  /** Every entry outside the threads belongs to a range object. */
  lemma ParksAreObjects(s: Sys, l: Live)
    requires Shape(s) && l in Parks(s)
    ensures l.Parked? || l.Completed?
  {
    if l in Sum(s.segs, SegLive) {
      SumHas(s.segs, SegLive, l);
      var i :| 0 <= i < |s.segs| && l in SegLive(s.segs[i]);
      assert SegOk(s, i);
      assert l in s.segs[i].queue || l in s.segs[i].list;
    } else {
      assert l in s.complete;
    }
  }

  /** The counter is zero exactly when nothing of the task is outstanding, so the task completes
      neither early nor never. */
  lemma ZeroExactlyWhenIdle(s: Sys, task: nat)
    requires Reachable(s) && task != TAG_NULL
    ensures s.events[task] == 0 <==> !Outstanding(s, task)
  {
    ReachableInv(s);
    ZeroFromInv(s, task);
  }

  lemma ZeroFromInv(s: Sys, task: nat)
    requires Inv(s) && task != TAG_NULL
    ensures s.events[task] == 0 <==> !Outstanding(s, task)
  {
    ThreadsOweExactly(s, task);
    SumHas(s.queues, QueueReqs, task);
    SumHas(s.pollers, PollerReqs, task);
    FoldHas(Ledger(s), LiveTasks, task);
    EventsPositive(s, task);
    OwedExactly(s, task);
  }

  lemma EventsPositive(s: Sys, task: nat)
    requires Accounts(s) && task != TAG_NULL
    ensures s.events[task] == 0 <==>
              task !in Sum(s.threads, PcReqs) && task !in Sum(s.queues, QueueReqs)
              && task !in Sum(s.pollers, PollerReqs) && task !in Fold(Ledger(s), LiveTasks)
  {
  }

  lemma OwedExactly(s: Sys, task: nat)
    requires Shape(s)
    ensures (exists l :: l in Ledger(s) && task in LiveTasks(l)) <==>
              || (exists l :: l in Sum(s.threads, PcLive) && task in LiveTasks(l))
              || (exists l :: l in Parks(s) && l.Parked? && l.w.task == task)
  {
    if l :| l in Ledger(s) && task in LiveTasks(l) {
      LedgerParts(s, l);
      if l in Parks(s) { ParksAreObjects(s, l); }
    }
    if l :| l in Sum(s.threads, PcLive) && task in LiveTasks(l) {
      LedgerParts(s, l);
    }
    if l :| l in Parks(s) && l.Parked? && l.w.task == task {
      LedgerParts(s, l);
      assert task in LiveTasks(l);
    }
  }

  /** How much the action takes off the events of which task. */
  function Lowers(s: Sys, a: Action): (nat, nat)
    requires Enabled(s, a)
  {
    match a
    case RollBack(t) => (s.threads[t].task, s.threads[t].n)
    case Lower(p) =>
      var tags := s.pollers[p].pc.tags;
      if tags != [] && tags[0] != TAG_NULL then (tags[0], 1) else (TAG_NULL, 0)
    case Complete => if s.complete != [] then (s.complete[0].w.task, 1) else (TAG_NULL, 0)
    case _ => (TAG_NULL, 0)
  }

  /** The action takes no more than its task has, and exactly its share. */
  ghost predicate LowersCleanly(s: Sys, a: Action) {
    && Enabled(s, a)
    && s.events[Lowers(s, a).0] >= Lowers(s, a).1
    && Step(s, a).events == s.events[Lowers(s, a).0 := s.events[Lowers(s, a).0] - Lowers(s, a).1]
  }

  /** No alpi_task_events_decrease ever takes more than the task has, and every one takes exactly
      its share from exactly its task. */
  lemma DecreaseNeverUnderflows(s: Sys, a: Action)
    requires Reachable(s) && Enabled(s, a) && (a.RollBack? || a.Lower? || a.Complete?)
    ensures LowersCleanly(s, a)
  {
    hide Inv, Reachable, Enabled, LowersCleanly;
    ReachableInv(s);
    match a {
      case RollBack(t) => RollBackLowers(s, t);
      case Lower(p) => LowerLowers(s, p);
      case Complete => CompleteLowers(s);
    }
  }

  lemma RollBackLowers(s: Sys, t: nat)
    requires Inv(s) && Enabled(s, RollBack(t))
    ensures LowersCleanly(s, RollBack(t))
  {
    hide Accounts;
    ThreadPc(s, t);
    RollBackAccounts(s, t);
  }

  lemma LowerLowers(s: Sys, p: nat)
    requires Inv(s) && Enabled(s, Lower(p))
    ensures LowersCleanly(s, Lower(p))
  {
    hide Accounts, Shape;
    LowerAccounts(s, p);
  }

  lemma CompleteLowers(s: Sys)
    requires Inv(s) && Enabled(s, Complete)
    ensures LowersCleanly(s, Complete)
  {
    hide Accounts;
    CompleteAccounts(s);
  }

  // ---- Objects ---------------------------------------------------------

  lemma AllObjectsOnce(obj: nat)
    ensures multiset(AllObjects())[obj] == if obj < NUM_ENTRIES then 1 else 0
  {
    DistinctOnce(AllObjects(), obj);
    if obj < NUM_ENTRIES {
      assert AllObjects()[obj] == obj;
    }
  }

  /** Every range object is in the pool or in use by exactly one wait, never both, never twice. */
  lemma EveryObjectOnce(s: Sys, obj: nat)
    requires Reachable(s) && obj < NUM_ENTRIES
    ensures multiset(s.pool)[obj] + UsedObjs(s)[obj] == 1
    ensures |s.pool| + |UsedObjs(s)| == NUM_ENTRIES
  {
    ReachableInv(s);
    AllObjectsOnce(obj);
    assert (multiset(s.pool) + UsedObjs(s))[obj] == multiset(s.pool)[obj] + UsedObjs(s)[obj];
    assert |multiset(s.pool) + UsedObjs(s)| == |s.pool| + |UsedObjs(s)|;
  }

  /** Two waits never share an object. */
  lemma ObjectsNotShared(s: Sys, l: Live, k: Live)
    requires Reachable(s) && l in Ledger(s) && k in Ledger(s) - multiset{l}
    requires (l.Parked? || l.Completed?) && (k.Parked? || k.Completed?)
    ensures l.obj != k.obj
  {
    ReachableInv(s);
    FoldRemove(Ledger(s), l, LiveObjs);
    FoldShare(Ledger(s) - multiset{l}, k, LiveObjs);
    AllObjectsOnce(l.obj);
    assert LiveObjs(l)[l.obj] == 1 && LiveObjs(k)[k.obj] == 1;
    assert (multiset(s.pool) + UsedObjs(s))[l.obj] <= 1;
  }

  /** free() always finds room in the pool. */
  lemma FreePushSucceeds(s: Sys)
    requires Reachable(s) && Enabled(s, Free)
    ensures |s.pool| < NUM_ENTRIES
  {
    ReachableInv(s);
    CompleteEntry(s, 0);
    FoldShare(Ledger(s), s.complete[0], LiveObjs);
    assert s.complete[0].obj in UsedObjs(s);
    assert |multiset(s.pool) + UsedObjs(s)| == |s.pool| + |UsedObjs(s)|;
  }

  /** The push under the segment's lock never fails, so enqueue() never spins on a full ring. */
  lemma EnqueueNeverBlocks(s: Sys, t: nat)
    requires Reachable(s) && t < |s.threads| && s.threads[t].Publishing?
    ensures Enabled(s, Publish(t))
    ensures |s.segs[s.threads[t].w.seg].queue| < NUM_ENTRIES < WR_QUEUE_CAPACITY
  {
    ReachableInv(s);
    ThreadPc(s, t);
    QueueFits(s, t, s.threads[t].w.seg);
  }

  /** Entries of the ledger that hold one object each are at most as many as there are objects. */
  lemma UsedBound(s: Sys, part: multiset<Live>)
    requires ObjsOk(s) && part <= Ledger(s) && forall l :: l in part ==> |LiveObjs(l)| == 1
    ensures |part| <= NUM_ENTRIES
  {
    hide Ledger;
    var rest := Ledger(s) - part;
    assert Ledger(s) == part + rest;
    FoldSize(part, LiveObjs);
    FoldUnion(part, rest, LiveObjs);
    assert |UsedObjs(s)| == |Fold(part, LiveObjs)| + |Fold(rest, LiveObjs)|;
    assert |multiset(s.pool) + UsedObjs(s)| == |s.pool| + |UsedObjs(s)|;
  }

  lemma QueueFits(s: Sys, t: nat, i: nat)
    requires Inv(s) && t < |s.threads| && s.threads[t].Publishing? && i < |s.segs|
    ensures |s.segs[i].queue| < NUM_ENTRIES
  {
    assert ObjsOk(s) && SegOk(s, i);
    QueueHolds(s, t, i);
  }

  lemma QueueHolds(s: Sys, t: nat, i: nat)
    requires ObjsOk(s) && i < |s.segs| && SegOk(s, i) && t < |s.threads| && s.threads[t].Publishing?
    ensures |s.segs[i].queue| < NUM_ENTRIES
  {
    var q := multiset(s.segs[i].queue);
    var mine := PcLive(s.threads[t]);
    forall l | l in q + mine ensures |LiveObjs(l)| == 1 {
      assert l in q ==> l in s.segs[i].queue;
    }
    hide Ledger, LiveOk, ObjsOk, SegOk;
    QueueAndThread(s, t, i);
    UsedBound(s, q + mine);
  }

  lemma QueueAndThread(s: Sys, t: nat, i: nat)
    requires t < |s.threads| && i < |s.segs|
    ensures multiset(s.segs[i].queue) + PcLive(s.threads[t]) <= Ledger(s)
  {
    SumUpdate(s.threads, t, s.threads[t], PcLive);
    SumUpdate(s.segs, i, s.segs[i], SegLive);
    SubsetSum(multiset(s.segs[i].queue), multiset(s.segs[i].list), Sum(s.segs, SegLive), PcLive(s.threads[t]),
              Sum(s.threads, PcLive), multiset(s.complete));
  }

  lemma SubsetSum<X>(a: multiset<X>, b: multiset<X>, c: multiset<X>, d: multiset<X>, e: multiset<X>, f: multiset<X>)
    requires a + b <= c && d <= e
    ensures a + d <= e + c + f
  {
  }

  // ---- Notifications ---------------------------------------------------

  /** Every non-zero value read by a reset is charged to exactly one wait, and each wait's remaining
      counter is what it asked for less what it was given; no usage discipline is needed. */
  lemma NotificationsConserved(s: Sys)
    requires Reachable(s)
    ensures s.taken == s.retired + HeldNotes(s)
    ensures forall l :: l in Ledger(s) ==> 0 <= l.w.rem <= l.w.num && l.w.num - l.w.rem == |l.w.got|
    ensures forall l, n :: l in Ledger(s) && n in l.w.got ==> n.seg == l.w.seg && l.w.Covers(n.id) && n.value != 0
  {
    ReachableInv(s);
    forall l, n | l in Ledger(s) && n in l.w.got ensures n.seg == l.w.seg && l.w.Covers(n.id) && n.value != 0 {
      assert LiveOk(l);
    }
    forall l | l in Ledger(s) ensures 0 <= l.w.rem <= l.w.num && l.w.num - l.w.rem == |l.w.got| {
      assert LiveOk(l);
    }
  }

  /** A published range waits for something until the poller has counted its last id, and is only
      released when nothing remains. So the assertions of the scan and of the destructor hold. */
  lemma RangesInShape(s: Sys, i: nat)
    requires Reachable(s) && i < |s.segs|
    ensures forall l :: l in s.segs[i].queue ==> l.Parked? && 1 <= l.w.rem <= l.w.num
    ensures forall k :: 0 <= k < |s.segs[i].list| && !(i == s.noteSeg && s.notePc == PollChecked(k)) ==>
              s.segs[i].list[k].Parked? && 1 <= s.segs[i].list[k].w.rem <= s.segs[i].list[k].w.num
    ensures s.notePc.PollLooking? ==> AtPos(s, s.notePc.pos) && WaitAt(s, s.notePc.pos).rem >= 1
    ensures forall l :: l in s.complete ==> l.w.rem == 0
  {
    ReachableInv(s);
    assert SegOk(s, i);
    hide Ledger;
    forall l | l in s.segs[i].queue ensures l.Parked? && 1 <= l.w.rem <= l.w.num {
      QueuedBounds(s, i, l);
    }
    forall k | 0 <= k < |s.segs[i].list| && !(i == s.noteSeg && s.notePc == PollChecked(k))
      ensures s.segs[i].list[k].Parked? && 1 <= s.segs[i].list[k].w.rem <= s.segs[i].list[k].w.num
    {
      ListOk(s, i, k);
    }
  }

  lemma QueuedBounds(s: Sys, i: nat, l: Live)
    requires LedgerOk(s) && i < |s.segs| && l in s.segs[i].queue
    ensures l.w.rem <= l.w.num
  {
    SegEntry(s, i);
    assert l in SegLive(s.segs[i]);
    assert LiveOk(l);
  }
}
