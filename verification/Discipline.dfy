/** When a wait for all ids is exact: the scan only counts notifications, so "all ids arrived"
    rests on how the ids are used. */
module Discipline {
  import opened Tallies
  import opened Waits
  import opened Completion
  import opened CompletionAccounts
  import opened CompletionProofs
  import opened CompletionTheorems

  /** Notifications taken for waits that are still in progress. */
  ghost function Held(s: Sys): multiset<Note> {
    s.taken - s.retired
  }

  /** The usage discipline: no id is notified again while a wait in progress has already taken a
      notification on it. Ids not taken yet, and ids of no wait, may be notified at any time. */
  ghost predicate Fair(s: Sys, a: Action) {
    a.Notify? ==> forall n :: n in Held(s) ==> n.seg != a.seg || n.id != a.id
  }

  ghost predicate FairRun(s: Sys, acts: seq<Action>) {
    acts == [] || (FairRun(s, acts[..|acts| - 1]) && Fair(Run(s, acts[..|acts| - 1]), acts[|acts| - 1]))
  }

  ghost predicate FairlyReachable(s: Sys) {
    exists threads: nat, queues, ranges, segs: nat, acts ::
      var init := Init(threads, queues, ranges, segs);
      FairRun(init, acts) && s == Run(init, acts)
  }

  // ---- What the discipline keeps ---------------------------------------

  /** A taken notification was taken once, its id is clear, and its value is the last one notified. */
  ghost predicate NoteOk(s: Sys, n: Note) {
    && Held(s)[n] == 1
    && n.seg < |s.segs| && At(s.segs[n.seg].board, n.id) == 0
    && (n.seg, n.id) in s.arrived && s.arrived[(n.seg, n.id)] == n.value
  }

  ghost predicate BoardOk(s: Sys, seg: nat, id: nat) {
    seg < |s.segs| && At(s.segs[seg].board, id) != 0 ==>
      (seg, id) in s.arrived && s.arrived[(seg, id)] == At(s.segs[seg].board, id)
  }

  ghost predicate FairInv(s: Sys) {
    && (forall n :: n in Held(s) ==> NoteOk(s, n))
    && (forall seg: nat, id: nat :: BoardOk(s, seg, id))
  }

  /** Steps that touch neither boards nor notes. */
  ghost predicate SameNotes(s: Sys, s': Sys) {
    && s'.taken == s.taken && s'.retired == s.retired && s'.arrived == s.arrived && |s'.segs| == |s.segs|
    && forall i :: 0 <= i < |s.segs| ==> s'.segs[i].board == s.segs[i].board
  }

  lemma SameNotesFair(s: Sys, s': Sys)
    requires FairInv(s) && SameNotes(s, s')
    ensures FairInv(s')
  {
    forall n | n in Held(s') ensures NoteOk(s', n) { assert NoteOk(s, n); }
    forall seg: nat, id: nat ensures BoardOk(s', seg, id) { assert BoardOk(s, seg, id); }
  }

  lemma NotifyFair(s: Sys, a: Action)
    requires FairInv(s) && Fair(s, a) && a.Notify? && Enabled(s, a)
    ensures FairInv(NotifyStep(s, a.seg, a.id, a.value))
  {
    var s' := NotifyStep(s, a.seg, a.id, a.value);
    forall n | n in Held(s') ensures NoteOk(s', n) { assert NoteOk(s, n); }
    forall seg: nat, id: nat ensures BoardOk(s', seg, id) { assert BoardOk(s, seg, id); }
  }

  /** A reset of a set id takes a notification nobody holds yet. */
  lemma ZeroedFair(s: Sys, seg: nat, id: nat)
    requires FairInv(s) && s.retired <= s.taken && seg < |s.segs|
    ensures FairInv(Zeroed(s, seg, id))
  {
    var z := Zeroed(s, seg, id);
    var v := At(s.segs[seg].board, id);
    var mine := Note(seg, id, v);
    assert BoardOk(s, seg, id);
    assert v != 0 ==> Held(z) == Held(s) + multiset{mine};
    forall n | n in Held(z) ensures NoteOk(z, n) {
      if v != 0 && n == mine {
        assert mine in Held(s) ==> NoteOk(s, mine);
      } else {
        assert NoteOk(s, n);
      }
    }
    forall g: nat, i: nat ensures BoardOk(z, g, i) { assert BoardOk(s, g, i); }
  }

  /** A wait that ends only takes its notifications out of the picture. */
  lemma RetireFair(s: Sys, s': Sys)
    requires FairInv(s) && s'.taken == s.taken && s.retired <= s'.retired
    requires s'.arrived == s.arrived && s'.segs == s.segs
    ensures FairInv(s')
  {
    forall n | n in Held(s') ensures NoteOk(s', n) {
      assert Held(s')[n] <= Held(s)[n];
      assert NoteOk(s, n);
    }
    forall seg: nat, id: nat ensures BoardOk(s', seg, id) { assert BoardOk(s, seg, id); }
  }

  lemma ResetFair(s: Sys, t: nat)
    requires FairInv(s) && s.retired <= s.taken
    requires t < |s.threads| && s.threads[t].Resetting? && s.threads[t].w.seg < |s.segs|
    ensures FairInv(ResetStep(s, t))
  {
    hide FairInv;
    ZeroedFair(s, s.threads[t].w.seg, s.threads[t].id);
    SameNotesFair(Zeroed(s, s.threads[t].w.seg, s.threads[t].id), ResetStep(s, t));
  }

  lemma PollResetFair(s: Sys)
    requires FairInv(s) && s.retired <= s.taken && s.notePc.PollResetting? && AtPos(s, s.notePc.pos)
    ensures FairInv(PollResetStep(s))
  {
    hide FairInv;
    ZeroedFair(s, s.noteSeg, s.notePc.id);
    SameNotesFair(Zeroed(s, s.noteSeg, s.notePc.id), PollResetStep(s));
  }

  lemma QuietStepsFair(s: Sys, a: Action)
    requires FairInv(s) && Enabled(s, a)
    requires !a.Notify? && !a.Reset? && !a.PollReset? && !a.Return? && !a.Free?
    ensures FairInv(Apply(s, a))
  {
    hide FairInv, SameNotes;
    if a.Publish? || a.Drain? || a.PollEnd? {
      ListStepsSame(s, a);
    } else if a.BeginSubmit? || a.Submit? || a.RollBack? || a.BeginWait? || a.LookHit? || a.LookMiss? || a.Raise? || a.Allocate? {
      ThreadStepsSame(s, a);
    } else if a.ForeignPost? || a.Deliver? || a.Fetch? || a.Lower? {
      QueueStepsSame(s, a);
    } else {
      PollerStepsSame(s, a);
    }
    SameNotesFair(s, Apply(s, a));
  }

  lemma ListStepsSame(s: Sys, a: Action)
    requires Enabled(s, a) && (a.Publish? || a.Drain? || a.PollEnd?)
    ensures SameNotes(s, Apply(s, a))
  {
    match a
    case Publish(t) =>
    case Drain =>
    case PollEnd =>
  }

  /** Steps that leave the segments and the history of notifications alone. */
  lemma SameSegments(s: Sys, s': Sys)
    requires s'.segs == s.segs && s'.taken == s.taken && s'.retired == s.retired && s'.arrived == s.arrived
    ensures SameNotes(s, s')
  {
  }

  lemma ThreadStepsSame(s: Sys, a: Action)
    requires Enabled(s, a)
    requires a.BeginSubmit? || a.Submit? || a.RollBack? || a.BeginWait? || a.LookHit? || a.LookMiss? || a.Raise? || a.Allocate?
    ensures SameNotes(s, Apply(s, a))
  {
    hide SameNotes;
    SameSegments(s, Apply(s, a));
  }

  lemma QueueStepsSame(s: Sys, a: Action)
    requires Enabled(s, a) && (a.ForeignPost? || a.Deliver? || a.Fetch? || a.Lower?)
    ensures SameNotes(s, Apply(s, a))
  {
    hide SameNotes;
    match a {
      case Fetch(p, k) => FetchSame(s, p, k);
      case Lower(p) => LowerSame(s, p);
      case ForeignPost(queue) => SameSegments(s, ForeignPostStep(s, queue));
      case Deliver(queue, tag) => SameSegments(s, DeliverStep(s, queue, tag));
    }
  }

  lemma FetchSame(s: Sys, p: nat, k: nat)
    requires Enabled(s, Fetch(p, k))
    ensures SameNotes(s, FetchStep(s, p, k))
  {
  }

  lemma LowerSame(s: Sys, p: nat)
    requires Enabled(s, Lower(p))
    ensures SameNotes(s, LowerStep(s, p))
  {
  }

  lemma PollerStepsSame(s: Sys, a: Action)
    requires Enabled(s, a) && (a.Visit? || a.PollHit? || a.PollMiss? || a.Complete?)
    ensures SameNotes(s, Apply(s, a))
  {
    hide SameNotes;
    SameSegments(s, Apply(s, a));
  }

  lemma StepFair(s: Sys, a: Action)
    requires FairInv(s) && Fair(s, a) && s.retired <= s.taken
    ensures FairInv(Step(s, a))
  {
    hide FairInv;
    if Enabled(s, a) {
      match a
      case Notify(_, _, _) => NotifyFair(s, a);
      case Reset(t) => ResetFair(s, t);
      case PollReset => PollResetFair(s);
      case Return(t) => RetireFair(s, ReturnStep(s, t));
      case Free => RetireFair(s, FreeStep(s));
      case _ => QuietStepsFair(s, a);
    }
  }

  lemma {:induction false} FairRunInv(s: Sys, acts: seq<Action>)
    requires Inv(s) && FairInv(s) && FairRun(s, acts)
    ensures Inv(Run(s, acts)) && FairInv(Run(s, acts))
  {
    hide FairInv, Fair, Inv, Step;
    if acts != [] {
      var prev := Run(s, acts[..|acts| - 1]);
      FairRunInv(s, acts[..|acts| - 1]);
      BooksCover(prev);
      StepInv(prev, acts[|acts| - 1]);
      StepFair(prev, acts[|acts| - 1]);
    }
  }

  lemma BooksCover(s: Sys)
    requires Inv(s)
    ensures s.retired <= s.taken && Held(s) == HeldNotes(s)
  {
    NotesCover(s.taken, s.retired, HeldNotes(s));
  }

  lemma NotesCover<X>(taken: multiset<X>, retired: multiset<X>, held: multiset<X>)
    requires taken == retired + held
    ensures retired <= taken && taken - retired == held
  {
  }

  lemma FairlyReachableInv(s: Sys)
    requires FairlyReachable(s)
    ensures Inv(s) && FairInv(s) && Held(s) == HeldNotes(s)
  {
    hide FairInv, Inv, Init, FairRun, Run;
    var threads: nat, queues, ranges, segs: nat, acts :|
      var init := Init(threads, queues, ranges, segs);
      FairRun(init, acts) && s == Run(init, acts);
    InitInv(threads, queues, ranges, segs);
    InitFair(threads, queues, ranges, segs);
    FairRunInv(Init(threads, queues, ranges, segs), acts);
    BooksCover(s);
  }

  lemma InitFair(threads: nat, queues: seq<bool>, ranges: seq<(nat, nat)>, segs: nat)
    ensures FairInv(Init(threads, queues, ranges, segs))
  {
  }

  // ---- Exactness -------------------------------------------------------

  /** Every id of the wait was taken, and the caller's array holds for each of them the value
      last notified on it and nothing else. */
  ghost predicate Exact(s: Sys, w: Wait) {
    && (forall id: nat :: w.Covers(id) ==> TookId(w.got, id))
    && (forall id: nat :: w.Covers(id) ==> (w.seg, id) in s.arrived)
    && (w.keep ==> forall id: nat :: w.Covers(id) ==> id in w.buffer && w.buffer[id] == s.arrived[(w.seg, id)])
    && (w.keep ==> forall id :: id in w.buffer ==> w.Covers(id))
  }

  lemma HeldIdsDistinct(s: Sys, l: Live)
    requires FairInv(s) && Held(s) == HeldNotes(s) && l in Ledger(s) && WaitOk(l.w)
    ensures DistinctIds(l.w.got)
    ensures forall n :: n in l.w.got ==> NoteOk(s, n)
  {
    hide Ledger;
    var got := l.w.got;
    FoldShare(Ledger(s), l, LiveNotes);
    assert multiset(got) <= Held(s);
    forall n | n in got ensures NoteOk(s, n) {
      assert n in multiset(got);
    }
    forall i, j | 0 <= i < j < |got| ensures got[i].id != got[j].id {
      assert got[i] in got && got[j] in got;
      assert NoteOk(s, got[i]) && NoteOk(s, got[j]);
      OnceDistinct(got, i, j);
      assert multiset(got)[got[i]] <= Held(s)[got[i]];
    }
  }

  lemma FinishedIsExact(s: Sys, l: Live)
    requires FairInv(s) && Held(s) == HeldNotes(s) && l in Ledger(s) && WaitOk(l.w)
    requires l.w.rem == 0 && EarlyBuffer(l.w)
    ensures Exact(s, l.w)
  {
    var w := l.w;
    HeldIdsDistinct(s, l);
    AllCovered(w.got, w.first, w.num);
    WrittenValues(w.got);
    forall id: nat | w.Covers(id)
      ensures TookId(w.got, id) && (w.seg, id) in s.arrived
      ensures w.keep ==> id in w.buffer && w.buffer[id] == s.arrived[(w.seg, id)]
    {
      assert TookId(w.got, id);
      var n :| n in w.got && n.id == id;
      assert NoteOk(s, n);
    }
    if w.keep {
      forall id | id in w.buffer ensures w.Covers(id) {
        assert TookId(w.got, id);
        var n :| n in w.got && n.id == id;
      }
    }
  }

  /** Under the discipline the poller releases a range's event only after every id of the wait was
      taken exactly once, with each value in its place. */
  lemma ReleaseIsExact(s: Sys)
    requires FairlyReachable(s) && s.notePc.Releasing? && s.complete != []
    ensures Exact(s, s.complete[0].w) && DistinctIds(s.complete[0].w.got)
    ensures |s.complete[0].w.got| == s.complete[0].w.num
  {
    hide FairlyReachable, FairInv;
    FairlyReachableInv(s);
    CompleteEntry(s, 0);
    assert LiveOk(s.complete[0]) && Finished(s.complete[0]);
    HeldIdsDistinct(s, s.complete[0]);
    FinishedIsExact(s, s.complete[0]);
  }

  /** The same when the early check of the API call already finds everything. */
  lemma EarlyReturnIsExact(s: Sys, t: nat)
    requires FairlyReachable(s) && Enabled(s, Return(t))
    ensures Exact(s, s.threads[t].w) && DistinctIds(s.threads[t].w.got)
  {
    hide FairlyReachable, FairInv;
    FairlyReachableInv(s);
    ThreadEntry(s, t);
    var l := Checking(s.threads[t].w);
    assert l in PcLive(s.threads[t]);
    assert LiveOk(l);
    HeldIdsDistinct(s, l);
    FinishedIsExact(s, l);
  }

  /** Without any discipline: a wait with nothing remaining has seen all its ids if and only if no
      id was taken twice. */
  lemma CompleteIffDistinct(s: Sys, l: Live)
    requires Reachable(s) && l in Ledger(s) && l.w.rem == 0
    ensures (forall id: nat :: l.w.Covers(id) ==> TookId(l.w.got, id)) <==> DistinctIds(l.w.got)
  {
    ReachableInv(s);
    assert LiveOk(l);
    CountedExactly(l.w);
  }

  lemma CountedExactly(w: Wait)
    requires WaitOk(w) && w.rem == 0
    ensures (forall id: nat :: w.Covers(id) ==> TookId(w.got, id)) <==> DistinctIds(w.got)
  {
    if DistinctIds(w.got) {
      AllCovered(w.got, w.first, w.num);
    }
    if forall id: nat :: w.Covers(id) ==> TookId(w.got, id) {
      assert forall id :: id in Range(w.first, w.num) ==> TookId(w.got, id);
      assert Range(w.first, w.num) <= IdsOf(w.got);
      EnoughIdsDistinct(w.got, Range(w.first, w.num));
    }
  }

  /** A sequence with as many ids as elements repeats none. */
  lemma {:induction false} EnoughIdsDistinct(got: seq<Note>, ids: set<nat>)
    requires ids <= IdsOf(got) && |ids| >= |got|
    ensures DistinctIds(got)
  {
    if got != [] {
      var rest, last := got[..|got| - 1], got[|got| - 1];
      assert got == rest + [last];
      assert ids - {last.id} <= IdsOf(rest);
      if last.id in IdsOf(rest) {
        assert ids <= IdsOf(rest);
        IdsAtMost(rest);
        SubsetAtMost(ids, IdsOf(rest));
      } else {
        EnoughIdsDistinct(rest, ids - {last.id});
      }
    }
  }

  lemma ReachableStep(s: Sys, a: Action)
    requires Reachable(s)
    ensures Reachable(Step(s, a))
  {
    hide Init, Step;
    var threads: nat, queues, ranges, segs: nat, acts :| s == Run(Init(threads, queues, ranges, segs), acts);
    assert (acts + [a])[..|acts|] == acts;
    assert Step(s, a) == Run(Init(threads, queues, ranges, segs), acts + [a]);
  }

  /** The wait of the example: a caller waits for ids 0 and 1 of segment 0. */
  function ForTwo(got: seq<Note>, buffer: map<nat, nat>): Wait {
    Wait(9, 0, 0, 2, true, 2 - |got|, 0, buffer, got)
  }

  /** The state of the example between its steps. */
  function Example(p: Pc, board: Board, taken: multiset<Note>, last: map<(nat, nat), nat>): Sys {
    Init(1, [], [], 1).(threads := [p], segs := [Seg(board, [], [])], taken := taken, arrived := last)
  }

  /** With the id set, one look and one reset take the notification. */
  lemma TakeZero(got: seq<Note>, buffer: map<nat, nat>, v: nat, taken: multiset<Note>, last: map<(nat, nat), nat>)
    requires |got| < 2 && v != 0
    ensures var w := ForTwo(got + [Note(0, 0, v)], buffer[0 := v]);
            Step(Step(Example(Looking(ForTwo(got, buffer)), map[0 := v], taken, last), LookHit(0, 0)), Reset(0))
            == Example(if |got| == 0 then Looking(w) else Checked(w), map[0 := 0], taken + multiset{Note(0, 0, v)}, last)
  {
    hide AllObjects, Step;
    LookZero(got, buffer, v, taken, last);
    ResetZero(got, buffer, v, taken, last);
  }

  lemma LookZero(got: seq<Note>, buffer: map<nat, nat>, v: nat, taken: multiset<Note>, last: map<(nat, nat), nat>)
    requires |got| < 2 && v != 0
    ensures Step(Example(Looking(ForTwo(got, buffer)), map[0 := v], taken, last), LookHit(0, 0))
            == Example(Resetting(ForTwo(got, buffer), 0), map[0 := v], taken, last)
  {
    hide AllObjects;
  }

  lemma ResetZero(got: seq<Note>, buffer: map<nat, nat>, v: nat, taken: multiset<Note>, last: map<(nat, nat), nat>)
    requires |got| < 2 && v != 0
    ensures var w := ForTwo(got + [Note(0, 0, v)], buffer[0 := v]);
            Step(Example(Resetting(ForTwo(got, buffer), 0), map[0 := v], taken, last), Reset(0))
            == Example(if |got| == 0 then Looking(w) else Checked(w), map[0 := 0], taken + multiset{Note(0, 0, v)}, last)
  {
    hide AllObjects;
    assert map[0 := v][0 := 0] == map[0 := 0];
  }

  /** One id notified twice satisfies a wait for two: the call is about to return success although
      the other id never arrived. */
  lemma CountsNotIds() returns (s: Sys)
    ensures Reachable(s) && Enabled(s, Return(0))
    ensures s.threads[0].w.num == 2 && s.threads[0].w.Covers(1)
    ensures !TookId(s.threads[0].w.got, 1) && (0, 1) !in s.arrived
  {
    hide Reachable, Step, Init;
    var s4 := FirstNotice();
    s := SecondNotice(s4);
    ReachableStep(s4, Notify(0, 0, 6));
    ReachableStep(Step(s4, Notify(0, 0, 6)), LookHit(0, 0));
    ReachableStep(Step(Step(s4, Notify(0, 0, 6)), LookHit(0, 0)), Reset(0));
  }

  lemma FirstNotice() returns (s4: Sys)
    ensures Reachable(s4)
    ensures s4 == Example(Looking(ForTwo([Note(0, 0, 5)], map[0 := 5])), map[0 := 0], multiset{Note(0, 0, 5)}, map[(0, 0) := 5])
  {
    hide AllObjects, Reachable;
    var s0 := Init(1, [], [], 1);
    var s1 := Step(s0, BeginWait(0, 9, 0, 0, 2, true));
    assert s1 == Example(Looking(ForTwo([], map[])), map[], multiset{}, map[]);
    var s2 := Step(s1, Notify(0, 0, 5));
    assert s2 == Example(Looking(ForTwo([], map[])), map[0 := 5], multiset{}, map[(0, 0) := 5]);
    TakeZero([], map[], 5, multiset{}, map[(0, 0) := 5]);
    assert [] + [Note(0, 0, 5)] == [Note(0, 0, 5)];
    s4 := Step(Step(s2, LookHit(0, 0)), Reset(0));
    InitReachable();
    ReachableStep(s0, BeginWait(0, 9, 0, 0, 2, true));
    ReachableStep(s1, Notify(0, 0, 5));
    ReachableStep(s2, LookHit(0, 0));
    ReachableStep(Step(s2, LookHit(0, 0)), Reset(0));
  }

  lemma SecondNotice(s4: Sys) returns (s: Sys)
    requires s4 == Example(Looking(ForTwo([Note(0, 0, 5)], map[0 := 5])), map[0 := 0], multiset{Note(0, 0, 5)}, map[(0, 0) := 5])
    ensures s == Step(Step(Step(s4, Notify(0, 0, 6)), LookHit(0, 0)), Reset(0))
    ensures s == Example(Checked(ForTwo([Note(0, 0, 5)] + [Note(0, 0, 6)], map[0 := 5][0 := 6])), map[0 := 0],
                         multiset{Note(0, 0, 5)} + multiset{Note(0, 0, 6)}, map[(0, 0) := 6])
  {
    hide AllObjects;
    var s5 := Step(s4, Notify(0, 0, 6));
    assert map[0 := 0][0 := 6] == map[0 := 6];
    assert map[(0, 0) := 5][(0, 0) := 6] == map[(0, 0) := 6];
    assert s5 == Example(Looking(ForTwo([Note(0, 0, 5)], map[0 := 5])), map[0 := 6], multiset{Note(0, 0, 5)}, map[(0, 0) := 6]);
    TakeZero([Note(0, 0, 5)], map[0 := 5], 6, multiset{Note(0, 0, 5)}, map[(0, 0) := 6]);
    s := Step(Step(s5, LookHit(0, 0)), Reset(0));
  }

  lemma InitReachable()
    ensures Reachable(Init(1, [], [], 1))
  {
    assert Run(Init(1, [], [], 1), []) == Init(1, [], [], 1);
  }
}
