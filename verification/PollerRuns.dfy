/** The pollers of src/common/Polling.cpp in the form of their code with everybody else acting
    between any two accesses to shared data. Every turn of a poller is a run of the completion
    protocol, and a pass of the notification poller ends however busy the others are. */
module PollerRuns {
  import opened Waits
  import opened Completion
  import opened CompletionProofs
  import opened Interference
  import opened Scans
  import opened Tallies
  import opened ApiCalls

  // ---- What only the notification poller changes -------------------------

  predicate ByNotePoller(a: Action) {
    a.Drain? || a.Visit? || a.PollHit? || a.PollMiss? || a.PollReset? || a.PollEnd? || a.Complete? || a.Free?
  }

  predicate WithoutNotePoller(acts: seq<Action>) {
    forall a :: a in acts ==> !ByNotePoller(a)
  }

  /** The poller stands where it stood, its lists hold what they held, and the queues only grow. */
  ghost predicate SamePoller(s: Sys, s': Sys) {
    && s'.notePc == s.notePc && s'.noteSeg == s.noteSeg && s'.complete == s.complete
    && |s'.segs| == |s.segs|
    && forall i :: 0 <= i < |s.segs| ==> s'.segs[i].list == s.segs[i].list && s.segs[i].queue <= s'.segs[i].queue
  }

  /** The same of all segments but one. */
  ghost predicate Elsewhere(s: Sys, s': Sys, seg: nat) {
    && |s'.segs| == |s.segs|
    && forall i :: 0 <= i < |s.segs| && i != seg ==> s'.segs[i].list == s.segs[i].list && s.segs[i].queue <= s'.segs[i].queue
  }

  lemma ElsewhereBoth(s: Sys, s': Sys, s'': Sys, seg: nat)
    requires Elsewhere(s, s', seg) && (Elsewhere(s', s'', seg) || SamePoller(s', s''))
    ensures Elsewhere(s, s'', seg)
  {
  }

  lemma SameBoth(s: Sys, s': Sys, s'': Sys)
    requires SamePoller(s, s') && SamePoller(s', s'')
    ensures SamePoller(s, s'')
  {
  }

  lemma SameAtFirst(s: Sys)
    ensures SamePoller(s, s)
    ensures forall seg :: Elsewhere(s, s, seg)
  {
  }

  lemma OthersLeavePoller(s: Sys, a: Action)
    requires !ByNotePoller(a)
    ensures SamePoller(s, Step(s, a))
  {
    hide Apply, Enabled, OfCall;
    if Enabled(s, a) {
      if OfCall(a) {
        CallLeavesPoller(s, a);
      } else {
        RequestLeavesPoller(s, a);
      }
    }
  }

  lemma CallLeavesPoller(s: Sys, a: Action)
    requires Enabled(s, a) && OfCall(a)
    ensures SamePoller(s, Apply(s, a))
  {
    hide TakeNote, Waits.At;
  }

  lemma RequestLeavesPoller(s: Sys, a: Action)
    requires Enabled(s, a) && !OfCall(a) && !ByNotePoller(a)
    ensures SamePoller(s, Apply(s, a))
  {
  }

  lemma SetSegHere(s: Sys, g: Seg)
    requires AtSeg(s)
    ensures Elsewhere(s, SetSeg(s, g), s.noteSeg)
  {
  }

  lemma ResetHere(s: Sys)
    requires Enabled(s, PollReset)
    ensures Elsewhere(s, PollResetStep(s), s.noteSeg)
  {
    hide TakeNote, Waits.At;
  }

  lemma EndHere(s: Sys)
    requires Enabled(s, PollEnd)
    ensures Elsewhere(s, PollEndStep(s), s.noteSeg)
  {
    hide EndPoll;
  }

  /** The poller's own steps touch the segment it is at and no other. */
  lemma OwnStaysHere(s: Sys, a: Action)
    requires Enabled(s, a) && ByNotePoller(a)
    ensures Elsewhere(s, Step(s, a), s.noteSeg)
  {
    hide PollResetStep, PollEndStep;
    if a.PollReset? {
      ResetHere(s);
    } else if a.PollEnd? {
      EndHere(s);
    } else if a.Drain? {
      var g := s.segs[s.noteSeg];
      SetSegHere(s, g.(queue := [], list := g.list + g.queue));
    } else {
      OwnKeepsSegs(s, a);
    }
  }

  lemma OwnKeepsSegs(s: Sys, a: Action)
    requires Enabled(s, a) && (a.Visit? || a.PollHit? || a.PollMiss? || a.Complete? || a.Free?)
    ensures Step(s, a).segs == s.segs
  {
  }

  function ObjOf(l: Live): nat {
    if l.Parked? || l.Completed? then l.obj else 0
  }

  /** The range objects of a list, in order. */
  function Objs(ls: seq<Live>): (objs: seq<nat>)
    ensures |objs| == |ls| && forall i :: 0 <= i < |ls| ==> objs[i] == ObjOf(ls[i])
  {
    seq(|ls|, i requires 0 <= i < |ls| => ObjOf(ls[i]))
  }

  /** The range whose check the step ends. */
  function VisitOf(s: Sys, a: Action): seq<nat> {
    if a == PollEnd && Enabled(s, PollEnd) then [ObjOf(s.segs[s.noteSeg].list[s.notePc.pos])] else []
  }

  /** The range that the step gives back to the pool. */
  function ReleaseOf(s: Sys, a: Action): seq<nat> {
    if a == Free && Enabled(s, Free) then [ObjOf(s.complete[0])] else []
  }

  /** The ranges checked in a run, in order. */
  ghost function Visited(s: Sys, acts: seq<Action>): seq<nat> {
    if acts == [] then [] else
    var n := |acts| - 1;
    Visited(s, acts[..n]) + VisitOf(Run(s, acts[..n]), acts[n])
  }

  /** The ranges given back to the pool in a run, in order. */
  ghost function Released(s: Sys, acts: seq<Action>): seq<nat> {
    if acts == [] then [] else
    var n := |acts| - 1;
    Released(s, acts[..n]) + ReleaseOf(Run(s, acts[..n]), acts[n])
  }

  /** A look of the poller: whether some id of its range was set, and whether it hit. */
  datatype Look = Look(some: bool, hit: bool)

  /** The look that the step takes. */
  ghost function LookOf(s: Sys, a: Action): seq<Look> {
    if (a == PollMiss || a.PollHit?) && Enabled(s, a) then
      var w := WaitAt(s, s.notePc.pos);
      [Look(AnySet(s.segs[s.noteSeg].board, w.first, w.num), a.PollHit?)]
    else []
  }

  /** The looks of the poller in a run, in order. */
  ghost function Looked(s: Sys, acts: seq<Action>): seq<Look> {
    if acts == [] then [] else
    var n := |acts| - 1;
    Looked(s, acts[..n]) + LookOf(Run(s, acts[..n]), acts[n])
  }

  /** Every look hit exactly if some id of its range was set, unless it timed out early. */
  predicate Truthful(looks: seq<Look>, timeouts: nat -> bool) {
    forall k :: 0 <= k < |looks| ==> looks[k].hit == (looks[k].some && !timeouts(k))
  }

  /** The run goes on without a range being checked or released and without a look. */
  ghost predicate SamePast(s: Sys, trace: seq<Action>, longer: seq<Action>) {
    && Visited(s, longer) == Visited(s, trace) && Released(s, longer) == Released(s, trace)
    && Looked(s, longer) == Looked(s, trace)
  }

  /** The run goes on without a range being checked or released; it has now taken the given number of
      looks, all truthful. */
  ghost predicate Scanned(s: Sys, trace: seq<Action>, longer: seq<Action>, timeouts: nat -> bool, looks: nat) {
    && Visited(s, longer) == Visited(s, trace) && Released(s, longer) == Released(s, trace)
    && Sees(s, longer, timeouts, looks)
  }

  ghost predicate Sees(s: Sys, trace: seq<Action>, timeouts: nat -> bool, looks: nat) {
    |Looked(s, trace)| == looks && Truthful(Looked(s, trace), timeouts)
  }

  lemma CountNext(s: Sys, trace: seq<Action>, a: Action)
    ensures Visited(s, trace + [a]) == Visited(s, trace) + VisitOf(Run(s, trace), a)
    ensures Released(s, trace + [a]) == Released(s, trace) + ReleaseOf(Run(s, trace), a)
    ensures Looked(s, trace + [a]) == Looked(s, trace) + LookOf(Run(s, trace), a)
  {
    hide Run, VisitOf, ReleaseOf, LookOf;
    assert (trace + [a])[..|trace|] == trace;
  }

  lemma CountOther(s: Sys, a: Action)
    requires !ByNotePoller(a)
    ensures VisitOf(s, a) == [] == ReleaseOf(s, a) && LookOf(s, a) == []
  {
  }

  /** Everybody but the notification poller performs `acts`. */
  method Others(e: Environment, acts: seq<Action>, ghost s: Sys, ghost trace: seq<Action>) returns (ghost longer: seq<Action>)
    requires e.Valid() && WithoutNotePoller(acts) && e.View() == Run(s, trace)
    modifies e
    ensures e.Valid() && e.View() == Run(s, longer) && longer == trace + acts
    ensures SamePoller(old(e.View()), e.View())
    ensures SamePast(s, trace, longer)
  {
    hide Inv, Step, Run, ByNotePoller, Visited, Released, Looked, VisitOf, ReleaseOf, LookOf, SamePoller;
    SameAtFirst(e.View());
    longer := trace;
    assert trace + acts[..0] == trace;
    var k := 0;
    while k < |acts|
      invariant 0 <= k <= |acts| && e.Valid() && longer == trace + acts[..k]
      invariant e.View() == Run(s, longer) && SamePoller(old(e.View()), e.View())
      invariant SamePast(s, trace, longer)
    {
      OthersLeavePoller(e.View(), acts[k]);
      SameBoth(old(e.View()), e.View(), Step(e.View(), acts[k]));
      RunSnoc(s, longer, acts[k]);
      CountNext(s, longer, acts[k]);
      CountOther(e.View(), acts[k]);
      e.Perform(acts[k]);
      assert trace + acts[..k] + [acts[k]] == trace + acts[..k + 1];
      longer := longer + [acts[k]];
      k := k + 1;
    }
    assert acts[..k] == acts;
  }

  /** One access of the poller itself, which the protocol allows at this point. */
  method Own(e: Environment, a: Action, ghost s: Sys, ghost trace: seq<Action>) returns (ghost longer: seq<Action>)
    requires e.Valid() && ByNotePoller(a) && Enabled(e.View(), a) && e.View() == Run(s, trace)
    modifies e
    ensures e.Valid() && e.View() == Run(s, longer) && longer == trace + [a]
    ensures e.View() == Step(old(e.View()), a) && Elsewhere(old(e.View()), e.View(), old(e.noteSeg))
    ensures Visited(s, longer) == Visited(s, trace) + VisitOf(old(e.View()), a)
    ensures Released(s, longer) == Released(s, trace) + ReleaseOf(old(e.View()), a)
    ensures Looked(s, longer) == Looked(s, trace) + LookOf(old(e.View()), a)
    ensures LookOf(old(e.View()), a) == [] ==> Looked(s, longer) == Looked(s, trace)
  {
    hide Inv, Step, Run, Enabled, Visited, Released, Looked, VisitOf, ReleaseOf, LookOf;
    OwnStaysHere(e.View(), a);
    CountNext(s, trace, a);
    RunSnoc(s, trace, a);
    e.Perform(a);
    longer := trace + [a];
  }

  // ---- The steps of a segment's turn -------------------------------------

  /** The poller is at `pc` in segment `seg`, with the ranges `objs` in its list and the ranges `done`
      to release. */
  ghost predicate Stands(s: Sys, pc: NotePc, seg: nat, objs: seq<nat>, done: seq<nat>) {
    s.notePc == pc && s.noteSeg == seg < |s.segs| && Objs(s.segs[seg].list) == objs && Objs(s.complete) == done
  }

  lemma StayAt(s: Sys, s': Sys, pc: NotePc, seg: nat, objs: seq<nat>, done: seq<nat>)
    requires Stands(s, pc, seg, objs, done) && SamePoller(s, s')
    ensures Stands(s', pc, seg, objs, done)
    ensures forall pos :: 0 <= pos < |objs| ==> WaitAt(s', pos) == WaitAt(s, pos)
  {
  }

  lemma AfterDrain(s: Sys, seg: nat, objs: seq<nat>)
    requires Stands(s, Draining, seg, objs, [])
    ensures Enabled(s, Drain) && Stands(Step(s, Drain), AtRange(0), seg, objs + Objs(s.segs[seg].queue), [])
    ensures VisitOf(s, Drain) == [] == ReleaseOf(s, Drain) && LookOf(s, Drain) == []
  {
    var g := s.segs[seg];
    assert Objs(g.list + g.queue) == Objs(g.list) + Objs(g.queue);
  }

  lemma AfterVisit(s: Sys, pos: nat, seg: nat, objs: seq<nat>, done: seq<nat>)
    requires Stands(s, AtRange(pos), seg, objs, done)
    ensures Enabled(s, Visit)
    ensures Stands(Step(s, Visit), if pos < |objs| then PollLooking(pos) else Releasing, seg, objs, done)
    ensures VisitOf(s, Visit) == [] == ReleaseOf(s, Visit) && LookOf(s, Visit) == []
  {
  }

  lemma AfterPollLook(s: Sys, look: Action, pos: nat, seg: nat, objs: seq<nat>, done: seq<nat>)
    requires Stands(s, PollLooking(pos), seg, objs, done) && (look == PollMiss || look.PollHit?) && Enabled(s, look)
    ensures Stands(Step(s, look), if look.PollHit? then PollResetting(pos, look.id) else PollChecked(pos), seg, objs, done)
    ensures Step(s, look).segs == s.segs && VisitOf(s, look) == [] == ReleaseOf(s, look)
    ensures var w := WaitAt(s, pos); LookOf(s, look) == [Look(AnySet(s.segs[seg].board, w.first, w.num), look.PollHit?)]
  {
  }

  lemma AfterPollReset(s: Sys, id: nat, pos: nat, seg: nat, objs: seq<nat>, done: seq<nat>)
    requires Stands(s, PollResetting(pos, id), seg, objs, done) && pos < |objs|
    ensures Enabled(s, PollReset) && VisitOf(s, PollReset) == [] == ReleaseOf(s, PollReset) && LookOf(s, PollReset) == []
    ensures var w, value, s' := WaitAt(s, pos), At(s.segs[seg].board, id), Step(s, PollReset);
            && Stands(s', if value != 0 && w.rem > 1 then PollLooking(pos) else PollChecked(pos), seg, objs, done)
            && WaitAt(s', pos).rem == if value != 0 then w.rem - 1 else w.rem
  {
    assert Objs(Step(s, PollReset).segs[seg].list) == objs;
  }

  lemma AfterPollEnd(s: Sys, pos: nat, seg: nat, objs: seq<nat>, done: seq<nat>)
    requires Stands(s, PollChecked(pos), seg, objs, done) && pos < |objs|
    ensures Enabled(s, PollEnd) && VisitOf(s, PollEnd) == [objs[pos]] && ReleaseOf(s, PollEnd) == [] && LookOf(s, PollEnd) == []
    ensures if WaitAt(s, pos).rem == 0 then
              Stands(Step(s, PollEnd), AtRange(pos), seg, objs[..pos] + objs[pos + 1..], done + [objs[pos]])
            else Stands(Step(s, PollEnd), AtRange(pos + 1), seg, objs, done)
  {
    var g := s.segs[seg];
    var s' := Step(s, PollEnd);
    if WaitAt(s, pos).rem == 0 {
      assert Objs(g.list[..pos] + g.list[pos + 1..]) == objs[..pos] + objs[pos + 1..];
      assert Objs(s'.complete) == done + [objs[pos]];
    } else {
      assert Objs(s'.segs[seg].list) == objs;
    }
  }

  lemma AfterRelease(s: Sys, seg: nat, objs: seq<nat>, done: seq<nat>)
    requires Inv(s) && Stands(s, Releasing, seg, objs, done) && done != []
    ensures Enabled(s, Complete) && Stands(Step(s, Complete), Freeing, seg, objs, done)
    ensures VisitOf(s, Complete) == [] == ReleaseOf(s, Complete) && LookOf(s, Complete) == []
  {
    hide Inv, Objs;
    NoObjs(s.complete);
    FirstIsParked(s);
    SameObjs(s.complete, CompleteStep(s).complete);
  }

  lemma SameObjs(ls: seq<Live>, ls': seq<Live>)
    requires |ls'| == |ls| && forall i :: 0 <= i < |ls| ==> ObjOf(ls'[i]) == ObjOf(ls[i])
    ensures Objs(ls') == Objs(ls)
  {
  }

  lemma TailObjs(ls: seq<Live>)
    requires ls != []
    ensures Objs(ls[1..]) == Objs(ls)[1..] && Objs(ls)[0] == ObjOf(ls[0])
  {
  }

  lemma FirstIsCompleted(s: Sys)
    requires Inv(s) && s.notePc == Freeing
    ensures s.complete != [] && s.complete[0].Completed?
  {
    assert CompleteOk(s) && NotePcOk(s);
    assert Finished(s.complete[0]);
  }

  lemma FirstIsParked(s: Sys)
    requires Inv(s) && s.notePc == Releasing && s.complete != []
    ensures s.complete[0].Parked?
  {
    assert CompleteOk(s);
    assert Finished(s.complete[0]) && !s.complete[0].Completed?;
  }

  lemma AfterLastRelease(s: Sys, seg: nat, objs: seq<nat>)
    requires Stands(s, Releasing, seg, objs, [])
    ensures Enabled(s, Complete) && VisitOf(s, Complete) == [] == ReleaseOf(s, Complete) && LookOf(s, Complete) == []
    ensures Step(s, Complete).notePc == Draining && Step(s, Complete).complete == [] && Step(s, Complete).segs == s.segs
    ensures Step(s, Complete).noteSeg == if seg + 1 < |s.segs| then seg + 1 else 0
  {
  }

  lemma AfterFree(s: Sys, seg: nat, objs: seq<nat>, done: seq<nat>)
    requires Inv(s) && Stands(s, Freeing, seg, objs, done)
    ensures done != [] && Enabled(s, Free) && Stands(Step(s, Free), Releasing, seg, objs, done[1..])
    ensures VisitOf(s, Free) == [] && ReleaseOf(s, Free) == [done[0]] && LookOf(s, Free) == []
  {
    hide Inv, Objs;
    FirstIsCompleted(s);
    TailObjs(s.complete);
    NoObjs(s.complete);
  }

  lemma NoObjs(ls: seq<Live>)
    ensures |Objs(ls)| == |ls|
  {
  }

  lemma PositionOk(s: Sys, pos: nat, seg: nat, objs: seq<nat>, done: seq<nat>)
    requires Inv(s) && Stands(s, PollLooking(pos), seg, objs, done)
    ensures pos < |objs| && WaitAt(s, pos).rem > 0
  {
  }

  // ---- The code of the notification poller --------------------------------

  lemma ListAt(s: Sys, pc: NotePc, seg: nat, objs: seq<nat>, done: seq<nat>)
    requires Stands(s, pc, seg, objs, done)
    ensures s.notePc == pc && s.noteSeg == seg < |s.segs| && Objs(s.segs[seg].list) == objs && Objs(s.complete) == done
  {
  }

  /** Interference while the poller is at work on a segment. */
  method WanderAt(e: Environment, acts: seq<Action>, ghost pc: NotePc, ghost pos: nat, ghost seg: nat, ghost objs: seq<nat>, ghost done: seq<nat>,
                  ghost s: Sys, ghost trace: seq<Action>)
    returns (ghost longer: seq<Action>)
    requires e.Valid() && WithoutNotePoller(acts) && e.View() == Run(s, trace)
    requires Stands(e.View(), pc, seg, objs, done)
    modifies e
    ensures e.Valid() && e.View() == Run(s, longer) && Stands(e.View(), pc, seg, objs, done)
    ensures Elsewhere(old(e.View()), e.View(), seg) && QueueGrows(old(e.View()), e.View(), seg)
    ensures SamePast(s, trace, longer)
    ensures pos < |objs| ==> AtPos(old(e.View()), pos) && AtPos(e.View(), pos) && WaitAt(e.View(), pos) == WaitAt(old(e.View()), pos)
  {
    hide Inv, Run, WithoutNotePoller, Visited, Released, Looked, VisitOf, ReleaseOf, LookOf;
    longer := Others(e, acts, s, trace);
    StayAt(old(e.View()), e.View(), pc, seg, objs, done);
  }

  ghost predicate QueueGrows(s: Sys, s': Sys, seg: nat) {
    seg < |s.segs| == |s'.segs| && s.segs[seg].queue <= s'.segs[seg].queue
  }

  /** gaspi_notify_waitsome for the range at `pos`, which may time out early. */
  method LookForRange(e: Environment, timeouts: nat -> bool, looks: nat, pos: nat, ghost seg: nat, ghost objs: seq<nat>, ghost done: seq<nat>,
                      ghost s: Sys, ghost trace: seq<Action>)
    returns (found: bool, id: nat, ghost longer: seq<Action>)
    requires e.Valid() && Stands(e.View(), PollLooking(pos), seg, objs, done) && pos < |objs| && e.View() == Run(s, trace)
    requires Sees(s, trace, timeouts, looks)
    modifies e
    ensures e.Valid() && e.View() == Run(s, longer) && Elsewhere(old(e.View()), e.View(), seg)
    ensures Stands(e.View(), if found then PollResetting(pos, id) else PollChecked(pos), seg, objs, done)
    ensures Scanned(s, trace, longer, timeouts, looks + 1)
    ensures AtPos(e.View(), pos) && AtPos(old(e.View()), pos) && WaitAt(e.View(), pos) == WaitAt(old(e.View()), pos)
  {
    hide Inv, Run, Step, Visited, Released, Looked, VisitOf, ReleaseOf, LookOf, Elsewhere;
    var w := e.segs[e.noteSeg].list[pos].w;
    if k: nat :| w.first <= k < w.first + w.num && At(e.segs[e.noteSeg].board, k) != 0 {
      assert AnySet(e.segs[e.noteSeg].board, w.first, w.num);
      if !timeouts(looks) {
        AfterPollLook(e.View(), PollHit(k), pos, seg, objs, done);
        longer := Own(e, PollHit(k), s, trace);
        return true, k, longer;
      }
    }
    AfterPollLook(e.View(), PollMiss, pos, seg, objs, done);
    longer := Own(e, PollMiss, s, trace);
    return false, 0, longer;
  }

  /** The scan of the range at `pos`; `env(k)` is what the others do before the k-th access. */
  method ScanRange(e: Environment, env: nat -> seq<Action>, timeouts: nat -> bool, start: nat, looked: nat, pos: nat,
                   ghost objs: seq<nat>, ghost done: seq<nat>, ghost s: Sys, ghost trace: seq<Action>)
    returns (clock: nat, looks: nat, ghost longer: seq<Action>)
    requires e.Valid() && Stands(e.View(), PollLooking(pos), e.noteSeg, objs, done) && e.View() == Run(s, trace)
    requires Sees(s, trace, timeouts, looked) && forall k :: WithoutNotePoller(env(k))
    modifies e
    ensures e.Valid() && e.View() == Run(s, longer) && Elsewhere(old(e.View()), e.View(), old(e.noteSeg))
    ensures pos < |objs| && Stands(e.View(), PollChecked(pos), old(e.noteSeg), objs, done)
    ensures Scanned(s, trace, longer, timeouts, looks)
  {
    hide Inv, Step, Run, Enabled, Stands, WithoutNotePoller, Visited, Released, Looked, VisitOf, ReleaseOf, LookOf, Elsewhere;
    var seg := e.noteSeg;
    SameAtFirst(e.View());
    PositionOk(e.View(), pos, seg, objs, done);
    ListAt(e.View(), PollLooking(pos), seg, objs, done);
    var cont := true;
    var remaining := e.segs[seg].list[pos].w.rem;
    clock, looks, longer := start, looked, trace;
    while cont && remaining > 0
      invariant e.Valid() && e.View() == Run(s, longer) && pos < |objs| && Elsewhere(old(e.View()), e.View(), seg)
      invariant Stands(e.View(), if cont && remaining > 0 then PollLooking(pos) else PollChecked(pos), seg, objs, done)
      invariant cont && remaining > 0 ==> AtPos(e.View(), pos) && WaitAt(e.View(), pos).rem == remaining
      invariant Scanned(s, trace, longer, timeouts, looks)
      decreases remaining, cont
    {
      ghost var before := e.View();
      longer := WanderAt(e, env(clock), PollLooking(pos), pos, seg, objs, done, s, longer);
      ElsewhereBoth(old(e.View()), before, e.View(), seg);
      clock := clock + 1;
      cont := false;
      before := e.View();
      var found, id;
      found, id, longer := LookForRange(e, timeouts, looks, pos, seg, objs, done, s, longer);
      looks := looks + 1;
      ElsewhereBoth(old(e.View()), before, e.View(), seg);
      if found {
        var value;
        clock, value, longer := ResetForRange(e, env, clock, id, pos, seg, objs, done, s, longer, old(e.View()));
        if value != 0 {
          remaining := remaining - 1;
          cont := true;
        }
      }
    }
  }

  /** gaspi_notify_reset for the range at `pos`. */
  method ResetForRange(e: Environment, env: nat -> seq<Action>, start: nat, ghost id: nat, ghost pos: nat, ghost seg: nat,
                       ghost objs: seq<nat>, ghost done: seq<nat>, ghost s: Sys, ghost trace: seq<Action>, ghost origin: Sys)
    returns (clock: nat, value: nat, ghost longer: seq<Action>)
    requires e.Valid() && Stands(e.View(), PollResetting(pos, id), seg, objs, done) && pos < |objs| && e.View() == Run(s, trace)
    requires WithoutNotePoller(env(start)) && Elsewhere(origin, e.View(), seg)
    modifies e
    ensures e.Valid() && e.View() == Run(s, longer) && Elsewhere(origin, e.View(), seg)
    ensures AtPos(old(e.View()), pos) && AtPos(e.View(), pos)
    ensures var rem := WaitAt(old(e.View()), pos).rem;
            && Stands(e.View(), if value != 0 && rem > 1 then PollLooking(pos) else PollChecked(pos), seg, objs, done)
            && WaitAt(e.View(), pos).rem == if value != 0 then rem - 1 else rem
    ensures SamePast(s, trace, longer)
  {
    hide Inv, Step, Run, Enabled, WithoutNotePoller, Visited, Released, Looked, VisitOf, ReleaseOf, LookOf, Elsewhere;
    longer := WanderAt(e, env(start), PollResetting(pos, id), pos, seg, objs, done, s, trace);
    ElsewhereBoth(origin, old(e.View()), e.View(), seg);
    clock := start + 1;
    ghost var before := e.View();
    value := At(e.segs[e.noteSeg].board, e.notePc.id);
    AfterPollReset(e.View(), id, pos, seg, objs, done);
    longer := Own(e, PollReset, s, longer);
    ElsewhereBoth(origin, before, e.View(), seg);
  }

  /** `found` splits into `kept` and `freed`, both in order. */
  ghost predicate StableSplit(found: seq<nat>, kept: seq<nat>, freed: seq<nat>) {
    if found == [] then kept == [] && freed == [] else
    var n, x := |found| - 1, found[|found| - 1];
    || (kept != [] && kept[|kept| - 1] == x && StableSplit(found[..n], kept[..|kept| - 1], freed))
    || (freed != [] && freed[|freed| - 1] == x && StableSplit(found[..n], kept, freed[..|freed| - 1]))
  }

  lemma SplitNothing()
    ensures StableSplit([], [], [])
  {
  }

  lemma SplitNext(found: seq<nat>, kept: seq<nat>, freed: seq<nat>, x: nat)
    requires StableSplit(found, kept, freed)
    ensures StableSplit(found + [x], kept + [x], freed) && StableSplit(found + [x], kept, freed + [x])
  {
    assert (found + [x])[..|found|] == found && (kept + [x])[..|kept|] == kept && (freed + [x])[..|freed|] == freed;
  }

  /** The loop has split the first ranges of `found` and has the others still before it. */
  ghost predicate Halfway(found: seq<nat>, objs: seq<nat>, it: nat, done: seq<nat>) {
    && it <= |objs| && it + |done| <= |found| && objs[it..] == found[it + |done|..]
    && StableSplit(found[..it + |done|], objs[..it], done)
  }

  lemma HalfwayStart(found: seq<nat>)
    ensures Halfway(found, found, 0, [])
  {
    assert found[..0] == [];
    SplitNothing();
  }

  lemma HalfwayNext(found: seq<nat>, objs: seq<nat>, it: nat, done: seq<nat>)
    requires Halfway(found, objs, it, done) && it < |objs|
    ensures it + |done| < |found| && objs[it] == found[it + |done|]
    ensures found[..it + |done|] + [objs[it]] == found[..it + |done| + 1]
    ensures objs[it + 1..] == found[it + |done| + 1..]
  {
    hide StableSplit;
    var n := it + |done|;
    assert objs[it..][0] == objs[it] && found[n..][0] == found[n];
    assert objs[it + 1..] == objs[it..][1..] && found[n + 1..] == found[n..][1..];
  }

  lemma HalfwayKept(found: seq<nat>, objs: seq<nat>, it: nat, done: seq<nat>)
    requires Halfway(found, objs, it, done) && it < |objs|
    ensures Halfway(found, objs, it + 1, done)
  {
    hide StableSplit;
    HalfwayNext(found, objs, it, done);
    SplitNext(found[..it + |done|], objs[..it], done, objs[it]);
    assert objs[..it + 1] == objs[..it] + [objs[it]];
  }

  lemma HalfwayErased(found: seq<nat>, objs: seq<nat>, it: nat, done: seq<nat>)
    requires Halfway(found, objs, it, done) && it < |objs|
    ensures Halfway(found, objs[..it] + objs[it + 1..], it, done + [objs[it]])
  {
    hide StableSplit;
    HalfwayNext(found, objs, it, done);
    SplitNext(found[..it + |done|], objs[..it], done, objs[it]);
    var objs' := objs[..it] + objs[it + 1..];
    assert objs'[..it] == objs[..it] && objs'[it..] == objs[it + 1..];
  }

  lemma HalfwayEnd(found: seq<nat>, objs: seq<nat>, it: nat, done: seq<nat>)
    requires Halfway(found, objs, it, done) && it == |objs|
    ensures it + |done| == |found| && StableSplit(found, objs, done)
  {
    assert objs[it..] == [];
    assert found[..|found|] == found && objs[..|objs|] == objs;
  }

  /** The loop over the list that erases finished ranges: it checks every range once, in order, and
      splits them into those that stay and those to release. */
  method CheckList(e: Environment, env: nat -> seq<Action>, timeouts: nat -> bool, start: nat, looked: nat,
                   ghost found: seq<nat>, ghost s: Sys, ghost trace: seq<Action>)
    returns (clock: nat, looks: nat, ghost objs: seq<nat>, ghost done: seq<nat>, ghost longer: seq<Action>)
    requires e.Valid() && Stands(e.View(), AtRange(0), e.noteSeg, found, []) && e.View() == Run(s, trace)
    requires Sees(s, trace, timeouts, looked) && forall k :: WithoutNotePoller(env(k))
    modifies e
    ensures e.Valid() && e.View() == Run(s, longer) && Elsewhere(old(e.View()), e.View(), old(e.noteSeg))
    ensures Stands(e.View(), Releasing, old(e.noteSeg), objs, done) && StableSplit(found, objs, done)
    ensures Visited(s, longer) == Visited(s, trace) + found && Released(s, longer) == Released(s, trace)
    ensures Sees(s, longer, timeouts, looks)
  {
    hide Inv, Step, Run, Enabled, Stands, WithoutNotePoller, Visited, Released, Looked, Truthful, VisitOf, ReleaseOf, LookOf, Elsewhere, Halfway, StableSplit;
    var seg := e.noteSeg;
    clock, looks, objs, done := start, looked, found, [];
    SameAtFirst(e.View());
    longer := NextRange(e, 0, seg, objs, done, s, trace, e.View());
    HalfwayStart(found);
    var it := 0;
    ghost var n := 0;
    while it < |e.segs[seg].list|
      invariant e.Valid() && e.View() == Run(s, longer) && seg < |e.segs| && |e.segs[seg].list| == |objs| && e.noteSeg == seg
      invariant 0 <= it <= |objs| && n == it + |done| <= |found| && Elsewhere(old(e.View()), e.View(), seg)
      invariant Stands(e.View(), if it < |objs| then PollLooking(it) else Releasing, seg, objs, done)
      invariant Halfway(found, objs, it, done)
      invariant Visited(s, longer) == Visited(s, trace) + found[..n] && Released(s, longer) == Released(s, trace)
      invariant Sees(s, longer, timeouts, looks)
      decreases |found| - n
    {
      HalfwayNext(found, objs, it, done);
      var finished;
      clock, looks, finished, longer := CheckOne(e, env, timeouts, clock, looks, it, seg, objs, done, s, longer, old(e.View()));
      if finished {
        HalfwayErased(found, objs, it, done);
        objs, done := objs[..it] + objs[it + 1..], done + [objs[it]];
      } else {
        HalfwayKept(found, objs, it, done);
        it := it + 1;
      }
      n := n + 1;
      longer := NextRange(e, it, seg, objs, done, s, longer, old(e.View()));
    }
    HalfwayEnd(found, objs, it, done);
    assert found[..n] == found;
  }

  /** The check of the range at `it`, and its erasure if it is finished. */
  method CheckOne(e: Environment, env: nat -> seq<Action>, timeouts: nat -> bool, start: nat, looked: nat, it: nat, seg: nat,
                  ghost objs: seq<nat>, ghost done: seq<nat>, ghost s: Sys, ghost trace: seq<Action>, ghost origin: Sys)
    returns (clock: nat, looks: nat, finished: bool, ghost longer: seq<Action>)
    requires e.Valid() && e.noteSeg == seg && Stands(e.View(), PollLooking(it), seg, objs, done) && e.View() == Run(s, trace)
    requires Sees(s, trace, timeouts, looked) && Elsewhere(origin, e.View(), seg) && forall k :: WithoutNotePoller(env(k))
    modifies e
    ensures e.Valid() && e.View() == Run(s, longer) && Elsewhere(origin, e.View(), seg) && it < |objs|
    ensures if finished then Stands(e.View(), AtRange(it), seg, objs[..it] + objs[it + 1..], done + [objs[it]])
            else Stands(e.View(), AtRange(it + 1), seg, objs, done)
    ensures Visited(s, longer) == Visited(s, trace) + [objs[it]] && Released(s, longer) == Released(s, trace)
    ensures Sees(s, longer, timeouts, looks)
  {
    hide Inv, Step, Run, Enabled, Stands, WithoutNotePoller, Visited, Released, Looked, Truthful, VisitOf, ReleaseOf, LookOf, Elsewhere;
    clock, looks, longer := ScanRange(e, env, timeouts, start, looked, it, objs, done, s, trace);
    ElsewhereBoth(origin, old(e.View()), e.View(), seg);
    ListAt(e.View(), PollChecked(it), seg, objs, done);
    finished := e.segs[seg].list[it].w.rem == 0;
    AfterPollEnd(e.View(), it, seg, objs, done);
    ghost var before := e.View();
    longer := Own(e, PollEnd, s, longer);
    ElsewhereBoth(origin, before, e.View(), seg);
  }

  /** The test of the iterator. */
  method NextRange(e: Environment, ghost it: nat, ghost seg: nat, ghost objs: seq<nat>, ghost done: seq<nat>, ghost s: Sys, ghost trace: seq<Action>,
                   ghost origin: Sys)
    returns (ghost longer: seq<Action>)
    requires e.Valid() && Stands(e.View(), AtRange(it), seg, objs, done) && e.View() == Run(s, trace) && Elsewhere(origin, e.View(), seg)
    modifies e
    ensures e.Valid() && e.View() == Run(s, longer) && Elsewhere(origin, e.View(), seg)
    ensures Stands(e.View(), if it < |objs| then PollLooking(it) else Releasing, seg, objs, done)
    ensures e.noteSeg == seg < |e.segs| && |e.segs[seg].list| == |objs|
    ensures SamePast(s, trace, longer)
  {
    hide Inv, Step, Run, Enabled, Visited, Released, Looked, VisitOf, ReleaseOf, LookOf, Elsewhere;
    AfterVisit(e.View(), it, seg, objs, done);
    longer := Own(e, Visit, s, trace);
    ElsewhereBoth(origin, old(e.View()), e.View(), seg);
  }

  /** The loop that completes and frees the finished ranges, in order, and the step to the next
      segment. */
  method ReleaseAll(e: Environment, env: nat -> seq<Action>, start: nat, ghost objs: seq<nat>, ghost done0: seq<nat>, ghost s: Sys, ghost trace: seq<Action>)
    returns (clock: nat, ghost longer: seq<Action>)
    requires e.Valid() && Stands(e.View(), Releasing, e.noteSeg, objs, done0) && e.View() == Run(s, trace)
    requires forall k :: WithoutNotePoller(env(k))
    modifies e
    ensures e.Valid() && e.View() == Run(s, longer) && Elsewhere(old(e.View()), e.View(), old(e.noteSeg))
    ensures e.notePc == Draining && e.complete == []
    ensures e.noteSeg == if old(e.noteSeg) + 1 < |e.segs| then old(e.noteSeg) + 1 else 0
    ensures old(e.noteSeg) < |e.segs| && Objs(e.segs[old(e.noteSeg)].list) == objs
    ensures Visited(s, longer) == Visited(s, trace) && Released(s, longer) == Released(s, trace) + done0
    ensures Looked(s, longer) == Looked(s, trace)
  {
    hide Inv, Step, Run, Enabled, Stands, WithoutNotePoller, Visited, Released, Looked, VisitOf, ReleaseOf, LookOf, Elsewhere;
    var seg := e.noteSeg;
    ghost var n := 0;
    clock, longer := start, trace;
    SameAtFirst(e.View());
    assert done0[0..] == done0;
    ListAt(e.View(), Releasing, seg, objs, done0);
    while e.complete != []
      invariant e.Valid() && e.View() == Run(s, longer) && n <= |done0| && |e.complete| == |done0| - n
      invariant Elsewhere(old(e.View()), e.View(), seg) && Stands(e.View(), Releasing, seg, objs, done0[n..])
      invariant Visited(s, longer) == Visited(s, trace) && Released(s, longer) == Released(s, trace) + done0[..n]
      invariant Looked(s, longer) == Looked(s, trace)
      decreases |done0| - n
    {
      assert done0[n..][0] == done0[n] && done0[n..][1..] == done0[n + 1..] && done0[..n] + [done0[n]] == done0[..n + 1];
      clock, longer := ReleaseOne(e, env, clock, seg, objs, done0[n..], s, longer, old(e.View()));
      n := n + 1;
      ListAt(e.View(), Releasing, seg, objs, done0[n..]);
    }
    assert done0[..n] == done0;
    ListAt(e.View(), Releasing, seg, objs, done0[n..]);
    AfterLastRelease(e.View(), seg, objs);
    ghost var before := e.View();
    longer := Own(e, Complete, s, longer);
    ElsewhereBoth(old(e.View()), before, e.View(), seg);
  }

  /** complete() and free() of one range. */
  method ReleaseOne(e: Environment, env: nat -> seq<Action>, start: nat, ghost seg: nat, ghost objs: seq<nat>, ghost done: seq<nat>,
                    ghost s: Sys, ghost trace: seq<Action>, ghost origin: Sys)
    returns (clock: nat, ghost longer: seq<Action>)
    requires e.Valid() && done != [] && Stands(e.View(), Releasing, seg, objs, done) && e.View() == Run(s, trace)
    requires Elsewhere(origin, e.View(), seg) && forall k :: WithoutNotePoller(env(k))
    modifies e
    ensures e.Valid() && e.View() == Run(s, longer) && Elsewhere(origin, e.View(), seg)
    ensures Stands(e.View(), Releasing, seg, objs, done[1..])
    ensures Visited(s, longer) == Visited(s, trace) && Released(s, longer) == Released(s, trace) + [done[0]]
    ensures Looked(s, longer) == Looked(s, trace)
  {
    hide Inv, Step, Run, Enabled, Stands, WithoutNotePoller, Visited, Released, Looked, VisitOf, ReleaseOf, LookOf, Elsewhere;
    ListAt(e.View(), Releasing, seg, objs, done);
    AfterRelease(e.View(), seg, objs, done);
    longer := Own(e, Complete, s, trace);
    ElsewhereBoth(origin, old(e.View()), e.View(), seg);
    ghost var before := e.View();
    longer := WanderAt(e, env(start), Freeing, |objs|, seg, objs, done, s, longer);
    ElsewhereBoth(origin, before, e.View(), seg);
    ListAt(e.View(), Freeing, seg, objs, done);
    AfterFree(e.View(), seg, objs, done);
    before := e.View();
    longer := Own(e, Free, s, longer);
    ElsewhereBoth(origin, before, e.View(), seg);
    before := e.View();
    longer := WanderAt(e, env(start + 1), Releasing, |objs|, seg, objs, done[1..], s, longer);
    ElsewhereBoth(origin, before, e.View(), seg);
    clock := start + 2;
  }

  lemma EmptyHanded(s: Sys)
    requires Inv(s) && s.notePc == Draining && s.noteSeg < |s.segs|
    ensures Stands(s, Draining, s.noteSeg, Objs(s.segs[s.noteSeg].list), [])
  {
    assert NotePcOk(s);
  }

  /** What a turn did, by range object: the ranges it found, those that stay in the list and those it
      released. */
  datatype SegmentTurn = SegmentTurn(found: seq<nat>, kept: seq<nat>, freed: seq<nat>)

  /** One segment's turn: what was in its list and queue comes first among the ranges found; they are
      checked in order, and split in order into the new list and the ranges released. */
  method PollSegment(e: Environment, env: nat -> seq<Action>, timeouts: nat -> bool, start: nat, looked: nat, ghost s: Sys, ghost trace: seq<Action>)
    returns (clock: nat, looks: nat, ghost turn: SegmentTurn, ghost longer: seq<Action>)
    requires e.Valid() && e.notePc == Draining && e.noteSeg < |e.segs| && e.View() == Run(s, trace)
    requires Sees(s, trace, timeouts, looked) && forall k :: WithoutNotePoller(env(k))
    modifies e
    ensures e.Valid() && e.View() == Run(s, longer) && Elsewhere(old(e.View()), e.View(), old(e.noteSeg))
    ensures e.notePc == Draining && e.complete == []
    ensures e.noteSeg == if old(e.noteSeg) + 1 < |e.segs| then old(e.noteSeg) + 1 else 0
    ensures old(e.noteSeg) < |e.segs| && Turned(turn, old(InLine(e.View(), e.noteSeg)), Objs(e.segs[old(e.noteSeg)].list))
    ensures Visited(s, longer) == Visited(s, trace) + turn.found && Released(s, longer) == Released(s, trace) + turn.freed
    ensures Sees(s, longer, timeouts, looks)
  {
    hide Inv, Step, Run, Enabled, Stands, WithoutNotePoller, Visited, Released, Looked, Truthful, VisitOf, ReleaseOf, LookOf, Elsewhere, StableSplit, Turned,
      Objs, QueueGrows;
    var seg := e.noteSeg;
    EmptyHanded(e.View());
    SameAtFirst(e.View());
    ghost var objs := Objs(e.segs[seg].list);
    longer := WanderAt(e, env(start), Draining, |objs|, seg, objs, [], s, trace);
    ListAt(e.View(), Draining, seg, objs, []);
    LineGrows(old(e.View()), e.View(), seg);
    clock := start + 1;
    AfterDrain(e.View(), seg, objs);
    ghost var found := objs + Objs(e.segs[seg].queue);
    ghost var before := e.View();
    longer := Own(e, Drain, s, longer);
    ElsewhereBoth(old(e.View()), before, e.View(), seg);
    ListAt(e.View(), AtRange(0), seg, found, []);
    before := e.View();
    ghost var kept, freed;
    clock, looks, kept, freed, longer := CheckList(e, env, timeouts, clock, looked, found, s, longer);
    ElsewhereBoth(old(e.View()), before, e.View(), seg);
    ListAt(e.View(), Releasing, seg, kept, freed);
    before := e.View();
    clock, longer := ReleaseAll(e, env, clock, kept, freed, s, longer);
    ElsewhereBoth(old(e.View()), before, e.View(), seg);
    turn := SegmentTurn(found, kept, freed);
    MakeTurned(turn, old(InLine(e.View(), e.noteSeg)), kept);
  }

  lemma MakeTurned(turn: SegmentTurn, line: seq<nat>, list: seq<nat>)
    requires line <= turn.found && turn.kept == list && StableSplit(turn.found, turn.kept, turn.freed)
    ensures Turned(turn, line, list)
  {
  }

  /** The ranges in a segment's list and, behind them, in its queue. */
  ghost function InLine(s: Sys, seg: nat): seq<nat>
    requires seg < |s.segs|
  {
    Objs(s.segs[seg].list) + Objs(s.segs[seg].queue)
  }

  lemma LineGrows(s: Sys, s': Sys, seg: nat)
    requires QueueGrows(s, s', seg) && Objs(s'.segs[seg].list) == Objs(s.segs[seg].list)
    ensures InLine(s, seg) <= InLine(s', seg)
  {
    var q, q' := s.segs[seg].queue, s'.segs[seg].queue;
    assert forall i :: 0 <= i < |q| ==> q'[i] == q[i];
    assert Objs(q) <= Objs(q');
  }

  /** The turn began with at least the given line and left the given list. */
  ghost predicate Turned(turn: SegmentTurn, line: seq<nat>, list: seq<nat>) {
    line <= turn.found && turn.kept == list && StableSplit(turn.found, turn.kept, turn.freed)
  }

  ghost function AllFound(turns: seq<SegmentTurn>): seq<nat> {
    if turns == [] then [] else AllFound(turns[..|turns| - 1]) + turns[|turns| - 1].found
  }

  ghost function AllFreed(turns: seq<SegmentTurn>): seq<nat> {
    if turns == [] then [] else AllFreed(turns[..|turns| - 1]) + turns[|turns| - 1].freed
  }

  lemma TurnsNext(turns: seq<SegmentTurn>, turn: SegmentTurn)
    ensures AllFound(turns + [turn]) == AllFound(turns) + turn.found
    ensures AllFreed(turns + [turn]) == AllFreed(turns) + turn.freed
  {
    assert (turns + [turn])[..|turns|] == turns;
  }

  /** Segments before `seg` have had their turn, the others at most got new ranges. */
  ghost predicate PassAt(s: Sys, s': Sys, turns: seq<SegmentTurn>, seg: nat) {
    && |s'.segs| == |s.segs| && |turns| == seg <= |s.segs|
    && (forall i :: 0 <= i < seg ==> Turned(turns[i], InLine(s, i), Objs(s'.segs[i].list)))
    && (forall i :: seg <= i < |s.segs| ==> InLine(s, i) <= InLine(s', i))
  }

  lemma PassNext(s: Sys, mid: Sys, s': Sys, turns: seq<SegmentTurn>, seg: nat, turn: SegmentTurn)
    requires PassAt(s, mid, turns, seg) && seg < |s.segs| && Elsewhere(mid, s', seg)
    requires Turned(turn, InLine(mid, seg), Objs(s'.segs[seg].list))
    ensures PassAt(s, s', turns + [turn], seg + 1)
  {
    hide StableSplit;
    forall i | 0 <= i < seg + 1 ensures Turned((turns + [turn])[i], InLine(s, i), Objs(s'.segs[i].list)) {
      if i == seg {
        assert InLine(s, i) <= InLine(mid, i);
      }
    }
    forall i | seg + 1 <= i < |s.segs| ensures InLine(s, i) <= InLine(s', i) {
      assert InLine(s, i) <= InLine(mid, i);
      LineGrows(mid, s', i);
    }
  }

  /** pollNotifications(): a pass ends however busy the others are. Segment by segment it checks, in
      order, the ranges that were waiting when the pass began and any that came before the segment's
      turn, and splits them in order into the segment's new list and those it releases; it checks and
      releases no others. Its k-th look hits exactly if some id of the range it is at is set, unless
      the look times out early. */
  method PollNotifications(e: Environment, env: nat -> seq<Action>, timeouts: nat -> bool)
    returns (ghost turns: seq<SegmentTurn>, ghost trace: seq<Action>)
    requires e.Valid() && e.notePc == Draining && e.noteSeg == 0 < |e.segs|
    requires forall k :: WithoutNotePoller(env(k))
    modifies e
    ensures e.Valid() && e.View() == Run(old(e.View()), trace)
    ensures e.notePc == Draining && e.noteSeg == 0
    ensures PassAt(old(e.View()), e.View(), turns, old(|e.segs|))
    ensures Visited(old(e.View()), trace) == AllFound(turns) && Released(old(e.View()), trace) == AllFreed(turns)
    ensures Truthful(Looked(old(e.View()), trace), timeouts)
  {
    hide Inv, Step, Run, WithoutNotePoller, Visited, Released, Looked, VisitOf, ReleaseOf, LookOf, Elsewhere, AllFound, AllFreed, PassAt, Turned;
    turns, trace := [], [];
    NothingYet(e.View());
    var seg, clock, looks := 0, 0, 0;
    while seg < |e.segs|
      invariant 0 <= seg <= |e.segs| == old(|e.segs|)
      invariant e.Valid() && e.View() == Run(old(e.View()), trace) && PassAt(old(e.View()), e.View(), turns, seg)
      invariant e.notePc == Draining && e.noteSeg == if seg < |e.segs| then seg else 0
      invariant Visited(old(e.View()), trace) == AllFound(turns) && Released(old(e.View()), trace) == AllFreed(turns)
      invariant Sees(old(e.View()), trace, timeouts, looks)
      decreases old(|e.segs|) - seg
    {
      ghost var mid := e.View();
      ghost var turn;
      clock, looks, turn, trace := PollSegment(e, env, timeouts, clock, looks, old(e.View()), trace);
      PassNext(old(e.View()), mid, e.View(), turns, seg, turn);
      PassSegs(old(e.View()), e.View(), turns + [turn], seg + 1);
      TurnsNext(turns, turn);
      turns := turns + [turn];
      seg := seg + 1;
    }
  }

  lemma PassSegs(s: Sys, s': Sys, turns: seq<SegmentTurn>, seg: nat)
    requires PassAt(s, s', turns, seg)
    ensures |s'.segs| == |s.segs|
  {
  }

  lemma NothingYet(s: Sys)
    ensures Run(s, []) == s && PassAt(s, s, [], 0)
    ensures Visited(s, []) == AllFound([]) && Released(s, []) == AllFreed([]) && Looked(s, []) == []
  {
  }

  // ---- The code of a queue poller -----------------------------------------

  predicate ByPoller(a: Action, p: nat) {
    match a
    case Fetch(i, _) => i == p
    case Lower(i) => i == p
    case _ => false
  }

  predicate WithoutPoller(acts: seq<Action>, p: nat) {
    forall a :: a in acts ==> !ByPoller(a, p)
  }

  /** Queue poller p stands where it stood. */
  ghost predicate SameQueuePoller(s: Sys, s': Sys, p: nat) {
    && |s'.pollers| == |s.pollers| && |s'.queues| == |s.queues|
    && (p < |s.pollers| ==> s'.pollers[p] == s.pollers[p])
  }

  lemma OthersLeaveQueuePoller(s: Sys, a: Action, p: nat)
    requires !ByPoller(a, p)
    ensures SameQueuePoller(s, Step(s, a), p)
  {
    hide Apply, Enabled, OfCall;
    if Enabled(s, a) {
      if OfCall(a) {
        CallLeavesQueuePoller(s, a, p);
      } else {
        if ByNotePoller(a) {
          NoteLeavesQueuePoller(s, a, p);
        } else {
          RequestLeavesQueuePoller(s, a, p);
        }
      }
    }
  }

  lemma CallLeavesQueuePoller(s: Sys, a: Action, p: nat)
    requires Enabled(s, a) && OfCall(a)
    ensures SameQueuePoller(s, Apply(s, a), p)
  {
    hide TakeNote, At;
  }

  lemma NoteLeavesQueuePoller(s: Sys, a: Action, p: nat)
    requires Enabled(s, a) && ByNotePoller(a)
    ensures SameQueuePoller(s, Apply(s, a), p)
  {
    hide TakeNote, EndPoll, At;
  }

  lemma RequestLeavesQueuePoller(s: Sys, a: Action, p: nat)
    requires Enabled(s, a) && !OfCall(a) && !ByNotePoller(a) && !ByPoller(a, p)
    ensures SameQueuePoller(s, Apply(s, a), p)
  {
  }

  /** Everybody but queue poller p performs `acts`. */
  method OthersThan(e: Environment, p: nat, acts: seq<Action>)
    requires e.Valid() && WithoutPoller(acts, p)
    modifies e
    ensures e.Valid() && e.View() == Run(old(e.View()), acts)
    ensures SameQueuePoller(old(e.View()), e.View(), p)
  {
    hide Inv, Step, Run, ByPoller;
    assert acts[..0] == [];
    RunEmpty(e.View());
    var k := 0;
    while k < |acts|
      invariant 0 <= k <= |acts| && e.Valid()
      invariant e.View() == Run(old(e.View()), acts[..k]) && SameQueuePoller(old(e.View()), e.View(), p)
    {
      OthersLeaveQueuePoller(e.View(), acts[k], p);
      RunSnoc(old(e.View()), acts[..k], acts[k]);
      e.Perform(acts[k]);
      assert acts[..k] + [acts[k]] == acts[..k + 1];
      k := k + 1;
    }
    assert acts[..k] == acts;
  }

  lemma RunEmpty(s: Sys)
    ensures Run(s, []) == s
  {
  }

  /** Poller p is at the given queue of its range, with the given tags in hand. */
  ghost predicate Polls(s: Sys, p: nat, first: nat, num: nat, queue: nat, pc: QueuePc) {
    p < |s.pollers| && s.pollers[p] == QueuePoller(first, num, queue, pc) && first <= queue < first + num <= |s.queues|
  }

  lemma StillPolls(s: Sys, s': Sys, p: nat, first: nat, num: nat, queue: nat, pc: QueuePc)
    requires Polls(s, p, first, num, queue, pc) && SameQueuePoller(s, s', p)
    ensures Polls(s', p, first, num, queue, pc)
  {
  }

  function NextQueue(first: nat, num: nat, queue: nat): nat {
    if queue + 1 < first + num then queue + 1 else first
  }

  lemma AfterFetch(s: Sys, p: nat, first: nat, num: nat, queue: nat, k: nat)
    requires Polls(s, p, first, num, queue, AtQueue) && k <= BATCH_SIZE && k <= |s.queues[queue].done|
    ensures Enabled(s, Fetch(p, k))
    ensures if s.queues[queue].valid then Polls(Step(s, Fetch(p, k)), p, first, num, queue, InBatch(s.queues[queue].done[..k], k == BATCH_SIZE))
            else Polls(Step(s, Fetch(p, k)), p, first, num, NextQueue(first, num, queue), AtQueue)
  {
  }

  lemma AfterLower(s: Sys, p: nat, first: nat, num: nat, queue: nat, tags: seq<nat>, full: bool)
    requires Polls(s, p, first, num, queue, InBatch(tags, full))
    ensures Enabled(s, Lower(p))
    ensures if tags == [] then Polls(Step(s, Lower(p)), p, first, num, if full then queue else NextQueue(first, num, queue), AtQueue)
            else Polls(Step(s, Lower(p)), p, first, num, queue, InBatch(tags[1..], full))
  {
  }

  /** One batch: its queue, whether that was valid, and how many requests were handed over. */
  datatype Batch = Batch(queue: nat, valid: bool, k: nat)

  /** The condition of the do-while loop. */
  predicate Full(b: Batch) {
    b.valid && b.k == BATCH_SIZE
  }

  /** k steps of the loop over a batch. */
  ghost function Lowers(p: nat, k: nat): seq<Action> {
    if k == 0 then [] else Lowers(p, k - 1) + [Lower(p)]
  }

  /** The steps of one batch: others, the fetch, and for a valid queue one decrease for each request,
      with others before each, and the end of the loop. */
  ghost function BatchTrace(p: nat, env: nat -> seq<Action>, start: nat, b: Batch): seq<Action> {
    env(start) + [Fetch(p, b.k)] + if b.valid then Weave(env, start + 1, Lowers(p, b.k)) + [Lower(p)] else []
  }

  function AfterBatch(start: nat, b: Batch): nat {
    start + 1 + if b.valid then b.k else 0
  }

  /** The batch is all that the queue had to offer when it was fetched, up to its size; nothing is taken
      from an invalid queue. */
  ghost predicate Offered(s: Sys, b: Batch) {
    && b.queue < |s.queues| && b.valid == s.queues[b.queue].valid
    && b.k == if b.valid then Min(BATCH_SIZE, |s.queues[b.queue].done|) else 0
  }

  lemma LowersSize(p: nat, k: nat)
    ensures |Lowers(p, k)| == k
  {
  }

  /** One round of the do-while loop: fetch a batch and work it off; `again` is its condition. */
  method PollBatch(e: Environment, p: nat, env: nat -> seq<Action>, start: nat, first: nat, num: nat, queue: nat)
    returns (clock: nat, again: bool, ghost b: Batch)
    requires e.Valid() && Polls(e.View(), p, first, num, queue, AtQueue)
    requires forall k :: WithoutPoller(env(k), p)
    modifies e
    ensures e.Valid() && e.View() == Run(old(e.View()), BatchTrace(p, env, start, b)) && clock == AfterBatch(start, b)
    ensures b.queue == queue && Offered(Run(old(e.View()), env(start)), b) && again == Full(b)
    ensures Polls(e.View(), p, first, num, if again then queue else NextQueue(first, num, queue), AtQueue)
  {
    hide Inv, Step, Run, Enabled, WithoutPoller, SameQueuePoller, Weave, Lowers;
    ghost var s := e.View();
    OthersThan(e, p, env(start));
    StillPolls(s, e.View(), p, first, num, queue, AtQueue);
    clock := start + 1;
    var valid := e.queues[queue].valid;
    var completed := if valid then Min(BATCH_SIZE, |e.queues[queue].done|) else 0;
    var tags := e.queues[queue].done[..completed];
    b := Batch(queue, valid, completed);
    AfterFetch(e.View(), p, first, num, queue, completed);
    e.Perform(Fetch(p, completed));
    RunSnoc(s, env(start), Fetch(p, completed));
    again := false;
    if valid {
      again := completed == BATCH_SIZE;
      clock := WorkOff(e, p, env, clock, first, num, queue, tags, again);
      RunAppend(s, env(start) + [Fetch(p, completed)], Weave(env, start + 1, Lowers(p, completed)) + [Lower(p)]);
      assert env(start) + [Fetch(p, completed)] + (Weave(env, start + 1, Lowers(p, completed)) + [Lower(p)]) == BatchTrace(p, env, start, b);
    } else {
      assert env(start) + [Fetch(p, completed)] == BatchTrace(p, env, start, b);
    }
  }

  /** The loop over the tags of a batch. */
  method WorkOff(e: Environment, p: nat, env: nat -> seq<Action>, start: nat, first: nat, num: nat, queue: nat, tags: seq<nat>, full: bool)
    returns (clock: nat)
    requires e.Valid() && Polls(e.View(), p, first, num, queue, InBatch(tags, full))
    requires forall k :: WithoutPoller(env(k), p)
    modifies e
    ensures e.Valid() && e.View() == Run(old(e.View()), Weave(env, start, Lowers(p, |tags|)) + [Lower(p)])
    ensures clock == start + |tags|
    ensures Polls(e.View(), p, first, num, if full then queue else NextQueue(first, num, queue), AtQueue)
  {
    hide Inv, Step, Run, Enabled, WithoutPoller, SameQueuePoller, Weave, Polls;
    ghost var s := e.View();
    WeaveNone(s, env, start);
    assert tags[0..] == tags && Lowers(p, 0) == [];
    clock := start;
    var r := 0;
    while r < |tags|
      invariant 0 <= r <= |tags| && clock == start + r && e.Valid()
      invariant e.View() == Run(s, Weave(env, start, Lowers(p, r)))
      invariant Polls(e.View(), p, first, num, queue, InBatch(tags[r..], full))
    {
      ghost var before := e.View();
      OthersThan(e, p, env(clock));
      StillPolls(before, e.View(), p, first, num, queue, InBatch(tags[r..], full));
      AfterLower(e.View(), p, first, num, queue, tags[r..], full);
      LowersSize(p, r);
      WeaveNext(s, env, start, Lowers(p, r), Lower(p));
      assert tags[r..][1..] == tags[r + 1..];
      e.Perform(Lower(p));
      clock, r := clock + 1, r + 1;
    }
    AfterLower(e.View(), p, first, num, queue, tags[r..], full);
    RunSnoc(s, Weave(env, start, Lowers(p, r)), Lower(p));
    e.Perform(Lower(p));
  }

  // ---- A turn of a queue poller --------------------------------------------

  /** How far the clock is after some batches. */
  ghost function Clock(batches: seq<Batch>): nat {
    if batches == [] then 0 else AfterBatch(Clock(batches[..|batches| - 1]), batches[|batches| - 1])
  }

  ghost function TurnTrace(p: nat, env: nat -> seq<Action>, batches: seq<Batch>): seq<Action> {
    if batches == [] then [] else
    var rest := batches[..|batches| - 1];
    TurnTrace(p, env, rest) + BatchTrace(p, env, Clock(rest), batches[|batches| - 1])
  }

  /** Every batch is what its queue had to offer. */
  ghost predicate AllOffered(s: Sys, p: nat, env: nat -> seq<Action>, batches: seq<Batch>) {
    forall i :: 0 <= i < |batches| ==>
      Offered(Run(Run(s, TurnTrace(p, env, batches[..i])), env(Clock(batches[..i]))), batches[i])
  }

  /** The queue that follows the batches: the same after a full batch, else the next one. */
  ghost function Reached(batches: seq<Batch>, first: nat): nat {
    if batches == [] then first else
    var last := batches[|batches| - 1];
    if Full(last) then last.queue else last.queue + 1
  }

  /** The batches go through the queues from `first` on, and leave a queue only after a batch that is
      not full. */
  ghost predicate InTurn(batches: seq<Batch>, first: nat) {
    forall i :: 0 <= i < |batches| ==> batches[i].queue == Reached(batches[..i], first)
  }

  lemma TurnNext(s: Sys, p: nat, env: nat -> seq<Action>, batches: seq<Batch>, b: Batch, first: nat)
    requires InTurn(batches, first) && AllOffered(s, p, env, batches) && b.queue == Reached(batches, first)
    requires Offered(Run(Run(s, TurnTrace(p, env, batches)), env(Clock(batches))), b)
    ensures InTurn(batches + [b], first) && AllOffered(s, p, env, batches + [b])
    ensures Clock(batches + [b]) == AfterBatch(Clock(batches), b)
    ensures Reached(batches + [b], first) == if Full(b) then b.queue else b.queue + 1
    ensures Run(s, TurnTrace(p, env, batches + [b])) == Run(Run(s, TurnTrace(p, env, batches)), BatchTrace(p, env, Clock(batches), b))
  {
    hide Run, Offered, BatchTrace, Full;
    var batches' := batches + [b];
    assert batches'[..|batches|] == batches;
    forall i | 0 <= i < |batches'| ensures
      && batches'[i].queue == Reached(batches'[..i], first)
      && Offered(Run(Run(s, TurnTrace(p, env, batches'[..i])), env(Clock(batches'[..i]))), batches'[i])
    {
      if i < |batches| {
        assert batches'[..i] == batches[..i];
      }
    }
    RunAppend(s, TurnTrace(p, env, batches), BatchTrace(p, env, Clock(batches), b));
  }

  /** The queue was left after a batch that was not full. */
  ghost predicate Left(batches: seq<Batch>, q: nat) {
    exists i :: 0 <= i < |batches| && batches[i].queue == q && !Full(batches[i])
  }

  /** A turn that got past a queue has left it after a batch that was not full. */
  lemma {:induction false} EveryQueueLeft(batches: seq<Batch>, first: nat, q: nat)
    requires InTurn(batches, first) && first <= q < Reached(batches, first)
    ensures Left(batches, q)
  {
    var n := |batches| - 1;
    var rest, last := batches[..n], batches[n];
    assert last.queue == Reached(rest, first);
    assert forall i :: 0 <= i < n ==> rest[..i] == batches[..i];
    if q < Reached(rest, first) {
      EveryQueueLeft(rest, first, q);
      var i :| 0 <= i < |rest| && rest[i].queue == q && !Full(rest[i]);
      assert batches[i] == rest[i];
    }
  }

  lemma NoBatchYet(s: Sys, p: nat, env: nat -> seq<Action>, first: nat)
    ensures Run(s, TurnTrace(p, env, [])) == s && Clock([]) == 0 && Reached([], first) == first
    ensures InTurn([], first) && AllOffered(s, p, env, [])
  {
  }

  /** All queues of the range were left. */
  ghost predicate AllLeft(batches: seq<Batch>, first: nat, end: nat) {
    forall q: nat :: first <= q < end ==> Left(batches, q)
  }

  lemma EveryQueueIsLeft(batches: seq<Batch>, first: nat)
    requires InTurn(batches, first)
    ensures AllLeft(batches, first, Reached(batches, first))
  {
    hide InTurn, Reached, Left;
    forall q: nat | first <= q < Reached(batches, first) ensures Left(batches, q) {
      EveryQueueLeft(batches, first, q);
    }
  }

  /** What a turn of queue poller p did: whole batches of what the queues had to offer, queue after
      queue, up to `reached`. */
  ghost predicate TurnOf(s: Sys, s': Sys, p: nat, env: nat -> seq<Action>, batches: seq<Batch>, first: nat, reached: nat) {
    && s' == Run(s, TurnTrace(p, env, batches))
    && InTurn(batches, first) && AllOffered(s, p, env, batches) && Reached(batches, first) == reached
    && AllLeft(batches, first, reached)
  }

  lemma TurnStarts(s: Sys, p: nat, env: nat -> seq<Action>, first: nat)
    ensures TurnOf(s, s, p, env, [], first, first) && Clock([]) == 0
  {
    NoBatchYet(s, p, env, first);
  }

  lemma TurnGoesOn(s: Sys, mid: Sys, s': Sys, p: nat, env: nat -> seq<Action>, batches: seq<Batch>, first: nat, queue: nat, b: Batch)
    requires TurnOf(s, mid, p, env, batches, first, queue) && b.queue == queue && Offered(Run(mid, env(Clock(batches))), b)
    requires s' == Run(mid, BatchTrace(p, env, Clock(batches), b))
    ensures TurnOf(s, s', p, env, batches + [b], first, if Full(b) then queue else queue + 1)
    ensures Clock(batches + [b]) == AfterBatch(Clock(batches), b)
  {
    hide Run, TurnTrace, InTurn, AllOffered, Reached, AllLeft, BatchTrace, Offered, Full;
    TurnNext(s, p, env, batches, b, first);
    EveryQueueIsLeft(batches + [b], first);
  }

  /** pollQueues() of instance p. New requests may keep completing, so `patience` bounds the batches
      that are looked at. The turn consists of whole batches; when it finishes, it has left every
      queue of its range after a batch that was not full, and is back at the first. */
  method PollQueues(e: Environment, p: nat, first: nat, num: nat, env: nat -> seq<Action>, patience: nat)
    returns (finished: bool, ghost batches: seq<Batch>, ghost reached: nat)
    requires e.Valid() && Polls(e.View(), p, first, num, first, AtQueue)
    requires forall k :: WithoutPoller(env(k), p)
    modifies e
    ensures e.Valid() && TurnOf(old(e.View()), e.View(), p, env, batches, first, reached)
    ensures first <= reached <= first + num && finished == (reached == first + num)
    ensures |batches| <= patience && (!finished ==> |batches| == patience)
    ensures Polls(e.View(), p, first, num, if finished then first else reached, AtQueue)
  {
    hide Inv, Step, Run, WithoutPoller, TurnOf, Polls, Clock, BatchTrace, Offered;
    TurnStarts(e.View(), p, env, first);
    var queue, clock, count := first, 0, 0;
    batches := [];
    while queue < first + num
      invariant first <= queue <= first + num && count == |batches| <= patience && clock == Clock(batches)
      invariant e.Valid() && TurnOf(old(e.View()), e.View(), p, env, batches, first, queue)
      invariant Polls(e.View(), p, first, num, if queue < first + num then queue else first, AtQueue)
      decreases first + num - queue, patience - count
    {
      if count == patience {
        return false, batches, queue;
      }
      var again;
      ghost var b;
      ghost var mid := e.View();
      clock, again, b := PollBatch(e, p, env, clock, first, num, queue);
      TurnGoesOn(old(e.View()), mid, e.View(), p, env, batches, first, queue, b);
      batches, count := batches + [b], count + 1;
      if !again {
        queue := queue + 1;
      }
    }
    finished, reached := true, queue;
  }
}
