/** What the steps of one thread and those of everybody else have to do with each other in the
    completion protocol. Main result: a call whose submission fails is invisible. */
module Interference {
  import opened Waits
  import opened Completion
  import opened CompletionProofs
  import opened CompletionTheorems

  // ---- Whose step it is --------------------------------------------------

  predicate By(a: Action, t: nat) {
    match a
    case BeginSubmit(u, _, _, _) => u == t
    case Submit(u, _) => u == t
    case RollBack(u) => u == t
    case BeginWait(u, _, _, _, _, _) => u == t
    case LookHit(u, _) => u == t
    case LookMiss(u) => u == t
    case Reset(u) => u == t
    case Return(u) => u == t
    case Raise(u) => u == t
    case Allocate(u, _) => u == t
    case Publish(u) => u == t
    case _ => false
  }

  /** A step of some thread inside a call. */
  predicate OfCall(a: Action) {
    || a.BeginSubmit? || a.Submit? || a.RollBack? || a.BeginWait? || a.LookHit? || a.LookMiss?
    || a.Reset? || a.Return? || a.Raise? || a.Allocate? || a.Publish?
  }

  predicate NotBy(acts: seq<Action>, t: nat) {
    forall a :: a in acts ==> !By(a, t)
  }

  // ---- A failed call leaves no trace -------------------------------------

  /** `s`, but thread t is at p and has announced `extra` events. */
  ghost function Under(s: Sys, t: nat, p: Pc, extra: multiset<nat>): Sys
    requires t < |s.threads|
  {
    s.(threads := s.threads[t := p], events := s.events + extra)
  }

  lemma AddLater<X>(a: multiset<X>, x: multiset<X>, b: multiset<X>)
    ensures a + x + b == a + b + x
  {
  }

  lemma TakeLater<X>(a: multiset<X>, x: multiset<X>, b: multiset<X>)
    requires b <= a
    ensures a + x - b == a - b + x
  {
  }

  lemma EnabledUnder(s: Sys, a: Action, t: nat, p: Pc, extra: multiset<nat>)
    requires t < |s.threads| && !By(a, t)
    ensures Enabled(Under(s, t, p, extra), a) == Enabled(s, a)
  {
  }

  lemma NextUnder(s: Sys, u: nat, pc: Pc, t: nat, p: Pc, extra: multiset<nat>)
    requires t < |s.threads| && u < |s.threads| && u != t
    ensures Next(Under(s, t, p, extra), u, pc) == Under(Next(s, u, pc), t, p, extra)
  {
    assert s.threads[t := p][u := pc] == s.threads[u := pc][t := p];
  }

  lemma BeginSubmitUnder(s: Sys, u: nat, task: nat, n: nat, queue: nat, t: nat, p: Pc, extra: multiset<nat>)
    requires t < |s.threads| && u != t && ThreadIdle(s, u)
    ensures BeginSubmitStep(Under(s, t, p, extra), u, task, n, queue) == Under(BeginSubmitStep(s, u, task, n, queue), t, p, extra)
  {
    NextUnder(s, u, Submitting(task, n, queue), t, p, extra);
    AddLater(s.events, extra, Copies(task, n));
  }

  lemma SubmitUnder(s: Sys, u: nat, ok: bool, t: nat, p: Pc, extra: multiset<nat>)
    requires t < |s.threads| && u != t && u < |s.threads| && s.threads[u].Submitting? && s.threads[u].queue < |s.queues|
    ensures SubmitStep(Under(s, t, p, extra), u, ok) == Under(SubmitStep(s, u, ok), t, p, extra)
  {
    NextUnder(s, u, Idle, t, p, extra);
    NextUnder(s, u, RollingBack(s.threads[u].task, s.threads[u].n), t, p, extra);
  }

  lemma RollBackUnder(s: Sys, u: nat, t: nat, p: Pc, extra: multiset<nat>)
    requires Inv(s) && t < |s.threads| && u != t && Enabled(s, RollBack(u))
    ensures RollBackStep(Under(s, t, p, extra), u) == Under(RollBackStep(s, u), t, p, extra)
  {
    hide Inv;
    NextUnder(s, u, Idle, t, p, extra);
    RollBackLowers(s, u);
    TakeLater(s.events, extra, Copies(s.threads[u].task, s.threads[u].n));
  }

  lemma BeginWaitUnder(s: Sys, u: nat, task: nat, seg: nat, first: nat, num: nat, keep: bool, t: nat, p: Pc, extra: multiset<nat>)
    requires t < |s.threads| && u != t && ThreadIdle(s, u)
    ensures BeginWaitStep(Under(s, t, p, extra), u, task, seg, first, num, keep)
            == Under(BeginWaitStep(s, u, task, seg, first, num, keep), t, p, extra)
  {
    NextUnder(s, u, Looking(NewWait(task, seg, first, num, keep)), t, p, extra);
  }

  lemma LookUnder(s: Sys, u: nat, id: nat, t: nat, p: Pc, extra: multiset<nat>)
    requires t < |s.threads| && u != t && AtLook(s, u)
    ensures LookHitStep(Under(s, t, p, extra), u, id) == Under(LookHitStep(s, u, id), t, p, extra)
    ensures LookMissStep(Under(s, t, p, extra), u) == Under(LookMissStep(s, u), t, p, extra)
  {
    NextUnder(s, u, Resetting(s.threads[u].w, id), t, p, extra);
    NextUnder(s, u, Checked(s.threads[u].w), t, p, extra);
  }

  lemma ResetUnder(s: Sys, u: nat, t: nat, p: Pc, extra: multiset<nat>)
    requires t < |s.threads| && u != t && u < |s.threads| && s.threads[u].Resetting? && s.threads[u].w.seg < |s.segs|
    ensures ResetStep(Under(s, t, p, extra), u) == Under(ResetStep(s, u), t, p, extra)
  {
    hide TakeNote, At;
    var w, id := s.threads[u].w, s.threads[u].id;
    var w' := TakeNote(w, id, At(s.segs[w.seg].board, id), false);
    var z := Zeroed(s, w.seg, id);
    NextUnder(z, u, Checked(w), t, p, extra);
    NextUnder(z, u, Looking(w'), t, p, extra);
    NextUnder(z, u, Checked(w'), t, p, extra);
  }

  lemma CheckedUnder(s: Sys, u: nat, t: nat, p: Pc, extra: multiset<nat>)
    requires t < |s.threads| && u != t && u < |s.threads| && s.threads[u].Checked?
    ensures ReturnStep(Under(s, t, p, extra), u) == Under(ReturnStep(s, u), t, p, extra)
    ensures RaiseStep(Under(s, t, p, extra), u) == Under(RaiseStep(s, u), t, p, extra)
  {
    NextUnder(s, u, Idle, t, p, extra);
    NextUnder(s, u, Raised(s.threads[u].w), t, p, extra);
    AddLater(s.events, extra, multiset{s.threads[u].w.task});
  }

  lemma ParkUnder(s: Sys, u: nat, garbage: nat, t: nat, p: Pc, extra: multiset<nat>)
    requires t < |s.threads| && u != t && u < |s.threads|
    ensures s.threads[u].Raised? && s.pool != [] ==>
              AllocateStep(Under(s, t, p, extra), u, garbage) == Under(AllocateStep(s, u, garbage), t, p, extra)
    ensures s.threads[u].Publishing? && s.threads[u].w.seg < |s.segs| ==>
              PublishStep(Under(s, t, p, extra), u) == Under(PublishStep(s, u), t, p, extra)
  {
    NextUnder(s, u, Idle, t, p, extra);
    if s.threads[u].Raised? && s.pool != [] {
      NextUnder(s, u, Publishing(s.threads[u].w.(value := garbage), s.pool[0]), t, p, extra);
    }
  }

  lemma LowerUnder(s: Sys, i: nat, t: nat, p: Pc, extra: multiset<nat>)
    requires Inv(s) && t < |s.threads| && Enabled(s, Lower(i))
    ensures LowerStep(Under(s, t, p, extra), i) == Under(LowerStep(s, i), t, p, extra)
  {
    hide Inv;
    LowerLowers(s, i);
    var tags := s.pollers[i].pc.tags;
    if tags != [] && tags[0] != TAG_NULL {
      TakeLater(s.events, extra, multiset{tags[0]});
    }
  }

  lemma CompleteUnder(s: Sys, t: nat, p: Pc, extra: multiset<nat>)
    requires Inv(s) && t < |s.threads| && Enabled(s, Complete)
    ensures CompleteStep(Under(s, t, p, extra)) == Under(CompleteStep(s), t, p, extra)
  {
    hide Inv;
    CompleteLowers(s);
    if s.complete != [] {
      TakeLater(s.events, extra, multiset{s.complete[0].w.task});
    }
  }

  lemma NetworkUnder(s: Sys, a: Action, t: nat, p: Pc, extra: multiset<nat>)
    requires t < |s.threads| && (a.ForeignPost? || a.Deliver? || a.Notify? || a.Fetch?) && Enabled(s, a)
    requires Enabled(Under(s, t, p, extra), a)
    ensures Apply(Under(s, t, p, extra), a) == Under(Apply(s, a), t, p, extra)
  {
  }

  lemma PollMoveUnder(s: Sys, a: Action, t: nat, p: Pc, extra: multiset<nat>)
    requires t < |s.threads| && Enabled(s, a) && Enabled(Under(s, t, p, extra), a)
    requires a.Drain? || a.Visit? || a.PollHit? || a.PollMiss? || a.Free?
    ensures Apply(Under(s, t, p, extra), a) == Under(Apply(s, a), t, p, extra)
  {
  }

  lemma PollEndUnder(s: Sys, t: nat, p: Pc, extra: multiset<nat>)
    requires t < |s.threads| && Enabled(s, PollEnd)
    ensures PollEndStep(Under(s, t, p, extra)) == Under(PollEndStep(s), t, p, extra)
  {
    hide EndPoll;
  }

  lemma PollResetUnder(s: Sys, t: nat, p: Pc, extra: multiset<nat>)
    requires t < |s.threads| && Enabled(s, PollReset)
    ensures PollResetStep(Under(s, t, p, extra)) == Under(PollResetStep(s), t, p, extra)
  {
    hide TakeNote, At;
  }

  /** Same number of threads, segments and queues, and thread t where it was. */
  ghost predicate Stays(s: Sys, s': Sys, t: nat)
    requires t < |s.threads|
  {
    && |s'.threads| == |s.threads| && s'.threads[t] == s.threads[t]
    && |s'.segs| == |s.segs| && |s'.queues| == |s.queues|
  }

  lemma CallStays(s: Sys, a: Action, t: nat)
    requires t < |s.threads| && !By(a, t) && Enabled(s, a)
    requires OfCall(a)
    ensures Stays(s, Apply(s, a), t)
  {
    hide TakeNote, At;
  }

  lemma OtherStays(s: Sys, a: Action, t: nat)
    requires t < |s.threads| && !By(a, t) && Enabled(s, a)
    requires !OfCall(a)
    ensures Stays(s, Apply(s, a), t)
  {
    hide TakeNote, EndPoll, At;
  }

  lemma ThreadsStay(s: Sys, a: Action, t: nat)
    requires t < |s.threads| && !By(a, t)
    ensures Stays(s, Step(s, a), t)
  {
    hide Apply, Enabled;
    if Enabled(s, a) {
      if OfCall(a) {
        CallStays(s, a, t);
      } else {
        OtherStays(s, a, t);
      }
    }
  }

  /** No step of anybody else depends on, or disturbs, what thread t has announced. */
  lemma StepUnder(s: Sys, a: Action, t: nat, p: Pc, extra: multiset<nat>)
    requires Inv(s) && t < |s.threads| && !By(a, t)
    ensures |Step(s, a).threads| == |s.threads|
    ensures Step(Under(s, t, p, extra), a) == Under(Step(s, a), t, p, extra)
  {
    ThreadsStay(s, a, t);
    EnabledUnder(s, a, t, p, extra);
    if Enabled(s, a) {
      ApplyUnder(s, a, t, p, extra);
    }
  }

  lemma ApplyUnder(s: Sys, a: Action, t: nat, p: Pc, extra: multiset<nat>)
    requires Inv(s) && t < |s.threads| && !By(a, t) && Enabled(s, a) && Enabled(Under(s, t, p, extra), a)
    requires |Apply(s, a).threads| == |s.threads|
    ensures Apply(Under(s, t, p, extra), a) == Under(Apply(s, a), t, p, extra)
  {
    hide Inv, Under, BeginSubmitStep, SubmitStep, RollBackStep, BeginWaitStep, LookHitStep, LookMissStep, ResetStep, ReturnStep,
      RaiseStep, AllocateStep, PublishStep, LowerStep, CompleteStep, PollResetStep, PollEndStep;
    match a {
      case BeginSubmit(u, task, n, queue) => BeginSubmitUnder(s, u, task, n, queue, t, p, extra);
      case Submit(u, ok) => SubmitUnder(s, u, ok, t, p, extra);
      case BeginWait(u, task, seg, first, num, keep) => BeginWaitUnder(s, u, task, seg, first, num, keep, t, p, extra);
      case LookHit(u, id) => LookUnder(s, u, id, t, p, extra);
      case LookMiss(u) => LookUnder(s, u, 0, t, p, extra);
      case Reset(u) => ResetUnder(s, u, t, p, extra);
      case Return(u) => CheckedUnder(s, u, t, p, extra);
      case Raise(u) => CheckedUnder(s, u, t, p, extra);
      case Allocate(u, garbage) => ParkUnder(s, u, garbage, t, p, extra);
      case Publish(u) => ParkUnder(s, u, 0, t, p, extra);
      case RollBack(u) => RollBackUnder(s, u, t, p, extra);
      case Lower(i) => LowerUnder(s, i, t, p, extra);
      case Complete => CompleteUnder(s, t, p, extra);
      case PollReset => PollResetUnder(s, t, p, extra);
      case PollEnd => PollEndUnder(s, t, p, extra);
      case ForeignPost(_) => NetworkUnder(s, a, t, p, extra);
      case Deliver(_, _) => NetworkUnder(s, a, t, p, extra);
      case Notify(_, _, _) => NetworkUnder(s, a, t, p, extra);
      case Fetch(_, _) => NetworkUnder(s, a, t, p, extra);
      case _ => PollMoveUnder(s, a, t, p, extra);
    }
  }

  lemma {:induction false} RunAppend(s: Sys, a: seq<Action>, b: seq<Action>)
    ensures Run(s, a + b) == Run(Run(s, a), b)
  {
    hide Step;
    if b == [] {
      assert a + b == a;
    } else {
      RunAppend(s, a, b[..|b| - 1]);
      assert (a + b)[..|a + b| - 1] == a + b[..|b| - 1];
    }
  }

  lemma RunSnoc(s: Sys, acts: seq<Action>, a: Action)
    ensures Run(s, acts + [a]) == Step(Run(s, acts), a)
  {
    hide Step;
    assert (acts + [a])[..|acts|] == acts;
  }

  lemma RunOne(s: Sys, a: Action)
    ensures Run(s, [a]) == Step(s, a)
  {
    hide Step;
    assert [a][..0] == [];
  }

  lemma {:induction false} RunUnder(s: Sys, acts: seq<Action>, t: nat, p: Pc, extra: multiset<nat>)
    requires Inv(s) && t < |s.threads| && NotBy(acts, t)
    ensures Inv(Run(s, acts)) && Stays(s, Run(s, acts), t)
    ensures Run(Under(s, t, p, extra), acts) == Under(Run(s, acts), t, p, extra)
  {
    hide Step, Inv, Under, By;
    if acts != [] {
      var rest, a := acts[..|acts| - 1], acts[|acts| - 1];
      RunUnder(s, rest, t, p, extra);
      ThreadsStay(Run(s, rest), a, t);
      StepUnder(Run(s, rest), a, t, p, extra);
      StepInv(Run(s, rest), a);
    }
  }

  /** What the steps of a failed call are, with `env1` and `env2` in between. */
  function FailedCall(t: nat, task: nat, n: nat, queue: nat, env1: seq<Action>, env2: seq<Action>): seq<Action> {
    [BeginSubmit(t, task, n, queue)] + env1 + [Submit(t, false)] + env2 + [RollBack(t)]
  }

  lemma BeginsUnder(s: Sys, t: nat, task: nat, n: nat, queue: nat)
    requires Enabled(s, BeginSubmit(t, task, n, queue))
    ensures Step(s, BeginSubmit(t, task, n, queue)) == Under(s, t, Submitting(task, n, queue), Copies(task, n))
  {
  }

  lemma FailsUnder(s: Sys, t: nat, task: nat, n: nat, queue: nat)
    requires t < |s.threads| && queue < |s.queues|
    ensures Step(Under(s, t, Submitting(task, n, queue), Copies(task, n)), Submit(t, false))
            == Under(s, t, RollingBack(task, n), Copies(task, n))
  {
  }

  lemma RollsBack(s: Sys, t: nat, task: nat, n: nat)
    requires t < |s.threads| && s.threads[t].Idle?
    ensures Step(Under(s, t, RollingBack(task, n), Copies(task, n)), RollBack(t)) == s
  {
    assert s.events + Copies(task, n) - Copies(task, n) == s.events;
    assert s.threads[t := RollingBack(task, n)][t := Idle] == s.threads;
  }

  /** A call whose submission fails is invisible: whatever the others do meanwhile, the state at
      its end is the one they would have brought about without the call. */
  lemma FailedCallInvisible(s: Sys, t: nat, task: nat, n: nat, queue: nat, env1: seq<Action>, env2: seq<Action>)
    requires Inv(s) && Enabled(s, BeginSubmit(t, task, n, queue))
    requires NotBy(env1, t) && NotBy(env2, t)
    ensures Run(s, FailedCall(t, task, n, queue, env1, env2)) == Run(s, env1 + env2)
  {
    var begin, submit, back := [BeginSubmit(t, task, n, queue)], [Submit(t, false)], [RollBack(t)];
    var extra := Copies(task, n);
    assert t < |s.threads| && s.threads[t].Idle? && queue < |s.queues|;
    hide Inv, Step, Enabled, Run, Under, NotBy;
    RunOne(s, BeginSubmit(t, task, n, queue));
    BeginsUnder(s, t, task, n, queue);
    RunAppend(s, begin, env1);
    RunUnder(s, env1, t, Submitting(task, n, queue), extra);
    var mid := Run(s, env1);
    RunAppend(s, begin + env1, submit);
    RunOne(Under(mid, t, Submitting(task, n, queue), extra), Submit(t, false));
    FailsUnder(mid, t, task, n, queue);
    RunAppend(s, begin + env1 + submit, env2);
    RunUnder(mid, env2, t, RollingBack(task, n), extra);
    var end := Run(mid, env2);
    RunAppend(s, begin + env1 + submit + env2, back);
    RunOne(Under(end, t, RollingBack(task, n), extra), RollBack(t));
    RollsBack(end, t, task, n);
    RunAppend(s, env1, env2);
  }
}
