/** Starting and stopping the pollers: registerPolling, unregisterPolling, genericPolling and
    genericCompleted of src/common/TaskingModel.hpp, Polling::finalize and the order of
    Environment::initialize and finalize. Any number of polling tasks run beside the main thread. */
module PollingShutdown {

  /** Where a polling task is: not spawned, before testing _mustFinish, before calling the function,
      inside it, paused, after the loop, completed. */
  datatype Task = Absent | Testing | Entering | InCall | Pausing | Leaving | Done

  /** `calls` is history: how often the polling function was called. */
  datatype Instance = Instance(created: bool, mustFinish: bool, finished: bool, deleted: bool, task: Task, calls: nat)

  /** Where the main thread is: registering instance i, serving, unregistering instance i, or
      freeing the data the pollers use, item by item. */
  datatype Main =
    | Creating(i: nat) | Spawning(i: nat) | Serving
    | Flagging(i: nat) | Waiting(i: nat) | Deleting(i: nat)
    | Freeing(item: nat) | Finalized

  /** The polling infos, the range pool, the polling locks, the queues and lists of waiting ranges
      and the queue groups, in the order in which they go. */
  const ITEMS: nat := 6

  /** `polls[i]` tells whether instance i has anything to poll; the others are never registered. */
  datatype Sys = Sys(polls: seq<bool>, instances: seq<Instance>, main: Main, freed: nat)

  datatype Action = MainStep | TaskStep(i: nat) | Use(i: nat, item: nat)

  function Init(polls: seq<bool>): Sys {
    Sys(polls, seq(|polls|, i => Instance(false, false, false, false, Absent, 0)), Creating(0), 0)
  }

  predicate Sized(s: Sys) {
    |s.instances| == |s.polls|
  }

  function SetInstance(s: Sys, i: nat, x: Instance): Sys
    requires i < |s.instances|
  {
    s.(instances := s.instances[i := x])
  }

  function MainNext(s: Sys): Sys
    requires Sized(s)
  {
    match s.main
    case Creating(i) =>
      if i >= |s.polls| then s.(main := Serving)
      else if !s.polls[i] then s.(main := Creating(i + 1))
      else SetInstance(s, i, s.instances[i].(created := true)).(main := Spawning(i))
    case Spawning(i) =>
      if i >= |s.polls| then s else
      SetInstance(s, i, s.instances[i].(task := Testing)).(main := Creating(i + 1))
    case Serving => s.(main := Flagging(0))
    case Flagging(i) =>
      if i >= |s.polls| then s.(main := Freeing(0))
      else if !s.polls[i] then s.(main := Flagging(i + 1))
      else SetInstance(s, i, s.instances[i].(mustFinish := true)).(main := Waiting(i))
    case Waiting(i) =>
      if i < |s.polls| && s.instances[i].finished then s.(main := Deleting(i)) else s
    case Deleting(i) =>
      if i >= |s.polls| then s else
      SetInstance(s, i, s.instances[i].(deleted := true)).(main := Flagging(i + 1))
    case Freeing(item) =>
      if item >= ITEMS then s.(main := Finalized) else s.(freed := item + 1, main := Freeing(item + 1))
    case Finalized => s
  }

  function TaskNext(x: Instance): Instance {
    match x.task
    case Testing => x.(task := if x.mustFinish then Leaving else Entering)
    case Entering => x.(task := InCall, calls := x.calls + 1)
    case InCall => x.(task := Pausing)
    case Pausing => x.(task := Testing)
    case Leaving => x.(finished := true, task := Done)
    case _ => x
  }

  predicate Enabled(s: Sys, a: Action) {
    && Sized(s)
    && match a
       case MainStep => !s.main.Finalized?
       case TaskStep(i) => i < |s.instances| && !s.instances[i].task.Absent? && !s.instances[i].task.Done?
       case Use(i, item) => i < |s.instances| && s.instances[i].task.InCall? && item < ITEMS
  }

  function Step(s: Sys, a: Action): Sys {
    if !Enabled(s, a) then s else
    match a
    case MainStep => MainNext(s)
    case TaskStep(i) => SetInstance(s, i, TaskNext(s.instances[i]))
    case Use(_, _) => s
  }

  function Run(s: Sys, acts: seq<Action>): Sys {
    if acts == [] then s else Step(Run(s, acts[..|acts| - 1]), acts[|acts| - 1])
  }

  // ---- What a step accesses --------------------------------------------

  predicate Alive(x: Instance) {
    x.created && !x.deleted
  }

  /** The step reads or writes no instance that does not exist and no data that has been freed. */
  predicate Safe(s: Sys, a: Action)
    requires Enabled(s, a)
  {
    match a
    case MainStep =>
      (match s.main
       case Spawning(i) => i < |s.polls| && Alive(s.instances[i])
       case Flagging(i) => i < |s.polls| && s.polls[i] ==> Alive(s.instances[i])
       case Waiting(i) => i < |s.polls| && Alive(s.instances[i])
       case Deleting(i) => i < |s.polls| && Alive(s.instances[i]) && s.instances[i].task.Done?
       case Freeing(item) => item < ITEMS ==> s.freed == item
       case _ => true)
    case TaskStep(i) => Alive(s.instances[i])
    case Use(i, item) => Alive(s.instances[i]) && s.freed <= item
  }

  // ---- The invariant ---------------------------------------------------

  /** Instance i before, during and after its unregistration, as the main thread has it. */
  ghost predicate Stage(m: Main, i: nat, polls: bool, x: Instance) {
    match m
    case Creating(k) => if polls && i < k then Live(x) else Unborn(x)
    case Spawning(k) => if polls && i < k then Live(x) else if i == k then polls && Born(x) else Unborn(x)
    case Serving => if polls then Live(x) else Unborn(x)
    case Flagging(k) => if !polls then Unborn(x) else if i < k then Gone(x) else Live(x)
    case Waiting(k) => if i == k then polls && Stopping(x) else if !polls then Unborn(x) else if i < k then Gone(x) else Live(x)
    case Deleting(k) => if i == k then polls && Stopped(x) else if !polls then Unborn(x) else if i < k then Gone(x) else Live(x)
    case Freeing(_) => if polls then Gone(x) else Unborn(x)
    case Finalized => if polls then Gone(x) else Unborn(x)
  }

  ghost predicate Unborn(x: Instance) { !x.created && !x.deleted && !x.mustFinish && !x.finished && x.task.Absent? }
  ghost predicate Born(x: Instance) { Alive(x) && !x.mustFinish && !x.finished && x.task.Absent? }
  ghost predicate Live(x: Instance) {
    Alive(x) && !x.mustFinish && !x.finished && (x.task.Testing? || x.task.Entering? || x.task.InCall? || x.task.Pausing?)
  }
  ghost predicate Stopping(x: Instance) { Alive(x) && x.mustFinish && !x.task.Absent? && (x.finished <==> x.task.Done?) }
  ghost predicate Stopped(x: Instance) { Stopping(x) && x.finished }
  ghost predicate Gone(x: Instance) { x.created && x.deleted && x.finished && x.task.Done? }

  ghost predicate MainOk(s: Sys) {
    match s.main
    case Spawning(i) => i < |s.polls| && s.freed == 0
    case Waiting(i) => i < |s.polls| && s.freed == 0
    case Deleting(i) => i < |s.polls| && s.freed == 0
    case Freeing(item) => item <= ITEMS && s.freed == item
    case Finalized => s.freed == ITEMS
    case _ => s.freed == 0
  }

  ghost predicate Inv(s: Sys) {
    && Sized(s) && MainOk(s)
    && forall i :: 0 <= i < |s.instances| ==> Stage(s.main, i, s.polls[i], s.instances[i])
  }

  lemma InitInv(polls: seq<bool>)
    ensures Inv(Init(polls))
  {
  }

  lemma MainInv(s: Sys)
    requires Inv(s) && Enabled(s, MainStep)
    ensures Inv(MainNext(s))
  {
    var s' := MainNext(s);
    forall i | 0 <= i < |s'.instances| ensures Stage(s'.main, i, s'.polls[i], s'.instances[i]) {
      assert Stage(s.main, i, s.polls[i], s.instances[i]);
    }
  }

  lemma TaskInv(s: Sys, i: nat)
    requires Inv(s) && Enabled(s, TaskStep(i))
    ensures Inv(Step(s, TaskStep(i)))
  {
    var s' := Step(s, TaskStep(i));
    forall k | 0 <= k < |s'.instances| ensures Stage(s'.main, k, s'.polls[k], s'.instances[k]) {
      assert Stage(s.main, k, s.polls[k], s.instances[k]);
    }
  }

  lemma StepInv(s: Sys, a: Action)
    requires Inv(s)
    ensures Inv(Step(s, a))
    ensures Step(s, a).polls == s.polls && |Step(s, a).instances| == |s.instances|
  {
    if Enabled(s, a) {
      match a {
        case MainStep => MainInv(s);
        case TaskStep(i) => TaskInv(s, i);
        case Use(_, _) =>
      }
    }
  }

  lemma {:induction false} RunInv(s: Sys, acts: seq<Action>)
    requires Inv(s)
    ensures Inv(Run(s, acts))
    ensures Run(s, acts).polls == s.polls && |Run(s, acts).instances| == |s.instances|
  {
    hide Inv, Step;
    if acts != [] {
      RunInv(s, acts[..|acts| - 1]);
      StepInv(Run(s, acts[..|acts| - 1]), acts[|acts| - 1]);
    }
  }

  ghost predicate Reachable(s: Sys) {
    exists polls, acts :: s == Run(Init(polls), acts)
  }

  lemma ReachableInv(s: Sys)
    requires Reachable(s)
    ensures Inv(s)
  {
    hide Inv, Run, Init;
    var polls, acts :| s == Run(Init(polls), acts);
    InitInv(polls);
    RunInv(Init(polls), acts);
  }

  // ---- Safety ----------------------------------------------------------

  /** In every interleaving, no step touches an instance before it is created or after it is
      deleted, and no poller touches data that finalize has freed. */
  lemma EveryAccessSafe(s: Sys, a: Action)
    requires Reachable(s) && Enabled(s, a)
    ensures Safe(s, a)
  {
    ReachableInv(s);
    match a {
      case MainStep =>
        if (s.main.Spawning? || s.main.Flagging? || s.main.Waiting? || s.main.Deleting?) && s.main.i < |s.polls| {
          assert Stage(s.main, s.main.i, s.polls[s.main.i], s.instances[s.main.i]);
        }
      case TaskStep(i) => assert Stage(s.main, i, s.polls[i], s.instances[i]);
      case Use(i, _) => assert Stage(s.main, i, s.polls[i], s.instances[i]);
    }
  }

  /** Data is freed only when every registered instance is gone and its task has completed. */
  lemma FreedOnlyWhenGone(s: Sys)
    requires Reachable(s) && s.freed > 0
    ensures |s.polls| == |s.instances|
    ensures forall i :: 0 <= i < |s.instances| ==>
              if s.polls[i] then s.instances[i].deleted && s.instances[i].task.Done? else s.instances[i].task.Absent?
  {
    ReachableInv(s);
    forall i | 0 <= i < |s.instances| ensures
      if s.polls[i] then s.instances[i].deleted && s.instances[i].task.Done? else s.instances[i].task.Absent?
    {
      assert Stage(s.main, i, s.polls[i], s.instances[i]);
    }
  }

  /** Once the instance is gone nothing ever happens to it again. */
  lemma GoneStays(s: Sys, a: Action, i: nat)
    requires Inv(s) && i < |s.instances| && s.instances[i].deleted
    ensures |Step(s, a).instances| == |s.instances| && Step(s, a).instances[i] == s.instances[i]
  {
    assert Stage(s.main, i, s.polls[i], s.instances[i]);
  }

  /** After unregisterPolling has returned, the polling function of that instance is never called
      again, whatever runs. */
  lemma {:induction false} NeverCalledAgain(s: Sys, acts: seq<Action>, i: nat)
    requires Inv(s) && i < |s.instances| && s.instances[i].deleted
    ensures |Run(s, acts).instances| == |s.instances| && Run(s, acts).instances[i] == s.instances[i]
  {
    hide Inv, Step;
    if acts != [] {
      NeverCalledAgain(s, acts[..|acts| - 1], i);
      RunInv(s, acts[..|acts| - 1]);
      GoneStays(Run(s, acts[..|acts| - 1]), acts[|acts| - 1], i);
    }
  }

  lemma FlaggedStep(s: Sys, a: Action, i: nat)
    requires i < |s.instances| && s.instances[i].mustFinish
    ensures |Step(s, a).instances| == |s.instances| && Step(s, a).instances[i].mustFinish
    ensures Step(s, a).instances[i].calls + Decided(Step(s, a).instances[i]) <= s.instances[i].calls + Decided(s.instances[i])
  {
  }

  function Decided(x: Instance): nat {
    if x.task.Entering? then 1 else 0
  }

  /** Once an instance is told to finish, its function is called at most once more, and only if the
      task had already seen the flag unset. */
  lemma {:induction false} AtMostOneMoreCall(s: Sys, acts: seq<Action>, i: nat)
    requires Inv(s) && i < |s.instances| && s.instances[i].mustFinish && !s.instances[i].task.Absent?
    ensures |Run(s, acts).instances| == |s.instances| && Run(s, acts).instances[i].mustFinish
    ensures Run(s, acts).instances[i].calls + Decided(Run(s, acts).instances[i]) <= s.instances[i].calls + Decided(s.instances[i])
  {
    hide Step;
    if acts != [] {
      AtMostOneMoreCall(s, acts[..|acts| - 1], i);
      FlaggedStep(Run(s, acts[..|acts| - 1]), acts[|acts| - 1], i);
    }
  }

  // ---- The polling loop --------------------------------------------------

  /** How many steps of its own task i takes in the run. */
  ghost function TaskSteps(acts: seq<Action>, i: nat): nat {
    multiset(acts)[TaskStep(i)]
  }

  lemma TaskStepsNext(acts: seq<Action>, i: nat)
    requires acts != []
    ensures TaskSteps(acts, i) == TaskSteps(acts[..|acts| - 1], i) + if acts[|acts| - 1] == TaskStep(i) then 1 else 0
  {
    assert acts == acts[..|acts| - 1] + [acts[|acts| - 1]];
  }

  predicate Running(x: Instance) {
    x.task.Testing? || x.task.Entering? || x.task.InCall? || x.task.Pausing?
  }

  /** Nobody but the task moves it, and the flag is never taken back. */
  lemma OthersLeaveTask(s: Sys, a: Action, i: nat)
    requires Sized(s) && i < |s.instances| && Running(s.instances[i]) && a != TaskStep(i)
    requires s.main.Spawning? ==> s.main.i != i
    ensures Sized(Step(s, a)) && |Step(s, a).instances| == |s.instances|
    ensures var x, x' := s.instances[i], Step(s, a).instances[i];
            x'.task == x.task && x'.calls == x.calls && (x.mustFinish ==> x'.mustFinish)
  {
  }

  lemma NotSpawningAgain(s: Sys, i: nat)
    requires Inv(s) && i < |s.instances| && Running(s.instances[i])
    ensures s.main.Spawning? ==> s.main.i != i
  {
    assert Stage(s.main, i, s.polls[i], s.instances[i]);
  }

  /** Four steps of the loop make one call: the call comes with the second step after a test. */
  lemma {:induction false} CallsEveryRound(s: Sys, acts: seq<Action>, i: nat)
    requires Inv(s) && i < |s.instances| && s.instances[i].task.Testing?
    requires i < |Run(s, acts).instances| && !Run(s, acts).instances[i].mustFinish
    ensures var n, x := TaskSteps(acts, i), Run(s, acts).instances[i];
            && x.calls == s.instances[i].calls + (n + 2) / 4
            && x.task == [Testing, Entering, InCall, Pausing][n % 4]
  {
    hide Inv, Stage, Step;
    if acts != [] {
      var rest, a := acts[..|acts| - 1], acts[|acts| - 1];
      RunInv(s, rest);
      RunInv(s, acts);
      TaskStepsNext(acts, i);
      var mid := Run(s, rest);
      FlagStays(mid, a, i);
      CallsEveryRound(s, rest, i);
      RoundStep(mid, a, i);
    }
  }

  lemma FlagStays(s: Sys, a: Action, i: nat)
    requires i < |s.instances|
    ensures |Step(s, a).instances| == |s.instances|
    ensures s.instances[i].mustFinish ==> Step(s, a).instances[i].mustFinish
  {
  }

  /** One step of the loop while the flag is unset. */
  lemma RoundStep(s: Sys, a: Action, i: nat)
    requires Inv(s) && i < |s.instances| && Running(s.instances[i]) && !s.instances[i].mustFinish
    ensures |Step(s, a).instances| == |s.instances|
    ensures var x, x' := s.instances[i], Step(s, a).instances[i];
            if a != TaskStep(i) then x'.task == x.task && x'.calls == x.calls
            else && (x.task.Testing? ==> x'.task.Entering? && x'.calls == x.calls)
                 && (x.task.Entering? ==> x'.task.InCall? && x'.calls == x.calls + 1)
                 && (x.task.InCall? ==> x'.task.Pausing? && x'.calls == x.calls)
                 && (x.task.Pausing? ==> x'.task.Testing? && x'.calls == x.calls)
  {
    if a != TaskStep(i) {
      NotSpawningAgain(s, i);
      OthersLeaveTask(s, a, i);
    }
  }

  /** A test that saw the flag unset is followed by exactly one call before the next test, even if the
      flag is set meanwhile. */
  lemma {:induction false} OneCallPerTest(s: Sys, acts: seq<Action>, i: nat)
    requires Inv(s) && i < |s.instances| && s.instances[i].task.Entering? && TaskSteps(acts, i) <= 3
    ensures |Run(s, acts).instances| == |s.instances|
    ensures var n, x := TaskSteps(acts, i), Run(s, acts).instances[i];
            && x.calls == s.instances[i].calls + (if n == 0 then 0 else 1)
            && x.task == [Entering, InCall, Pausing, Testing][n]
  {
    hide Inv, Stage;
    if acts != [] {
      var rest, a := acts[..|acts| - 1], acts[|acts| - 1];
      RunInv(s, rest);
      TaskStepsNext(acts, i);
      OneCallPerTest(s, rest, i);
      var mid := Run(s, rest);
      IsSized(mid);
      if a != TaskStep(i) {
        NotSpawningAgain(mid, i);
        OthersLeaveTask(mid, a, i);
      }
    }
  }

  // ---- Start and end -------------------------------------------------------

  /** When Environment::initialize has returned, every instance with something to poll is registered
      and its task runs; the others do not exist. */
  lemma RegisteredWhenServing(s: Sys)
    requires Reachable(s) && s.main == Serving
    ensures |s.polls| == |s.instances| && s.freed == 0
    ensures forall i :: 0 <= i < |s.instances| ==>
              if s.polls[i] then Alive(s.instances[i]) && Running(s.instances[i]) && !s.instances[i].mustFinish
              else !s.instances[i].created && s.instances[i].task.Absent?
  {
    ReachableInv(s);
    forall i | 0 <= i < |s.instances| ensures
      if s.polls[i] then Alive(s.instances[i]) && Running(s.instances[i]) && !s.instances[i].mustFinish
      else !s.instances[i].created && s.instances[i].task.Absent?
    {
      assert Stage(s.main, i, s.polls[i], s.instances[i]);
    }
  }

  /** When Environment::finalize has returned, every instance is gone and all data is freed. */
  lemma GoneWhenFinalized(s: Sys)
    requires Reachable(s) && s.main == Finalized
    ensures |s.polls| == |s.instances| && s.freed == ITEMS
    ensures forall i :: 0 <= i < |s.instances| ==>
              if s.polls[i] then s.instances[i].deleted && s.instances[i].task.Done? else !s.instances[i].created
  {
    ReachableInv(s);
    forall i | 0 <= i < |s.instances| ensures
      if s.polls[i] then s.instances[i].deleted && s.instances[i].task.Done? else !s.instances[i].created
    {
      assert Stage(s.main, i, s.polls[i], s.instances[i]);
    }
  }

  // ---- unregisterPolling returns ----------------------------------------

  /** How many steps a task that is told to finish still needs. */
  function StepsLeft(x: Instance): nat {
    match x.task
    case Entering => 5
    case InCall => 4
    case Pausing => 3
    case Testing => 2
    case Leaving => 1
    case _ => 0
  }

  /** While the main thread waits for instance i, the task's own next step is enabled and brings it
      closer to its end, and no step of anybody takes it back; when none is left the wait is over. */
  lemma WaitEnds(s: Sys, a: Action)
    requires Reachable(s) && s.main.Waiting?
    ensures s.main.i < |s.instances|
    ensures var i, x := s.main.i, s.instances[s.main.i];
            && (StepsLeft(x) > 0 ==> Enabled(s, TaskStep(i)) && StepsLeft(Step(s, TaskStep(i)).instances[i]) == StepsLeft(x) - 1)
            && (|Step(s, a).instances| == |s.instances| && StepsLeft(Step(s, a).instances[i]) <= StepsLeft(x))
            && (StepsLeft(x) == 0 <==> x.finished)
            && (x.finished ==> Step(s, MainStep).main == Deleting(i))
  {
    ReachableInv(s);
    assert Stage(s.main, s.main.i, s.polls[s.main.i], s.instances[s.main.i]);
  }

  /** Steps of the polling tasks only. */
  predicate ByTasks(acts: seq<Action>) {
    forall a :: a in acts ==> !a.MainStep?
  }

  lemma TaskStepCloser(s: Sys, a: Action, i: nat)
    requires i < |s.instances| && s.instances[i].mustFinish && !s.instances[i].task.Absent? && !a.MainStep?
    ensures |Step(s, a).instances| == |s.instances| && Step(s, a).main == s.main
    ensures var x, x' := s.instances[i], Step(s, a).instances[i];
            && x'.mustFinish && !x'.task.Absent? && StepsLeft(x') <= StepsLeft(x)
            && (a == TaskStep(i) && Sized(s) && StepsLeft(x) > 0 ==> StepsLeft(x') < StepsLeft(x))
  {
  }

  /** Every round in which the task takes a step brings it closer to its end. */
  lemma {:induction false} RoundCloser(s: Sys, acts: seq<Action>, i: nat)
    requires Inv(s) && i < |s.instances| && s.instances[i].mustFinish && !s.instances[i].task.Absent? && ByTasks(acts)
    ensures |Run(s, acts).instances| == |s.instances| && Run(s, acts).main == s.main
    ensures var x, x' := s.instances[i], Run(s, acts).instances[i];
            && x'.mustFinish && !x'.task.Absent? && StepsLeft(x') <= StepsLeft(x)
            && (TaskStep(i) in acts && StepsLeft(x) > 0 ==> StepsLeft(x') < StepsLeft(x))
  {
    hide Step, StepsLeft, Inv;
    if acts != [] {
      var rest, last := acts[..|acts| - 1], acts[|acts| - 1];
      assert acts == rest + [last];
      assert forall a :: a in rest ==> a in acts;
      assert last in acts;
      RoundCloser(s, rest, i);
      RunInv(s, rest);
      assert Sized(Run(s, rest)) by { IsSized(Run(s, rest)); }
      TaskStepCloser(Run(s, rest), last, i);
    }
  }

  lemma IsSized(s: Sys)
    requires Inv(s)
    ensures Sized(s)
  {
  }

  // ---- The code --------------------------------------------------------

  class TaskingModel {
    var polls: seq<bool>
    var instances: seq<Instance>
    var main: Main
    var freed: nat

    function View(): Sys
      reads this
    {
      Sys(polls, instances, main, freed)
    }

    ghost predicate Valid()
      reads this
    {
      Inv(View())
    }

    method Perform(a: Action)
      requires Valid()
      modifies this
      ensures Valid() && View() == Step(old(View()), a)
    {
      StepInv(View(), a);
      hide Inv, Step;
      var s := Step(View(), a);
      polls, instances, main, freed := s.polls, s.instances, s.main, s.freed;
    }

    method Interfere(acts: seq<Action>)
      requires Valid()
      modifies this
      ensures Valid() && View() == Run(old(View()), acts)
    {
      hide Inv, Step;
      var k := 0;
      while k < |acts|
        invariant 0 <= k <= |acts|
        invariant Valid() && View() == Run(old(View()), acts[..k])
      {
        Perform(acts[k]);
        assert acts[..k + 1][..k] == acts[..k];
        k := k + 1;
      }
      assert acts[..k] == acts;
    }

    /** unregisterPolling of the instance the main thread has come to. `env(k)` is what the tasks do
        before the k-th test of _finished; `patience` bounds the tests that are looked at, and five
        suffice if the task takes a step each time. */
    method UnregisterPolling(i: nat, env: nat -> seq<Action>, patience: nat) returns (done: bool)
      requires Valid() && main == Flagging(i) && i < |polls| && polls[i]
      requires forall k :: ByTasks(env(k))
      modifies this
      ensures Valid() && polls == old(polls) && |instances| == old(|instances|) == |polls|
      ensures main == if done then Flagging(i + 1) else Waiting(i)
      ensures done ==> instances[i].deleted && instances[i].task.Done?
      ensures instances[i].calls <= old(instances[i].calls + Decided(instances[i]))
      ensures patience >= 5 && (forall k :: TaskStep(i) in env(k)) ==> done
    {
      assert Stage(main, i, polls[i], instances[i]);
      StepInv(View(), MainStep);
      instances := instances[i := instances[i].(mustFinish := true)];
      main := Waiting(i);
      ghost var flagged := View();
      assert flagged.instances[i].mustFinish && !flagged.instances[i].task.Absent?;
      done := false;
      var k := 0;
      hide Inv, Step, StepsLeft, Run, ByTasks, Decided;
      LeftAtMostFive(instances[i]);
      while k < patience && !done
        invariant 0 <= k <= patience && Valid() && polls == old(polls)
        invariant |instances| == old(|instances|) && main == Waiting(i)
        invariant instances[i].mustFinish && !instances[i].task.Absent?
        invariant instances[i].calls + Decided(instances[i]) <= old(instances[i].calls + Decided(instances[i]))
        invariant done ==> instances[i].finished
        invariant (forall j :: TaskStep(i) in env(j)) && !done ==> StepsLeft(instances[i]) + k <= 5
        invariant (forall j :: TaskStep(i) in env(j)) && !done && k > 0 ==> StepsLeft(instances[i]) > 0
      {
        RoundCloser(View(), env(k), i);
        AtMostOneMoreCall(View(), env(k), i);
        RunInv(View(), env(k));
        Interfere(env(k));
        FinishedWhenNoneLeft(View());
        done := instances[i].finished;
        k := k + 1;
      }
      if done {
        Delete(i);
      }
    }

    method Delete(i: nat)
      requires Valid() && main == Waiting(i) && i < |instances| && instances[i].finished
      modifies this
      ensures Valid() && main == Flagging(i + 1) && polls == old(polls) && |instances| == old(|instances|)
      ensures instances[i] == old(instances[i]).(deleted := true) && instances[i].task.Done?
    {
      assert Stage(main, i, polls[i], instances[i]);
      StepInv(View(), MainStep);
      StepInv(Step(View(), MainStep), MainStep);
      instances := instances[i := instances[i].(deleted := true)];
      main := Flagging(i + 1);
    }
  }

  lemma LeftAtMostFive(x: Instance)
    ensures StepsLeft(x) <= 5
  {
  }

  lemma FinishedWhenNoneLeft(s: Sys)
    requires Inv(s) && s.main.Waiting?
    ensures s.main.i < |s.instances| && (s.instances[s.main.i].finished <==> StepsLeft(s.instances[s.main.i]) == 0)
  {
    assert Stage(s.main, s.main.i, s.polls[s.main.i], s.instances[s.main.i]);
  }
}
