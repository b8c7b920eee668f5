/** The array-slot ticket lock of src/common/util/SpinLock.hpp as a state machine
    over its atomic steps, for any number of threads and any number of slots. */
module SpinLocks {
  import opened Tallies

  type Tid = nat

  /** Where a thread stands inside lock(), trylock() or unlock(). */
  datatype Pc =
    | Idle
    | Spinning(ticket: nat)     // lock(): ticket drawn, slot not yet seen equal to it
    | TryTesting(ticket: nat)   // trylock(): head read, slot not yet tested
    | TrySwapping(ticket: nat)  // trylock(): slot matched, compare-and-swap still to come
    | Holding(ticket: nat)
    | Handing(ticket: nat)      // unlock(): next advanced, slot not yet stored
  {
    predicate Owns(h: nat) {
      this == Spinning(h) || this == Holding(h) || this == Handing(h)
    }

    predicate Inside() {
      Holding? || Handing?
    }
  }

  /** `slots`, `head` and `next` are the fields of the lock; `pcs` are the threads.
      The other fields are history: who drew each ticket, who entered in which
      order, and the last ticket stored by an unlock(). */
  datatype LockState = LockState(
    slots: seq<nat>, head: nat, next: nat, pcs: seq<Pc>,
    drawn: seq<Tid>, entered: seq<Tid>, published: nat)

  datatype Action =
    | Draw(t: Tid)     // lock(): fetch-add on head
    | Test(t: Tid)     // lock(): load of the slot
    | TryRead(t: Tid)  // trylock(): load of head
    | TryTest(t: Tid)  // trylock(): load of the slot
    | TrySwap(t: Tid)  // trylock(): compare-and-swap on head
    | Advance(t: Tid)  // unlock(): increment of next
    | Publish(t: Tid)  // unlock(): store into the slot

  function Init(size: nat, threads: nat): LockState {
    LockState(seq(size, i => 0), 0, 0, seq(threads, i => Idle), [], [], 0)
  }

  function DrawStep(s: LockState, t: Tid): LockState
    requires t < |s.pcs|
  {
    s.(head := s.head + 1, pcs := s.pcs[t := Spinning(s.head)], drawn := s.drawn + [t])
  }

  /** What lock() spins on and trylock() tests: the slot of ticket h holds h. */
  predicate Carries(slots: seq<nat>, h: nat) {
    |slots| > 0 && slots[h % |slots|] == h
  }

  function TestStep(s: LockState, t: Tid): LockState
    requires |s.slots| > 0 && t < |s.pcs| && s.pcs[t].Spinning?
  {
    var h := s.pcs[t].ticket;
    if Carries(s.slots, h) then s.(pcs := s.pcs[t := Holding(h)], entered := s.entered + [t]) else s
  }

  function TryReadStep(s: LockState, t: Tid): LockState
    requires t < |s.pcs|
  {
    s.(pcs := s.pcs[t := TryTesting(s.head)])
  }

  function TryTestStep(s: LockState, t: Tid): LockState
    requires |s.slots| > 0 && t < |s.pcs| && s.pcs[t].TryTesting?
  {
    var h := s.pcs[t].ticket;
    s.(pcs := s.pcs[t := if Carries(s.slots, h) then TrySwapping(h) else Idle])
  }

  function TrySwapStep(s: LockState, t: Tid): LockState
    requires t < |s.pcs| && s.pcs[t].TrySwapping?
  {
    var h := s.pcs[t].ticket;
    if s.head == h then
      s.(head := h + 1, pcs := s.pcs[t := Holding(h)], drawn := s.drawn + [t], entered := s.entered + [t])
    else
      s.(pcs := s.pcs[t := Idle])
  }

  function AdvanceStep(s: LockState, t: Tid): LockState
    requires t < |s.pcs| && s.pcs[t].Holding?
  {
    s.(next := s.next + 1, pcs := s.pcs[t := Handing(s.pcs[t].ticket)])
  }

  function PublishStep(s: LockState, t: Tid): LockState
    requires |s.slots| > 0 && t < |s.pcs|
  {
    s.(slots := s.slots[s.next % |s.slots| := s.next], pcs := s.pcs[t := Idle], published := s.next)
  }

  /** Whether the thread stands where the action belongs. */
  predicate Enabled(s: LockState, a: Action) {
    && |s.slots| > 0
    && a.t < |s.pcs|
    && match a
       case Draw(t) => s.pcs[t].Idle?
       case Test(t) => s.pcs[t].Spinning?
       case TryRead(t) => s.pcs[t].Idle?
       case TryTest(t) => s.pcs[t].TryTesting?
       case TrySwap(t) => s.pcs[t].TrySwapping?
       case Advance(t) => s.pcs[t].Holding?
       case Publish(t) => s.pcs[t].Handing?
  }

  /** One atomic step; an action whose thread is elsewhere changes nothing. */
  function Step(s: LockState, a: Action): LockState {
    if !Enabled(s, a) then s else
    match a
    case Draw(t) => DrawStep(s, t)
    case Test(t) => TestStep(s, t)
    case TryRead(t) => TryReadStep(s, t)
    case TryTest(t) => TryTestStep(s, t)
    case TrySwap(t) => TrySwapStep(s, t)
    case Advance(t) => AdvanceStep(s, t)
    case Publish(t) => PublishStep(s, t)
  }

  function Run(s: LockState, acts: seq<Action>): LockState {
    if acts == [] then s else Step(Run(s, acts[..|acts| - 1]), acts[|acts| - 1])
  }

  // ---- The invariant ---------------------------------------------------

  /** The slots hold the last `size` published tickets, and 0 where none was published yet. */
  ghost predicate SlotsOk(slots: seq<nat>, published: nat) {
    && (forall p: nat :: p <= published < p + |slots| ==> Carries(slots, p))
    && (forall i :: published < i < |slots| ==> slots[i] == 0)
    && (forall i :: 0 <= i < |slots| ==> slots[i] <= published)
  }

  ghost predicate PcOk(s: LockState, t: Tid)
    requires t < |s.pcs|
  {
    match s.pcs[t]
    case Idle => true
    case Spinning(h) => |s.entered| <= h < |s.drawn| && s.drawn[h] == t
    case TryTesting(h) => h <= s.head
    case TrySwapping(h) => h <= s.published
    case Holding(h) =>
      h < |s.drawn| && s.drawn[h] == t && h == s.published == s.next && |s.entered| == h + 1
    case Handing(h) =>
      h < |s.drawn| && s.drawn[h] == t && h == s.published && s.next == h + 1 == |s.entered|
  }

  ghost predicate OwnerOk(s: LockState, h: nat)
    requires h < |s.drawn|
  {
    s.drawn[h] < |s.pcs| && s.pcs[s.drawn[h]].Owns(h)
  }

  ghost predicate Inv(s: LockState) {
    && |s.slots| > 0
    && |s.drawn| == s.head
    && s.published <= s.next <= |s.entered| <= s.published + 1
    && |s.entered| <= s.head
    && s.entered == s.drawn[..|s.entered|]
    && SlotsOk(s.slots, s.published)
    && (forall t :: 0 <= t < |s.pcs| ==> PcOk(s, t))
    && (forall h :: s.published <= h < s.head ==> OwnerOk(s, h))
    && OccupantOk(s)
  }

  /** Whoever entered last and has not been stored as released is still inside. */
  ghost predicate OccupantOk(s: LockState) {
    s.published < |s.entered| ==>
      s.published < |s.drawn| && s.drawn[s.published] < |s.pcs| && s.pcs[s.drawn[s.published]].Inside()
  }

  lemma InitInv(size: nat, threads: nat)
    requires size > 0
    ensures Inv(Init(size, threads))
  {
    var s := Init(size, threads);
    forall p: nat | p <= s.published < p + |s.slots| ensures Carries(s.slots, p) {
      assert p == 0;
    }
  }

  lemma MatchMeansTurn(s: LockState, t: Tid)
    requires Inv(s) && t < |s.pcs| && s.pcs[t].Spinning? && Carries(s.slots, s.pcs[t].ticket)
    ensures s.pcs[t].ticket == s.published == s.next == |s.entered|
  {
    assert PcOk(s, t);
    var h := s.pcs[t].ticket;
    assert 0 <= h % |s.slots| < |s.slots|;
  }

  lemma DrawInv(s: LockState, t: Tid)
    requires Inv(s) && Enabled(s, Draw(t))
    ensures Inv(DrawStep(s, t))
  {
    var s' := DrawStep(s, t);
    forall h | s'.published <= h < s'.head ensures OwnerOk(s', h) {
      if h < s.head { assert OwnerOk(s, h); }
    }
    forall u | 0 <= u < |s'.pcs| ensures PcOk(s', u) { assert PcOk(s, u); }
  }

  lemma TestInv(s: LockState, t: Tid)
    requires Inv(s) && Enabled(s, Test(t))
    ensures Inv(TestStep(s, t))
  {
    var h := s.pcs[t].ticket;
    if Carries(s.slots, h) {
      var s' := TestStep(s, t);
      MatchMeansTurn(s, t);
      assert PcOk(s, t);
      forall k | s'.published <= k < s'.head ensures OwnerOk(s', k) { assert OwnerOk(s, k); }
      forall u | 0 <= u < |s'.pcs| ensures PcOk(s', u) { assert PcOk(s, u); }
    }
  }

  lemma TryReadInv(s: LockState, t: Tid)
    requires Inv(s) && Enabled(s, TryRead(t))
    ensures Inv(TryReadStep(s, t))
  {
    var s' := TryReadStep(s, t);
    forall k | s'.published <= k < s'.head ensures OwnerOk(s', k) { assert OwnerOk(s, k); }
    forall u | 0 <= u < |s'.pcs| ensures PcOk(s', u) { assert PcOk(s, u); }
  }

  lemma TryTestInv(s: LockState, t: Tid)
    requires Inv(s) && Enabled(s, TryTest(t))
    ensures Inv(TryTestStep(s, t))
  {
    var s' := TryTestStep(s, t);
    var h := s.pcs[t].ticket;
    assert 0 <= h % |s.slots| < |s.slots|;
    forall k | s'.published <= k < s'.head ensures OwnerOk(s', k) { assert OwnerOk(s, k); }
    forall u | 0 <= u < |s'.pcs| ensures PcOk(s', u) { assert PcOk(s, u); }
  }

  lemma TrySwapInv(s: LockState, t: Tid)
    requires Inv(s) && Enabled(s, TrySwap(t))
    ensures Inv(TrySwapStep(s, t))
  {
    var s' := TrySwapStep(s, t);
    assert PcOk(s, t);
    forall k | s'.published <= k < s'.head ensures OwnerOk(s', k) {
      if k < s.head { assert OwnerOk(s, k); }
    }
    forall u | 0 <= u < |s'.pcs| ensures PcOk(s', u) { assert PcOk(s, u); }
  }

  lemma AdvanceInv(s: LockState, t: Tid)
    requires Inv(s) && Enabled(s, Advance(t))
    ensures Inv(AdvanceStep(s, t))
  {
    var s' := AdvanceStep(s, t);
    assert PcOk(s, t);
    forall k | s'.published <= k < s'.head ensures OwnerOk(s', k) { assert OwnerOk(s, k); }
    forall u | 0 <= u < |s'.pcs| ensures PcOk(s', u) { assert PcOk(s, u); }
  }

  lemma PublishSlots(slots: seq<nat>, next: nat, idx: nat)
    requires |slots| > 0 && next > 0 && SlotsOk(slots, next - 1) && idx == next % |slots|
    ensures SlotsOk(slots[idx := next], next)
  {
    hide Carries;
    var slots' := slots[idx := next];
    forall p: nat | p <= next < p + |slots'| ensures Carries(slots', p) {
      PublishSlot(slots, next, idx, p);
    }
    if next < |slots| {
      ModSmall(next, |slots|);
    }
  }

  lemma PublishSlot(slots: seq<nat>, next: nat, idx: nat, p: nat)
    requires p <= next < p + |slots| && idx == next % |slots|
    requires p < next ==> Carries(slots, p)
    ensures Carries(slots[idx := next], p)
  {
    if p < next {
      ModApart(next, p, |slots|);
    }
  }

  lemma PublishInv(s: LockState, t: Tid)
    requires Inv(s) && Enabled(s, Publish(t))
    ensures Inv(PublishStep(s, t))
  {
    var s' := PublishStep(s, t);
    assert PcOk(s, t);
    PublishSlots(s.slots, s.next, s.next % |s.slots|);
    forall k | s'.published <= k < s'.head ensures OwnerOk(s', k) { assert OwnerOk(s, k); }
    forall u | 0 <= u < |s'.pcs| ensures PcOk(s', u) { assert PcOk(s, u); }
  }

  lemma StepInv(s: LockState, a: Action)
    requires Inv(s)
    ensures Inv(Step(s, a))
  {
    if Enabled(s, a) {
      match a
      case Draw(t) => DrawInv(s, t);
      case Test(t) => TestInv(s, t);
      case TryRead(t) => TryReadInv(s, t);
      case TryTest(t) => TryTestInv(s, t);
      case TrySwap(t) => TrySwapInv(s, t);
      case Advance(t) => AdvanceInv(s, t);
      case Publish(t) => PublishInv(s, t);
    }
  }

  lemma {:induction false} RunInv(s: LockState, acts: seq<Action>)
    requires Inv(s)
    ensures Inv(Run(s, acts))
  {
    if acts != [] {
      RunInv(s, acts[..|acts| - 1]);
      StepInv(Run(s, acts[..|acts| - 1]), acts[|acts| - 1]);
    }
  }

  // ---- What every run guarantees ---------------------------------------

  ghost predicate Reachable(s: LockState) {
    exists size: nat, threads: nat, acts :: size > 0 && s == Run(Init(size, threads), acts)
  }

  lemma ReachableInv(s: LockState)
    requires Reachable(s)
    ensures Inv(s)
  {
    var size: nat, threads: nat, acts :| size > 0 && s == Run(Init(size, threads), acts);
    InitInv(size, threads);
    RunInv(Init(size, threads), acts);
  }

  /** At most one thread is between acquiring the lock and handing it over. */
  lemma MutualExclusion(s: LockState, t: Tid, u: Tid)
    requires Reachable(s)
    requires t < |s.pcs| && u < |s.pcs| && s.pcs[t].Inside() && s.pcs[u].Inside()
    ensures t == u
  {
    ReachableInv(s);
    assert PcOk(s, t) && PcOk(s, u);
  }

  /** Threads enter exactly in the order in which they drew their tickets. */
  lemma FifoEntry(s: LockState)
    requires Reachable(s)
    ensures |s.entered| <= |s.drawn| == s.head
    ensures forall k :: 0 <= k < |s.entered| ==> s.entered[k] == s.drawn[k]
    ensures forall t :: 0 <= t < |s.pcs| && s.pcs[t].Spinning? ==>
              |s.entered| <= s.pcs[t].ticket < s.head && s.drawn[s.pcs[t].ticket] == t
  {
    ReachableInv(s);
    forall t | 0 <= t < |s.pcs| && s.pcs[t].Spinning?
      ensures |s.entered| <= s.pcs[t].ticket < s.head && s.drawn[s.pcs[t].ticket] == t
    {
      assert PcOk(s, t);
    }
  }

  /** Slot i holds the largest published ticket congruent to i, or 0 when there is none. */
  lemma SlotHoldsLatest(s: LockState, i: nat)
    requires Reachable(s) && i < |s.slots|
    ensures s.published < i ==> s.slots[i] == 0
    ensures i <= s.published ==>
              s.slots[i] % |s.slots| == i && s.slots[i] <= s.published < s.slots[i] + |s.slots|
  {
    ReachableInv(s);
    if i <= s.published {
      var p := LatestAt(s.published, i, |s.slots|);
      assert Carries(s.slots, p);
    }
  }

  /** The last number up to `top` that falls on slot i. */
  lemma LatestAt(top: nat, i: nat, size: nat) returns (p: nat)
    requires i < size && i <= top
    ensures p % size == i && p <= top < p + size
  {
    var q := (top - i) / size;
    p := i + size * q;
    ModUnique(p, size, q, i);
  }

  /** A slot is reused for ticket h + size only after ticket h has left. */
  lemma ReuseAfterRelease(s: LockState, t: Tid, h: nat)
    requires Reachable(s) && t < |s.pcs| && s.pcs[t].Owns(h)
    ensures |s.slots| > 0 && s.slots[h % |s.slots|] <= h
    ensures s.published <= h
  {
    ReachableInv(s);
    assert PcOk(s, t);
    assert 0 <= h % |s.slots| < |s.slots|;
  }

  /** trylock() acts on a slot read earlier; if its compare-and-swap succeeds the lock is free
      at that moment and no thread is waiting for it. */
  lemma TryLockSound(s: LockState, t: Tid)
    requires Reachable(s) && t < |s.pcs| && s.pcs[t].TrySwapping? && s.head == s.pcs[t].ticket
    ensures s.pcs[t].ticket == s.next == s.published == |s.entered|
    ensures forall u :: 0 <= u < |s.pcs| ==> !s.pcs[u].Inside() && !s.pcs[u].Spinning?
    ensures Carries(s.slots, s.head)
  {
    ReachableInv(s);
    assert PcOk(s, t);
    forall u | 0 <= u < |s.pcs| ensures !s.pcs[u].Inside() && !s.pcs[u].Spinning? {
      assert PcOk(s, u);
    }
    assert Carries(s.slots, s.published);
  }

  /** If nobody is inside and a ticket is outstanding, its owner spins on a slot that already matches. */
  lemma NoLostHandover(s: LockState)
    requires Reachable(s) && |s.drawn| > s.published
    requires forall u :: 0 <= u < |s.pcs| ==> !s.pcs[u].Inside()
    ensures s.drawn[s.published] < |s.pcs|
    ensures s.pcs[s.drawn[s.published]] == Spinning(s.published)
    ensures Carries(s.slots, s.published)
    ensures Step(s, Test(s.drawn[s.published])).pcs[s.drawn[s.published]] == Holding(s.published)
  {
    ReachableInv(s);
    assert OwnerOk(s, s.published);
    assert Carries(s.slots, s.published);
  }

  lemma {:induction false} RunAppend(s: LockState, xs: seq<Action>, ys: seq<Action>)
    ensures Run(s, xs + ys) == Run(Run(s, xs), ys)
  {
    if ys == [] {
      assert xs + ys == xs;
    } else {
      RunAppend(s, xs, ys[..|ys| - 1]);
      assert (xs + ys)[..|xs + ys| - 1] == xs + ys[..|ys| - 1];
    }
  }

  lemma RunNothing(s: LockState)
    ensures Run(s, []) == s
  {
  }

  lemma RunCons(s: LockState, a: Action, rest: seq<Action>)
    ensures Run(s, [a] + rest) == Run(Step(s, a), rest)
  {
    RunAppend(s, [a], rest);
    assert [a][..0] == [];
  }

  /** The thread whose ticket is due. */
  ghost function Due(s: LockState): Tid
    requires Inv(s) && s.published < s.head
    ensures Due(s) < |s.pcs| && s.pcs[Due(s)].Owns(s.published)
  {
    assert OwnerOk(s, s.published);
    s.drawn[s.published]
  }

  /** How many steps of the threads ahead, and its own last test, separate ticket h from the lock. */
  ghost function Distance(s: LockState, h: nat): nat
    requires Inv(s) && s.published <= h < s.head
  {
    var p := s.pcs[Due(s)];
    3 * (h - s.published) + if p.Spinning? then 2 else if p.Holding? then 1 else 0
  }

  /** The next move of the thread whose ticket is due. */
  ghost function DueMove(s: LockState): Action
    requires Inv(s) && s.published < s.head
  {
    var t := Due(s);
    if s.pcs[t].Spinning? then Test(t) else if s.pcs[t].Holding? then Advance(t) else Publish(t)
  }

  /** The due thread can always make its move, and the move takes the lock one step closer to ticket h. */
  lemma DueMoveAdvances(s: LockState, h: nat)
    requires Inv(s) && s.published <= h < s.head
    requires s.pcs[Due(s)].Spinning? || s.published < h
    ensures Enabled(s, DueMove(s))
    ensures var s' := Step(s, DueMove(s));
            && Inv(s') && s'.head == s.head
            && s'.published == s.published + (if s.pcs[Due(s)].Handing? then 1 else 0)
            && s'.published <= h && Distance(s', h) == Distance(s, h) - 1
  {
    var u := Due(s);
    assert PcOk(s, u);
    assert Carries(s.slots, s.published);
    StepInv(s, DueMove(s));
    var s' := Step(s, DueMove(s));
    assert PcOk(s', Due(s'));
  }

  lemma DueMoveFrame(s: LockState, t: Tid, low: nat)
    requires Inv(s) && low <= s.published && t < |s.pcs| && s.pcs[t].Spinning?
    ensures s.published <= s.pcs[t].ticket < s.head
    ensures !s.pcs[Due(s)].Spinning? ==> s.published < s.pcs[t].ticket
    ensures var s' := Step(s, DueMove(s));
            && s'.drawn == s.drawn && |s'.pcs| == |s.pcs|
            && (s'.pcs[t] == s.pcs[t] || s'.pcs[t] == Holding(s.pcs[t].ticket))
    ensures DueMove(s).t in s.drawn[low..s.pcs[t].ticket + 1]
    ensures s.head == |s.drawn| && (Step(s, DueMove(s)).pcs[t] != s.pcs[t] ==> Distance(s, s.pcs[t].ticket) >= 2)
  {
    assert PcOk(s, t);
    assert PcOk(s, Due(s));
    assert s.drawn[low..s.pcs[t].ticket + 1][s.published - low] == Due(s);
  }

  /** A waiting thread gets in after `fuel` steps of the threads that are due from ticket `low` on. */
  lemma {:induction false} DueMovesReach(s: LockState, t: Tid, low: nat, fuel: nat) returns (acts: seq<Action>)
    requires Inv(s) && t < |s.pcs| && s.pcs[t].Spinning?
    requires low <= s.published <= s.pcs[t].ticket < |s.drawn| && fuel == Distance(s, s.pcs[t].ticket)
    ensures t < |Run(s, acts).pcs| && Run(s, acts).pcs[t] == Holding(s.pcs[t].ticket)
    ensures |acts| < fuel
    ensures forall a :: a in acts ==> a.t in s.drawn[low..s.pcs[t].ticket + 1]
    decreases fuel
  {
    DueMoveFrame(s, t, low);
    hide Inv, Step, Run, Distance, DueMove;
    var a := DueMove(s);
    DueMoveAdvances(s, s.pcs[t].ticket);
    var s' := Step(s, a);
    if s'.pcs[t].Holding? {
      acts := [];
      RunNothing(s');
    } else {
      acts := DueMovesReach(s', t, low, fuel - 1);
    }
    RunCons(s, a, acts);
    InCons(a, acts, s.drawn[low..s.pcs[t].ticket + 1]);
    acts := [a] + acts;
  }

  lemma InCons(a: Action, rest: seq<Action>, owners: seq<Tid>)
    requires a.t in owners && forall b :: b in rest ==> b.t in owners
    ensures forall b :: b in [a] + rest ==> b.t in owners
  {
  }

  /** The action is the next move of the thread whose ticket is due. */
  ghost predicate IsDueMove(s: LockState, a: Action) {
    Inv(s) && s.published < s.head && a == DueMove(s)
  }

  /** How many steps of the run are due moves. */
  ghost function DueMoves(s: LockState, acts: seq<Action>): nat {
    if acts == [] then 0 else
    DueMoves(s, acts[..|acts| - 1]) + if IsDueMove(Run(s, acts[..|acts| - 1]), acts[|acts| - 1]) then 1 else 0
  }

  /** Nobody else's step, and no other step of the due thread, moves the lock away from ticket h. */
  lemma OtherMovesKeepDistance(s: LockState, a: Action, h: nat)
    requires Inv(s) && s.published <= h < s.head && a != DueMove(s)
    ensures var s' := Step(s, a);
            && Inv(s') && s'.published == s.published && h < s'.head && |s.entered| <= |s'.entered|
            && (|s'.entered| <= h ==> |s.entered| <= h && Distance(s', h) == Distance(s, h))
  {
    StepInv(s, a);
    var s' := Step(s, a);
    assert OwnerOk(s, s.published) && OwnerOk(s', s.published);
    assert PcOk(s, Due(s));
    if Enabled(s, a) {
      assert PcOk(s, a.t);
    }
  }

  /** While the owner of ticket h waits, the due thread tests, holds or hands over ahead of it. */
  lemma WaitingAhead(s: LockState, h: nat)
    requires Inv(s) && |s.entered| <= h < s.head
    ensures s.published <= h && (s.pcs[Due(s)].Spinning? || s.published < h) && Distance(s, h) >= 2
  {
    assert PcOk(s, Due(s));
  }

  /** Entries are never undone. */
  lemma EnteredGrows(s: LockState, a: Action)
    ensures s.entered <= Step(s, a).entered && s.drawn <= Step(s, a).drawn
  {
  }

  lemma {:induction false} DistanceSpent(s: LockState, acts: seq<Action>, h: nat)
    requires Inv(s) && |s.entered| <= h < s.head
    ensures var s' := Run(s, acts);
            && Inv(s') && h < s'.head && s.drawn <= s'.drawn
            && (|s'.entered| <= h ==> s.published <= h && s'.published <= h
                                      && Distance(s', h) + DueMoves(s, acts) == Distance(s, h))
  {
    hide Inv, Step, Distance, DueMove;
    WaitingAhead(s, h);
    if acts != [] {
      var rest, a := acts[..|acts| - 1], acts[|acts| - 1];
      DistanceSpent(s, rest, h);
      var mid := Run(s, rest);
      EnteredGrows(mid, a);
      StepInv(mid, a);
      if |mid.entered| <= h {
        WaitingAhead(mid, h);
        if a == DueMove(mid) {
          DueMoveAdvances(mid, h);
        } else {
          OtherMovesKeepDistance(mid, a, h);
        }
      } else {
        HeadGrows(mid, a);
      }
    }
  }

  lemma HeadGrows(s: LockState, a: Action)
    ensures s.head <= Step(s, a).head
  {
  }

  /** Starvation freedom: in every run that contains three moves of the due threads for each ticket
      ahead and one more, whatever else it contains, a waiting thread has entered in its turn. */
  lemma WaiterEntersInEveryRun(s: LockState, t: Tid, acts: seq<Action>)
    requires Reachable(s) && t < |s.pcs| && s.pcs[t].Spinning?
    requires DueMoves(s, acts) >= 3 * (s.pcs[t].ticket - s.published) + 1
    ensures var h := s.pcs[t].ticket;
            h < |Run(s, acts).entered| && Run(s, acts).entered[h] == t
  {
    var h := s.pcs[t].ticket;
    ReachableInv(s);
    FifoEntry(s);
    DistanceSpent(s, acts, h);
    WaitingAhead(s, h);
    var s' := Run(s, acts);
    if |s'.entered| <= h {
      WaitingAhead(s', h);
    }
    EntriesAreDraws(s');
  }

  lemma EntriesAreDraws(s: LockState)
    requires Inv(s)
    ensures |s.entered| <= |s.drawn| && forall k :: 0 <= k < |s.entered| ==> s.entered[k] == s.drawn[k]
  {
  }

  /** Such moves are always there to be made: from any reachable state some run of due moves only,
      bounded in the same way, makes the waiting thread the holder. */
  lemma WaiterGetsIn(s: LockState, t: Tid) returns (acts: seq<Action>)
    requires Reachable(s) && t < |s.pcs| && s.pcs[t].Spinning?
    ensures t < |Run(s, acts).pcs| && Run(s, acts).pcs[t] == Holding(s.pcs[t].ticket)
    ensures s.published <= s.pcs[t].ticket < |s.drawn|
    ensures |acts| <= 3 * (s.pcs[t].ticket - s.published) + 1
    ensures forall a :: a in acts ==> a.t in s.drawn[s.published..s.pcs[t].ticket + 1]
  {
    ReachableInv(s);
    DueMoveFrame(s, t, s.published);
    acts := DueMovesReach(s, t, s.published, Distance(s, s.pcs[t].ticket));
  }

  /** Undisturbed, trylock() succeeds exactly when no ticket is outstanding. */
  lemma TryLockExact(s: LockState, t: Tid)
    requires Reachable(s) && t < |s.pcs| && s.pcs[t].Idle?
    ensures var s' := Step(Step(Step(s, TryRead(t)), TryTest(t)), TrySwap(t));
            && |s'.pcs| == |s.pcs|
            && (s'.pcs[t] == if s.published == s.head then Holding(s.head) else Idle)
  {
    ReachableInv(s);
    assert Carries(s.slots, s.head) ==> s.head <= s.published by {
      assert 0 <= s.head % |s.slots| < |s.slots|;
    }
    if s.published == s.head {
      assert Carries(s.slots, s.published);
    }
  }

  lemma StepFrame(s: LockState, a: Action, t: Tid)
    requires t < |s.pcs| && a.t != t
    ensures |Step(s, a).pcs| == |s.pcs| && Step(s, a).pcs[t] == s.pcs[t]
    ensures s.drawn <= Step(s, a).drawn
  {
  }

  lemma {:induction false} RunFrame(s: LockState, acts: seq<Action>, t: Tid)
    requires t < |s.pcs| && forall a :: a in acts ==> a.t != t
    ensures |Run(s, acts).pcs| == |s.pcs| && Run(s, acts).pcs[t] == s.pcs[t]
    ensures s.drawn <= Run(s, acts).drawn
  {
    if acts != [] {
      RunFrame(s, acts[..|acts| - 1], t);
      StepFrame(Run(s, acts[..|acts| - 1]), acts[|acts| - 1], t);
    }
  }

  ghost predicate NotBy(acts: seq<Action>, t: Tid) {
    forall a :: a in acts ==> a.t != t
  }

  /** Whoever holds the last ticket drawn is inside with nobody waiting. */
  lemma AloneAtTheHead(s: LockState, t: Tid)
    requires Inv(s) && t < |s.pcs| && s.pcs[t].Holding? && s.head == s.pcs[t].ticket + 1
    ensures s.published == s.next == s.pcs[t].ticket && |s.entered| == s.next + 1 && s.entered[s.next] == t
    ensures forall u :: 0 <= u < |s.pcs| && u != t ==> !s.pcs[u].Inside() && !s.pcs[u].Spinning?
  {
    assert PcOk(s, t);
    forall u | 0 <= u < |s.pcs| && u != t ensures !s.pcs[u].Inside() && !s.pcs[u].Spinning? {
      assert PcOk(s, u);
    }
  }

  /** lock() after its k-th load of the slot. */
  ghost function LockTrace(t: Tid, env: seq<seq<Action>>, k: nat): seq<Action>
    requires k <= |env|
  {
    if k == 0 then [Draw(t)] else LockTrace(t, env, k - 1) + env[k - 1] + [Test(t)]
  }

  /** The k-th load of the slot finds the ticket drawn. */
  ghost predicate LoadMatches(s: LockState, t: Tid, env: seq<seq<Action>>, k: nat)
    requires k < |env|
  {
    Carries(Run(s, LockTrace(t, env, k) + env[k]).slots, s.head)
  }

  /** None of the first n loads finds it. */
  ghost predicate NoneMatches(s: LockState, t: Tid, env: seq<seq<Action>>, n: int)
    requires n <= |env|
  {
    forall k :: 0 <= k < n ==> !LoadMatches(s, t, env, k)
  }

  lemma NoneNext(s: LockState, t: Tid, env: seq<seq<Action>>, k: nat)
    requires k < |env|
    ensures NoneMatches(s, t, env, k + 1) <==> NoneMatches(s, t, env, k) && !LoadMatches(s, t, env, k)
  {
  }

  lemma LockStarts(s: LockState, t: Tid, env: seq<seq<Action>>)
    ensures NoneMatches(s, t, env, 0)
    ensures Run(s, LockTrace(t, env, 0)) == Step(s, Draw(t))
  {
    hide Step;
    RunCons(s, Draw(t), []);
    assert [Draw(t)] + [] == [Draw(t)];
    RunNothing(Step(s, Draw(t)));
  }

  lemma LockContinues(s: LockState, t: Tid, env: seq<seq<Action>>, k: nat)
    requires k < |env|
    ensures var loading := Run(Run(s, LockTrace(t, env, k)), env[k]);
            && (LoadMatches(s, t, env, k) <==> Carries(loading.slots, s.head))
            && Run(s, LockTrace(t, env, k + 1)) == Step(loading, Test(t))
  {
    hide Step;
    RunAppend(s, LockTrace(t, env, k), env[k]);
    RunAppend(s, LockTrace(t, env, k) + env[k], [Test(t)]);
    RunCons(Run(s, LockTrace(t, env, k) + env[k]), Test(t), []);
    assert [Test(t)] + [] == [Test(t)];
    RunNothing(Step(Run(s, LockTrace(t, env, k) + env[k]), Test(t)));
  }

  lemma HasSlots(s: LockState)
    requires Inv(s)
    ensures |s.slots| > 0
  {
  }

  /** Between its two accesses the unlocking thread keeps everybody out, and its store publishes the
      next ticket. */
  lemma Handed(s: LockState, s': LockState, t: Tid)
    requires Inv(s) && Inv(s') && t < |s.pcs| && t < |s'.pcs| && s.pcs[t].Handing? && s'.pcs[t] == s.pcs[t] && s.drawn <= s'.drawn
    ensures s'.next == s.next == |s'.entered| && s'.entered == s.entered && |s'.slots| > 0
    ensures var s'' := Step(s', Publish(t));
            s''.published == s''.next == s'.next && s''.entered == s'.entered && Carries(s''.slots, s''.next)
  {
    assert PcOk(s, t) && PcOk(s', t);
  }

  /** Whoever holds the lock is the only one inside, in its ticket's place. */
  lemma HolderAlone(s: LockState, t: Tid)
    requires Inv(s) && t < |s.pcs| && s.pcs[t].Holding?
    ensures s.published == s.next == s.pcs[t].ticket && |s.entered| == s.next + 1 && s.entered[s.next] == t
    ensures forall u :: 0 <= u < |s.pcs| && u != t ==> !s.pcs[u].Inside()
  {
    assert PcOk(s, t);
    forall u | 0 <= u < |s.pcs| && u != t ensures !s.pcs[u].Inside() {
      assert PcOk(s, u);
    }
  }

  /** The lock itself. Each of lock(), trylock() and unlock() is the sequence of its atomic
      accesses; between two of them the other threads perform an arbitrary list of actions. */
  class SpinLock {
    const buffer: array<nat>
    var head: nat
    var next: nat
    var pcs: seq<Pc>
    ghost var drawn: seq<Tid>
    ghost var entered: seq<Tid>
    ghost var published: nat

    ghost function View(): LockState
      reads this, buffer
    {
      LockState(buffer[..], head, next, pcs, drawn, entered, published)
    }

    ghost predicate Valid()
      reads this, buffer
    {
      Inv(View())
    }

    constructor (size: nat, threads: nat)
      requires size > 0
      ensures Valid() && fresh(buffer) && View() == Init(size, threads)
    {
      buffer := new nat[size](i => 0);
      head, next := 0, 0;
      pcs := seq(threads, i => Idle);
      drawn, entered, published := [], [], 0;
      new;
      assert buffer[..] == seq(size, i => 0);
      InitInv(size, threads);
    }

    method FetchAddHead(t: Tid) returns (h: nat)
      requires Valid() && Enabled(View(), Draw(t))
      modifies this
      ensures Valid() && View() == Step(old(View()), Draw(t)) && h == old(head)
    {
      StepInv(View(), Draw(t));
      h := head;
      head := head + 1;
      pcs := pcs[t := Spinning(h)];
      drawn := drawn + [t];
    }

    method TestSlot(t: Tid) returns (matched: bool)
      requires Valid() && Enabled(View(), Test(t))
      modifies this
      ensures Valid() && View() == Step(old(View()), Test(t))
      ensures matched == Carries(old(buffer[..]), old(pcs[t].ticket))
    {
      StepInv(View(), Test(t));
      var h := pcs[t].ticket;
      matched := buffer[h % buffer.Length] == h;
      if matched {
        pcs := pcs[t := Holding(h)];
        entered := entered + [t];
      }
    }

    method LoadHead(t: Tid) returns (h: nat)
      requires Valid() && Enabled(View(), TryRead(t))
      modifies this
      ensures Valid() && View() == Step(old(View()), TryRead(t)) && h == old(head)
    {
      StepInv(View(), TryRead(t));
      h := head;
      pcs := pcs[t := TryTesting(h)];
    }

    method TryTestSlot(t: Tid) returns (matched: bool)
      requires Valid() && Enabled(View(), TryTest(t))
      modifies this
      ensures Valid() && View() == Step(old(View()), TryTest(t))
      ensures matched == Carries(old(buffer[..]), old(pcs[t].ticket))
    {
      StepInv(View(), TryTest(t));
      var h := pcs[t].ticket;
      matched := buffer[h % buffer.Length] == h;
      pcs := pcs[t := if matched then TrySwapping(h) else Idle];
    }

    method CompareAndSwapHead(t: Tid) returns (swapped: bool)
      requires Valid() && Enabled(View(), TrySwap(t))
      modifies this
      ensures Valid() && View() == Step(old(View()), TrySwap(t))
      ensures swapped == (old(head) == old(pcs[t].ticket))
    {
      StepInv(View(), TrySwap(t));
      var h := pcs[t].ticket;
      swapped := head == h;
      if swapped {
        head := h + 1;
        pcs := pcs[t := Holding(h)];
        drawn, entered := drawn + [t], entered + [t];
      } else {
        pcs := pcs[t := Idle];
      }
    }

    method IncrementNext(t: Tid) returns (idx: nat)
      requires Valid() && Enabled(View(), Advance(t))
      modifies this
      ensures Valid() && View() == Step(old(View()), Advance(t))
      ensures idx == next % buffer.Length
    {
      StepInv(View(), Advance(t));
      next := next + 1;
      pcs := pcs[t := Handing(pcs[t].ticket)];
      idx := next % buffer.Length;
    }

    method StoreNext(t: Tid, idx: nat)
      requires Valid() && Enabled(View(), Publish(t)) && idx == next % buffer.Length
      modifies this, buffer
      ensures Valid() && View() == Step(old(View()), Publish(t))
    {
      StepInv(View(), Publish(t));
      buffer[idx] := next;
      pcs := pcs[t := Idle];
      published := next;
    }

    /** One atomic access of whichever thread the action names. */
    method Perform(a: Action)
      requires Valid()
      modifies this, buffer
      ensures Valid() && View() == Step(old(View()), a)
    {
      if a.t < |pcs| {
        match a {
          case Draw(t) => if pcs[t].Idle? { var _ := FetchAddHead(t); }
          case Test(t) => if pcs[t].Spinning? { var _ := TestSlot(t); }
          case TryRead(t) => if pcs[t].Idle? { var _ := LoadHead(t); }
          case TryTest(t) => if pcs[t].TryTesting? { var _ := TryTestSlot(t); }
          case TrySwap(t) => if pcs[t].TrySwapping? { var _ := CompareAndSwapHead(t); }
          case Advance(t) => if pcs[t].Holding? { var _ := IncrementNext(t); }
          case Publish(t) => if pcs[t].Handing? { StoreNext(t, next % buffer.Length); }
        }
      }
    }

    /** The other threads perform `acts`. */
    method Interfere(acts: seq<Action>, ghost t: Tid)
      requires Valid() && t < |pcs| && NotBy(acts, t)
      modifies this, buffer
      ensures Valid() && View() == Run(old(View()), acts)
      ensures |pcs| == old(|pcs|) && pcs[t] == old(pcs[t]) && old(drawn) <= drawn
    {
      var k := 0;
      while k < |acts|
        invariant 0 <= k <= |acts|
        invariant Valid() && View() == Run(old(View()), acts[..k])
      {
        Perform(acts[k]);
        k := k + 1;
        assert acts[..k][..k - 1] == acts[..k - 1];
      }
      assert acts[..k] == acts;
      RunFrame(old(View()), acts, t);
    }

    /** One round of the spin loop: others act, then the slot is loaded. */
    method Spin(t: Tid, env: seq<seq<Action>>, ghost s: LockState, k: nat) returns (matched: bool)
      requires Valid() && t < |pcs| && k < |env| && NotBy(env[k], t)
      requires View() == Run(s, LockTrace(t, env, k)) && pcs[t] == Spinning(s.head)
      modifies this, buffer
      ensures Valid() && View() == Run(s, LockTrace(t, env, k + 1)) && |pcs| == old(|pcs|)
      ensures matched == LoadMatches(s, t, env, k)
      ensures pcs[t] == if matched then Holding(s.head) else Spinning(s.head)
    {
      hide Inv, Run, NotBy, LoadMatches, LockTrace, Carries;
      HasSlots(View());
      Interfere(env[k], t);
      LockContinues(s, t, env, k);
      matched := TestSlot(t);
    }

    /** lock(): `env[k]` is what the other threads do before the k-th load of the slot. The thread
        acquires the lock at the first load that finds its ticket; when the schedule ends before
        that, it is still spinning. */
    method Lock(t: Tid, env: seq<seq<Action>>) returns (acquired: bool, ghost loads: nat)
      requires Valid() && t < |pcs| && pcs[t].Idle?
      requires forall acts :: acts in env ==> NotBy(acts, t)
      modifies this, buffer
      ensures loads <= |env| && NoneMatches(old(View()), t, env, if acquired then loads - 1 else loads)
      ensures if acquired then loads > 0 && LoadMatches(old(View()), t, env, loads - 1) else loads == |env|
      ensures Valid() && View() == Run(old(View()), LockTrace(t, env, loads)) && |pcs| == old(|pcs|)
      ensures pcs[t] == if acquired then Holding(old(head)) else Spinning(old(head))
      ensures acquired ==> published == next == old(head) && |entered| == next + 1 && entered[next] == t
      ensures acquired ==> forall u :: 0 <= u < |pcs| && u != t ==> !pcs[u].Inside()
    {
      hide Inv, Run, LoadMatches, LockTrace, Carries, NoneMatches;
      ghost var s := View();
      HasSlots(s);
      var h := FetchAddHead(t);
      LockStarts(s, t, env);
      hide Step, Enabled;
      acquired, loads := false, 0;
      var k := 0;
      while k < |env| && !acquired
        invariant 0 <= k <= |env| && loads == k && |pcs| == old(|pcs|)
        invariant Valid() && View() == Run(s, LockTrace(t, env, k))
        invariant pcs[t] == if acquired then Holding(h) else Spinning(h)
        invariant acquired ==> k > 0 && LoadMatches(s, t, env, k - 1)
        invariant NoneMatches(s, t, env, if acquired then k - 1 else k)
      {
        acquired := Spin(t, env, s, k);
        NoneNext(s, t, env, k);
        k, loads := k + 1, loads + 1;
      }
      if acquired {
        HolderAlone(View(), t);
      }
    }

    /** trylock(), with interference before the test of the slot and before the swap. It acquires the
        lock exactly if the slot still carries the head it read, and the head is still the same. */
    method TryLock(t: Tid, beforeTest: seq<Action>, beforeSwap: seq<Action>) returns (acquired: bool)
      requires Valid() && t < |pcs| && pcs[t].Idle?
      requires NotBy(beforeTest, t) && NotBy(beforeSwap, t)
      modifies this, buffer
      ensures Valid() && |pcs| == old(|pcs|)
      ensures var read := Run(Step(old(View()), TryRead(t)), beforeTest);
              var tested := Step(read, TryTest(t));
              var matched := Carries(read.slots, old(head));
              && (acquired <==> matched && Run(tested, beforeSwap).head == old(head))
              && View() == if matched then Step(Run(tested, beforeSwap), TrySwap(t)) else tested
      ensures pcs[t] == if acquired then Holding(old(head)) else Idle
      ensures acquired ==> published == next == old(head) && |entered| == next + 1 && entered[next] == t
      ensures acquired ==> forall u :: 0 <= u < |pcs| && u != t ==> !pcs[u].Inside() && !pcs[u].Spinning?
    {
      hide Inv, Run, NotBy, Carries;
      HasSlots(View());
      var h := LoadHead(t);
      Interfere(beforeTest, t);
      var matched := TryTestSlot(t);
      if !matched {
        return false;
      }
      Interfere(beforeSwap, t);
      acquired := CompareAndSwapHead(t);
      if acquired {
        AloneAtTheHead(View(), t);
      }
    }

    /** unlock(), with interference between the increment of next and the store. */
    method Unlock(t: Tid, env: seq<Action>)
      requires Valid() && t < |pcs| && pcs[t].Holding? && NotBy(env, t)
      modifies this, buffer
      ensures Valid() && |pcs| == old(|pcs|) && pcs[t] == Idle
      ensures View() == Step(Run(Step(old(View()), Advance(t)), env), Publish(t))
      ensures published == next == old(next) + 1 && Carries(buffer[..], next)
      ensures |entered| == next && entered == old(entered)
    {
      hide Inv, Run, NotBy, Carries;
      HasSlots(View());
      HolderAlone(View(), t);
      ghost var s := View();
      var idx := IncrementNext(t);
      ghost var handing := View();
      Interfere(env, t);
      Handed(handing, View(), t);
      StoreNext(t, idx);
    }
  }
}
