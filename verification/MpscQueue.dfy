/** The lock-free multi-producer single-consumer ring of src/common/util/MPSCLockFreeQueue.hpp
    as a state machine over its atomic accesses, for any number of producers and any capacity. */
module MpscQueues {
  import opened Tallies

  type Tid = nat

  /** Where a producer stands inside enqueue(obj). */
  datatype Producer =
    | Idle
    | Reserved(obj: nat)             // passed the capacity test on count
    | BackingOff                     // failed it; count still to be decremented
    | Ticketed(obj: nat, slot: nat)  // drew a head ticket; slot not yet checked
    | Checked(obj: nat, slot: nat)   // saw the slot empty; value not yet exchanged in
  {
    predicate Has(k: nat) {
      (Ticketed? || Checked?) && slot == k
    }
  }

  /** Where the consumer stands inside dequeue(). */
  datatype Consumer =
    | Ready
    | Took(value: nat)    // exchanged a value out; tail not yet advanced
    | Moved(value: nat)   // advanced tail; count still to be decremented

  /** `count`, `head`, `tail` and `buffer` are the fields of the ring. History: `items[k]` and
      `owner[k]` are the value and the thread of head ticket k, `written` the tickets whose value
      has been stored, `taken` the values dequeued so far, in order. */
  datatype Ring = Ring(
    count: int, head: nat, tail: nat, buffer: seq<nat>,
    producers: seq<Producer>, consumer: Consumer,
    items: seq<nat>, owner: seq<Tid>, written: set<nat>, taken: seq<nat>)
  {
    function Capacity(): nat { |buffer| }
  }

  datatype Action =
    | Reserve(t: Tid, obj: nat)  // fetch-add on count
    | BackOff(t: Tid)            // fetch-sub on count after a failed reservation
    | DrawTicket(t: Tid)         // fetch-add on head
    | CheckSlot(t: Tid)          // load asserted to be zero
    | Write(t: Tid)              // exchange of the value into the slot
    | Take                       // consumer: exchange of zero into the tail slot
    | MoveTail                   // consumer: tail advanced and wrapped
    | Release                    // consumer: fetch-sub on count

  function Init(capacity: nat, threads: nat): Ring {
    Ring(0, 0, 0, seq(capacity, i => 0), seq(threads, i => Idle), Ready, [], [], {}, [])
  }

  predicate Enabled(s: Ring, a: Action) {
    && s.Capacity() > 0
    && match a
       case Reserve(t, obj) => t < |s.producers| && s.producers[t].Idle? && obj != 0
       case BackOff(t) => t < |s.producers| && s.producers[t].BackingOff?
       case DrawTicket(t) => t < |s.producers| && s.producers[t].Reserved?
       case CheckSlot(t) => t < |s.producers| && s.producers[t].Ticketed?
       case Write(t) => t < |s.producers| && s.producers[t].Checked?
       case Take => s.consumer.Ready? && s.tail < s.Capacity()
       case MoveTail => s.consumer.Took?
       case Release => s.consumer.Moved?
  }

  function ReserveStep(s: Ring, t: Tid, obj: nat): Ring
    requires Enabled(s, Reserve(t, obj))
  {
    s.(count := s.count + 1,
       producers := s.producers[t := if s.count >= s.Capacity() then BackingOff else Reserved(obj)])
  }

  function BackOffStep(s: Ring, t: Tid): Ring
    requires Enabled(s, BackOff(t))
  {
    s.(count := s.count - 1, producers := s.producers[t := Idle])
  }

  function DrawTicketStep(s: Ring, t: Tid): Ring
    requires Enabled(s, DrawTicket(t))
  {
    var obj := s.producers[t].obj;
    s.(head := s.head + 1, producers := s.producers[t := Ticketed(obj, s.head)],
       items := s.items + [obj], owner := s.owner + [t])
  }

  function CheckSlotStep(s: Ring, t: Tid): Ring
    requires Enabled(s, CheckSlot(t))
  {
    s.(producers := s.producers[t := Checked(s.producers[t].obj, s.producers[t].slot)])
  }

  function WriteStep(s: Ring, t: Tid): Ring
    requires Enabled(s, Write(t))
  {
    var p := s.producers[t];
    s.(buffer := s.buffer[p.slot % s.Capacity() := p.obj],
       producers := s.producers[t := Idle], written := s.written + {p.slot})
  }

  function TakeStep(s: Ring): Ring
    requires Enabled(s, Take)
  {
    var ret := s.buffer[s.tail];
    if ret == 0 then s else
    s.(buffer := s.buffer[s.tail := 0], consumer := Took(ret), taken := s.taken + [ret])
  }

  function MoveTailStep(s: Ring): Ring
    requires Enabled(s, MoveTail)
  {
    s.(tail := if s.tail + 1 >= s.Capacity() then 0 else s.tail + 1, consumer := Moved(s.consumer.value))
  }

  function ReleaseStep(s: Ring): Ring
    requires Enabled(s, Release)
  {
    s.(count := s.count - 1, consumer := Ready)
  }

  function Step(s: Ring, a: Action): Ring {
    if !Enabled(s, a) then s else
    match a
    case Reserve(t, obj) => ReserveStep(s, t, obj)
    case BackOff(t) => BackOffStep(s, t)
    case DrawTicket(t) => DrawTicketStep(s, t)
    case CheckSlot(t) => CheckSlotStep(s, t)
    case Write(t) => WriteStep(s, t)
    case Take => TakeStep(s)
    case MoveTail => MoveTailStep(s)
    case Release => ReleaseStep(s)
  }

  function Run(s: Ring, acts: seq<Action>): Ring {
    if acts == [] then s else Step(Run(s, acts[..|acts| - 1]), acts[|acts| - 1])
  }

  // ---- Accounting of the reservation counter ---------------------------

  predicate IsReserved(p: Producer) { p.Reserved? }
  predicate IsBackingOff(p: Producer) { p.BackingOff? }
  predicate IsTicketed(p: Producer) { p.Ticketed? || p.Checked? }
  predicate IsOccupied(v: nat) { v != 0 }

  ghost function Reservations(s: Ring): nat { Count(s.producers, IsReserved) }
  ghost function BackOffs(s: Ring): nat { Count(s.producers, IsBackingOff) }
  ghost function Unwritten(s: Ring): nat { Count(s.producers, IsTicketed) }
  ghost function Occupied(s: Ring): nat { Count(s.buffer, IsOccupied) }
  ghost function Pending(s: Ring): nat { if s.consumer.Ready? then 0 else 1 }

  lemma ProducerCounts(s: Ring, t: Tid, p: Producer)
    requires t < |s.producers|
    ensures var s' := s.(producers := s.producers[t := p]);
            && Reservations(s') + (if IsReserved(s.producers[t]) then 1 else 0)
               == Reservations(s) + (if IsReserved(p) then 1 else 0)
            && BackOffs(s') + (if IsBackingOff(s.producers[t]) then 1 else 0)
               == BackOffs(s) + (if IsBackingOff(p) then 1 else 0)
            && Unwritten(s') + (if IsTicketed(s.producers[t]) then 1 else 0)
               == Unwritten(s) + (if IsTicketed(p) then 1 else 0)
  {
    CountUpdate(s.producers, t, p, IsReserved);
    CountUpdate(s.producers, t, p, IsBackingOff);
    CountUpdate(s.producers, t, p, IsTicketed);
  }

  // ---- The invariant ---------------------------------------------------

  /** What the slot of ticket k must hold while k is at most one turn after the last taken ticket. */
  ghost function Content(s: Ring, k: nat): nat {
    if k < |s.items| && k in s.written then s.items[k] else 0
  }

  ghost predicate SlotOk(s: Ring, k: nat) {
    s.Capacity() > 0 && s.buffer[k % s.Capacity()] == Content(s, k)
  }

  ghost predicate WindowOk(s: Ring) {
    forall k: nat :: |s.taken| <= k < |s.taken| + s.Capacity() ==> SlotOk(s, k)
  }

  ghost predicate AccountsOk(s: Ring) {
    && Unwritten(s) + Occupied(s) == s.head - |s.taken|
    && s.count == Reservations(s) + BackOffs(s) + Unwritten(s) + Occupied(s) + Pending(s)
    && Reservations(s) + Unwritten(s) + Occupied(s) + Pending(s) <= s.Capacity()
  }

  ghost predicate ProducerOk(s: Ring, t: Tid)
    requires t < |s.producers|
  {
    match s.producers[t]
    case Idle => true
    case BackingOff => true
    case Reserved(obj) => obj != 0
    case Ticketed(obj, k) => TicketOk(s, t, obj, k)
    case Checked(obj, k) => TicketOk(s, t, obj, k)
  }

  ghost predicate TicketOk(s: Ring, t: Tid, obj: nat, k: nat) {
    && |s.taken| <= k < |s.items| && k < |s.owner|
    && s.owner[k] == t && s.items[k] == obj && k !in s.written
  }

  ghost predicate OwnerOk(s: Ring, k: nat) {
    k in s.written || (k < |s.owner| && s.owner[k] < |s.producers| && s.producers[s.owner[k]].Has(k))
  }

  ghost predicate TailOk(s: Ring) {
    && s.Capacity() > 0
    && match s.consumer
       case Ready => s.tail == |s.taken| % s.Capacity()
       case Moved(v) => s.tail == |s.taken| % s.Capacity()
       case Took(v) => |s.taken| > 0 && s.tail == (|s.taken| - 1) % s.Capacity()
  }

  ghost predicate HistoryOk(s: Ring) {
    && s.head == |s.items| == |s.owner|
    && s.taken <= s.items
    && (forall k :: k in s.written ==> k < s.head)
    && (forall k :: 0 <= k < |s.taken| ==> k in s.written)
    && (forall k :: 0 <= k < |s.items| ==> s.items[k] != 0)
  }

  ghost predicate Inv(s: Ring) {
    && s.Capacity() > 0
    && HistoryOk(s)
    && AccountsOk(s)
    && TailOk(s)
    && WindowOk(s)
    && (forall t :: 0 <= t < |s.producers| ==> ProducerOk(s, t))
    && (forall k: nat :: |s.taken| <= k < s.head ==> OwnerOk(s, k))
  }

  lemma InitInv(capacity: nat, threads: nat)
    requires capacity > 0
    ensures Inv(Init(capacity, threads))
  {
    var s := Init(capacity, threads);
    CountNone(s.producers, IsReserved);
    CountNone(s.producers, IsBackingOff);
    CountNone(s.producers, IsTicketed);
    CountNone(s.buffer, IsOccupied);
    forall k: nat | k < capacity ensures SlotOk(s, k) {
      assert 0 <= k % capacity < capacity;
    }
  }

  lemma WindowFrame(s: Ring, s': Ring)
    requires WindowOk(s) && HistoryOk(s) && s'.buffer == s.buffer && s'.written == s.written
    requires |s'.taken| == |s.taken| && s.items <= s'.items
    ensures WindowOk(s')
  {
    forall k: nat | |s'.taken| <= k < |s'.taken| + s'.Capacity() ensures SlotOk(s', k) {
      assert SlotOk(s, k);
    }
  }

  lemma OwnersFrame(s: Ring, t: Tid, s': Ring)
    requires t < |s.producers| == |s'.producers| && s'.written == s.written && |s'.taken| == |s.taken|
    requires s.owner <= s'.owner && s.items <= s'.items
    requires forall u :: 0 <= u < |s.producers| && u != t ==> s'.producers[u] == s.producers[u]
    requires forall k :: s.producers[t].Has(k) ==> s'.producers[t].Has(k)
    requires forall k: nat :: |s.taken| <= k < s.head ==> OwnerOk(s, k)
    requires forall u :: 0 <= u < |s.producers| ==> ProducerOk(s, u)
    ensures forall k: nat :: |s.taken| <= k < s.head ==> OwnerOk(s', k)
    ensures forall u :: 0 <= u < |s.producers| && u != t ==> ProducerOk(s', u)
  {
    forall k: nat | |s.taken| <= k < s.head ensures OwnerOk(s', k) { assert OwnerOk(s, k); }
    forall u | 0 <= u < |s.producers| && u != t ensures ProducerOk(s', u) { assert ProducerOk(s, u); }
  }

  lemma ReserveInv(s: Ring, t: Tid, obj: nat)
    requires Inv(s) && Enabled(s, Reserve(t, obj))
    ensures Inv(ReserveStep(s, t, obj))
  {
    var s' := ReserveStep(s, t, obj);
    ProducerCounts(s, t, s'.producers[t]);
    WindowFrame(s, s');
    OwnersFrame(s, t, s');
  }

  lemma BackOffInv(s: Ring, t: Tid)
    requires Inv(s) && Enabled(s, BackOff(t))
    ensures Inv(BackOffStep(s, t))
  {
    var s' := BackOffStep(s, t);
    ProducerCounts(s, t, s'.producers[t]);
    WindowFrame(s, s');
    OwnersFrame(s, t, s');
  }

  lemma DrawTicketInv(s: Ring, t: Tid)
    requires Inv(s) && Enabled(s, DrawTicket(t))
    ensures Inv(DrawTicketStep(s, t))
  {
    var s' := DrawTicketStep(s, t);
    assert ProducerOk(s, t);
    ProducerCounts(s, t, s'.producers[t]);
    WindowFrame(s, s');
    OwnersFrame(s, t, s');
    assert OwnerOk(s', s.head);
  }

  lemma CheckSlotInv(s: Ring, t: Tid)
    requires Inv(s) && Enabled(s, CheckSlot(t))
    ensures Inv(CheckSlotStep(s, t))
  {
    var s' := CheckSlotStep(s, t);
    assert ProducerOk(s, t);
    ProducerCounts(s, t, s'.producers[t]);
    WindowFrame(s, s');
    OwnersFrame(s, t, s');
  }

  /** An outstanding ticket lies within one turn of the tail and its slot is empty. */
  lemma TicketSlotEmpty(s: Ring, t: Tid)
    requires Inv(s) && t < |s.producers| && IsTicketed(s.producers[t])
    ensures |s.taken| <= s.producers[t].slot < |s.taken| + s.Capacity()
    ensures s.buffer[s.producers[t].slot % s.Capacity()] == 0
  {
    assert ProducerOk(s, t);
    assert SlotOk(s, s.producers[t].slot);
  }

  lemma WriteWindow(s: Ring, t: Tid)
    requires Inv(s) && Enabled(s, Write(t))
    ensures WindowOk(WriteStep(s, t))
  {
    var s' := WriteStep(s, t);
    var h := s.producers[t].slot;
    TicketSlotEmpty(s, t);
    assert ProducerOk(s, t);
    forall k: nat | |s'.taken| <= k < |s'.taken| + s'.Capacity() ensures SlotOk(s', k) {
      assert SlotOk(s, k);
      if k < h { ModApart(h, k, s.Capacity()); }
      if k > h { ModApart(k, h, s.Capacity()); }
    }
  }

  lemma WriteAccounts(s: Ring, t: Tid)
    requires Inv(s) && Enabled(s, Write(t))
    ensures AccountsOk(WriteStep(s, t))
  {
    var s' := WriteStep(s, t);
    var p := s.producers[t];
    assert ProducerOk(s, t);
    TicketSlotEmpty(s, t);
    ProducerCounts(s, t, Idle);
    CountUpdate(s.buffer, p.slot % s.Capacity(), p.obj, IsOccupied);
  }

  lemma WriteInv(s: Ring, t: Tid)
    requires Inv(s) && Enabled(s, Write(t))
    ensures Inv(WriteStep(s, t))
  {
    var s' := WriteStep(s, t);
    WriteWindow(s, t);
    WriteAccounts(s, t);
    assert ProducerOk(s, t);
    forall k: nat | |s'.taken| <= k < s'.head ensures OwnerOk(s', k) { assert OwnerOk(s, k); }
    forall u | 0 <= u < |s'.producers| ensures ProducerOk(s', u) { assert ProducerOk(s, u); }
  }

  /** What the consumer finds: the value of the tail ticket if it is written, otherwise 0. */
  lemma TailSlot(s: Ring)
    requires Inv(s) && s.consumer.Ready?
    ensures s.tail < s.Capacity()
    ensures s.buffer[s.tail] == if |s.taken| in s.written then s.items[|s.taken|] else 0
    ensures |s.taken| in s.written ==> |s.taken| < s.head && s.items[|s.taken|] != 0
  {
    assert SlotOk(s, |s.taken|);
  }

  lemma TakeWindow(s: Ring)
    requires Inv(s) && Enabled(s, Take) && s.buffer[s.tail] != 0
    ensures WindowOk(TakeStep(s))
  {
    var s' := TakeStep(s);
    var n := |s.taken|;
    TailSlot(s);
    forall k: nat | |s'.taken| <= k < |s'.taken| + s'.Capacity() ensures SlotOk(s', k) {
      if k < n + s.Capacity() {
        assert SlotOk(s, k);
        ModApart(k, n, s.Capacity());
      } else {
        ModTurn(n, s.Capacity());
      }
    }
  }

  lemma TakeInv(s: Ring)
    requires Inv(s) && Enabled(s, Take)
    ensures Inv(TakeStep(s))
  {
    TailSlot(s);
    if s.buffer[s.tail] != 0 {
      var s' := TakeStep(s);
      CountUpdate(s.buffer, s.tail, 0, IsOccupied);
      TakeWindow(s);
      assert s'.taken == s.items[..|s'.taken|];
      forall k: nat | |s'.taken| <= k < s'.head ensures OwnerOk(s', k) { assert OwnerOk(s, k); }
      forall u | 0 <= u < |s'.producers| ensures ProducerOk(s', u) { assert ProducerOk(s, u); }
    }
  }

  lemma ConsumerFrame(s: Ring, s': Ring)
    requires Inv(s) && s' == s.(count := s'.count, tail := s'.tail, consumer := s'.consumer)
    ensures HistoryOk(s') && WindowOk(s')
    ensures forall t :: 0 <= t < |s'.producers| ==> ProducerOk(s', t)
    ensures forall k: nat :: |s'.taken| <= k < s'.head ==> OwnerOk(s', k)
  {
    WindowFrame(s, s');
    forall k: nat | |s'.taken| <= k < s'.head ensures OwnerOk(s', k) { assert OwnerOk(s, k); }
    forall u | 0 <= u < |s'.producers| ensures ProducerOk(s', u) { assert ProducerOk(s, u); }
  }

  lemma MoveTailInv(s: Ring)
    requires Inv(s) && Enabled(s, MoveTail)
    ensures Inv(MoveTailStep(s))
  {
    ConsumerFrame(s, MoveTailStep(s));
    ModNext(|s.taken| - 1, s.Capacity());
  }

  lemma ReleaseInv(s: Ring)
    requires Inv(s) && Enabled(s, Release)
    ensures Inv(ReleaseStep(s))
  {
    ConsumerFrame(s, ReleaseStep(s));
  }

  lemma StepInv(s: Ring, a: Action)
    requires Inv(s)
    ensures Inv(Step(s, a))
  {
    if Enabled(s, a) {
      match a
      case Reserve(t, obj) => ReserveInv(s, t, obj);
      case BackOff(t) => BackOffInv(s, t);
      case DrawTicket(t) => DrawTicketInv(s, t);
      case CheckSlot(t) => CheckSlotInv(s, t);
      case Write(t) => WriteInv(s, t);
      case Take => TakeInv(s);
      case MoveTail => MoveTailInv(s);
      case Release => ReleaseInv(s);
    }
  }

  lemma {:induction false} RunInv(s: Ring, acts: seq<Action>)
    requires Inv(s)
    ensures Inv(Run(s, acts))
  {
    if acts != [] {
      RunInv(s, acts[..|acts| - 1]);
      StepInv(Run(s, acts[..|acts| - 1]), acts[|acts| - 1]);
    }
  }

  // ---- What every run guarantees ---------------------------------------

  ghost predicate Reachable(s: Ring) {
    exists capacity: nat, threads: nat, acts :: capacity > 0 && s == Run(Init(capacity, threads), acts)
  }

  lemma ReachableInv(s: Ring)
    requires Reachable(s)
    ensures Inv(s)
  {
    var capacity: nat, threads: nat, acts :| capacity > 0 && s == Run(Init(capacity, threads), acts);
    InitInv(capacity, threads);
    RunInv(Init(capacity, threads), acts);
  }

  /** The ring never holds or promises more than its capacity, even while producers that are
      backing off push count above it, and count never underflows at either fetch-sub. */
  lemma CapacityRespected(s: Ring)
    requires Reachable(s)
    ensures Reservations(s) + Unwritten(s) + Occupied(s) + Pending(s) <= s.Capacity()
    ensures s.count == Reservations(s) + BackOffs(s) + Unwritten(s) + Occupied(s) + Pending(s)
    ensures s.head == |s.taken| + Unwritten(s) + Occupied(s)
    ensures forall t :: 0 <= t < |s.producers| && s.producers[t].BackingOff? ==> s.count > 0
    ensures s.consumer.Moved? ==> s.count > 0
  {
    ReachableInv(s);
    forall t | 0 <= t < |s.producers| && s.producers[t].BackingOff? ensures s.count > 0 {
      CountSome(s.producers, t, IsBackingOff);
    }
  }

  /** Both assertions of enqueue() hold: the slot of an outstanding ticket is empty, the ticket
      is less than one turn ahead of the tail, and no two producers hold the same ticket or slot. */
  lemma NeverOverwrites(s: Ring, t: Tid)
    requires Reachable(s) && t < |s.producers| && IsTicketed(s.producers[t])
    ensures s.Capacity() > 0 && s.buffer[s.producers[t].slot % s.Capacity()] == 0
    ensures |s.taken| <= s.producers[t].slot < |s.taken| + s.Capacity()
    ensures forall u :: 0 <= u < |s.producers| && u != t && IsTicketed(s.producers[u]) ==>
              s.producers[u].slot % s.Capacity() != s.producers[t].slot % s.Capacity()
  {
    ReachableInv(s);
    TicketSlotEmpty(s, t);
    forall u | 0 <= u < |s.producers| && u != t && IsTicketed(s.producers[u])
      ensures s.producers[u].slot % s.Capacity() != s.producers[t].slot % s.Capacity()
    {
      TicketSlotEmpty(s, u);
      assert ProducerOk(s, t) && ProducerOk(s, u);
      if s.producers[u].slot < s.producers[t].slot {
        ModApart(s.producers[t].slot, s.producers[u].slot, s.Capacity());
      } else {
        ModApart(s.producers[u].slot, s.producers[t].slot, s.Capacity());
      }
    }
  }

  /** The abstract queue: tickets drawn and not yet dequeued, oldest first. */
  function Fifo(s: Ring): seq<nat> {
    if |s.taken| <= |s.items| then s.items[|s.taken|..] else []
  }

  /** The ring refines a FIFO queue: drawing a ticket appends, a successful dequeue removes the
      first element and returns it, and no other access changes the queue. */
  lemma RefinesFifo(s: Ring, a: Action)
    requires Reachable(s)
    ensures s.items == s.taken + Fifo(s)
    ensures var s' := Step(s, a);
            if a.DrawTicket? && Enabled(s, a) then
              Fifo(s') == Fifo(s) + [s.producers[a.t].obj]
            else if a.Take? && Enabled(s, a) && s'.consumer.Took? then
              Fifo(s) != [] && s'.consumer.value == Fifo(s)[0] && Fifo(s') == Fifo(s)[1..]
            else Fifo(s') == Fifo(s)
  {
    ReachableInv(s);
    if a.Take? && Enabled(s, a) {
      TailSlot(s);
    }
  }

  /** dequeue() comes back empty-handed exactly when the ticket at the tail has no value stored
      yet, whether or not later tickets have. */
  lemma EmptyHandedExactly(s: Ring)
    requires Reachable(s) && s.consumer.Ready?
    ensures Enabled(s, Take)
    ensures Step(s, Take).consumer.Ready? <==> |s.taken| !in s.written
    ensures |s.taken| !in s.written <==>
              Fifo(s) == [] || exists t :: 0 <= t < |s.producers| && s.producers[t].Has(|s.taken|)
  {
    ReachableInv(s);
    TailSlot(s);
    if |s.taken| !in s.written && Fifo(s) != [] {
      assert OwnerOk(s, |s.taken|);
      assert s.producers[s.owner[|s.taken|]].Has(|s.taken|);
    }
    forall t | 0 <= t < |s.producers| && s.producers[t].Has(|s.taken|) ensures |s.taken| !in s.written {
      assert ProducerOk(s, t);
    }
  }

  /** Every value ever given a ticket is in exactly one place: dequeued, stored in its slot, or
      still in the hands of the producer that drew the ticket. */
  lemma NothingLost(s: Ring, k: nat)
    requires Reachable(s) && k < s.head
    ensures s.head == |s.items| == |s.owner|
    ensures k < |s.taken| ==> s.taken[k] == s.items[k]
    ensures k >= |s.taken| && k in s.written ==> s.Capacity() > 0 && s.buffer[k % s.Capacity()] == s.items[k]
    ensures k >= |s.taken| && k !in s.written ==>
              s.owner[k] < |s.producers| && s.producers[s.owner[k]].Has(k)
              && s.producers[s.owner[k]].obj == s.items[k]
  {
    ReachableInv(s);
    if k >= |s.taken| {
      assert OwnerOk(s, k);
      if k !in s.written { assert ProducerOk(s, s.owner[k]); }
      CountNone(s.producers, IsTicketed);
      assert SlotOk(s, k);
    }
  }

  /** enqueue() refuses exactly when slots in use, promised or not yet given back fill the ring;
      so a full ring always refuses, and with nobody in flight only a full ring does. */
  lemma RefusesExactly(s: Ring, t: Tid, obj: nat)
    requires Reachable(s) && Enabled(s, Reserve(t, obj))
    ensures Step(s, Reserve(t, obj)).producers[t].BackingOff? <==>
              Reservations(s) + BackOffs(s) + Unwritten(s) + Occupied(s) + Pending(s) >= s.Capacity()
    ensures |Fifo(s)| >= s.Capacity() ==> Step(s, Reserve(t, obj)).producers[t].BackingOff?
    ensures Reservations(s) == BackOffs(s) == Pending(s) == 0 ==>
              (Step(s, Reserve(t, obj)).producers[t].BackingOff? <==> |Fifo(s)| == s.Capacity())
  {
    ReachableInv(s);
  }

  /** A refusal does not mean the ring is full: with one slot, a producer that is still backing
      off makes another one fail on an empty ring. */
  lemma RefusesWhileEmpty() returns (acts: seq<Action>)
    ensures var s := Run(Init(1, 2), acts);
            && Fifo(s) == [] && s.buffer == [0] && Enabled(s, Reserve(0, 7))
            && Step(s, Reserve(0, 7)).producers[0].BackingOff?
  {
    var fill := [Reserve(0, 5), DrawTicket(0), CheckSlot(0), Write(0)];
    var drain := [Reserve(1, 6), Take, MoveTail, Release];
    acts := fill + drain;
    FillOneSlot();
    DrainOneSlot();
    RunFour(Init(1, 2), Reserve(0, 5), DrawTicket(0), CheckSlot(0), Write(0));
    RunFour(ONE_STORED, Reserve(1, 6), Take, MoveTail, Release);
    RunAppend(Init(1, 2), fill, drain);
  }

  const ONE_STORED: Ring := Ring(1, 1, 0, [5], [Idle, Idle], Ready, [5], [0], {0}, [])

  lemma FillOneSlot()
    ensures Step(Step(Step(Step(Init(1, 2), Reserve(0, 5)), DrawTicket(0)), CheckSlot(0)), Write(0)) == ONE_STORED
  {
    var s1 := Step(Init(1, 2), Reserve(0, 5));
    assert s1 == Ring(1, 0, 0, [0], [Reserved(5), Idle], Ready, [], [], {}, []);
    var s2 := Step(s1, DrawTicket(0));
    assert s2 == Ring(1, 1, 0, [0], [Ticketed(5, 0), Idle], Ready, [5], [0], {}, []);
    var s3 := Step(s2, CheckSlot(0));
    assert s3 == Ring(1, 1, 0, [0], [Checked(5, 0), Idle], Ready, [5], [0], {}, []);
  }

  lemma DrainOneSlot()
    ensures Step(Step(Step(Step(ONE_STORED, Reserve(1, 6)), Take), MoveTail), Release)
            == Ring(1, 1, 0, [0], [Idle, BackingOff], Ready, [5], [0], {0}, [5])
  {
    var s1 := Step(ONE_STORED, Reserve(1, 6));
    assert s1 == Ring(2, 1, 0, [5], [Idle, BackingOff], Ready, [5], [0], {0}, []);
    var s2 := Step(s1, Take);
    assert s2 == Ring(2, 1, 0, [0], [Idle, BackingOff], Took(5), [5], [0], {0}, [5]);
    var s3 := Step(s2, MoveTail);
    assert s3 == Ring(2, 1, 0, [0], [Idle, BackingOff], Moved(5), [5], [0], {0}, [5]);
  }

  lemma {:induction false} RunAppend(s: Ring, xs: seq<Action>, ys: seq<Action>)
    ensures Run(s, xs + ys) == Run(Run(s, xs), ys)
  {
    if ys == [] {
      assert xs + ys == xs;
    } else {
      RunAppend(s, xs, ys[..|ys| - 1]);
      assert (xs + ys)[..|xs + ys| - 1] == xs + ys[..|ys| - 1];
    }
  }

  lemma RunSnoc(s: Ring, acts: seq<Action>, a: Action)
    ensures Run(s, acts + [a]) == Step(Run(s, acts), a)
  {
    assert (acts + [a])[..|acts|] == acts;
  }

  lemma RunTwo(s: Ring, a: Action, b: Action)
    ensures Run(s, [a, b]) == Step(Step(s, a), b)
  {
    RunSnoc(s, [], a);
    RunSnoc(s, [a], b);
    assert [] + [a] == [a] && [a] + [b] == [a, b];
  }

  lemma RunFour(s: Ring, a: Action, b: Action, c: Action, d: Action)
    ensures Run(s, [a, b, c, d]) == Step(Step(Step(Step(s, a), b), c), d)
  {
    RunTwo(s, a, b);
    RunTwo(Run(s, [a, b]), c, d);
    RunAppend(s, [a, b], [c, d]);
    assert [a, b] + [c, d] == [a, b, c, d];
  }

  ghost predicate Quiet(s: Ring) {
    s.consumer.Ready? && forall t :: 0 <= t < |s.producers| ==> s.producers[t].Idle?
  }

  /** With no call in progress, size() is the length of the queue. */
  lemma SizeExactWhenQuiet(s: Ring)
    requires Inv(s) && Quiet(s)
    ensures s.count == |Fifo(s)| == Occupied(s)
  {
    CountNone(s.producers, IsReserved);
    CountNone(s.producers, IsBackingOff);
    CountNone(s.producers, IsTicketed);
  }

  /** n calls of dequeue(), one after the other. */
  function Drain(s: Ring, n: nat): Ring
    decreases n
  {
    if n == 0 then s else Drain(Step(Step(Step(s, Take), MoveTail), Release), n - 1)
  }

  /** Once the producers are quiet, as many dequeues as the queue is long return all of it, in
      order, and leave every slot empty. */
  lemma {:induction false} DrainReturnsEverything(s: Ring, n: nat)
    requires Inv(s) && Quiet(s) && n == |Fifo(s)|
    ensures Drain(s, n).taken == s.taken + Fifo(s)
    ensures Inv(Drain(s, n)) && Quiet(Drain(s, n))
    ensures Drain(s, n).count == 0 == Occupied(Drain(s, n))
    decreases n
  {
    hide Inv, Quiet, Step, Enabled, Fifo;
    if n == 0 {
      SizeExactWhenQuiet(s);
    } else {
      var s' := OneDequeue(s);
      DrainReturnsEverything(s', n - 1);
      assert s.taken + Fifo(s) == s'.taken + Fifo(s');
    }
  }

  lemma OneDequeue(s: Ring) returns (s': Ring)
    requires Inv(s) && Quiet(s) && Fifo(s) != []
    ensures s' == Step(Step(Step(s, Take), MoveTail), Release)
    ensures Inv(s') && Quiet(s') && s'.taken == s.taken + [Fifo(s)[0]] && Fifo(s') == Fifo(s)[1..]
  {
    hide Inv, Step;
    var s1 := Step(s, Take);
    StepInv(s, Take);
    var s2 := Step(s1, MoveTail);
    StepInv(s1, MoveTail);
    s' := Step(s2, Release);
    StepInv(s2, Release);
    TakesFirst(s);
    Settles(s1);
  }

  lemma TakesFirst(s: Ring)
    requires Inv(s) && Quiet(s) && Fifo(s) != []
    ensures var s1 := Step(s, Take);
            && s1.consumer.Took? && s1.producers == s.producers && s1.Capacity() > 0
            && s1.taken == s.taken + [Fifo(s)[0]] && Fifo(s1) == Fifo(s)[1..]
  {
    assert OwnerOk(s, |s.taken|);
    TailSlot(s);
  }

  lemma Settles(s: Ring)
    requires s.consumer.Took? && s.Capacity() > 0
    ensures var s' := Step(Step(s, MoveTail), Release);
            s'.consumer.Ready? && s'.producers == s.producers && s'.taken == s.taken && s'.items == s.items
  {
  }

  // ---- The class -------------------------------------------------------

  /** Actions of other producers and of the consumer. */
  ghost predicate NotProducer(acts: seq<Action>, t: Tid) {
    forall a :: a in acts ==> !ByProducer(a, t)
  }

  predicate ByProducer(a: Action, t: Tid) {
    match a
    case Reserve(u, _) => u == t
    case BackOff(u) => u == t
    case DrawTicket(u) => u == t
    case CheckSlot(u) => u == t
    case Write(u) => u == t
    case Take => false
    case MoveTail => false
    case Release => false
  }

  predicate ByConsumer(a: Action) {
    a.Take? || a.MoveTail? || a.Release?
  }

  lemma {:induction false} ProducerFrame(s: Ring, acts: seq<Action>, t: Tid)
    requires t < |s.producers| && NotProducer(acts, t)
    ensures |Run(s, acts).producers| == |s.producers| && Run(s, acts).producers[t] == s.producers[t]
  {
    if acts != [] {
      ProducerFrame(s, acts[..|acts| - 1], t);
      ProducerStepFrame(Run(s, acts[..|acts| - 1]), acts[|acts| - 1], t);
    }
  }

  lemma ProducerStepFrame(s: Ring, a: Action, t: Tid)
    requires t < |s.producers| && !ByProducer(a, t)
    ensures |Step(s, a).producers| == |s.producers| && Step(s, a).producers[t] == s.producers[t]
  {
  }

  lemma {:induction false} ConsumerOnlyFrame(s: Ring, acts: seq<Action>)
    requires forall a :: a in acts ==> !ByConsumer(a)
    ensures Run(s, acts).consumer == s.consumer && Run(s, acts).taken == s.taken && Run(s, acts).tail == s.tail
  {
    if acts != [] {
      ConsumerOnlyFrame(s, acts[..|acts| - 1]);
      ConsumerStepFrame(Run(s, acts[..|acts| - 1]), acts[|acts| - 1]);
    }
  }

  lemma ConsumerStepFrame(s: Ring, a: Action)
    requires !ByConsumer(a)
    ensures Step(s, a).consumer == s.consumer && Step(s, a).taken == s.taken && Step(s, a).tail == s.tail
  {
  }

  /** The tickets drawn so far keep their value and their thread. */
  lemma {:induction false} HistoryGrows(s: Ring, acts: seq<Action>)
    ensures s.items <= Run(s, acts).items && s.owner <= Run(s, acts).owner && s.written <= Run(s, acts).written
  {
    if acts != [] {
      HistoryGrows(s, acts[..|acts| - 1]);
      HistoryStep(Run(s, acts[..|acts| - 1]), acts[|acts| - 1]);
    }
  }

  /** What others do gives thread t no ticket. */
  lemma {:induction false} TicketsOfOthers(s: Ring, acts: seq<Action>, t: Tid)
    requires NotProducer(acts, t)
    ensures |s.owner| <= |Run(s, acts).owner| && forall k :: |s.owner| <= k < |Run(s, acts).owner| ==> Run(s, acts).owner[k] != t
  {
    if acts != [] {
      TicketsOfOthers(s, acts[..|acts| - 1], t);
      TicketOfOther(Run(s, acts[..|acts| - 1]), acts[|acts| - 1], t);
    }
  }

  lemma TicketOfOther(s: Ring, a: Action, t: Tid)
    requires !ByProducer(a, t)
    ensures s.owner <= Step(s, a).owner && forall k :: |s.owner| <= k < |Step(s, a).owner| ==> Step(s, a).owner[k] != t
  {
  }

  /** Each new ticket of thread t is the given one. */
  ghost predicate OnlyTicket(s: Ring, s': Ring, t: Tid, ticket: nat) {
    && s.owner <= s'.owner && |s.owner| <= ticket < |s'.owner|
    && forall k :: |s.owner| <= k < |s'.owner| && s'.owner[k] == t ==> k == ticket
  }

  /** enqueue() from its reservation on. */
  ghost function Stored(s: Ring, t: Tid, env1: seq<Action>, env2: seq<Action>): Ring {
    Step(Run(Step(Run(Step(s, DrawTicket(t)), env1), CheckSlot(t)), env2), Write(t))
  }

  lemma StoredOnce(s: Ring, t: Tid, env1: seq<Action>, env2: seq<Action>)
    requires Inv(s) && Enabled(s, DrawTicket(t)) && NotProducer(env1, t) && NotProducer(env2, t)
    ensures OnlyTicket(s, Stored(s, t, env1, env2), t, s.head)
  {
    hide Inv, Run, NotProducer;
    var s1 := Step(s, DrawTicket(t));
    var s2 := Run(s1, env1);
    var s3 := Step(s2, CheckSlot(t));
    TicketsOfOthers(s1, env1, t);
    HistoryGrows(s1, env1);
    TicketsOfOthers(s3, env2, t);
    HistoryGrows(s3, env2);
    Basics(s);
  }

  lemma ReserveDrawsNothing(s: Ring, t: Tid, obj: nat)
    ensures Step(s, Reserve(t, obj)).owner == s.owner && Step(s, Reserve(t, obj)).items == s.items
    ensures Step(s, Reserve(t, obj)).written == s.written
  {
  }

  lemma BackOffDrawsNothing(s: Ring, t: Tid)
    ensures Step(s, BackOff(t)).owner == s.owner && Step(s, BackOff(t)).items == s.items
  {
  }

  lemma HistoryStep(s: Ring, a: Action)
    ensures s.items <= Step(s, a).items && s.owner <= Step(s, a).owner && s.written <= Step(s, a).written
  {
  }

  lemma Basics(s: Ring)
    requires Inv(s)
    ensures s.Capacity() > 0 && s.head == |s.items| == |s.owner|
    ensures forall k :: k in s.written ==> k < |s.items|
  {
  }

  /** The queue itself. enqueue() and dequeue() are sequences of atomic accesses; between two of
      them the other threads perform an arbitrary list of actions. */
  class MPSCLockFreeQueue {
    const buffer: array<nat>
    var count: int
    var head: nat
    var tail: nat
    var producers: seq<Producer>
    var consumer: Consumer
    ghost var items: seq<nat>
    ghost var owner: seq<Tid>
    ghost var written: set<nat>
    ghost var taken: seq<nat>

    ghost function View(): Ring
      reads this, buffer
    {
      Ring(count, head, tail, buffer[..], producers, consumer, items, owner, written, taken)
    }

    ghost predicate Valid()
      reads this, buffer
    {
      Inv(View())
    }

    constructor (capacity: nat, threads: nat)
      requires capacity > 0
      ensures Valid() && fresh(buffer) && View() == Init(capacity, threads)
    {
      buffer := new nat[capacity](i => 0);
      count, head, tail := 0, 0, 0;
      producers := seq(threads, i => Idle);
      consumer := Ready;
      items, owner, written, taken := [], [], {}, [];
      new;
      assert buffer[..] == seq(capacity, i => 0);
      InitInv(capacity, threads);
    }

    method FetchAddCount(t: Tid, obj: nat) returns (c: int)
      requires Valid() && Enabled(View(), Reserve(t, obj))
      modifies this
      ensures Valid() && View() == Step(old(View()), Reserve(t, obj)) && c == old(count)
      ensures |producers| == old(|producers|)
      ensures producers[t] == if c >= buffer.Length then BackingOff else Reserved(obj)
      ensures items == old(items) && owner == old(owner)
    {
      StepInv(View(), Reserve(t, obj));
      c := count;
      count := count + 1;
      producers := producers[t := if c >= buffer.Length then BackingOff else Reserved(obj)];
    }

    method BackOffCount(t: Tid)
      requires Valid() && Enabled(View(), BackOff(t))
      modifies this
      ensures Valid() && View() == Step(old(View()), BackOff(t))
      ensures producers == old(producers)[t := Idle]
    {
      StepInv(View(), BackOff(t));
      count := count - 1;
      producers := producers[t := Idle];
    }

    method FetchAddHead(t: Tid) returns (h: nat)
      requires Valid() && Enabled(View(), DrawTicket(t))
      modifies this
      ensures Valid() && View() == Step(old(View()), DrawTicket(t)) && h == old(head)
      ensures producers == old(producers)[t := Ticketed(old(producers[t].obj), h)]
      ensures items == old(items) + [old(producers[t].obj)] && owner == old(owner) + [t]
    {
      StepInv(View(), DrawTicket(t));
      h := head;
      head := head + 1;
      items, owner := items + [producers[t].obj], owner + [t];
      producers := producers[t := Ticketed(producers[t].obj, h)];
    }

    method LoadSlot(t: Tid) returns (v: nat)
      requires Valid() && Enabled(View(), CheckSlot(t))
      modifies this
      ensures Valid() && View() == Step(old(View()), CheckSlot(t)) && v == 0
      ensures producers == old(producers)[t := Checked(old(producers[t].obj), old(producers[t].slot))]
      ensures items == old(items) && owner == old(owner)
    {
      StepInv(View(), CheckSlot(t));
      TicketSlotEmpty(View(), t);
      v := buffer[producers[t].slot % buffer.Length];
      producers := producers[t := Checked(producers[t].obj, producers[t].slot)];
    }

    method ExchangeSlot(t: Tid) returns (rv: nat)
      requires Valid() && Enabled(View(), Write(t))
      modifies this, buffer
      ensures Valid() && View() == Step(old(View()), Write(t)) && rv == 0
      ensures producers == old(producers)[t := Idle] && written == old(written) + {old(producers[t].slot)}
      ensures items == old(items) && owner == old(owner)
    {
      StepInv(View(), Write(t));
      TicketSlotEmpty(View(), t);
      var p := producers[t];
      rv := buffer[p.slot % buffer.Length];
      buffer[p.slot % buffer.Length] := p.obj;
      producers := producers[t := Idle];
      written := written + {p.slot};
    }

    method ExchangeTail() returns (ret: nat)
      requires Valid() && Enabled(View(), Take)
      modifies this, buffer
      ensures Valid() && View() == Step(old(View()), Take)
      ensures ret == old(if |taken| in written && |taken| < |items| then items[|taken|] else 0)
      ensures ret != 0 <==> consumer == Took(ret)
      ensures ret == 0 ==> consumer == Ready
    {
      StepInv(View(), Take);
      TailSlot(View());
      ret := buffer[tail];
      buffer[tail] := 0;
      if ret != 0 {
        consumer := Took(ret);
        taken := taken + [ret];
      } else {
        assert buffer[..] == old(buffer[..]);
      }
    }

    method AdvanceTail()
      requires Valid() && Enabled(View(), MoveTail)
      modifies this
      ensures Valid() && View() == Step(old(View()), MoveTail)
    {
      StepInv(View(), MoveTail);
      tail := tail + 1;
      if tail >= buffer.Length {
        tail := 0;
      }
      consumer := Moved(consumer.value);
    }

    method FetchSubCount() returns (r: int)
      requires Valid() && Enabled(View(), Release)
      modifies this
      ensures Valid() && View() == Step(old(View()), Release) && r == old(count) > 0
    {
      StepInv(View(), Release);
      r := count;
      count := count - 1;
      consumer := Ready;
    }

    method Perform(a: Action)
      requires Valid()
      modifies this, buffer
      ensures Valid() && View() == Step(old(View()), a)
    {
      match a {
        case Reserve(t, obj) =>
          if t < |producers| && producers[t].Idle? && obj != 0 { var _ := FetchAddCount(t, obj); }
        case BackOff(t) => if t < |producers| && producers[t].BackingOff? { BackOffCount(t); }
        case DrawTicket(t) => if t < |producers| && producers[t].Reserved? { var _ := FetchAddHead(t); }
        case CheckSlot(t) => if t < |producers| && producers[t].Ticketed? { var _ := LoadSlot(t); }
        case Write(t) => if t < |producers| && producers[t].Checked? { var _ := ExchangeSlot(t); }
        case Take => if consumer.Ready? && tail < buffer.Length { var _ := ExchangeTail(); }
        case MoveTail => if consumer.Took? { AdvanceTail(); }
        case Release => if consumer.Moved? { var _ := FetchSubCount(); }
      }
    }

    /** The other threads perform `acts`. */
    method Interfere(acts: seq<Action>)
      requires Valid()
      modifies this, buffer
      ensures Valid() && View() == Run(old(View()), acts)
    {
      var k := 0;
      while k < |acts|
        invariant 0 <= k <= |acts|
        invariant Valid() && View() == Run(old(View()), acts[..k])
      {
        Perform(acts[k]);
        k := k + 1;
        assert acts[..k][..k - 1] == acts[..k - 1];
      }
      assert acts[..k] == acts;
    }

    /** enqueue(obj), with interference before each atomic access after the first. It succeeds
        exactly when count was below the capacity, and then obj has one ticket of its own, drawn
        and stored; both accesses to the slot find it empty. */
    method Enqueue(t: Tid, obj: nat, env: seq<seq<Action>>) returns (ok: bool, ghost ticket: nat)
      requires Valid() && t < |producers| && producers[t].Idle? && obj != 0
      requires |env| == 3 && forall acts :: acts in env ==> NotProducer(acts, t)
      modifies this, buffer
      ensures Valid() && |producers| == old(|producers|) && producers[t] == Idle
      ensures ok == (old(count) < buffer.Length)
      ensures ok ==> old(|items|) <= ticket < |items| && items[ticket] == obj && owner[ticket] == t
      ensures ok ==> ticket in written && ticket !in old(written)
      ensures |owner| == |items| && forall k :: old(|items|) <= k < |items| && owner[k] == t ==> ok && k == ticket
      ensures var reserved := Run(Step(old(View()), Reserve(t, obj)), env[0]);
              View() == if ok then Stored(reserved, t, env[1], env[2]) else Step(reserved, BackOff(t))
    {
      hide Inv, Run, Step, Stored, NotProducer;
      Basics(View());
      ticket := 0;
      ghost var first := View();
      var c := FetchAddCount(t, obj);
      ghost var s := View();
      Environment(env[0], t);
      ReserveDrawsNothing(first, t, obj);
      TicketsOfOthers(s, env[0], t);
      if c >= buffer.Length {
        BackOffDrawsNothing(View(), t);
        BackOffCount(t);
        Basics(View());
        ok := false;
      } else {
        ghost var mid := View();
        Basics(mid);
        ticket := StoreReserved(t, env[1], env[2]);
        Basics(View());
        assert forall k :: |mid.owner| <= k < |owner| && owner[k] == t ==> k == ticket;
        assert forall k :: old(|items|) <= k < |mid.owner| ==> owner[k] == mid.owner[k] != t;
        ok := true;
      }
    }

    /** The part of enqueue() after a successful reservation. */
    method StoreReserved(t: Tid, env1: seq<Action>, env2: seq<Action>) returns (ghost ticket: nat)
      requires Valid() && t < |producers| && producers[t].Reserved?
      requires NotProducer(env1, t) && NotProducer(env2, t)
      modifies this, buffer
      ensures Valid() && |producers| == old(|producers|) && producers[t] == Idle
      ensures old(|items|) <= ticket < |items| && items[ticket] == old(producers[t].obj)
      ensures |owner| == |items| && owner[ticket] == t && ticket in written
      ensures View() == Stored(old(View()), t, env1, env2) && OnlyTicket(old(View()), View(), t, ticket)
    {
      hide Inv, Run, Step, NotProducer, OnlyTicket;
      Basics(View());
      StoredOnce(View(), t, env1, env2);
      ticket := FetchAddHead(t);
      Environment(env1, t);
      Basics(View());
      var v := LoadSlot(t);
      Environment(env2, t);
      Basics(View());
      var rv := ExchangeSlot(t);
      assert v == 0 && rv == 0;
      Basics(View());
    }

    method Environment(acts: seq<Action>, ghost t: Tid)
      requires Valid() && t < |producers| && NotProducer(acts, t)
      modifies this, buffer
      ensures Valid() && View() == Run(old(View()), acts)
      ensures |producers| == old(|producers|) && producers[t] == old(producers[t])
      ensures old(items) <= items && old(owner) <= owner && old(written) <= written
    {
      Interfere(acts);
      ProducerFrame(old(View()), acts, t);
      HistoryGrows(old(View()), acts);
    }

    /** dequeue(), with interference before each atomic access after the first. It returns the
        oldest ticket's value if that is stored and 0 otherwise. */
    method Dequeue(env: seq<seq<Action>>) returns (ret: nat)
      requires Valid() && consumer.Ready?
      requires |env| == 2 && forall acts, a :: acts in env && a in acts ==> !ByConsumer(a)
      modifies this, buffer
      ensures Valid() && consumer.Ready?
      ensures ret != 0 <==> old(|taken| in written)
      ensures ret != 0 ==> Fifo(old(View())) != [] && ret == Fifo(old(View()))[0] && taken == old(taken) + [ret]
      ensures ret == 0 ==> View() == old(View())
      ensures ret != 0 ==> View() == Step(Run(Step(Run(Step(old(View()), Take), env[0]), MoveTail), env[1]), Release)
    {
      TailSlot(View());
      ret := ExchangeTail();
      if ret == 0 {
        return;
      }
      Interfere(env[0]);
      ConsumerOnlyFrame(Step(old(View()), Take), env[0]);
      AdvanceTail();
      ghost var mid := View();
      Interfere(env[1]);
      ConsumerOnlyFrame(mid, env[1]);
      var r := FetchSubCount();
    }
  }
}
