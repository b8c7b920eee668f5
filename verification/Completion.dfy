/** The completion protocol as one state machine: API calls raise a task's events, requests and
    waiting ranges carry them, and the two kinds of pollers lower them again. The steps are the
    atomic accesses of src/c/Write.cpp, src/c/WriteList.cpp, src/c/NotifyAsyncWait.cpp,
    src/common/WaitingRange.hpp, WaitingRangeQueue.hpp, WaitingRangeList.hpp, Allocator.hpp and
    Polling.cpp, interleaved in any order by any number of threads. */
module Completion {
  import opened Waits

  const TAG_NULL: nat := 0
  const BATCH_SIZE: nat := 64
  const NUM_ENTRIES: nat := 64000
  const WR_QUEUE_CAPACITY: nat := 64512

  /** A wait in the state the protocol has brought it to. */
  datatype Live =
    | Checking(w: Wait)             // early check of the API call: no event raised
    | Charged(w: Wait)              // event raised, no range object yet
    | Parked(w: Wait, obj: nat)     // range object in use, event still owed
    | Completed(w: Wait, obj: nat)  // complete() done, object not yet freed

  function WithWait(l: Live, w: Wait): Live {
    match l
    case Checking(_) => Checking(w)
    case Charged(_) => Charged(w)
    case Parked(_, obj) => Parked(w, obj)
    case Completed(_, obj) => Completed(w, obj)
  }

  /** A thread inside tagaspi_write(_list) or tagaspi_notify_async_wait(all). */
  datatype Pc =
    | Idle
    | Submitting(task: nat, n: nat, queue: nat)  // events raised, operation not yet submitted
    | RollingBack(task: nat, n: nat)             // submission failed, events not yet lowered
    | Looking(w: Wait)                           // before gaspi_notify_waitsome
    | Resetting(w: Wait, id: nat)                // before gaspi_notify_reset
    | Checked(w: Wait)                           // early check returned
    | Raised(w: Wait)                            // event raised, before allocate
    | Publishing(w: Wait, obj: nat)              // before the enqueue under the segment's lock

  /** A GASPI queue: tags of requests in flight and of requests completed but not fetched. */
  datatype Queue = Queue(valid: bool, posted: multiset<nat>, done: seq<nat>)

  datatype QueuePc = AtQueue | InBatch(tags: seq<nat>, full: bool)

  /** A queue poller: its range of queues, the queue it is at and the batch it is working off. */
  datatype QueuePoller = QueuePoller(first: nat, num: nat, queue: nat, pc: QueuePc)

  datatype Seg = Seg(board: Board, queue: seq<Live>, list: seq<Live>)

  /** The notification poller inside its pass over the segments. */
  datatype NotePc =
    | Draining                        // before dequeueAll
    | AtRange(pos: nat)               // the list iterator
    | PollLooking(pos: nat)           // the scan of one range: before waitsome
    | PollResetting(pos: nat, id: nat)
    | PollChecked(pos: nat)           // the scan returned
    | Releasing                       // before complete() of the next completed range
    | Freeing                         // after its complete(), before its free()

  /** `notePc` and `noteSeg` place the notification poller; `complete` are the completed ranges it
      still has to release. `taken` and `retired` are history: all non-zero values read by resets,
      and those of waits that have returned or been freed; `arrived` the last value notified. */
  datatype Sys = Sys(
    events: multiset<nat>, threads: seq<Pc>, queues: seq<Queue>, pollers: seq<QueuePoller>,
    segs: seq<Seg>, pool: seq<nat>, notePc: NotePc, noteSeg: nat, complete: seq<Live>,
    taken: multiset<Note>, retired: multiset<Note>, arrived: map<(nat, nat), nat>)

  datatype Action =
    | BeginSubmit(t: nat, task: nat, n: nat, queue: nat)
    | Submit(t: nat, ok: bool)
    | RollBack(t: nat)
    | BeginWait(t: nat, task: nat, seg: nat, first: nat, num: nat, keep: bool)
    | LookHit(t: nat, id: nat)
    | LookMiss(t: nat)
    | Reset(t: nat)
    | Return(t: nat)
    | Raise(t: nat)
    | Allocate(t: nat, garbage: nat)
    | Publish(t: nat)
    | ForeignPost(queue: nat)
    | Deliver(queue: nat, tag: nat)
    | Notify(seg: nat, id: nat, value: nat)
    | Fetch(p: nat, k: nat)
    | Lower(p: nat)
    | Drain
    | Visit
    | PollHit(id: nat)
    | PollMiss
    | PollReset
    | PollEnd
    | Complete
    | Free

  function Copies(task: nat, n: nat): multiset<nat> {
    multiset{}[task := n]
  }

  function AllObjects(): seq<nat> {
    seq(NUM_ENTRIES, i => i)
  }

  function Init(threads: nat, queues: seq<bool>, ranges: seq<(nat, nat)>, segs: nat): Sys {
    Sys(multiset{}, seq(threads, i => Idle),
        seq(|queues|, i requires 0 <= i < |queues| => Queue(queues[i], multiset{}, [])),
        seq(|ranges|, i requires 0 <= i < |ranges| => QueuePoller(ranges[i].0, ranges[i].1, ranges[i].0, AtQueue)),
        seq(segs, i => Seg(map[], [], [])), AllObjects(), Draining, 0, [], multiset{}, multiset{}, map[])
  }

  // ---- Steps of the API calls ------------------------------------------

  function Next(s: Sys, t: nat, pc: Pc): Sys
    requires t < |s.threads|
  {
    s.(threads := s.threads[t := pc])
  }

  predicate ThreadIdle(s: Sys, t: nat) {
    t < |s.threads| && s.threads[t].Idle?
  }

  /** increaseCurrentTaskEvents(task, numRequests), then on to the submission. */
  function BeginSubmitStep(s: Sys, t: nat, task: nat, n: nat, queue: nat): Sys
    requires ThreadIdle(s, t)
  {
    Next(s, t, Submitting(task, n, queue)).(events := s.events + Copies(task, n))
  }

  /** The submission posts all n requests with the task as tag, or fails and posts none. */
  function SubmitStep(s: Sys, t: nat, ok: bool): Sys
    requires t < |s.threads| && s.threads[t].Submitting? && s.threads[t].queue < |s.queues|
  {
    var p := s.threads[t];
    if ok then
      var q := s.queues[p.queue];
      Next(s, t, Idle).(queues := s.queues[p.queue := q.(posted := q.posted + Copies(p.task, p.n))])
    else
      Next(s, t, RollingBack(p.task, p.n))
  }

  function RollBackStep(s: Sys, t: nat): Sys
    requires t < |s.threads| && s.threads[t].RollingBack?
  {
    Next(s, t, Idle).(events := s.events - Copies(s.threads[t].task, s.threads[t].n))
  }

  function BeginWaitStep(s: Sys, t: nat, task: nat, seg: nat, first: nat, num: nat, keep: bool): Sys
    requires ThreadIdle(s, t)
  {
    if num == 0 then s else Next(s, t, Looking(NewWait(task, seg, first, num, keep)))
  }

  predicate AtLook(s: Sys, t: nat) {
    t < |s.threads| && s.threads[t].Looking? && s.threads[t].w.seg < |s.segs|
  }

  function LookHitStep(s: Sys, t: nat, id: nat): Sys
    requires AtLook(s, t)
  {
    Next(s, t, Resetting(s.threads[t].w, id))
  }

  function LookMissStep(s: Sys, t: nat): Sys
    requires AtLook(s, t)
  {
    Next(s, t, Checked(s.threads[t].w))
  }

  /** gaspi_notify_reset reads and zeroes the id. A zero ends the scan: somebody else was first. */
  function Zeroed(s: Sys, seg: nat, id: nat): Sys
    requires seg < |s.segs|
  {
    var v := At(s.segs[seg].board, id);
    s.(segs := s.segs[seg := s.segs[seg].(board := s.segs[seg].board[id := 0])],
       taken := if v != 0 then s.taken + multiset{Note(seg, id, v)} else s.taken)
  }

  function ResetStep(s: Sys, t: nat): Sys
    requires t < |s.threads| && s.threads[t].Resetting? && s.threads[t].w.seg < |s.segs|
  {
    var w, id := s.threads[t].w, s.threads[t].id;
    var v := At(s.segs[w.seg].board, id);
    var w' := TakeNote(w, id, v, false);
    Next(Zeroed(s, w.seg, id), t, if v == 0 then Checked(w) else if w'.rem > 0 then Looking(w') else Checked(w'))
  }

  /** Nothing remained after the early check: the call returns without touching the events. */
  function ReturnStep(s: Sys, t: nat): Sys
    requires t < |s.threads| && s.threads[t].Checked?
  {
    Next(s, t, Idle).(retired := s.retired + multiset(s.threads[t].w.got))
  }

  function RaiseStep(s: Sys, t: nat): Sys
    requires t < |s.threads| && s.threads[t].Checked?
  {
    Next(s, t, Raised(s.threads[t].w)).(events := s.events + multiset{s.threads[t].w.task})
  }

  /** The object comes from the front of the pool; its value field is not initialised. */
  function AllocateStep(s: Sys, t: nat, garbage: nat): Sys
    requires t < |s.threads| && s.threads[t].Raised? && s.pool != []
  {
    Next(s, t, Publishing(s.threads[t].w.(value := garbage), s.pool[0])).(pool := s.pool[1..])
  }

  function PublishStep(s: Sys, t: nat): Sys
    requires t < |s.threads| && s.threads[t].Publishing? && s.threads[t].w.seg < |s.segs|
  {
    var p := s.threads[t];
    var g := s.segs[p.w.seg];
    Next(s, t, Idle).(segs := s.segs[p.w.seg := g.(queue := g.queue + [Parked(p.w, p.obj)])])
  }

  // ---- Steps of the network --------------------------------------------

  function ForeignPostStep(s: Sys, queue: nat): Sys
    requires queue < |s.queues|
  {
    s.(queues := s.queues[queue := s.queues[queue].(posted := s.queues[queue].posted + multiset{TAG_NULL})])
  }

  function DeliverStep(s: Sys, queue: nat, tag: nat): Sys
    requires queue < |s.queues| && tag in s.queues[queue].posted
  {
    var q := s.queues[queue];
    s.(queues := s.queues[queue := q.(posted := q.posted - multiset{tag}, done := q.done + [tag])])
  }

  function NotifyStep(s: Sys, seg: nat, id: nat, value: nat): Sys
    requires seg < |s.segs|
  {
    s.(segs := s.segs[seg := s.segs[seg].(board := s.segs[seg].board[id := value])],
       arrived := s.arrived[(seg, id) := value])
  }

  // ---- Steps of the queue pollers --------------------------------------

  function Following(p: QueuePoller): QueuePoller {
    p.(queue := if p.queue + 1 < p.first + p.num then p.queue + 1 else p.first, pc := AtQueue)
  }

  /** gaspi_request_wait hands out k completed requests; an invalid queue is skipped. */
  function FetchStep(s: Sys, p: nat, k: nat): Sys
    requires p < |s.pollers| && s.pollers[p].queue < |s.queues|
    requires k <= |s.queues[s.pollers[p].queue].done|
  {
    var poller := s.pollers[p];
    var q := s.queues[poller.queue];
    if !q.valid then s.(pollers := s.pollers[p := Following(poller)]) else
    s.(queues := s.queues[poller.queue := q.(done := q.done[k..])],
       pollers := s.pollers[p := poller.(pc := InBatch(q.done[..k], k == BATCH_SIZE))])
  }

  /** One turn of the loop over the batch, or the loop condition after its last turn. */
  function LowerStep(s: Sys, p: nat): Sys
    requires p < |s.pollers| && s.pollers[p].pc.InBatch?
  {
    var poller := s.pollers[p];
    var tags := poller.pc.tags;
    if tags == [] then
      s.(pollers := s.pollers[p := if poller.pc.full then poller.(pc := AtQueue) else Following(poller)])
    else
      s.(pollers := s.pollers[p := poller.(pc := InBatch(tags[1..], poller.pc.full))],
         events := if tags[0] != TAG_NULL then s.events - multiset{tags[0]} else s.events)
  }

  // ---- Steps of the notification poller --------------------------------

  predicate AtSeg(s: Sys) {
    s.noteSeg < |s.segs|
  }

  predicate AtPos(s: Sys, pos: nat) {
    AtSeg(s) && pos < |s.segs[s.noteSeg].list|
  }

  function SetSeg(s: Sys, g: Seg): Sys
    requires AtSeg(s)
  {
    s.(segs := s.segs[s.noteSeg := g])
  }

  function DrainStep(s: Sys): Sys
    requires AtSeg(s)
  {
    var g := s.segs[s.noteSeg];
    SetSeg(s, g.(queue := [], list := g.list + g.queue)).(notePc := AtRange(0))
  }

  function VisitStep(s: Sys): Sys
    requires AtSeg(s) && s.notePc.AtRange?
  {
    s.(notePc := if s.notePc.pos < |s.segs[s.noteSeg].list| then PollLooking(s.notePc.pos) else Releasing)
  }

  function WaitAt(s: Sys, pos: nat): Wait
    requires AtPos(s, pos)
  {
    s.segs[s.noteSeg].list[pos].w
  }

  function PollHitStep(s: Sys, id: nat): Sys
    requires s.notePc.PollLooking?
  {
    s.(notePc := PollResetting(s.notePc.pos, id))
  }

  function PollMissStep(s: Sys): Sys
    requires s.notePc.PollLooking?
  {
    s.(notePc := PollChecked(s.notePc.pos))
  }

  function SetWait(g: Seg, pos: nat, w: Wait): Seg
    requires pos < |g.list|
  {
    g.(list := g.list[pos := WithWait(g.list[pos], w)])
  }

  function PollResetStep(s: Sys): Sys
    requires s.notePc.PollResetting? && AtPos(s, s.notePc.pos)
  {
    var pos, id := s.notePc.pos, s.notePc.id;
    var w := WaitAt(s, pos);
    var v := At(s.segs[s.noteSeg].board, id);
    var z := Zeroed(s, s.noteSeg, id);
    if v == 0 then z.(notePc := PollChecked(pos)) else
    var w' := TakeNote(w, id, v, true);
    SetSeg(z, SetWait(z.segs[s.noteSeg], pos, w')).(notePc := if w'.rem > 0 then PollLooking(pos) else PollChecked(pos))
  }

  /** A finished range moves to the completed vector and is erased; otherwise the iterator advances. */
  function PollEndStep(s: Sys): Sys
    requires s.notePc.PollChecked? && AtPos(s, s.notePc.pos)
  {
    var pos := s.notePc.pos;
    var g := s.segs[s.noteSeg];
    var l := WithWait(g.list[pos], EndPoll(g.list[pos].w));
    if l.w.rem == 0 then
      SetSeg(s, g.(list := g.list[..pos] + g.list[pos + 1..])).(notePc := AtRange(pos), complete := s.complete + [l])
    else
      SetSeg(s, g.(list := g.list[pos := l])).(notePc := AtRange(pos + 1))
  }

  /** complete() of the next range, or on to the following segment when none is left. */
  function CompleteStep(s: Sys): Sys {
    if s.complete == [] then
      s.(notePc := Draining, noteSeg := if s.noteSeg + 1 < |s.segs| then s.noteSeg + 1 else 0)
    else if s.complete[0].Parked? then
      s.(events := s.events - multiset{s.complete[0].w.task}, notePc := Freeing,
         complete := s.complete[0 := Completed(s.complete[0].w, s.complete[0].obj)])
    else s
  }

  function FreeStep(s: Sys): Sys
    requires s.complete != [] && s.complete[0].Completed?
  {
    s.(pool := s.pool + [s.complete[0].obj], complete := s.complete[1..], notePc := Releasing,
       retired := s.retired + multiset(s.complete[0].w.got))
  }

  // ---- All steps -------------------------------------------------------

  predicate Enabled(s: Sys, a: Action) {
    match a
    case BeginSubmit(t, task, n, queue) => ThreadIdle(s, t) && task != TAG_NULL && n > 0 && queue < |s.queues|
    case Submit(t, ok) => t < |s.threads| && s.threads[t].Submitting? && s.threads[t].queue < |s.queues|
    case RollBack(t) => t < |s.threads| && s.threads[t].RollingBack?
    case BeginWait(t, task, seg, first, num, keep) => ThreadIdle(s, t) && task != TAG_NULL && seg < |s.segs|
    case LookHit(t, id) =>
      AtLook(s, t) && s.threads[t].w.Covers(id) && At(s.segs[s.threads[t].w.seg].board, id) != 0
    case LookMiss(t) => AtLook(s, t)
    case Reset(t) => t < |s.threads| && s.threads[t].Resetting? && s.threads[t].w.seg < |s.segs|
    case Return(t) => t < |s.threads| && s.threads[t].Checked? && s.threads[t].w.rem == 0
    case Raise(t) => t < |s.threads| && s.threads[t].Checked? && s.threads[t].w.rem > 0
    case Allocate(t, garbage) => t < |s.threads| && s.threads[t].Raised? && s.pool != []
    case Publish(t) =>
      && t < |s.threads| && s.threads[t].Publishing? && s.threads[t].w.seg < |s.segs|
      && |s.segs[s.threads[t].w.seg].queue| < WR_QUEUE_CAPACITY
    case ForeignPost(queue) => queue < |s.queues|
    case Deliver(queue, tag) => queue < |s.queues| && tag in s.queues[queue].posted
    case Notify(seg, id, value) => seg < |s.segs| && value != 0
    case Fetch(p, k) =>
      && p < |s.pollers| && s.pollers[p].pc.AtQueue? && s.pollers[p].queue < |s.queues|
      && k <= BATCH_SIZE && k <= |s.queues[s.pollers[p].queue].done|
    case Lower(p) => p < |s.pollers| && s.pollers[p].pc.InBatch?
    case Drain => s.notePc.Draining? && AtSeg(s)
    case Visit => s.notePc.AtRange? && AtSeg(s)
    case PollHit(id) =>
      && s.notePc.PollLooking? && AtPos(s, s.notePc.pos)
      && WaitAt(s, s.notePc.pos).Covers(id) && At(s.segs[s.noteSeg].board, id) != 0
    case PollMiss => s.notePc.PollLooking? && AtPos(s, s.notePc.pos)
    case PollReset => s.notePc.PollResetting? && AtPos(s, s.notePc.pos)
    case PollEnd => s.notePc.PollChecked? && AtPos(s, s.notePc.pos)
    case Complete => s.notePc.Releasing?
    case Free => s.notePc.Freeing? && s.complete != [] && s.complete[0].Completed?
  }

  function Apply(s: Sys, a: Action): Sys
    requires Enabled(s, a)
  {
    match a
    case BeginSubmit(t, task, n, queue) => BeginSubmitStep(s, t, task, n, queue)
    case Submit(t, ok) => SubmitStep(s, t, ok)
    case RollBack(t) => RollBackStep(s, t)
    case BeginWait(t, task, seg, first, num, keep) => BeginWaitStep(s, t, task, seg, first, num, keep)
    case LookHit(t, id) => LookHitStep(s, t, id)
    case LookMiss(t) => LookMissStep(s, t)
    case Reset(t) => ResetStep(s, t)
    case Return(t) => ReturnStep(s, t)
    case Raise(t) => RaiseStep(s, t)
    case Allocate(t, garbage) => AllocateStep(s, t, garbage)
    case Publish(t) => PublishStep(s, t)
    case ForeignPost(queue) => ForeignPostStep(s, queue)
    case Deliver(queue, tag) => DeliverStep(s, queue, tag)
    case Notify(seg, id, value) => NotifyStep(s, seg, id, value)
    case Fetch(p, k) => FetchStep(s, p, k)
    case Lower(p) => LowerStep(s, p)
    case Drain => DrainStep(s)
    case Visit => VisitStep(s)
    case PollHit(id) => PollHitStep(s, id)
    case PollMiss => PollMissStep(s)
    case PollReset => PollResetStep(s)
    case PollEnd => PollEndStep(s)
    case Complete => CompleteStep(s)
    case Free => FreeStep(s)
  }

  function Step(s: Sys, a: Action): Sys {
    if Enabled(s, a) then Apply(s, a) else s
  }

  function Run(s: Sys, acts: seq<Action>): Sys {
    if acts == [] then s else Step(Run(s, acts[..|acts| - 1]), acts[|acts| - 1])
  }
}
