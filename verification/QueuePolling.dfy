/** The queue pollers of src/common/Polling.cpp: the partition of the GASPI queues over polling
    instances, and the batched drain that each instance runs over its queues. */
module QueuePolling {
  import opened Tallies
  import opened Waits
  import opened Completion

  // ---- Partition of the queues over the instances -----------------------

  /** `firstQueue` is set, and the instance registered, only for an instance that has queues. */
  datatype QueuePollingInfo = QueuePollingInfo(firstQueue: nat, numQueues: nat, registered: bool)

  ghost predicate Polls(info: QueuePollingInfo, q: nat) {
    info.registered && info.firstQueue <= q < info.firstQueue + info.numQueues
  }

  ghost predicate Polled(infos: seq<QueuePollingInfo>, q: nat) {
    exists i :: 0 <= i < |infos| && Polls(infos[i], q)
  }

  /** Every queue below `upTo` is polled by exactly one instance, and no other queue is polled. */
  ghost predicate Covers(infos: seq<QueuePollingInfo>, upTo: nat) {
    && (forall q: nat :: Polled(infos, q) <==> q < upTo)
    && (forall i, j, q: nat :: 0 <= i < j < |infos| && Polls(infos[i], q) ==> !Polls(infos[j], q))
  }

  /** The next block of queues goes to a new instance, or the new instance stays idle. */
  lemma CoversNext(infos: seq<QueuePollingInfo>, upTo: nat, info: QueuePollingInfo)
    requires Covers(infos, upTo)
    requires info.registered == (info.numQueues > 0)
    requires info.registered ==> info.firstQueue == upTo
    ensures Covers(infos + [info], upTo + info.numQueues)
  {
    var infos' := infos + [info];
    forall q: nat ensures Polled(infos', q) <==> q < upTo + info.numQueues {
      if Polled(infos, q) {
        var i :| 0 <= i < |infos| && Polls(infos[i], q);
        assert Polls(infos'[i], q);
      }
      if Polls(info, q) {
        assert Polls(infos'[|infos|], q);
      }
      if Polled(infos', q) {
        var i :| 0 <= i < |infos'| && Polls(infos'[i], q);
        assert i < |infos| ==> Polls(infos[i], q);
      }
    }
    forall i, j, q: nat | 0 <= i < j < |infos'| && Polls(infos'[i], q) ensures !Polls(infos'[j], q) {
      assert Polls(infos[i], q);
      assert Polled(infos, q);
    }
  }

  /** Where the queues of instance i start when the first `r` instances have q + 1 queues and the
      others q. */
  function Start(i: nat, q: nat, r: nat): nat {
    i * q + Min(i, r)
  }

  lemma StartNext(i: nat, q: nat, r: nat)
    ensures Start(0, q, r) == 0 && Start(i + 1, q, r) == Start(i, q, r) + q + (if i < r then 1 else 0)
  {
  }

  lemma StartEnds(maxQueues: nat, n: nat)
    requires n > 0
    ensures Start(n, maxQueues / n, maxQueues % n) == maxQueues
  {
  }

  lemma NothingCovered()
    ensures Covers([], 0)
  {
  }

  /** The instances in order take one block of queues after the other, the first r of them with
      q + 1 queues and the others with q. */
  ghost predicate InBlocks(infos: seq<QueuePollingInfo>, maxQueues: nat, q: nat, r: nat) {
    && Start(|infos|, q, r) == maxQueues
    && forall i :: 0 <= i < |infos| ==>
         && infos[i].numQueues == q + (if i < r then 1 else 0)
         && (infos[i].numQueues > 0 ==> infos[i].firstQueue == Start(i, q, r))
  }

  /** The instance loop of Polling::initialize. */
  method Initialize(maxQueues: nat, instances: nat) returns (infos: seq<QueuePollingInfo>)
    requires maxQueues > 0 && instances > 0
    ensures |infos| == instances && Covers(infos, maxQueues)
    ensures forall i :: 0 <= i < instances && infos[i].registered ==>
              infos[i].firstQueue == Start(i, maxQueues / instances, maxQueues % instances)
    ensures forall i, j :: 0 <= i < instances && 0 <= j < instances ==> infos[i].numQueues <= infos[j].numQueues + 1
    ensures forall i :: 0 <= i < instances ==> infos[i].registered == (infos[i].numQueues > 0)
    ensures InBlocks(infos, maxQueues, maxQueues / instances, maxQueues % instances)
  {
    hide Covers, Polls, Polled, Start;
    NothingCovered();
    var qppi, remq := maxQueues / instances, maxQueues % instances;
    infos := [];
    StartNext(0, qppi, remq);
    var queue, ins := 0, 0;
    while ins < instances
      invariant 0 <= ins <= instances && |infos| == ins
      invariant queue == Start(ins, qppi, remq)
      invariant Covers(infos, queue)
      invariant forall i :: 0 <= i < ins && infos[i].registered ==> infos[i].firstQueue == Start(i, qppi, remq)
      invariant forall i :: 0 <= i < ins ==> infos[i].numQueues == qppi + if i < remq then 1 else 0
      invariant forall i :: 0 <= i < ins ==> infos[i].registered == (infos[i].numQueues > 0)
    {
      var num := qppi + (if ins < remq then 1 else 0);
      var info := if num > 0 then QueuePollingInfo(queue, num, true) else QueuePollingInfo(0, num, false);
      CoversNext(infos, queue, info);
      StartNext(ins, qppi, remq);
      infos := infos + [info];
      queue := queue + num;
      ins := ins + 1;
    }
    StartEnds(maxQueues, instances);
  }

  // ---- The drain --------------------------------------------------------

  /** What gaspi_request_wait in test mode answers. */
  datatype TestResult = Batch(tags: seq<nat>) | InvalidQueue

  /** The completed requests of every queue, by tag, that have not been handed over yet, and the
      event counter of every task. Tag 0 is GASPI_TAG_NULL. */
  class Polling {
    const valid: seq<bool>
    var done: seq<seq<nat>>
    var events: map<nat, int>

    ghost predicate Valid()
      reads this
    {
      |done| == |valid|
    }

    ghost function EventsOf(task: nat): int
      reads this`events
    {
      EventsIn(events, task)
    }

    /** gaspi_request_wait with GASPI_TEST: hands over what is completed, up to the batch size. */
    method RequestWait(queue: nat) returns (result: TestResult)
      requires Valid() && queue < |valid|
      modifies this`done
      ensures Valid()
      ensures !valid[queue] ==> result.InvalidQueue? && done == old(done)
      ensures valid[queue] ==> result.Batch? && |result.tags| == Min(BATCH_SIZE, |old(done)[queue]|)
                               && result.tags + done[queue] == old(done)[queue]
                               && done == old(done)[queue := done[queue]]
    {
      if !valid[queue] {
        return InvalidQueue;
      }
      var n := Min(BATCH_SIZE, |done[queue]|);
      result := Batch(done[queue][..n]);
      done := done[queue := done[queue][n..]];
    }

    method DecreaseTaskEvents(task: nat, decrement: nat)
      modifies this`events
      ensures forall t :: EventsOf(t) == old(EventsOf(t)) - if t == task then decrement else 0
    {
      events := events[task := EventsIn(events, task) - decrement];
    }

    /** The inner loop over one batch: one event less for every tag that is not null. */
    method ReleaseBatch(tags: seq<nat>)
      modifies this`events
      ensures forall t :: EventsOf(t) == old(EventsOf(t)) - if t == 0 then 0 else multiset(tags)[t]
    {
      var r := 0;
      while r < |tags|
        invariant 0 <= r <= |tags|
        invariant forall t :: EventsOf(t) == old(EventsOf(t)) - if t == 0 then 0 else multiset(tags[..r])[t]
      {
        assert tags[..r + 1] == tags[..r] + [tags[r]];
        if tags[r] != 0 {
          DecreaseTaskEvents(tags[r], 1);
        }
        r := r + 1;
      }
      assert tags[..r] == tags;
    }

    /** The do-while loop over the batches of one queue; `calls` counts its calls of
        gaspi_request_wait. */
    method DrainQueue(queue: nat) returns (ghost calls: nat)
      requires Valid() && queue < |valid|
      modifies this`done, this`events
      ensures Valid() && done == if valid[queue] then old(done)[queue := []] else old(done)
      ensures forall t :: EventsOf(t) == old(EventsOf(t)) - if t == 0 || !valid[queue] then 0 else multiset(old(done)[queue])[t]
      ensures calls == if valid[queue] then |old(done)[queue]| / BATCH_SIZE + 1 else 1
    {
      hide EventsOf, InDrain;
      var completedReqs := BATCH_SIZE;
      ghost var taken: seq<nat> := [];
      calls := 0;
      InDrainStart(done[queue]);
      while completedReqs == BATCH_SIZE
        invariant Valid() && 0 <= completedReqs <= BATCH_SIZE
        invariant done == old(done)[queue := done[queue]]
        invariant forall t :: EventsOf(t) == old(EventsOf(t)) - if t == 0 then 0 else multiset(taken)[t]
        invariant valid[queue] ==> InDrain(old(done)[queue], taken, done[queue], calls, completedReqs)
        invariant !valid[queue] ==> taken == [] && done == old(done) && calls == if completedReqs == BATCH_SIZE then 0 else 1
        decreases completedReqs == BATCH_SIZE, |done[queue]|
      {
        var result := RequestWait(queue);
        calls := calls + 1;
        match result
        case InvalidQueue =>
          completedReqs := 0;
        case Batch(tags) =>
          completedReqs := |tags|;
          ReleaseBatch(tags);
          InDrainStep(old(done)[queue], taken, tags, done[queue], calls - 1);
          taken := taken + tags;
      }
      if valid[queue] {
        InDrainEnd(old(done)[queue], taken, done[queue], calls, completedReqs);
      }
    }

    /** pollQueues(): every queue of the instance in turn. */
    method PollQueues(info: QueuePollingInfo)
      requires Valid() && info.numQueues > 0 && info.firstQueue + info.numQueues <= |valid|
      modifies this`done, this`events
      ensures Valid() && Emptied(valid, old(done), done, info.firstQueue, info.numQueues)
      ensures WorkedOff(events, old(events), Drained(valid, old(done), info.firstQueue, info.numQueues))
    {
      hide Drained, EventsIn;
      DrainedNext(valid, done, info.firstQueue, 0);
      var queue, end := info.firstQueue, info.firstQueue + info.numQueues;
      while queue < end
        invariant info.firstQueue <= queue <= end && Valid() && Emptied(valid, old(done), done, info.firstQueue, queue - info.firstQueue)
        invariant WorkedOff(events, old(events), Drained(valid, old(done), info.firstQueue, queue - info.firstQueue))
      {
        DrainedNext(valid, old(done), info.firstQueue, queue - info.firstQueue);
        ghost var before := events;
        ghost var calls := DrainQueue(queue);
        assert forall t :: EventsOf(t) == EventsIn(events, t);
        queue := queue + 1;
      }
    }

    /** One turn of every instance, one after the other. */
    method PollRound(infos: seq<QueuePollingInfo>, ghost qppi: nat, ghost remq: nat)
      requires Valid() && InBlocks(infos, |valid|, qppi, remq)
      modifies this`done, this`events
      ensures Valid() && Emptied(valid, old(done), done, 0, |valid|)
      ensures WorkedOff(events, old(events), Drained(valid, old(done), 0, |valid|))
    {
      hide Drained, EventsIn, InBlocks, Start, Emptied, WorkedOff;
      BlocksEnd(infos, |valid|, qppi, remq);
      StartNext(0, qppi, remq);
      NothingDrained(valid, done, events);
      ghost var upTo := 0;
      var ins := 0;
      while ins < |infos|
        invariant 0 <= ins <= |infos| && upTo == Start(ins, qppi, remq) <= |valid| && Valid()
        invariant Emptied(valid, old(done), done, 0, upTo)
        invariant WorkedOff(events, old(events), Drained(valid, old(done), 0, upTo))
      {
        BlockFits(infos, |valid|, qppi, remq, ins);
        if infos[ins].numQueues > 0 {
          ghost var done1, events1 := done, events;
          PollQueues(infos[ins]);
          RoundNext(valid, old(done), done1, done, old(events), events1, events, upTo, infos[ins].numQueues);
        }
        upTo := upTo + infos[ins].numQueues;
        ins := ins + 1;
      }
    }
  }

  /** The valid queues among the n from `first` on are empty, all others are as before. */
  ghost predicate Emptied(valid: seq<bool>, done0: seq<seq<nat>>, done: seq<seq<nat>>, first: nat, n: nat)
    requires |done0| == |done| == |valid|
  {
    forall q :: 0 <= q < |valid| ==> done[q] == if valid[q] && first <= q < first + n then [] else done0[q]
  }

  /** Every counter is lower by the multiplicity of its tag; the null tag lowers nothing. */
  ghost predicate WorkedOff(events: map<nat, int>, events0: map<nat, int>, tags: multiset<nat>) {
    forall t :: EventsIn(events, t) == EventsIn(events0, t) - if t == 0 then 0 else tags[t]
  }

  lemma NothingDrained(valid: seq<bool>, done: seq<seq<nat>>, events: map<nat, int>)
    requires |done| == |valid|
    ensures Emptied(valid, done, done, 0, 0) && WorkedOff(events, events, Drained(valid, done, 0, 0))
  {
  }

  lemma RoundNext(valid: seq<bool>, done0: seq<seq<nat>>, done1: seq<seq<nat>>, done: seq<seq<nat>>,
                  events0: map<nat, int>, events1: map<nat, int>, events: map<nat, int>, first: nat, n: nat)
    requires |done0| == |done1| == |done| == |valid| && first + n <= |valid|
    requires Emptied(valid, done0, done1, 0, first) && WorkedOff(events1, events0, Drained(valid, done0, 0, first))
    requires Emptied(valid, done1, done, first, n) && WorkedOff(events, events1, Drained(valid, done1, first, n))
    ensures Emptied(valid, done0, done, 0, first + n) && WorkedOff(events, events0, Drained(valid, done0, 0, first + n))
  {
    hide Drained, EventsIn;
    DrainedByAnother(valid, done0, done1, first, n);
  }

  lemma DrainedByAnother(valid: seq<bool>, done: seq<seq<nat>>, done': seq<seq<nat>>, first: nat, n: nat)
    requires |done| == |done'| == |valid| && first + n <= |valid|
    requires forall q :: first <= q < first + n ==> done'[q] == done[q]
    ensures forall t :: Drained(valid, done, 0, first + n)[t] == Drained(valid, done, 0, first)[t] + Drained(valid, done', first, n)[t]
  {
    DrainedAppend(valid, done, 0, first, n);
    DrainedSame(valid, done, done', first, n);
  }

  /** After `calls` batches: all but the last were full. */
  ghost predicate InDrain(all: seq<nat>, taken: seq<nat>, rest: seq<nat>, calls: nat, last: nat) {
    && taken + rest == all
    && if last == BATCH_SIZE then |taken| == calls * BATCH_SIZE else rest == [] && calls == |all| / BATCH_SIZE + 1
  }

  lemma InDrainStart(all: seq<nat>)
    ensures InDrain(all, [], all, 0, BATCH_SIZE)
  {
  }

  lemma InDrainStep(all: seq<nat>, taken: seq<nat>, tags: seq<nat>, rest: seq<nat>, calls: nat)
    requires InDrain(all, taken, tags + rest, calls, BATCH_SIZE)
    requires |tags| == Min(BATCH_SIZE, |tags + rest|)
    ensures InDrain(all, taken + tags, rest, calls + 1, |tags|)
    ensures multiset(taken + tags) == multiset(taken) + multiset(tags)
  {
  }

  lemma InDrainEnd(all: seq<nat>, taken: seq<nat>, rest: seq<nat>, calls: nat, last: nat)
    requires InDrain(all, taken, rest, calls, last) && last != BATCH_SIZE
    ensures taken == all && rest == [] && calls == |all| / BATCH_SIZE + 1
  {
  }

  /** The tags of the completed requests of the valid queues among the n from `first` on. */
  ghost function Drained(valid: seq<bool>, done: seq<seq<nat>>, first: nat, n: nat): multiset<nat>
    requires |done| == |valid| && first + n <= |valid|
  {
    if n == 0 then multiset{} else
    Drained(valid, done, first, n - 1) + if valid[first + n - 1] then multiset(done[first + n - 1]) else multiset{}
  }

  lemma DrainedNext(valid: seq<bool>, done: seq<seq<nat>>, first: nat, n: nat)
    requires |done| == |valid| && first + n <= |valid|
    ensures Drained(valid, done, first, 0) == multiset{}
    ensures first + n < |valid| ==>
              forall t :: Drained(valid, done, first, n + 1)[t]
                          == Drained(valid, done, first, n)[t] + if valid[first + n] then multiset(done[first + n])[t] else 0
  {
  }

  lemma {:induction false} DrainedAppend(valid: seq<bool>, done: seq<seq<nat>>, first: nat, n: nat, m: nat)
    requires |done| == |valid| && first + n + m <= |valid|
    ensures Drained(valid, done, first, n + m) == Drained(valid, done, first, n) + Drained(valid, done, first + n, m)
  {
    if m > 0 {
      DrainedAppend(valid, done, first, n, m - 1);
    }
  }

  lemma {:induction false} DrainedSame(valid: seq<bool>, done: seq<seq<nat>>, done': seq<seq<nat>>, first: nat, n: nat)
    requires |done| == |done'| == |valid| && first + n <= |valid|
    requires forall q :: first <= q < first + n ==> done'[q] == done[q]
    ensures Drained(valid, done', first, n) == Drained(valid, done, first, n)
  {
    if n > 0 {
      DrainedSame(valid, done, done', first, n - 1);
    }
  }

  lemma BlocksEnd(infos: seq<QueuePollingInfo>, maxQueues: nat, q: nat, r: nat)
    requires InBlocks(infos, maxQueues, q, r)
    ensures Start(|infos|, q, r) == maxQueues
  {
  }

  lemma BlockFits(infos: seq<QueuePollingInfo>, maxQueues: nat, q: nat, r: nat, i: nat)
    requires InBlocks(infos, maxQueues, q, r) && i < |infos|
    ensures Start(i, q, r) + infos[i].numQueues == Start(i + 1, q, r) <= maxQueues
    ensures infos[i].numQueues > 0 ==> infos[i].firstQueue == Start(i, q, r)
  {
    hide Start;
    StartNext(i, q, r);
    StartGrows(i + 1, |infos|, q, r);
  }

  lemma StartGrows(i: nat, j: nat, q: nat, r: nat)
    requires i <= j
    ensures Start(i, q, r) <= Start(j, q, r)
  {
    assert i * q <= j * q;
  }
}
