# Verification of the TAGASPI completion machinery

TAGASPI lets a task of a tasking runtime wait for RDMA requests and remote notifications without
blocking: calls raise the event counter of the calling task, and two kinds of pollers lower it again
when requests complete or notifications arrive. This project models the pieces that make this work
and proves what every interleaving of them keeps.

The project consists of these parts, each a set of Dafny modules:

- **Completion protocol.** `Waits`, `Completion`: one state machine over the atomic accesses of all
  calls, of the pool, of the per-segment queues and lists, of the network and of the pollers (24
  actions). `CompletionAccounts`, `CompletionProofs`: the books of the protocol (events owed, objects
  in use, notifications held) and the proof that every action balances them. `CompletionTheorems`:
  what follows for every reachable state. `CompletionLaws`: what each step does to a request queue, to
  the pool and to a notification board, over all runs. `Discipline`: what holds in addition when a program does
  not notify an id again before the wait that took it ends, and what goes wrong otherwise;
  `ScanExactness`: the exact condition on the board for a wait to finish only with all its ids.
- **The calls in the form of their code.** `Interference`, `Scans`, `ApiCalls`: the write and wait calls with
  arbitrary steps of others between any two accesses; each call is a run of the protocol, and a call
  whose submission fails is invisible.
- **The pollers in the form of their code.** `PollerRuns`: both pollers with arbitrary steps of
  others between any two accesses; every turn is a run of the protocol, and a notification pass ends
  however busy the others are. `WaitingRanges`, `NotificationPolling`, `QueuePolling`: the same code
  undisturbed and in place on objects, where its effect can be told exactly: the notification scan,
  the loop that erases from the list while iterating over it, a whole notification pass, and the
  batched drain of the request queues.
- **Lock-free structures.** `SpinLocks`: the ticket lock with one slot per waiter. `MpscQueues`: the
  multi-producer ring. Both are state machines over their atomic accesses for any number of threads
  and any size, and classes whose methods follow the code with interference between accesses.
- **Queue distribution.** `HardwareScan`, `QueueGroups`: the CPU and NUMA scan and the CPU
  round-robin table. `RoundRobin`: the shared counter of the default policy under concurrency. The
  partition of the queues over polling instances is in `QueuePolling`.
- **Shutdown.** `PollingShutdown`: registering and unregistering pollers and the order in which
  finalize frees what they use.
- `Tallies`: counting, sums and folds over multisets, and index arithmetic of rings.

Wherever several threads meet, a state machine gives the meaning: `Step` performs one atomic access,
`Run` a sequence of them, and a state is `Reachable` if some run from an initial state leads to it.
Methods of classes that model code take the steps of everybody else as parameters (`env`,
`beforeSubmit` and the like; `env(k)` comes before the k-th access), so that what they ensure holds for every interleaving. Fields named
history in a comment (`got`, `taken`, `wins`, `calls`, ...) record the past for the statements and
are never read by the modelled code.

## Assumptions

- Memory is sequentially consistent. Counters, tickets and event counts are unbounded naturals: for a
  capacity or lock size that is not a power of two a wrap at 2^64 would break the index arithmetic.
- Segment, queue and notification ids fit their C types, and no argument is out of range where the
  code asserts it.
- The network accepts a submission and posts exactly the announced number of requests, tagged with the
  calling task, or rejects it and posts none; which of the two happens is a parameter (`accepted`). A
  poll of a valid queue hands out min(64, completed) requests, each at most once.
- `gaspi_notify_waitsome` in test mode returns some set id of the range, or times out if there is none
  or if it is early: which looks are early is a parameter (`timeouts`) of the calls and of the
  notification poller under interference. In `WaitingRanges`, where the scan runs undisturbed, it times
  out only if no id of the range is set. `gaspi_notify_reset` reads and zeroes one id atomically.
- Boost's single-producer queue and bounded pool are FIFO queues with the given capacities. A push
  under the segment's lock is one step, which `SpinLocks.MutualExclusion` justifies.
- Objects given to the MPSC ring are not null, as its code requires.
- Runs in which an error makes the library abort are not considered.

## Where code and documentation differ

- `src/include/TAGASPI.h` says that under the default policy each call gets a different queue. Calls
  that overlap can get the same one (`RoundRobin.OverlappingCallsShare`);
  `RoundRobin.SameQueueExactly` says when.
- The branch of the CPU round-robin table for fewer queues than NUMA nodes never advances its node
  index and does not add the first queue of the group. `QueueGroups.DealingEnds` says when its loop
  ends and `QueueGroups.SharedExactly` when its ranges are what the caller needs.
- The debug assertion `numAvailableCPUs < maxCPUs` of the hardware scan fails exactly when every
  possible CPU is available (`HardwareScan.HardwareInfo.Initialize`).
- `Polling::initialize` asserts on `queuePollingInstances` before declaring it, so builds with
  assertions do not compile that line; the model takes the value as positive.
- A failed `enqueue` of the MPSC ring does not mean that the ring is full
  (`MpscQueues.RefusesWhileEmpty`; exactly when it fails: `MpscQueues.RefusesExactly`).
- `waitall` counts notifications, not ids (`Discipline.CountsNotIds`; exactly when the count is right:
  `ScanExactness.FinishesExactly` and `Discipline.CompleteIffDistinct`). A single-id range writes to the caller's variable at every poll,
  so buffers are only claimed at completion (`WaitingRanges.TurnedOk`, `Discipline.ReleaseIsExact`).

## Model

| member | source | states |
|---|---|---|
| CompletionProofs.StepInv | src/common/Polling.cpp:86-162 | Every one of the 24 atomic actions of calls, network and pollers keeps the books balanced and every range in its place. |
| CompletionProofs.InitInv | src/common/Environment.cpp:33-71 | The state that initialization sets up satisfies this, for any number of threads, queues, pollers and segments. |
| CompletionProofs.RunInv | src/common/Polling.cpp:86-162 | Every run of any length keeps it. |
| CompletionTheorems.EventConservation | src/common/Polling.cpp:103-131 | In every reachable state an event counter equals the announced credit, plus requests in flight, completed or fetched but not worked off, plus waits charged and not completed. |
| CompletionTheorems.ZeroExactlyWhenIdle | src/common/ALPI.hpp:173-218 | The counter is zero if and only if nothing is outstanding: no call between raise and hand-over, no request anywhere, no published range. |
| CompletionTheorems.DecreaseNeverUnderflows | src/common/ALPI.hpp:206-208 | Every decrease, by rollback, queue poller or complete(), finds at least what it takes and takes exactly that from exactly the right counter. |
| CompletionTheorems.EveryObjectOnce | src/common/Allocator.hpp:41-43 | Each of the 64000 range objects is in the pool or used by exactly one wait, and the two counts add up to 64000. |
| CompletionTheorems.ObjectsNotShared | src/common/Allocator.hpp:60-73 | No two waits in progress have the same range object. |
| CompletionTheorems.FreePushSucceeds | src/common/Allocator.hpp:75-84 | Whenever a range is freed the pool has room, so the assertion on the push holds. |
| CompletionTheorems.EnqueueNeverBlocks | src/common/WaitingRangeQueue.hpp:44-53 | Whenever a call publishes its range the segment's queue holds fewer than 64000 of its 64512 entries, so the push loop never spins. |
| CompletionTheorems.NotificationsConserved | src/common/WaitingRange.hpp:123-149 | With no usage discipline: the non-zero values read by resets are exactly those charged to waits, each wait's remaining counter is what it asked for less what it took, and it stays between 0 and the number of ids. |
| CompletionTheorems.RangesInShape | src/common/WaitingRange.hpp:57-60 | Queued and listed ranges wait for at least one and at most all of their ids, completed ones for none, so the assertions of the scan and of the destructor hold. |
| CompletionLaws.QueueConservation | src/common/Polling.cpp:103-131 | Every queue keeps its own books over every run: what a call, or somebody else, posts on that queue is in flight on it or completed on it, and what completes there waits there or is handed to a poller, once and in the order of completion. |
| CompletionLaws.PoolIsFifo | src/common/Allocator.hpp:60-84 | Over every run the pool hands out its objects, and then those given back, in order. |
| CompletionLaws.OnlyResetsClear | src/common/WaitingRange.hpp:126-141 | No step but a notification changes the value of an id, except a reset, which takes exactly this value. |
| CompletionLaws.SetUntilTaken | src/common/WaitingRange.hpp:123-149 | No notification gets lost: after any run an id that was set is still set, or a value of it was taken meanwhile. |
| Discipline.ReleaseIsExact | src/common/WaitingRange.hpp:108-155 | Under the discipline a range's event is released only after each of its ids was taken exactly once, and the caller's array then holds for each id the value last notified on it. |
| Discipline.EarlyReturnIsExact | src/c/NotifyAsyncWait.cpp:68-73 | The same for a call that finds everything at its early check. |
| Discipline.CompleteIffDistinct | src/common/WaitingRange.hpp:123-149 | With no discipline: a wait with nothing remaining has seen all its ids if and only if no id was taken twice. |
| ScanExactness.FinishesExactly | src/common/WaitingRange.hpp:123-147 | The condition on the board: a pending wait that took no id twice can only finish with all its ids if and only if no id it took is set again, or fewer ids are set than remain. |
| Discipline.CountsNotIds | src/c/NotifyAsyncWait.cpp:56-73 | A run in which one id notified twice satisfies a wait for two ids although the other never arrived. |
| Waits.WrittenValues | src/common/WaitingRange.hpp:136-141 | If no id repeats, writing the taken values in order leaves each one at its own index. |
| Interference.StepUnder | src/c/Write.cpp:43-53 | No step of anybody else depends on, or disturbs, the events a call has announced and where its thread stands. |
| Interference.FailedCallInvisible | src/c/Write.cpp:43-53 | Whatever others do meanwhile, a call whose submission fails leaves the state that they alone would have produced. |
| ApiCalls.Environment.Write | src/c/Write.cpp:23-56 | In the caller's arguments: its task's counter, and no other, goes up by the requests of a write before anything is posted; if the network accepts, exactly these requests with the task as tag are then posted on the caller's queue, and nothing changes on any other queue; if not, the call ends in the state of the interference alone. |
| ApiCalls.Environment.WriteList | src/c/WriteList.cpp:23-59 | The same for a list whose request count is computed for the call. |
| ApiCalls.Environment.CheckNotification | src/common/WaitingRange.hpp:76-106 | The early check of one id under interference: one look, which hits exactly if the id is set, unless it times out early, and one reset if it hits; it returns 0 exactly if the reset took a value. |
| ApiCalls.Environment.CheckNotifications | src/common/WaitingRange.hpp:108-150 | The early check of several ids under interference ends; every look hits some set id of the range exactly if there is one, unless it times out early; each hit is reset and its value taken in order; it stops exactly when nothing remains, a look misses, or somebody else took the value first. |
| Scans.ScanInRange | src/common/WaitingRange.hpp:108-150 | Every look of such a scan that hits, and every notification it takes, is for an id of the range in its segment. |
| ApiCalls.Environment.Park | src/c/NotifyAsyncWait.cpp:75-87 | Raises one event, takes the front of the pool at the first attempt that finds it not empty and publishes; it is still trying if and only if every attempt found the pool empty. |
| ApiCalls.Environment.NotifyAsyncWait | src/c/NotifyAsyncWait.cpp:26-54 | The whole single-id call under interference: one look at the caller's id and no other; it returns at once, without an event, exactly if nothing remains; otherwise it raises one event and publishes a range for exactly the caller's task, segment, id and buffer, or still waits for a range object. |
| ApiCalls.Environment.NotifyAsyncWaitall | src/c/NotifyAsyncWait.cpp:56-90 | The same for several ids: nothing happens for no ids; otherwise every look that hits and every notification taken is for one of the caller's ids, and a published range asks for exactly the caller's task, segment, ids and buffer. |
| ApiCalls.OutcomeIsRun | src/c/NotifyAsyncWait.cpp:26-90 | Whatever a wait call does under interference is a run of the protocol. |
| ApiCalls.Environment.Enqueue | src/common/WaitingRangeQueue.hpp:44-53 | Publishing is always possible and appends the range to its segment's queue. |
| ApiCalls.Environment.Pop | src/common/Allocator.hpp:66-72 | The pop succeeds exactly if the pool is not empty and hands out its first object. |
| PollerRuns.ScanRange | src/common/WaitingRange.hpp:108-150 | Under any interference the scan of a listed range ends, is a run of the protocol and touches no other segment; every look hits exactly if some id of the range is set, unless it times out early. |
| PollerRuns.CheckList | src/common/WaitingRangeList.hpp:42-55 | Under any interference the erasing loop ends, checks each listed range object once and in order, and splits them, in order, into the new list and the finished ones. |
| PollerRuns.ReleaseAll | src/common/Polling.cpp:151-159 | Under any interference exactly the finished range objects are completed and given back, in order, before the next segment's turn. |
| PollerRuns.PollSegment | src/common/Polling.cpp:141-159 | A segment's turn under interference finds first what was in its list and queue, checks the ranges found in order, and splits them in order into its new list and those it releases. |
| PollerRuns.PollNotifications | src/common/Polling.cpp:136-162 | A pass ends however busy the others are and is a run of the protocol; segment by segment it checks and splits the ranges as above, and checks and releases no others; each of its looks hits exactly if some id of the range it is at is set, unless it times out early. |
| PollerRuns.PollBatch | src/common/Polling.cpp:104-130 | One round of the do-while under interference: one fetch of min(64, completed) requests of a valid queue, one decrease per request handed over, each after the others had their steps, and the round repeats if and only if the queue is valid and the batch was full. |
| PollerRuns.PollQueues | src/common/Polling.cpp:86-134 | A turn of an instance under interference consists of such rounds, queue after queue; it has finished if and only if it got past the last queue, and then it left every queue of its range after a batch that was not full and is back at the first. |
| WaitingRanges.ScanNotifications | src/common/WaitingRange.hpp:108-150 | The do-while scan ends; it takes values of set ids, each id at most once, clears exactly those, and stops only when nothing remains or nothing is set. |
| WaitingRanges.CheckNotification | src/common/WaitingRange.hpp:76-106 | The same for a single id with one look. |
| WaitingRanges.WaitingRange.constructor | src/common/WaitingRange.hpp:40-55 | A new range is the wait that the early check left over; its own value field is not initialised. |
| WaitingRanges.WaitingRange.CheckNotifications | src/common/WaitingRange.hpp:62-74 | The member form applies the scan to the object's own counter and array: several ids are written to the array by their values, in order; a single id goes to the value field, which is copied to the caller's variable whether or not anything arrived; it tells exactly whether nothing remains. |
| WaitingRanges.ScanTakesAll | src/common/WaitingRange.hpp:123-147 | A scan takes as many notifications as are set, up to what remains; if no more are set than remain it clears all of them. |
| WaitingRanges.DisciplineBoundsSetIds | src/common/WaitingRange.hpp:123-147 | Under the discipline no more ids are set than remain. |
| WaitingRanges.CheckList | src/common/WaitingRangeList.hpp:42-55 | The loop that erases while iterating visits every range once, in order, and splits the list stably into pending and finished ranges. |
| WaitingRanges.SplitKeepsAll | src/common/WaitingRangeList.hpp:42-55 | The two parts together are the original list, with no range lost or duplicated. |
| WaitingRanges.PassIsExact | src/common/WaitingRangeList.hpp:42-55 | Under the discipline one pass clears every id covered by some range and no other, and a range finishes exactly when every id it still waited for was set. |
| WaitingRanges.ArrivedIffFull | src/common/WaitingRange.hpp:123-147 | Under the discipline as many ids are set as remain if and only if every id was taken before or is set now. |
| WaitingRanges.TurnedOk | src/common/WaitingRange.hpp:62-74 | A range is in order after its turn, and delivers its values if it finished. |
| NotificationPolling.ReleaseAll | src/common/Polling.cpp:151-158 | Every counter is lower by exactly the number of finished ranges that belong to its task, and the ranges go back to the pool in order. |
| NotificationPolling.PollSegment | src/common/Polling.cpp:141-158 | A segment's turn: new ranges join behind the old ones, every range is checked in order, finished ones are released, pending ones stay in order. |
| NotificationPolling.PollNotifications | src/common/Polling.cpp:136-162 | The pass over all segments gives each its own turn and touches no other; events and pool change by exactly the finished ranges of all segments. |
| NotificationPolling.SegmentIsExact | src/common/Polling.cpp:136-161 | Poll completeness: with the board frozen and the discipline, a turn releases exactly the ranges all of whose ids have arrived, keeps the others, both in order, and consumes every set id of a range. |
| NotificationPolling.SegmentInOrder | src/common/WaitingRange.hpp:57-60 | Released ranges have nothing remaining and their values delivered; pending ones wait for between one and all of their ids. |
| QueuePolling.Initialize | src/common/Polling.cpp:41-66 | The ranges of the registered instances cover every queue exactly once, start at ins * q + min(ins, r), differ in size by at most one, and an instance is registered exactly if it has queues. |
| QueuePolling.Polling.ReleaseBatch | src/common/Polling.cpp:116-128 | A batch lowers each counter by exactly the multiplicity of its tag and ignores null tags. |
| QueuePolling.Polling.DrainQueue | src/common/Polling.cpp:104-130 | The do-while over batches of 64 ends, empties a valid queue, skips an invalid one, lowers counters by exact multiplicities, and asks the queue n / 64 + 1 times. |
| QueuePolling.Polling.PollQueues | src/common/Polling.cpp:86-134 | A turn of an instance empties every valid queue in its range, leaves all others alone and lowers each counter by the multiplicity of its tag among what was completed there. |
| QueuePolling.Polling.PollRound | src/common/Polling.cpp:41-134 | Partition and drain together: when every instance takes one turn, all valid queues are empty and every counter is lower by exactly the multiplicity of its tag among all that was completed. |
| SpinLocks.MutualExclusion | src/common/util/SpinLock.hpp:34-60 | At most one thread is between acquiring and handing over the lock, for lock and trylock mixed, any number of threads and any size. |
| SpinLocks.FifoEntry | src/common/util/SpinLock.hpp:34-41 | Threads enter in the order of their tickets. |
| SpinLocks.SlotHoldsLatest | src/common/util/SpinLock.hpp:56-60 | Slot i holds the largest published ticket congruent to i, or 0. |
| SpinLocks.ReuseAfterRelease | src/common/util/SpinLock.hpp:36-40 | While some thread owns ticket h its slot holds at most h, so it is reused for ticket h + size only after h has left. |
| SpinLocks.NoLostHandover | src/common/util/SpinLock.hpp:36-59 | If nobody is inside and some ticket is outstanding, the lowest one finds its slot equal to itself. |
| SpinLocks.TryLockSound | src/common/util/SpinLock.hpp:43-54 | In spite of the stale slot test, when the compare-and-swap succeeds nobody is inside and nobody is waiting. |
| SpinLocks.TryLockExact | src/common/util/SpinLock.hpp:43-54 | Undisturbed, trylock succeeds if and only if no ticket is outstanding. |
| SpinLocks.WaiterEntersInEveryRun | src/common/util/SpinLock.hpp:34-60 | In every run that contains 3 * (tickets ahead) + 1 moves of the threads whose tickets are due, whatever else happens in it, a waiting thread has entered in its turn. |
| SpinLocks.WaiterGetsIn | src/common/util/SpinLock.hpp:34-60 | Such moves can always be made: some run of at most that many, all by threads whose tickets are not after its own, makes the waiting thread the holder. |
| SpinLocks.SpinLock.Lock | src/common/util/SpinLock.hpp:34-41 | Under any interference lock() draws a ticket and loads the slot until the first load that finds it; it holds the lock if and only if one of its loads did, with everybody else outside, entered in that ticket's place. |
| SpinLocks.SpinLock.TryLock | src/common/util/SpinLock.hpp:43-54 | Under any interference trylock() succeeds if and only if the slot carries the head it read and the head is still the same at the swap; then everybody else is neither inside nor waiting. |
| SpinLocks.SpinLock.Unlock | src/common/util/SpinLock.hpp:56-60 | unlock() is the increment, the interference and the store; it advances the lock by one ticket and stores it in its slot, and nobody enters in between. |
| MpscQueues.CapacityRespected | src/common/util/MPSCLockFreeQueue.hpp:63-105 | Passed reservations, unwritten tickets, occupied slots and the pending decrement stay within the capacity, even while count exceeds it, and count never underflows. |
| MpscQueues.NeverOverwrites | src/common/util/MPSCLockFreeQueue.hpp:72-79 | The slot of an outstanding ticket is empty and less than a turn ahead of the tail, and no two producers share a ticket or a slot; both assertions of enqueue hold. |
| MpscQueues.RefinesFifo | src/common/util/MPSCLockFreeQueue.hpp:63-105 | Every step refines a FIFO queue: drawing a ticket appends, a successful take removes and returns the first element, nothing else changes it. |
| MpscQueues.EmptyHandedExactly | src/common/util/MPSCLockFreeQueue.hpp:83-105 | dequeue finds nothing if and only if the tail ticket is not written, whatever later tickets are. |
| MpscQueues.NothingLost | src/common/util/MPSCLockFreeQueue.hpp:63-105 | Every value that got a ticket is dequeued in that ticket's place, stored in its slot, or still in the hands of the producer that drew it. |
| MpscQueues.RefusesExactly | src/common/util/MPSCLockFreeQueue.hpp:63-70 | enqueue refuses if and only if slots in use, promised or not yet given back fill the ring. |
| MpscQueues.RefusesWhileEmpty | src/common/util/MPSCLockFreeQueue.hpp:63-70 | A run in which enqueue refuses on an empty ring. |
| MpscQueues.SizeExactWhenQuiet | src/common/util/MPSCLockFreeQueue.hpp:107-110 | With no call in progress size() is the length of the FIFO queue. |
| MpscQueues.DrainReturnsEverything | src/common/util/MPSCLockFreeQueue.hpp:83-105 | With quiet producers, as many dequeues as there are elements return all of them in order and leave every slot empty. |
| MpscQueues.MPSCLockFreeQueue.Enqueue | src/common/util/MPSCLockFreeQueue.hpp:63-81 | Under any interference enqueue succeeds exactly when count was below the capacity, and then draws and stores exactly one ticket; when it refuses it draws none; the end state is exactly that of its own accesses and the interference. |
| MpscQueues.MPSCLockFreeQueue.Dequeue | src/common/util/MPSCLockFreeQueue.hpp:83-105 | Under any interference dequeue returns the oldest ticket's value and removes it if it is stored, and otherwise returns 0 and changes nothing; the end state is exactly that of its own accesses and the interference. |
| HardwareScan.HardwareInfo.Initialize | src/common/HardwareInfo.hpp:27-81 | The vectors describe exactly the CPUs and NUMA nodes in use and end at the last one of each, the node count is right and positive, and the debug assertion on the CPU count holds exactly if some CPU is not available. |
| QueueGroups.AssignDistinct | src/common/QueueGroup.hpp:121-130 | With enough queues each available node gets its block, one after the other. |
| QueueGroups.BlocksPartition | src/common/QueueGroup.hpp:115-130 | The blocks are not empty, lie in the group and are disjoint; they hold at most all queues, and all of them if and only if the first num % nodes node indices are available. |
| QueueGroups.AssignCPUs | src/common/QueueGroup.hpp:152-166 | The double loop gives every CPU on a node its node's queues in turn and leaves other entries alone. |
| QueueGroups.NodesApart | src/common/QueueGroup.hpp:104-167 | With enough queues every CPU on an available node gets a queue of the group, and CPUs of different nodes never share one. |
| QueueGroups.LoadsBalanced | src/common/QueueGroup.hpp:159-164 | The loads of two queues of a node differ by at most one CPU. |
| QueueGroups.DealingEnds | src/common/QueueGroup.hpp:131-140 | The dealing loop of the other branch ends if and only if there is one queue or node 0 is available. |
| QueueGroups.AssignShared | src/common/QueueGroup.hpp:131-150 | What that branch writes when it ends: every available node from index rem - 1 on gets exactly the last queue, node 0 the one before it if there is more than one, and no other entry is written; node 0 shares its queue with no later node. |
| QueueGroups.SharedExactly | src/common/QueueGroup.hpp:131-150 | Its ranges are non-empty and inside the group, whatever the stack held, if and only if the only queue is queue 0, or the first queue is at most num - 2 and no node between 0 and num - 1 is available. |
| QueueGroups.SharedMissesGroup | src/common/QueueGroup.hpp:131-150 | Two queues from 4 on over three nodes: the ranges lie outside the group. |
| QueueGroups.CpuQueueGroup.SetupCPURoundRobinData | src/common/QueueGroup.hpp:104-167 | Both branches and the table, in all cases in which the code ends and reads no unwritten range: blocks of the group with enough queues; otherwise two CPUs get different queues if and only if there is more than one queue and exactly one of them is on node 0, and of three or more queues only the last two are used. |
| RoundRobin.CounterCountsWins | src/common/QueueGroup.hpp:57-67 | In every run the counter is the number of successful swaps modulo the group's size, and each answer is the group's queue that the counter showed at the load. |
| RoundRobin.SwapExactly | src/common/QueueGroup.hpp:61-66 | A swap succeeds if and only if the others' successes since the load are a multiple of the group's size; a failed one means that another thread succeeded. |
| RoundRobin.SameQueueExactly | src/include/TAGASPI.h:24-26 | Two calls get the same queue if and only if the successes between their loads are a multiple of the group's size. |
| RoundRobin.OverlappingCallsShare | src/include/TAGASPI.h:24-26 | A run in which two overlapping calls get the same queue. |
| RoundRobin.SequentialCalls | src/common/QueueGroup.hpp:57-67 | Without overlap call k gets queue first + k % num, whoever calls. |
| RoundRobin.SequentialCallsDiffer | src/include/TAGASPI.h:24-26 | Without overlap any calls fewer than num apart get different queues. |
| RoundRobin.DefaultQueueGroup.GetQueue | src/common/QueueGroup.hpp:53-75 | Under any interference the queue is the one of the successes at the load, and afterwards the counter has moved on; a group of one queue never touches it. |
| PollingShutdown.EveryAccessSafe | src/common/TaskingModel.hpp:80-191 | In every interleaving no step touches an instance that does not exist, and no poller touches data that finalize has freed. |
| PollingShutdown.FreedOnlyWhenGone | src/common/Environment.cpp:73-94 | Anything is freed only when every registered instance is deleted and its polling function has ended for good. |
| PollingShutdown.NeverCalledAgain | src/common/TaskingModel.hpp:99-123 | Once unregisterPolling has returned, the polling function of that instance is not called in any continuation. |
| PollingShutdown.AtMostOneMoreCall | src/common/TaskingModel.hpp:165-179 | After the stop flag is set the function is called at most once more, and only if the loop had already seen it unset. |
| PollingShutdown.CallsEveryRound | src/common/TaskingModel.hpp:165-179 | In every interleaving, while the stop flag of an instance is unset, k steps of its task from the test on make exactly (k + 2) / 4 calls of the polling function. |
| PollingShutdown.OneCallPerTest | src/common/TaskingModel.hpp:168-179 | In every interleaving a test that saw the flag unset is followed by exactly one call before the next test, even if the flag is set meanwhile. |
| PollingShutdown.RegisteredWhenServing | src/common/Environment.cpp:33-71 | When initialize has returned, every instance with something to poll is registered and its task runs, the others do not exist and nothing is freed. |
| PollingShutdown.GoneWhenFinalized | src/common/Environment.cpp:73-94 | When finalize has returned, every instance is deleted, its task has ended and all data is freed. |
| PollingShutdown.WaitEnds | src/common/TaskingModel.hpp:115-122 | While unregisterPolling waits, the poller can always step closer to its end and nobody can take it back; when no step is left the wait is over. |
| PollingShutdown.TaskingModel.UnregisterPolling | src/common/TaskingModel.hpp:108-123 | Under any interference it returns with the instance deleted and its poller completed, and it does return within five tests if the poller steps between them. |

## Left out

- GASPI, ALPI, libnuma and Boost internals: replaced by the small specifications under "Assumptions".
- Symbol loading, environment variables, error printing, Fortran bindings and build scripts.
- The read, notify, write-notify and list variants of them: same shape as the two write calls.
- Weak memory orders, cache-line padding, polling periods and fairness of the scheduler.
- Creation and deletion of queue groups, and the unlocked lookup of a group that is being deleted.
- CPUs that belong to no NUMA node: their table entry stays 0 and nothing is claimed about them.
- Requests that complete with an error status: the pollers abort.
- Range objects of the state machine are kept as values next to their object number; that a number
  stands for one wait at a time is `CompletionTheorems.ObjectsNotShared`. Updates in place on real
  objects are in `WaitingRanges`.
- `ApiCalls.Environment` keeps a call's local variables in its program counter, where other threads
  cannot reach them, and treats the lock around the push to a segment's queue as one step.
- Termination of `allocate` while the pool is empty, and of `lock` while its holder never unlocks:
  both depend on others, so the methods take a bound on the attempts that are looked at.
- NotificationPolling.PollNotifications: its exact outcome is stated for passes in which nobody notifies or publishes
  meanwhile; with interference see `PollerRuns.PollNotifications` and the statements about every
  reachable state.
- QueuePolling.Polling.PollQueues: the same for drains during which no further request completes; with
  interference see `PollerRuns.PollQueues`.
- PollerRuns.PollQueues: takes a bound on the batches that are looked at, because a queue on which requests keep
  completing can hold an instance for ever.
- AssignShared: what it leaves is stated only for the cases in which its loop ends.
