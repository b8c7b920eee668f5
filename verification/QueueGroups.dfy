/** The queues of a group and the CPUs that use them: setupCPURoundRobinData of
    src/common/QueueGroup.hpp. */
module QueueGroups {
  import opened HardwareScan
  import opened Tallies

  datatype QueueRange = QueueRange(first: nat, num: nat)

  // ---- Ranges of queues for NUMA nodes ---------------------------------

  function Share(numa: nat, per: nat, rem: nat): nat {
    per + if numa < rem then 1 else 0
  }

  /** How many queues the available nodes below n get. */
  ghost function Given(avail: seq<bool>, per: nat, rem: nat, n: nat): nat
    requires n <= |avail|
  {
    if n == 0 then 0 else Given(avail, per, rem, n - 1) + if avail[n - 1] then Share(n - 1, per, rem) else 0
  }

  function Times(k: nat, per: nat): nat {
    k * per
  }

  lemma TimesNext(k: nat, per: nat)
    ensures Times(0, per) == 0 && Times(k + 1, per) == Times(k, per) + per
  {
  }

  lemma {:induction false} GivenCount(avail: seq<bool>, per: nat, rem: nat, n: nat)
    requires n <= |avail|
    ensures Given(avail, per, rem, n) == Times(NumTrue(avail[..n]), per) + NumTrue(avail[..Min(n, rem)])
  {
    hide Times;
    if n == 0 {
      TimesNext(0, per);
    } else {
      GivenCount(avail, per, rem, n - 1);
      CountNext(avail, n - 1, IsTrue);
      TimesNext(NumTrue(avail[..n - 1]), per);
    }
  }

  lemma {:induction false} GivenGrows(avail: seq<bool>, per: nat, rem: nat, n: nat, m: nat)
    requires n <= m <= |avail|
    ensures Given(avail, per, rem, n) <= Given(avail, per, rem, m)
    decreases m
  {
    if n < m {
      GivenGrows(avail, per, rem, n, m - 1);
    }
  }

  /** Each available node below n has its block, one after the other. */
  ghost predicate InBlocks(avail: seq<bool>, ranges: seq<QueueRange>, first: nat, per: nat, rem: nat, n: nat) {
    && n <= |avail| == |ranges|
    && forall k :: 0 <= k < n && avail[k] ==> ranges[k] == QueueRange(first + Given(avail, per, rem, k), Share(k, per, rem))
  }

  /** The branch for at least as many queues as available nodes. `stack` is what the local array
      holds before. */
  method AssignDistinct(avail: seq<bool>, first: nat, per: nat, rem: nat, stack: seq<QueueRange>) returns (ranges: seq<QueueRange>)
    requires |stack| == |avail|
    ensures InBlocks(avail, ranges, first, per, rem, |avail|)
    ensures forall k :: 0 <= k < |avail| && !avail[k] ==> ranges[k] == stack[k]
  {
    ranges := stack;
    var queue, numa := first, 0;
    while numa < |avail|
      invariant 0 <= numa <= |avail| == |ranges|
      invariant queue == first + Given(avail, per, rem, numa)
      invariant InBlocks(avail, ranges, first, per, rem, numa)
      invariant forall k :: 0 <= k < |avail| && (k >= numa || !avail[k]) ==> ranges[k] == stack[k]
    {
      if avail[numa] {
        ranges := ranges[numa := QueueRange(queue, per + if numa < rem then 1 else 0)];
        queue := queue + ranges[numa].num;
      }
      numa := numa + 1;
    }
  }

  /** The whole group. */
  ghost predicate InGroup(q: nat, first: nat, num: nat) {
    first <= q < first + num
  }

  ghost predicate InRange(q: nat, r: QueueRange) {
    InGroup(q, r.first, r.num)
  }

  lemma BlocksInOrder(avail: seq<bool>, ranges: seq<QueueRange>, first: nat, per: nat, rem: nat)
    requires per > 0 && InBlocks(avail, ranges, first, per, rem, |avail|)
    ensures forall k :: 0 <= k < |avail| && avail[k] ==>
              ranges[k].num > 0 && first <= ranges[k].first
              && ranges[k].first + ranges[k].num <= first + Given(avail, per, rem, |avail|)
    ensures forall j, k :: 0 <= j < k < |avail| && avail[j] && avail[k] ==> ranges[j].first + ranges[j].num <= ranges[k].first
  {
    forall k | 0 <= k < |avail| && avail[k] ensures
      ranges[k].num > 0 && first <= ranges[k].first
      && ranges[k].first + ranges[k].num <= first + Given(avail, per, rem, |avail|)
    {
      assert Given(avail, per, rem, k + 1) == Given(avail, per, rem, k) + Share(k, per, rem);
      GivenGrows(avail, per, rem, k + 1, |avail|);
    }
    forall j, k | 0 <= j < k < |avail| && avail[j] && avail[k] ensures ranges[j].first + ranges[j].num <= ranges[k].first {
      assert Given(avail, per, rem, j + 1) == Given(avail, per, rem, j) + Share(j, per, rem);
      GivenGrows(avail, per, rem, j + 1, k);
    }
  }

  /** The nodes' blocks are not empty, lie inside the group and do not overlap; together they have
      at most the group's queues, and all of them exactly when the first `num % nodes` node indices
      are available. */
  lemma BlocksPartition(avail: seq<bool>, ranges: seq<QueueRange>, first: nat, num: nat, nodes: nat)
    requires nodes == NumTrue(avail) > 0 && num >= nodes
    requires InBlocks(avail, ranges, first, num / nodes, num % nodes, |avail|)
    ensures forall k :: 0 <= k < |avail| && avail[k] ==>
              ranges[k].num > 0 && first <= ranges[k].first && ranges[k].first + ranges[k].num <= first + num
    ensures forall j, k :: 0 <= j < k < |avail| && avail[j] && avail[k] ==> ranges[j].first + ranges[j].num <= ranges[k].first
    ensures num % nodes <= |avail|
    ensures Given(avail, num / nodes, num % nodes, |avail|) <= num
    ensures Given(avail, num / nodes, num % nodes, |avail|) == num <==> forall k :: 0 <= k < num % nodes ==> avail[k]
  {
    assert |ranges| == |avail|;
    hide NumTrue, InBlocks, Given;
    GivenTotal(avail, num, nodes, num / nodes, num % nodes);
    PerPositive(num, nodes);
    BlocksInOrder(avail, ranges, first, num / nodes, num % nodes);
  }

  lemma PerPositive(num: nat, nodes: nat)
    requires num >= nodes > 0
    ensures num / nodes > 0
  {
  }

  lemma Divides(num: nat, nodes: nat, per: nat, rem: nat)
    requires nodes > 0 && per == num / nodes && rem == num % nodes
    ensures nodes * per + rem == num && rem < nodes
  {
  }

  lemma GivenTotal(avail: seq<bool>, num: nat, nodes: nat, per: nat, rem: nat)
    requires nodes == NumTrue(avail) > 0 && per == num / nodes && rem == num % nodes
    ensures rem <= |avail|
    ensures Given(avail, per, rem, |avail|) <= num
    ensures Given(avail, per, rem, |avail|) == num <==> forall k :: 0 <= k < rem ==> avail[k]
  {
    Divides(num, nodes, per, rem);
    NumTrueBound(avail);
    GivenCount(avail, per, rem, |avail|);
    assert avail[..|avail|] == avail;
    var low := avail[..rem];
    NumTrueBound(low);
    AllTrue(low);
    assert forall k :: 0 <= k < rem ==> low[k] == avail[k];
  }

  lemma AllTrue(s: seq<bool>)
    ensures false !in s <==> forall k :: 0 <= k < |s| ==> s[k]
  {
  }

  // ---- Queues of the CPUs ----------------------------------------------

  function IsOn(node: int): int -> bool {
    n => n == node
  }

  /** How many of the CPUs are on the node. */
  ghost function OnNode(cpus: seq<int>, node: int): nat {
    Count(cpus, IsOn(node))
  }

  lemma OnNodeNext(cpus: seq<int>, node: int, c: nat)
    requires c < |cpus|
    ensures OnNode(cpus[..c + 1], node) == OnNode(cpus[..c], node) + if cpus[c] == node then 1 else 0
  {
    CountNext(cpus, c, IsOn(node));
  }

  /** The nodes of the CPUs are available nodes, whose ranges are not empty. */
  ghost predicate Usable(cpus: seq<int>, avail: seq<bool>, ranges: seq<QueueRange>) {
    && |ranges| == |avail|
    && (forall c :: 0 <= c < |cpus| && cpus[c] != NO_NODE ==> 0 <= cpus[c] < |avail| && avail[cpus[c]])
    && (forall n :: 0 <= n < |avail| && avail[n] ==> ranges[n].num > 0)
  }

  /** The turn of the CPU that comes after `m` others of its node. */
  function Offset(m: nat, num: nat): nat
    requires num > 0
  {
    m % num
  }

  /** The queue of a CPU on a node: its node's queues in turn. */
  ghost function QueueOf(cpus: seq<int>, ranges: seq<QueueRange>, c: nat): nat
    requires c < |cpus| && 0 <= cpus[c] < |ranges| && ranges[cpus[c]].num > 0
  {
    ranges[cpus[c]].first + Offset(OnNode(cpus[..c], cpus[c]), ranges[cpus[c]].num)
  }

  function NextOffset(offset: nat, num: nat): nat
    requires num > 0
  {
    (offset + 1) % num
  }

  lemma OffsetNext(m: nat, num: nat)
    requires num > 0
    ensures Offset(0, num) == 0 && Offset(m, num) < num
    ensures NextOffset(Offset(m, num), num) == Offset(m + 1, num)
  {
    ModSmall(0, num);
    ModNext(m, num);
    ModNext(m % num, num);
    ModSmall(m % num, num);
  }

  /** The CPUs of the nodes below `n` have their queues, and on node `n` those below `c`. */
  ghost predicate Filled(table: seq<nat>, before: seq<nat>, cpus: seq<int>, avail: seq<bool>, ranges: seq<QueueRange>, n: int, c: nat) {
    && Usable(cpus, avail, ranges) && |table| == |before| == |cpus|
    && forall k :: 0 <= k < |cpus| ==>
         table[k] == if cpus[k] != NO_NODE && (cpus[k] < n || (cpus[k] == n && k < c)) then QueueOf(cpus, ranges, k) else before[k]
  }

  lemma FilledStart(table: seq<nat>, cpus: seq<int>, avail: seq<bool>, ranges: seq<QueueRange>)
    requires Usable(cpus, avail, ranges) && |table| == |cpus|
    ensures Filled(table, table, cpus, avail, ranges, 0, 0)
  {
  }

  lemma FilledHit(table: seq<nat>, before: seq<nat>, cpus: seq<int>, avail: seq<bool>, ranges: seq<QueueRange>, n: nat, c: nat)
    requires Filled(table, before, cpus, avail, ranges, n, c) && c < |cpus| && cpus[c] == n
    ensures |table| == |cpus| && n < |ranges| && ranges[n].num > 0
    ensures Filled(table[c := ranges[n].first + Offset(OnNode(cpus[..c], n), ranges[n].num)], before, cpus, avail, ranges, n, c + 1)
  {
  }

  lemma FilledMiss(table: seq<nat>, before: seq<nat>, cpus: seq<int>, avail: seq<bool>, ranges: seq<QueueRange>, n: nat, c: nat)
    requires Filled(table, before, cpus, avail, ranges, n, c) && c < |cpus| && cpus[c] != n
    ensures Filled(table, before, cpus, avail, ranges, n, c + 1)
  {
  }

  lemma FilledNode(table: seq<nat>, before: seq<nat>, cpus: seq<int>, avail: seq<bool>, ranges: seq<QueueRange>, n: nat)
    requires Filled(table, before, cpus, avail, ranges, n, if n < |avail| && avail[n] then |cpus| else 0) && n < |avail|
    ensures Filled(table, before, cpus, avail, ranges, n + 1, 0)
  {
  }

  lemma FilledEnd(table: seq<nat>, before: seq<nat>, cpus: seq<int>, avail: seq<bool>, ranges: seq<QueueRange>)
    requires Filled(table, before, cpus, avail, ranges, |avail|, 0)
    ensures TableOk(table, before, cpus, avail, ranges)
  {
  }

  /** Every CPU on a node has the queue its turn gives it; the others keep what was there. */
  ghost predicate TableOk(table: seq<nat>, before: seq<nat>, cpus: seq<int>, avail: seq<bool>, ranges: seq<QueueRange>) {
    && Usable(cpus, avail, ranges) && |table| == |before| == |cpus|
    && forall k :: 0 <= k < |cpus| ==> table[k] == if cpus[k] != NO_NODE then QueueOf(cpus, ranges, k) else before[k]
  }

  /** The loop over the CPUs for one node. */
  method AssignNode(table: array<nat>, cpus: seq<int>, avail: seq<bool>, ranges: seq<QueueRange>, numa: nat, ghost before: seq<nat>)
    requires numa < |avail| && avail[numa] && table.Length == |cpus|
    requires Filled(table[..], before, cpus, avail, ranges, numa, 0)
    modifies table
    ensures Filled(table[..], before, cpus, avail, ranges, numa, |cpus|)
  {
    assert |ranges| == |avail| && ranges[numa].num > 0;
    hide Filled, OnNode, Offset, NextOffset;
    var firstQueue, numQueues, offset := ranges[numa].first, ranges[numa].num, 0;
    OffsetNext(0, numQueues);
    OnNodeNone(cpus, numa);
    var cpu := 0;
    while cpu < table.Length
      invariant 0 <= cpu <= table.Length
      invariant Filled(table[..], before, cpus, avail, ranges, numa, cpu)
      invariant offset == Offset(OnNode(cpus[..cpu], numa), numQueues)
    {
      OnNodeNext(cpus, numa, cpu);
      if cpus[cpu] == numa {
        FilledHit(table[..], before, cpus, avail, ranges, numa, cpu);
        OffsetNext(OnNode(cpus[..cpu], numa), numQueues);
        Store(table, cpu, firstQueue + offset);
        offset := NextOffset(offset, numQueues);
      } else {
        FilledMiss(table[..], before, cpus, avail, ranges, numa, cpu);
      }
      cpu := cpu + 1;
    }
  }

  method Store(table: array<nat>, cpu: nat, queue: nat)
    requires cpu < table.Length
    modifies table
    ensures table[..] == old(table[..])[cpu := queue]
  {
    table[cpu] := queue;
  }

  lemma OnNodeNone(cpus: seq<int>, node: int)
    ensures OnNode(cpus[..0], node) == 0
  {
  }

  /** The second half of setupCPURoundRobinData, over all available nodes. */
  method AssignCPUs(table: array<nat>, cpus: seq<int>, avail: seq<bool>, ranges: seq<QueueRange>)
    requires Usable(cpus, avail, ranges) && table.Length == |cpus|
    modifies table
    ensures TableOk(table[..], old(table[..]), cpus, avail, ranges)
  {
    hide Filled, TableOk, Usable;
    FilledStart(table[..], cpus, avail, ranges);
    var numa := 0;
    while numa < |avail|
      invariant 0 <= numa <= |avail|
      invariant Filled(table[..], old(table[..]), cpus, avail, ranges, numa, 0)
    {
      if avail[numa] {
        AssignNode(table, cpus, avail, ranges, numa, old(table[..]));
      }
      FilledNode(table[..], old(table[..]), cpus, avail, ranges, numa);
      numa := numa + 1;
    }
    FilledEnd(table[..], old(table[..]), cpus, avail, ranges);
  }

  // ---- What the table guarantees ----------------------------------------

  /** How many CPUs of the node use queue q. */
  ghost function Load(cpus: seq<int>, table: seq<nat>, node: int, q: nat): nat
    requires |table| == |cpus|
  {
    if cpus == [] then 0 else
    var n := |cpus| - 1;
    Load(cpus[..n], table[..n], node, q) + if cpus[n] == node && table[n] == q then 1 else 0
  }

  function Rounds(m: nat, num: nat): nat
    requires num > 0
  {
    m / num
  }

  /** How many of m CPUs have their turn at offset i. */
  function Portion(m: nat, num: nat, i: nat): nat
    requires num > 0
  {
    Rounds(m, num) + if i < Offset(m, num) then 1 else 0
  }

  lemma RoundsNext(m: nat, num: nat)
    requires num > 0
    ensures Rounds(0, num) == 0 && Offset(0, num) == 0
    ensures if Offset(m, num) + 1 == num then Rounds(m + 1, num) == Rounds(m, num) + 1 && Offset(m + 1, num) == 0
            else Rounds(m + 1, num) == Rounds(m, num) && Offset(m + 1, num) == Offset(m, num) + 1
    ensures Offset(m, num) < num
  {
    ModUnique(0, num, 0, 0);
    var q, r := m / num, m % num;
    if r + 1 == num {
      assert m + 1 == num * (q + 1) + 0;
      ModUnique(m + 1, num, q + 1, 0);
    } else {
      ModUnique(m + 1, num, q, r + 1);
    }
  }

  lemma PortionNext(m: nat, num: nat, i: nat)
    requires i < num
    ensures Portion(0, num, i) == 0
    ensures Portion(m + 1, num, i) == Portion(m, num, i) + if i == Offset(m, num) then 1 else 0
  {
    hide Rounds, Offset;
    RoundsNext(m, num);
  }

  lemma {:induction false} LoadIsPortion(table: seq<nat>, before: seq<nat>, cpus: seq<int>, avail: seq<bool>, ranges: seq<QueueRange>,
                                         node: nat, i: nat, n: nat)
    requires TableOk(table, before, cpus, avail, ranges) && n <= |cpus|
    requires node < |avail| && avail[node] && i < ranges[node].num
    ensures Load(cpus[..n], table[..n], node, ranges[node].first + i) == Portion(OnNode(cpus[..n], node), ranges[node].num, i)
  {
    hide Portion, Offset;
    var num := ranges[node].num;
    PortionNext(0, num, i);
    if n > 0 {
      LoadIsPortion(table, before, cpus, avail, ranges, node, i, n - 1);
      OnNodeNext(cpus, node, n - 1);
      PortionNext(OnNode(cpus[..n - 1], node), num, i);
      assert cpus[..n][..n - 1] == cpus[..n - 1] && table[..n][..n - 1] == table[..n - 1];
    }
  }

  /** The queues of a node are used equally: by a portion of its CPUs, or by one more. */
  lemma LoadsBalanced(table: seq<nat>, before: seq<nat>, cpus: seq<int>, avail: seq<bool>, ranges: seq<QueueRange>, node: nat, p: nat, q: nat)
    requires TableOk(table, before, cpus, avail, ranges)
    requires node < |avail| && avail[node] && InRange(p, ranges[node]) && InRange(q, ranges[node])
    ensures Load(cpus, table, node, p) <= Load(cpus, table, node, q) + 1
  {
    assert cpus[..|cpus|] == cpus && table[..|cpus|] == table;
    LoadIsPortion(table, before, cpus, avail, ranges, node, p - ranges[node].first, |cpus|);
    LoadIsPortion(table, before, cpus, avail, ranges, node, q - ranges[node].first, |cpus|);
  }

  /** With at least as many queues as nodes, every CPU on a node has a queue of the group, and CPUs
      of different nodes never share one. */
  lemma NodesApart(table: seq<nat>, before: seq<nat>, cpus: seq<int>, avail: seq<bool>, ranges: seq<QueueRange>, first: nat, num: nat, nodes: nat)
    requires nodes == NumTrue(avail) > 0 && num >= nodes
    requires InBlocks(avail, ranges, first, num / nodes, num % nodes, |avail|)
    requires TableOk(table, before, cpus, avail, ranges)
    ensures forall c :: 0 <= c < |cpus| && cpus[c] != NO_NODE ==> InGroup(table[c], first, num)
    ensures forall c, d :: 0 <= c < |cpus| && 0 <= d < |cpus| && cpus[c] != NO_NODE && cpus[d] != NO_NODE && cpus[c] != cpus[d] ==>
              table[c] != table[d]
  {
    BlocksPartition(avail, ranges, first, num, nodes);
    hide InBlocks, NumTrue, OnNode;
    forall c | 0 <= c < |cpus| && cpus[c] != NO_NODE ensures InRange(table[c], ranges[cpus[c]]) {
      QueueInRange(cpus, ranges, c);
    }
    hide TableOk;
  }

  lemma QueueInRange(cpus: seq<int>, ranges: seq<QueueRange>, c: nat)
    requires c < |cpus| && 0 <= cpus[c] < |ranges| && ranges[cpus[c]].num > 0
    ensures InRange(QueueOf(cpus, ranges, c), ranges[cpus[c]])
  {
    OffsetNext(OnNode(cpus[..c], cpus[c]), ranges[cpus[c]].num);
  }

  // ---- Fewer queues than nodes -----------------------------------------

  /** One turn of the loop that deals out the first queues: it always looks at node 0. */
  function DealTurn(avail: seq<bool>, numAssigned: nat): nat
    requires |avail| > 0
  {
    if avail[0] then numAssigned + 1 else numAssigned
  }

  function DealTurns(avail: seq<bool>, turns: nat): nat
    requires |avail| > 0
  {
    if turns == 0 then 0 else DealTurn(avail, DealTurns(avail, turns - 1))
  }

  /** The loop ends exactly if there is one queue only or node 0 is available. */
  lemma DealingEnds(avail: seq<bool>, rem: nat)
    requires |avail| > 0 && rem > 0
    ensures (exists turns: nat :: DealTurns(avail, turns) >= rem - 1) <==> rem == 1 || avail[0]
  {
    if rem == 1 || avail[0] {
      Dealt(avail, rem - 1);
      assert DealTurns(avail, rem - 1) >= rem - 1 || rem == 1;
      assert DealTurns(avail, 0) >= 0;
    } else {
      forall turns: nat ensures DealTurns(avail, turns) == 0 {
        Dealt(avail, turns);
      }
    }
  }

  lemma {:induction false} Dealt(avail: seq<bool>, turns: nat)
    requires |avail| > 0
    ensures DealTurns(avail, turns) == if avail[0] then turns else 0
  {
    if turns > 0 {
      Dealt(avail, turns - 1);
    }
  }

  /** What the branch leaves in the ranges when it ends. */
  ghost function SharedRange(avail: seq<bool>, rem: nat, stack: seq<QueueRange>, n: nat): QueueRange
    requires rem > 0 && n < |avail| == |stack|
  {
    if !avail[n] then stack[n]
    else if n >= rem - 1 then QueueRange(rem - 1, 1)
    else if n == 0 then QueueRange(rem - 2, 1)
    else stack[n]
  }

  /** The branch for fewer queues than available nodes. */
  method AssignShared(avail: seq<bool>, rem: nat, nodes: nat, stack: seq<QueueRange>) returns (ranges: seq<QueueRange>)
    requires |stack| == |avail| && nodes == NumTrue(avail) && 0 < rem < nodes
    requires |avail| > 0 && (rem == 1 || avail[0])
    ensures |ranges| == |avail| && forall n :: 0 <= n < |avail| ==> ranges[n] == SharedRange(avail, rem, stack, n)
    ensures forall n :: rem - 1 <= n < |avail| && avail[n] ==> ranges[n].first == rem - 1 && ranges[n].num == 1
    ensures rem > 1 ==> ranges[0].first == rem - 2 && ranges[0].num == 1
    ensures forall n :: 0 <= n < |avail| && (!avail[n] || 0 < n < rem - 1) ==> ranges[n] == stack[n]
    ensures forall n :: 0 < n < |avail| && n >= rem - 1 && avail[0] && avail[n] && rem > 1 ==> ranges[0].first != ranges[n].first
  {
    ranges := stack;
    var numAssigned, numa := 0, 0;
    while numAssigned < rem - 1
      invariant 0 <= numAssigned <= rem - 1 && numa == 0 && |ranges| == |avail|
      invariant ranges == if numAssigned == 0 then stack else stack[0 := QueueRange(numAssigned - 1, 1)]
    {
      if avail[numa] {
        ranges := ranges[numa := QueueRange(numAssigned, 1)];
        numAssigned := numAssigned + 1;
      }
    }
    assert numAssigned < nodes;
    NumTrueBound(avail);
    numa := rem - 1;
    while numa < |avail|
      invariant rem - 1 <= numa <= |avail| == |ranges|
      invariant forall n :: 0 <= n < numa ==> ranges[n] == SharedRange(avail, rem, stack, n)
      invariant forall n :: numa <= n < |avail| ==> ranges[n] == stack[n]
    {
      if avail[numa] {
        ranges := ranges[numa := QueueRange(rem - 1, 1)];
      }
      numa := numa + 1;
    }
  }

  /** No available node is left without a range. */
  ghost predicate NoGap(avail: seq<bool>, rem: nat) {
    forall n :: 1 <= n < |avail| && n < rem - 1 ==> !avail[n]
  }

  /** Every available node has queues of the group, whatever the local array held before. */
  ghost predicate SharedOk(avail: seq<bool>, rem: nat, first: nat) {
    forall n, stack: seq<QueueRange> :: 0 <= n < |avail| == |stack| && rem > 0 && avail[n] ==>
      (var r := SharedRange(avail, rem, stack, n); r.num > 0 && first <= r.first && r.first + r.num <= first + rem)
  }

  /** With fewer queues than available nodes the branch does its job exactly when the only queue is
      queue 0, or the group starts at least two queues below its own size and no node between node 0
      and the last queue is available: the dealing loop never advances and the first queue of the
      group is never added. */
  lemma SharedExactly(avail: seq<bool>, rem: nat, first: nat)
    requires 0 < rem < NumTrue(avail) && (rem == 1 || avail[0])
    ensures SharedOk(avail, rem, first) <==> (if rem == 1 then first == 0 else first <= rem - 2 && NoGap(avail, rem))
  {
    NumTrueBound(avail);
    var bad := seq(|avail|, i => QueueRange(0, 0));
    if rem == 1 {
      var n :| 0 <= n < |avail| && avail[n];
      assert SharedRange(avail, rem, bad, n) == QueueRange(0, 1);
    } else {
      assert SharedRange(avail, rem, bad, 0) == QueueRange(rem - 2, 1);
      if !NoGap(avail, rem) {
        var n :| 1 <= n < |avail| && n < rem - 1 && avail[n];
        assert SharedRange(avail, rem, bad, n) == QueueRange(0, 0);
      }
    }
  }

  /** For example queues 4 and 5 over three nodes: the CPUs get queues 0 and 1. */
  lemma SharedMissesGroup()
    ensures !SharedOk([true, true, true], 2, 4)
  {
    var avail, stack := [true, true, true], [QueueRange(0, 0), QueueRange(0, 0), QueueRange(0, 0)];
    assert SharedRange(avail, 2, stack, 0) == QueueRange(0, 1);
  }

  // ---- The group --------------------------------------------------------

  class CpuQueueGroup {
    const firstQueue: nat
    const numQueues: nat

    constructor (first: nat, num: nat)
      requires num > 0
      ensures firstQueue == first && numQueues == num
    {
      firstQueue, numQueues := first, num;
    }

    /** setupCPURoundRobinData, for the cases in which it ends and reads no range it has not
        written. */
    method SetupCPURoundRobinData(table: array<nat>, hw: HardwareInfo, stack: seq<QueueRange>) returns (ranges: seq<QueueRange>)
      requires HardwareOk(hw.cpuToNUMANode, hw.numaNodeAvailability, hw.numAvailableNUMANodes)
      requires numQueues > 0 && table.Length == |hw.cpuToNUMANode| && |stack| == |hw.numaNodeAvailability|
      requires numQueues < hw.numAvailableNUMANodes && numQueues > 1 ==>
                 hw.numaNodeAvailability[0] && NoGap(hw.numaNodeAvailability, numQueues)
      modifies table
      ensures TableOk(table[..], old(table[..]), hw.cpuToNUMANode, hw.numaNodeAvailability, ranges)
      ensures numQueues >= hw.numAvailableNUMANodes ==>
                InBlocks(hw.numaNodeAvailability, ranges, firstQueue, numQueues / hw.numAvailableNUMANodes,
                         numQueues % hw.numAvailableNUMANodes, |hw.numaNodeAvailability|)
      ensures numQueues < hw.numAvailableNUMANodes ==>
                forall n :: 0 <= n < |hw.numaNodeAvailability| ==> ranges[n] == SharedRange(hw.numaNodeAvailability, numQueues, stack, n)
      ensures numQueues < hw.numAvailableNUMANodes ==> SharesLast(table[..], hw.cpuToNUMANode, numQueues)
      ensures numQueues < hw.numAvailableNUMANodes ==> ApartFromNodeZero(table[..], hw.cpuToNUMANode, numQueues)
    {
      hide InBlocks, TableOk;
      var avail, numNUMAs := hw.numaNodeAvailability, hw.numAvailableNUMANodes;
      NumTrueBound(avail);
      var queuesPerNUMA, remainingQueues := numQueues / numNUMAs, numQueues % numNUMAs;
      if numQueues >= numNUMAs {
        ranges := AssignDistinct(avail, firstQueue, queuesPerNUMA, remainingQueues, stack);
        DistinctUsable(hw.cpuToNUMANode, avail, ranges, firstQueue, numQueues, numNUMAs);
      } else {
        ModSmall(numQueues, numNUMAs);
        ranges := AssignShared(avail, remainingQueues, numNUMAs, stack);
      }
      ghost var before := table[..];
      AssignCPUs(table, hw.cpuToNUMANode, avail, ranges);
      if numQueues < numNUMAs {
        LastIsShared(table[..], before, hw.cpuToNUMANode, avail, ranges, numQueues);
        OnlyLastQueuesUsed(table[..], hw.cpuToNUMANode, numQueues);
      }
    }
  }

  /** With fewer queues than nodes: the CPUs of the nodes from index num - 1 on use the last queue, and
      those of node 0, when there is more than one queue, the one before it; nobody uses any other. */
  ghost predicate SharesLast(table: seq<nat>, cpus: seq<int>, num: nat) {
    && |table| == |cpus| && num > 0
    && forall c :: 0 <= c < |cpus| && cpus[c] != NO_NODE ==>
         if num > 1 && cpus[c] == 0 then table[c] == num - 2 else table[c] == num - 1
  }

  lemma LastIsShared(table: seq<nat>, before: seq<nat>, cpus: seq<int>, avail: seq<bool>, ranges: seq<QueueRange>, num: nat)
    requires TableOk(table, before, cpus, avail, ranges) && num > 0 && (num > 1 ==> NoGap(avail, num))
    requires forall n :: num - 1 <= n < |avail| && avail[n] ==> ranges[n].first == num - 1 && ranges[n].num == 1
    requires num > 1 ==> |avail| > 0 && ranges[0].first == num - 2 && ranges[0].num == 1
    ensures SharesLast(table, cpus, num)
  {
    forall c | 0 <= c < |cpus| && cpus[c] != NO_NODE ensures
      if num > 1 && cpus[c] == 0 then table[c] == num - 2 else table[c] == num - 1
    {
      var n := cpus[c];
      assert avail[n];
      OffsetNext(OnNode(cpus[..c], n), 1);
    }
  }

  /** CPUs of node 0 and of the later nodes never share a queue when there is more than one, all CPUs of
      the later nodes do, and of three or more queues all but the last two are idle. */
  ghost predicate ApartFromNodeZero(table: seq<nat>, cpus: seq<int>, num: nat)
    requires |table| == |cpus|
  {
    && (forall c, d :: 0 <= c < |cpus| && 0 <= d < |cpus| && cpus[c] != NO_NODE && cpus[d] != NO_NODE ==>
          (table[c] != table[d] <==> num > 1 && (cpus[c] == 0) != (cpus[d] == 0)))
    && (num > 2 ==> forall c :: 0 <= c < |cpus| && cpus[c] != NO_NODE ==> table[c] >= num - 2)
  }

  lemma OnlyLastQueuesUsed(table: seq<nat>, cpus: seq<int>, num: nat)
    requires SharesLast(table, cpus, num)
    ensures ApartFromNodeZero(table, cpus, num)
  {
  }

  lemma DistinctUsable(cpus: seq<int>, avail: seq<bool>, ranges: seq<QueueRange>, first: nat, num: nat, nodes: nat)
    requires HardwareOk(cpus, avail, nodes) && num >= nodes
    requires InBlocks(avail, ranges, first, num / nodes, num % nodes, |avail|)
    ensures Usable(cpus, avail, ranges)
  {
    BlocksPartition(avail, ranges, first, num, nodes);
  }
}
