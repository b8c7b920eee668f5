/** The hardware scan of src/common/HardwareInfo.hpp: which CPUs and NUMA nodes the process uses. */
module HardwareScan {
  import opened Tallies

  // ---- Counting --------------------------------------------------------

  predicate IsTrue(b: bool) { b }

  ghost function NumTrue(s: seq<bool>): nat {
    Count(s, IsTrue)
  }

  lemma NumTrueBound(s: seq<bool>)
    ensures NumTrue(s) <= |s|
    ensures NumTrue(s) == |s| <==> false !in s
    ensures NumTrue(s) > 0 <==> true in s
  {
    CountBound(s, IsTrue);
    CountNone(s, IsTrue);
  }

  // ---- The hardware scan -----------------------------------------------

  const NO_NODE: int := -1

  /** A CPU of the node is available to the process. */
  ghost predicate Used(allCpus: seq<bool>, nodeOfCpu: seq<nat>, node: int)
    requires |nodeOfCpu| == |allCpus|
  {
    exists c :: 0 <= c < |allCpus| && allCpus[c] && nodeOfCpu[c] == node
  }

  /** What the rest of the library relies on. */
  ghost predicate HardwareOk(cpuToNUMA: seq<int>, numaAvailability: seq<bool>, numAvailable: nat) {
    && (forall c :: 0 <= c < |cpuToNUMA| ==> cpuToNUMA[c] == NO_NODE || 0 <= cpuToNUMA[c] < |numaAvailability|)
    && (forall c :: 0 <= c < |cpuToNUMA| && cpuToNUMA[c] != NO_NODE ==> numaAvailability[cpuToNUMA[c]])
    && numAvailable == NumTrue(numaAvailability)
    && numAvailable > 0
  }

  /** After looking at the first c CPUs. */
  ghost predicate ScanOk(allCpus: seq<bool>, nodeOfCpu: seq<nat>, c: nat, cpuToNUMA: seq<int>, availability: seq<bool>,
                         numNodes: nat, maxCPU: nat, maxNUMA: nat, numCPUs: nat) {
    && c <= |allCpus| == |nodeOfCpu| == |cpuToNUMA|
    && (forall k :: 0 <= k < |allCpus| ==> cpuToNUMA[k] == if k < c && allCpus[k] then nodeOfCpu[k] else NO_NODE)
    && (forall k :: 0 <= k < c && allCpus[k] ==> k <= maxCPU && nodeOfCpu[k] <= maxNUMA)
    && (forall n :: 0 <= n < |availability| ==> (availability[n] <==> Used(allCpus[..c], nodeOfCpu[..c], n)))
    && numCPUs == NumTrue(allCpus[..c])
    && numNodes == NumTrue(availability)
    && (numCPUs > 0 ==> maxCPU < c && allCpus[maxCPU] && Used(allCpus[..c], nodeOfCpu[..c], maxNUMA))
    && (numCPUs == 0 ==> maxCPU == maxNUMA == 0)
  }

  lemma UsedNext(allCpus: seq<bool>, nodeOfCpu: seq<nat>, c: nat, n: int)
    requires |nodeOfCpu| == |allCpus| && c < |allCpus|
    ensures Used(allCpus[..c + 1], nodeOfCpu[..c + 1], n)
            <==> Used(allCpus[..c], nodeOfCpu[..c], n) || (allCpus[c] && nodeOfCpu[c] == n)
  {
    var cpus, cpus', nodes, nodes' := allCpus[..c], allCpus[..c + 1], nodeOfCpu[..c], nodeOfCpu[..c + 1];
    if Used(cpus, nodes, n) {
      var k :| 0 <= k < |cpus| && cpus[k] && nodes[k] == n;
      assert cpus'[k] && nodes'[k] == n;
    }
    if allCpus[c] && nodeOfCpu[c] == n {
      assert cpus'[c] && nodes'[c] == n;
    }
    if Used(cpus', nodes', n) {
      var k :| 0 <= k < |cpus'| && cpus'[k] && nodes'[k] == n;
      assert k < c ==> cpus[k] && nodes[k] == n;
    }
  }

  lemma ScanStart(allCpus: seq<bool>, nodeOfCpu: seq<nat>, cpuToNUMA: seq<int>, availability: seq<bool>)
    requires |nodeOfCpu| == |allCpus| == |cpuToNUMA|
    requires forall k :: 0 <= k < |cpuToNUMA| ==> cpuToNUMA[k] == NO_NODE
    requires forall n :: 0 <= n < |availability| ==> !availability[n]
    ensures ScanOk(allCpus, nodeOfCpu, 0, cpuToNUMA, availability, 0, 0, 0, 0)
  {
    NumTrueBound(availability);
  }

  lemma ScanSkip(allCpus: seq<bool>, nodeOfCpu: seq<nat>, c: nat, cpuToNUMA: seq<int>, availability: seq<bool>,
                 numNodes: nat, maxCPU: nat, maxNUMA: nat, numCPUs: nat)
    requires ScanOk(allCpus, nodeOfCpu, c, cpuToNUMA, availability, numNodes, maxCPU, maxNUMA, numCPUs)
    requires c < |allCpus| && !allCpus[c]
    ensures ScanOk(allCpus, nodeOfCpu, c + 1, cpuToNUMA, availability, numNodes, maxCPU, maxNUMA, numCPUs)
  {
    CountNext(allCpus, c, IsTrue);
    forall n | 0 <= n ensures Used(allCpus[..c + 1], nodeOfCpu[..c + 1], n) <==> Used(allCpus[..c], nodeOfCpu[..c], n) {
      UsedNext(allCpus, nodeOfCpu, c, n);
    }
  }

  lemma ScanTake(allCpus: seq<bool>, nodeOfCpu: seq<nat>, c: nat, cpuToNUMA: seq<int>, availability: seq<bool>,
                 numNodes: nat, maxCPU: nat, maxNUMA: nat, numCPUs: nat)
    requires ScanOk(allCpus, nodeOfCpu, c, cpuToNUMA, availability, numNodes, maxCPU, maxNUMA, numCPUs)
    requires c < |allCpus| && allCpus[c] && nodeOfCpu[c] < |availability|
    ensures var numa := nodeOfCpu[c];
            ScanOk(allCpus, nodeOfCpu, c + 1, cpuToNUMA[c := numa], availability[numa := true],
                   if availability[numa] then numNodes else numNodes + 1, c, if maxNUMA < numa then numa else maxNUMA, numCPUs + 1)
  {
    var numa := nodeOfCpu[c];
    CountNext(allCpus, c, IsTrue);
    if availability[numa] {
      assert availability[numa := true] == availability;
    } else {
      CountUpdate(availability, numa, true, IsTrue);
    }
    forall n | 0 <= n ensures Used(allCpus[..c + 1], nodeOfCpu[..c + 1], n) <==> Used(allCpus[..c], nodeOfCpu[..c], n) || n == numa {
      UsedNext(allCpus, nodeOfCpu, c, n);
    }
  }

  lemma ScanAll(allCpus: seq<bool>, nodeOfCpu: seq<nat>, cpuToNUMA: seq<int>, availability: seq<bool>,
                numNodes: nat, maxCPU: nat, maxNUMA: nat, numCPUs: nat)
    requires ScanOk(allCpus, nodeOfCpu, |allCpus|, cpuToNUMA, availability, numNodes, maxCPU, maxNUMA, numCPUs)
    requires true in allCpus && forall c :: 0 <= c < |allCpus| && allCpus[c] ==> nodeOfCpu[c] < |availability|
    ensures maxCPU < |allCpus| && allCpus[maxCPU] && maxNUMA < |availability| && availability[maxNUMA]
    ensures forall c :: 0 <= c < |allCpus| ==> cpuToNUMA[c] == if allCpus[c] then nodeOfCpu[c] else NO_NODE
    ensures forall c :: 0 <= c < |allCpus| && allCpus[c] ==> c <= maxCPU && nodeOfCpu[c] <= maxNUMA
    ensures forall n :: 0 <= n < |availability| ==> (availability[n] <==> Used(allCpus, nodeOfCpu, n))
    ensures numNodes == NumTrue(availability)
    ensures numCPUs < |allCpus| <==> false in allCpus
  {
    assert allCpus[..|allCpus|] == allCpus && nodeOfCpu[..|allCpus|] == nodeOfCpu;
    NumTrueBound(allCpus);
    var k :| 0 <= k < |allCpus| && allCpus[k] && nodeOfCpu[k] == maxNUMA;
  }

  /** The vectors cut after the last CPU and the last node in use. */
  lemma ScanEnd(allCpus: seq<bool>, nodeOfCpu: seq<nat>, cpuToNUMA: seq<int>, availability: seq<bool>,
                numNodes: nat, maxCPU: nat, maxNUMA: nat, numCPUs: nat)
    requires ScanOk(allCpus, nodeOfCpu, |allCpus|, cpuToNUMA, availability, numNodes, maxCPU, maxNUMA, numCPUs)
    requires true in allCpus && forall c :: 0 <= c < |allCpus| && allCpus[c] ==> nodeOfCpu[c] < |availability|
    ensures maxCPU < |allCpus| && maxNUMA < |availability|
    ensures ScanResult(allCpus, nodeOfCpu, cpuToNUMA[..maxCPU + 1], availability[..maxNUMA + 1], numNodes)
    ensures numCPUs < |allCpus| <==> false in allCpus
  {
    ScanAll(allCpus, nodeOfCpu, cpuToNUMA, availability, numNodes, maxCPU, maxNUMA, numCPUs);
    hide ScanOk, NumTrue;
    CountCut(availability, maxNUMA + 1, IsTrue);
    NumTrueBound(availability[..maxNUMA + 1]);
    assert availability[..maxNUMA + 1][maxNUMA];
  }

  /** The vectors describe exactly the CPUs and nodes in use and end at the last one of each. */
  ghost predicate ScanResult(allCpus: seq<bool>, nodeOfCpu: seq<nat>, cpuToNUMA: seq<int>, availability: seq<bool>, numNodes: nat) {
    && 0 < |cpuToNUMA| <= |allCpus| == |nodeOfCpu| && 0 < |availability|
    && (forall c :: 0 <= c < |allCpus| ==>
          if c < |cpuToNUMA| then cpuToNUMA[c] == (if allCpus[c] then nodeOfCpu[c] else NO_NODE) else !allCpus[c])
    && (forall n :: 0 <= n < |availability| ==> (availability[n] <==> Used(allCpus, nodeOfCpu, n)))
    && (forall c :: 0 <= c < |allCpus| && allCpus[c] ==> nodeOfCpu[c] < |availability|)
    && allCpus[|cpuToNUMA| - 1] && availability[|availability| - 1]
    && numNodes == NumTrue(availability) > 0
  }

  lemma ResultIsOk(allCpus: seq<bool>, nodeOfCpu: seq<nat>, cpuToNUMA: seq<int>, availability: seq<bool>, numNodes: nat)
    requires ScanResult(allCpus, nodeOfCpu, cpuToNUMA, availability, numNodes)
    ensures HardwareOk(cpuToNUMA, availability, numNodes)
  {
  }

  class HardwareInfo {
    var cpuToNUMANode: seq<int>
    var numaNodeAvailability: seq<bool>
    var numAvailableNUMANodes: nat

    /** `allCpus` is the bitmask of the CPUs the process may use, `nodeOfCpu` numa_node_of_cpu.
        `asserted` is the debug assertion that the CPUs counted are fewer than maxCPUs. */
    method Initialize(allCpus: seq<bool>, nodeOfCpu: seq<nat>, maxNUMAs: nat) returns (asserted: bool)
      requires |nodeOfCpu| == |allCpus| && true in allCpus
      requires forall c :: 0 <= c < |allCpus| && allCpus[c] ==> nodeOfCpu[c] < maxNUMAs
      modifies this
      ensures ScanResult(allCpus, nodeOfCpu, cpuToNUMANode, numaNodeAvailability, numAvailableNUMANodes)
      ensures HardwareOk(cpuToNUMANode, numaNodeAvailability, numAvailableNUMANodes)
      ensures asserted <==> false in allCpus
    {
      hide ScanOk, ScanResult, HardwareOk;
      var maxCPUs := |allCpus|;
      cpuToNUMANode := seq(maxCPUs, i => NO_NODE);
      numaNodeAvailability := seq(maxNUMAs, i => false);
      numAvailableNUMANodes := 0;
      var maxAvailableCPU, maxAvailableNUMA := 0, 0;
      var numAvailableCPUs := 0;
      ScanStart(allCpus, nodeOfCpu, cpuToNUMANode, numaNodeAvailability);
      var c := 0;
      while c < maxCPUs
        invariant 0 <= c <= maxCPUs && |cpuToNUMANode| == maxCPUs && |numaNodeAvailability| == maxNUMAs
        invariant 0 <= maxAvailableCPU && 0 <= maxAvailableNUMA && 0 <= numAvailableCPUs
        invariant ScanOk(allCpus, nodeOfCpu, c, cpuToNUMANode, numaNodeAvailability, numAvailableNUMANodes,
                         maxAvailableCPU, maxAvailableNUMA, numAvailableCPUs)
      {
        if !allCpus[c] {
          ScanSkip(allCpus, nodeOfCpu, c, cpuToNUMANode, numaNodeAvailability, numAvailableNUMANodes,
                   maxAvailableCPU, maxAvailableNUMA, numAvailableCPUs);
        } else {
          ScanTake(allCpus, nodeOfCpu, c, cpuToNUMANode, numaNodeAvailability, numAvailableNUMANodes,
                   maxAvailableCPU, maxAvailableNUMA, numAvailableCPUs);
          var numa := nodeOfCpu[c];
          cpuToNUMANode := cpuToNUMANode[c := numa];
          if !numaNodeAvailability[numa] {
            numAvailableNUMANodes := numAvailableNUMANodes + 1;
          }
          numaNodeAvailability := numaNodeAvailability[numa := true];
          maxAvailableCPU := c;
          if maxAvailableNUMA < numa {
            maxAvailableNUMA := numa;
          }
          numAvailableCPUs := numAvailableCPUs + 1;
        }
        c := c + 1;
      }
      ScanEnd(allCpus, nodeOfCpu, cpuToNUMANode, numaNodeAvailability, numAvailableNUMANodes,
              maxAvailableCPU, maxAvailableNUMA, numAvailableCPUs);
      asserted := numAvailableCPUs < maxCPUs;
      cpuToNUMANode := cpuToNUMANode[..maxAvailableCPU + 1];
      numaNodeAvailability := numaNodeAvailability[..maxAvailableNUMA + 1];
      ResultIsOk(allCpus, nodeOfCpu, cpuToNUMANode, numaNodeAvailability, numAvailableNUMANodes);
    }
  }
}
