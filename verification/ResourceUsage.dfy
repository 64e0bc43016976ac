/** Both paths of GetWorkloadResourceUsage and GetInUseNodeCount. */
module ResourceUsage {
  import opened NodeUsage
  import opened Options
  import opened Quantity
  import opened Readers
  import opened Sequences

  type NodeFilter = Option<string -> bool>

  predicate Filtered(filter: NodeFilter, n: string) {
    filter.Some? && filter.value(n)
  }

  function Kept(nodes: set<string>, filter: NodeFilter): set<string> {
    set n | n in nodes && !Filtered(filter, n)
  }

  function KeptNodes(pods: seq<Pod>, filter: NodeFilter): set<string> {
    Kept(ActiveNodes(pods), filter)
  }

  /** The resources of all active pods on some nodes. */
  function ActiveResources(rdma: string, pods: seq<Pod>, nodes: set<string>, res: seq<ResourceList>): ResourceList {
    SumOf(rdma, Weights(pods, ActiveIn(nodes), |res|), res)
  }

  // ---------- from the aggregate ----------

  lemma {:induction false} CountJoin(pods: seq<Pod>, nodes: set<string>, n: string, r: int)
    requires n !in nodes
    ensures Count(pods, ActiveIn(nodes + {n}), r) == Count(pods, ActiveIn(nodes), r) + Count(pods, ActiveOn(n), r)
    decreases |pods|
  {
    if pods != [] { CountJoin(pods[..|pods| - 1], nodes, n, r); }
  }

  lemma WeightsJoin(pods: seq<Pod>, nodes: set<string>, n: string, kinds: nat)
    requires n !in nodes
    ensures Weights(pods, ActiveIn(nodes + {n}), kinds) ==
            AddWeights(Weights(pods, ActiveIn(nodes), kinds), Weights(pods, ActiveOn(n), kinds))
  {
    forall r | 0 <= r < kinds { CountJoin(pods, nodes, n, r); }
  }

  lemma NoNodesNoResources(rdma: string, pods: seq<Pod>, res: seq<ResourceList>)
    ensures ActiveResources(rdma, pods, {}, res) == map[]
  {
    forall r | 0 <= r < |res| { CountNone(pods, ActiveIn({}), r); }
    SumOfZeros(rdma, Weights(pods, ActiveIn({}), |res|), res);
  }

  /** Adds one entry to the resources of the nodes read so far. */
  method AddNode(rdma: string, u: NodePodUsage, res: seq<ResourceList>, sum: ResourceList,
                 ghost nodes: set<string>, ghost pods: seq<Pod>)
    returns (r: ResourceList)
    requires ValidIds(pods) && CountsOf(u.active, pods, ActiveOn(u.node)) && u.node !in nodes
    requires sum == ActiveResources(rdma, pods, nodes, res)
    ensures r == ActiveResources(rdma, pods, nodes + {u.node}, res)
  {
    var touched;
    CountsAreCanonical(u.active, pods, ActiveOn(u.node), |res|);
    WeightsJoin(pods, nodes, u.node, |res|);
    r, touched := AddCounts(rdma, u.active, res, sum, Weights(pods, ActiveIn(nodes), |res|));
  }

  lemma KeptSnoc(nodes: set<string>, n: string, filter: NodeFilter)
    ensures Kept(nodes + {n}, filter) == Kept(nodes, filter) + (if Filtered(filter, n) then {} else {n})
  {
  }

  lemma SetOfSnoc(s: seq<string>, x: string)
    ensures SetOf(s + [x]) == SetOf(s) + {x}
  {
  }

  method ResourceUsageFromUsage(rdma: string, usage: seq<NodePodUsage>, res: seq<ResourceList>, filter: NodeFilter,
                                ghost pods: seq<Pod>)
    returns (total: ResourceList, available: ResourceList, nodes: seq<string>)
    requires ValidIds(pods) && IsUsageOf(usage, pods)
    ensures total == ActiveResources(rdma, pods, ActiveNodes(pods), res)
    ensures available == ActiveResources(rdma, pods, KeptNodes(pods, filter), res)
    ensures SetOf(nodes) == KeptNodes(pods, filter)
  {
    total, available, nodes := map[], map[], [];
    NoNodesNoResources(rdma, pods, res);
    assert NodesOf(usage[..0]) == {} && SetOf<string>([]) == {} && Kept({}, filter) == {};
    for i := 0 to |usage|
      invariant total == ActiveResources(rdma, pods, NodesOf(usage[..i]), res)
      invariant available == ActiveResources(rdma, pods, SetOf(nodes), res)
      invariant SetOf(nodes) == Kept(NodesOf(usage[..i]), filter)
    {
      var u := usage[i];
      NodesOfSnoc(usage, i);
      assert NodesOf(usage[..i + 1]) == NodesOf(usage[..i]) + {u.node};
      KeptSnoc(NodesOf(usage[..i]), u.node, filter);
      NodeIsNew(usage, i, pods);
      var filtered := Filtered(filter, u.node);
      total := AddNode(rdma, u, res, total, NodesOf(usage[..i]), pods);
      if !filtered {
        available := AddNode(rdma, u, res, available, SetOf(nodes), pods);
        SetOfSnoc(nodes, u.node);
        nodes := nodes + [u.node];
      }
    }
    assert usage[..|usage|] == usage;
    UsageNodesAreActive(usage, pods);
  }

  // ---------- from the pods ----------

  /** The nodes the scan lists as available: those of unfiltered active pods whose resource id
      has a resource list. */
  function ScannedNodes(pods: seq<Pod>, filter: NodeFilter, kinds: nat): set<string> {
    set i | 0 <= i < |pods| && !IsPodTerminated(pods[i]) && pods[i].rid < kinds && !Filtered(filter, pods[i].node)
      :: pods[i].node
  }

  /** What the workers of the concurrent phase note down about a pod. */
  datatype Output = Output(isFiltered: bool, isTerminated: bool, resourceId: int)

  function OutputOf(p: Pod, filter: NodeFilter): Output {
    if IsPodTerminated(p) then Output(false, true, 0)
    else Output(Filtered(filter, p.node), false, p.rid)
  }

  lemma ResourcesSnoc(rdma: string, pods: seq<Pod>, p: Pod, nodes: set<string>, res: seq<ResourceList>)
    requires p.rid >= 0
    ensures ActiveResources(rdma, pods + [p], nodes, res) ==
      if !IsPodTerminated(p) && p.node in nodes && p.rid < |res|
      then PlusAll(rdma, [ActiveResources(rdma, pods, nodes, res), res[p.rid]])
      else ActiveResources(rdma, pods, nodes, res)
  {
    WeightsSnoc(pods, p, ActiveIn(nodes), |res|);
    if !IsPodTerminated(p) && p.node in nodes && p.rid < |res| {
      assert Selects(ActiveIn(nodes), p);
      SumOfBump(rdma, Weights(pods, ActiveIn(nodes), |res|), res, p.rid);
      PlusAllTwo(rdma, ActiveResources(rdma, pods, nodes, res), res[p.rid]);
    }
  }

  lemma ScannedSnoc(pods: seq<Pod>, p: Pod, filter: NodeFilter, kinds: nat)
    ensures ScannedNodes(pods + [p], filter, kinds) == ScannedNodes(pods, filter, kinds) +
      if !IsPodTerminated(p) && p.rid < kinds && !Filtered(filter, p.node) then {p.node} else {}
  {
    forall n | n in ScannedNodes(pods, filter, kinds) ensures n in ScannedNodes(pods + [p], filter, kinds) {
      var i :| 0 <= i < |pods| && !IsPodTerminated(pods[i]) && pods[i].rid < kinds &&
               !Filtered(filter, pods[i].node) && pods[i].node == n;
      assert (pods + [p])[i].node == n;
    }
    assert (pods + [p])[|pods|] == p;
  }

  method ResourceUsageFromPods(rdma: string, pods: seq<Pod>, res: seq<ResourceList>, filter: NodeFilter)
    returns (total: ResourceList, available: ResourceList, nodes: seq<string>)
    requires ValidIds(pods)
    ensures total == ActiveResources(rdma, pods, ActiveNodes(pods), res)
    ensures available == ActiveResources(rdma, pods, KeptNodes(pods, filter), res)
    ensures SetOf(nodes) == ScannedNodes(pods, filter, |res|)
  {
    var outputs := seq(|pods|, i requires 0 <= i < |pods| => OutputOf(pods[i], filter));
    ghost var active, kept := ActiveNodes(pods), KeptNodes(pods, filter);
    total, available, nodes := map[], map[], [];
    assert pods[..0] == [];
    assert Weights([], ActiveIn(active), |res|) == Weights([], ActiveIn(kept), |res|) == Zeros(|res|);
    SumOfZeros(rdma, Zeros(|res|), res);
    for i := 0 to |pods|
      invariant total == ActiveResources(rdma, pods[..i], active, res)
      invariant available == ActiveResources(rdma, pods[..i], kept, res)
      invariant SetOf(nodes) == ScannedNodes(pods[..i], filter, |res|)
    {
      var resourceId := outputs[i].resourceId;
      assert pods[..i + 1] == pods[..i] + [pods[i]];
      ResourcesSnoc(rdma, pods[..i], pods[i], active, res);
      ResourcesSnoc(rdma, pods[..i], pods[i], kept, res);
      ScannedSnoc(pods[..i], pods[i], filter, |res|);
      if outputs[i].isTerminated || resourceId >= |res| {
        continue;
      }
      assert pods[i].node in active;
      total := AddResource(rdma, [total, res[resourceId]]);
      if !outputs[i].isFiltered {
        available := AddResource(rdma, [available, res[resourceId]]);
        SetOfSnoc(nodes, pods[i].node);
        nodes := nodes + [pods[i].node];
      }
    }
    assert pods[..|pods|] == pods;
  }

  method InUseNodesFromPods(pods: seq<Pod>) returns (n: nat)
    ensures n == |ActiveNodes(pods)|
  {
    var nodes: set<string> := {};
    for i := 0 to |pods|
      invariant nodes == ActiveNodes(pods[..i])
    {
      assert pods[..i + 1] == pods[..i] + [pods[i]];
      if IsPodTerminated(pods[i]) {
        ActiveNodesSkip(pods[..i], pods[i]);
        continue;
      }
      ActiveNodesSnoc(pods[..i], pods[i]);
      nodes := nodes + {pods[i].node};
    }
    assert pods[..|pods|] == pods;
    n := |nodes|;
  }

  lemma {:induction false} UsageCountsNodes(usage: seq<NodePodUsage>)
    requires forall i, j :: 0 <= i < j < |usage| ==> usage[i].node != usage[j].node
    ensures |usage| == |NodesOf(usage)|
    decreases |usage|
  {
    if usage != [] {
      var last := |usage| - 1;
      UsageCountsNodes(usage[..last]);
      NodesOfSnoc(usage, last);
      assert usage[..last + 1] == usage;
      assert usage[last].node !in NodesOf(usage[..last]);
    }
  }
}
