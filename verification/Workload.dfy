/** A workload's status and its readers. The aggregate may replace the pod list in the status; this
    module says for which readers, and for which pods, nobody can tell. */
module Workload {
  import opened NodeUsage
  import opened Options
  import opened Quantity
  import opened Readers
  import opened ResourceUsage
  import opened Sequences

  /** One entry of Spec.Resources: its replicas and the resource list of one of its pods. */
  datatype Kind = Kind(replica: int, list: ResourceList)

  function Lists(kinds: seq<Kind>): (res: seq<ResourceList>)
    ensures |res| == |kinds|
  {
    seq(|kinds|, i requires 0 <= i < |kinds| => kinds[i].list)
  }

  function TotalReplica(kinds: seq<Kind>): int {
    if kinds == [] then 0 else TotalReplica(kinds[..|kinds| - 1]) + kinds[|kinds| - 1].replica
  }

  /** A pod list and an aggregate that show the pods `original`: as the list, as their aggregate, or both. */
  ghost predicate Represents(pods: seq<Pod>, usage: seq<NodePodUsage>, original: seq<Pod>) {
    && (pods == original || (pods == [] && IsUsageOf(usage, original)))
    && (usage == [] || IsUsageOf(usage, original))
  }

  class Workload {
    const rdma: string
    const kinds: seq<Kind>
    var pods: seq<Pod>
    var nodeUsage: seq<NodePodUsage>
    var nodes: seq<seq<string>>
    var ranks: seq<seq<string>>

    constructor (rdma: string, kinds: seq<Kind>, pods: seq<Pod>, nodes: seq<seq<string>>, ranks: seq<seq<string>>)
      ensures this.rdma == rdma && this.kinds == kinds && this.pods == pods && nodeUsage == []
      ensures this.nodes == nodes && this.ranks == ranks
    {
      this.rdma, this.kinds, this.pods := rdma, kinds, pods;
      nodeUsage, this.nodes, this.ranks := [], nodes, ranks;
    }

    /** The status stands for the pods `original`: as the pod list, as their aggregate, or both.
        An aggregate without entries stands for pods of which none is active. */
    ghost predicate StandsFor(original: seq<Pod>)
      reads this
    {
      ValidIds(original) && |kinds| < 128 && Represents(pods, nodeUsage, original)
    }

    /** The syncer stores the aggregate and clears the per-pod arrays. */
    method Offload()
      requires ValidIds(pods) && |kinds| < 128
      modifies this
      ensures StandsFor(old(pods)) && IsUsageOf(nodeUsage, old(pods))
      ensures pods == [] && nodes == [] && ranks == []
    {
      nodeUsage := BuildNodeUsage(pods);
      pods, nodes, ranks := [], [], [];
    }

    method StripOffloadedStatus()
      modifies this`pods, this`nodes, this`ranks
      ensures if nodeUsage == [] then pods == old(pods) && nodes == old(nodes) && ranks == old(ranks)
              else pods == [] && nodes == [] && ranks == []
      ensures forall original :: old(StandsFor(original)) ==> StandsFor(original)
    {
      if nodeUsage == [] {
        return;
      }
      pods, nodes, ranks := [], [], [];
    }

    method GetTotalReplica() returns (n: int)
      ensures n == TotalReplica(kinds)
    {
      n := 0;
      for i := 0 to |kinds|
        invariant n == TotalReplica(kinds[..i])
      {
        n := n + kinds[i].replica;
        assert kinds[..i + 1][..i] == kinds[..i];
      }
      assert kinds[..|kinds|] == kinds;
    }

    /** The same number whether the status holds the pods, their aggregate, or both. */
    method GetInUseNodeCount(ghost original: seq<Pod>) returns (n: nat)
      requires StandsFor(original)
      ensures n == |ActiveNodes(original)|
    {
      if nodeUsage != [] {
        UsageCountsNodes(nodeUsage);
        UsageNodesAreActive(nodeUsage, original);
        return |nodeUsage|;
      }
      n := InUseNodesFromPods(pods);
    }

    /** Total and available resources do not depend on which path is read; the available nodes
        are all nodes with unfiltered active pods, except that the scan leaves out a node all of
        whose pods have a resource id beyond the list. */
    method GetWorkloadResourceUsage(filter: NodeFilter, ghost original: seq<Pod>)
      returns (total: ResourceList, available: ResourceList, nodeNames: seq<string>)
      requires StandsFor(original)
      ensures TotalReplica(kinds) == 0 ==> total == available == map[] && nodeNames == []
      ensures TotalReplica(kinds) != 0 ==>
        && total == ActiveResources(rdma, original, ActiveNodes(original), Lists(kinds))
        && available == ActiveResources(rdma, original, KeptNodes(original, filter), Lists(kinds))
        && SetOf(nodeNames) == if nodeUsage != [] then KeptNodes(original, filter)
                               else ScannedNodes(original, filter, |kinds|)
      ensures filter.Some? ==> forall n :: n in nodeNames ==> !filter.value(n)
      ensures filter.None? ==> available == total
      ensures filter.Some? && (forall n :: n in ActiveNodes(original) ==> filter.value(n)) ==>
                available == map[] && nodeNames == []
    {
      FilterDecides(rdma, original, filter, Lists(kinds));
      var replicas := GetTotalReplica();
      if replicas == 0 || (pods == [] && nodeUsage == []) {
        if replicas != 0 {
          assert ActiveNodes(original) == KeptNodes(original, filter) == ScannedNodes(original, filter, |kinds|) == {};
          NoNodesNoResources(rdma, original, Lists(kinds));
        }
        return map[], map[], [];
      }
      if nodeUsage != [] {
        total, available, nodeNames := ResourceUsageFromUsage(rdma, nodeUsage, Lists(kinds), filter, original);
        SetOfHolds(nodeNames);
        return;
      }
      total, available, nodeNames := ResourceUsageFromPods(rdma, pods, Lists(kinds), filter);
      SetOfHolds(nodeNames);
    }

    /** An active pod of a known kind, on the node asked for or, with no name given, on any. */
    predicate IsAnswered(p: Pod, adminNodeName: string) {
      && p.phase in {Pending, Running, Unknown} && 0 <= p.rid < |kinds|
      && p.node != "" && (adminNodeName == "" || adminNodeName == p.node)
    }

    lemma ActivePodsAreAnswered(ans: map<string, ResourceList>, adminNodeName: string, original: seq<Pod>,
                                scanned: bool)
      requires PerNodeAnswer(ans, rdma, Lists(kinds), adminNodeName, original, scanned)
      ensures "" !in ans && (adminNodeName != "" ==> ans.Keys <= {adminNodeName})
      ensures forall i :: 0 <= i < |original| && IsAnswered(original[i], adminNodeName) ==> original[i].node in ans
    {
      forall n ensures n in ans ==> Wanted(adminNodeName, n) {
        assert AnswerAt(Entry(ans, n), rdma, Lists(kinds), Wanted(adminNodeName, n),
                        NodeWeights(original, scanned, n, |kinds|), scanned);
      }
      forall i | 0 <= i < |original| && IsAnswered(original[i], adminNodeName) ensures original[i].node in ans {
        var n, r := original[i].node, original[i].rid;
        PodCounts(original, i, if scanned then PlacedOn(n) else ActiveOn(n));
        assert NodeWeights(original, scanned, n, |kinds|)[r] > 0;
        assert AnswerAt(Entry(ans, n), rdma, Lists(kinds), Wanted(adminNodeName, n),
                        NodeWeights(original, scanned, n, |kinds|), scanned);
      }
    }

    /** An offloaded status answers for the active pods, a pod list for the pods IsPodRunning
        accepts. */
    method GetResourcesPerNode(adminNodeName: string, ghost original: seq<Pod>)
      returns (ans: map<string, ResourceList>)
      requires StandsFor(original)
      ensures TotalReplica(kinds) == 0 ==> ans == map[]
      ensures TotalReplica(kinds) != 0 ==>
        PerNodeAnswer(ans, rdma, Lists(kinds), adminNodeName, original, nodeUsage == [] && pods != [])
      ensures "" !in ans && (adminNodeName != "" ==> ans.Keys <= {adminNodeName})
      ensures TotalReplica(kinds) != 0 ==> forall i :: 0 <= i < |original| && IsAnswered(original[i], adminNodeName) ==>
                original[i].node in ans
    {
      var replicas := GetTotalReplica();
      if replicas == 0 {
        return map[];
      }
      if nodeUsage != [] {
        ans := ResourcesPerNodeFromUsage(rdma, nodeUsage, Lists(kinds), adminNodeName, original);
        ActivePodsAreAnswered(ans, adminNodeName, original, false);
        return;
      }
      ans := ResourcesPerNodeFromPods(rdma, pods, Lists(kinds), adminNodeName);
      if pods == [] {
        if pods != original { UsageNodesAreActive(nodeUsage, original); }
        EmptyAnswer(ans, rdma, Lists(kinds), adminNodeName, original);
      }
      ActivePodsAreAnswered(ans, adminNodeName, original, pods != []);
    }
  }

  lemma {:induction false} PodCounts(pods: seq<Pod>, i: nat, sel: Selection)
    requires i < |pods| && Selects(sel, pods[i])
    ensures Count(pods, sel, pods[i].rid) > 0
    decreases |pods|
  {
    if i < |pods| - 1 { PodCounts(pods[..|pods| - 1], i, sel); }
  }

  /** No kind asks for a pod exactly when the total is 0. */
  lemma {:induction false} NoReplicasIff(kinds: seq<Kind>)
    requires forall i :: 0 <= i < |kinds| ==> kinds[i].replica >= 0
    ensures TotalReplica(kinds) >= 0
    ensures TotalReplica(kinds) == 0 <==> forall i :: 0 <= i < |kinds| ==> kinds[i].replica == 0
    decreases |kinds|
  {
    if kinds != [] { NoReplicasIff(kinds[..|kinds| - 1]); }
  }

  /** No filter keeps every node, and a filter that is true of every node keeps none. */
  lemma FilterDecides(rdma: string, pods: seq<Pod>, filter: NodeFilter, res: seq<ResourceList>)
    ensures filter.None? ==> KeptNodes(pods, filter) == ActiveNodes(pods)
    ensures filter.Some? && (forall n :: n in ActiveNodes(pods) ==> filter.value(n)) ==>
      && KeptNodes(pods, filter) == ScannedNodes(pods, filter, |res|) == {}
      && ActiveResources(rdma, pods, KeptNodes(pods, filter), res) == map[]
  {
    NoNodesNoResources(rdma, pods, res);
  }

  /** No pods and pods none of which is active have the same answer. */
  lemma EmptyAnswer(ans: map<string, ResourceList>, rdma: string, res: seq<ResourceList>, admin: string, pods: seq<Pod>)
    requires PerNodeAnswer(ans, rdma, res, admin, [], true) && ActiveNodes(pods) == {}
    ensures PerNodeAnswer(ans, rdma, res, admin, pods, false)
  {
    forall n ensures AnswerAt(Entry(ans, n), rdma, res, Wanted(admin, n), NodeWeights(pods, false, n, |res|), false) {
      NoPodsElsewhere(pods, n, |res|);
      assert AnswerAt(Entry(ans, n), rdma, res, Wanted(admin, n), NodeWeights([], true, n, |res|), true);
      assert !HasPods(NodeWeights([], true, n, |res|));
    }
  }

  // ---------- when the two paths of GetWorkloadResourceUsage list the same nodes ----------

  /** Every node with an unfiltered active pod also hosts one whose id has a resource list. */
  ghost predicate EveryNodeInRange(pods: seq<Pod>, filter: NodeFilter, kinds: nat) {
    forall n :: n in KeptNodes(pods, filter) ==>
      exists i :: 0 <= i < |pods| && !IsPodTerminated(pods[i]) && pods[i].node == n && pods[i].rid < kinds
  }

  lemma AvailableNodesAgree(pods: seq<Pod>, filter: NodeFilter, kinds: nat)
    ensures ScannedNodes(pods, filter, kinds) == KeptNodes(pods, filter) <==> EveryNodeInRange(pods, filter, kinds)
  {
  }

  /** With the ids of all active pods in range, the scan lists for every filter the nodes the aggregate lists,
      and the two sums are over the same pods. */
  lemma AvailableNodesAgreeInRange(pods: seq<Pod>, filter: NodeFilter, kinds: nat)
    requires forall i :: 0 <= i < |pods| && !IsPodTerminated(pods[i]) ==> pods[i].rid < kinds
    ensures ScannedNodes(pods, filter, kinds) == KeptNodes(pods, filter)
  {
    forall n | n in KeptNodes(pods, filter)
      ensures exists i :: 0 <= i < |pods| && !IsPodTerminated(pods[i]) && pods[i].node == n && pods[i].rid < kinds
    {
      var i :| 0 <= i < |pods| && !IsPodTerminated(pods[i]) && pods[i].node == n;
    }
    AvailableNodesAgree(pods, filter, kinds);
  }

  // ---------- when the two paths of GetResourcesPerNode agree ----------

  /** A stopped pod that still names a node the caller asked for. IsPodRunning accepts it,
      IsPodTerminated drops it. */
  predicate StoppedCounts(p: Pod, admin: string, kinds: nat) {
    p.phase.Stopped? && Wanted(admin, p.node) && 0 <= p.rid < kinds
  }

  predicate HasStopped(pods: seq<Pod>, admin: string, kinds: nat) {
    exists i :: 0 <= i < |pods| && StoppedCounts(pods[i], admin, kinds)
  }

  /** What CvtToResourceList guarantees of a pod that asks for cpu or memory: no negative quantity,
      and a positive one. */
  ghost predicate Requests(rdma: string, res: seq<ResourceList>) {
    && (forall i, k :: 0 <= i < |res| && k in res[i] ==> res[i][k] >= 0)
    && (forall i :: 0 <= i < |res| ==> exists k :: k in res[i] && IsConcerned(rdma, k) && res[i][k] > 0)
  }

  lemma {:induction false} StoppedRaisesCount(pods: seq<Pod>, n: string, r: int)
    requires n != ""
    ensures Count(pods, PlacedOn(n), r) >= Count(pods, ActiveOn(n), r)
    ensures Count(pods, PlacedOn(n), r) > Count(pods, ActiveOn(n), r) <==>
            exists i :: 0 <= i < |pods| && pods[i].phase.Stopped? && pods[i].node == n && pods[i].rid == r
    decreases |pods|
  {
    if pods != [] {
      var last := |pods| - 1;
      StoppedRaisesCount(pods[..last], n, r);
      if i :| 0 <= i < |pods| && pods[i].phase.Stopped? && pods[i].node == n && pods[i].rid == r {
        assert i < last ==> pods[..last][i] == pods[i];
      }
    }
  }

  lemma {:induction false} DotMonotone(w1: seq<nat>, w2: seq<nat>, res: seq<ResourceList>, k: string, r: nat)
    requires |w1| == |w2| == |res| && r <= |res|
    requires forall i :: 0 <= i < |res| ==> w1[i] <= w2[i] && Get(res[i], k) >= 0
    ensures Dot(w1, res, k) <= Dot(w2, res, k)
    ensures r < |res| && w1[r] < w2[r] && Get(res[r], k) > 0 ==> Dot(w1, res, k) < Dot(w2, res, k)
    decreases |w1|
  {
    if w1 != [] {
      var last := |w1| - 1;
      DotMonotone(w1[..last], w2[..last], res[..last], k, if r < last then r else last);
      var v := Get(res[last], k);
      ProductMonotone(w1[last], w2[last], v);
    }
  }

  lemma ProductMonotone(a: nat, b: nat, v: int)
    requires a <= b && v >= 0
    ensures a * v <= b * v
    ensures a < b && v > 0 ==> a * v < b * v
  {
  }

  /** A stopped pod on a node shows in the scan and not in the aggregate. */
  lemma StoppedShows(rdma: string, res: seq<ResourceList>, admin: string, pods: seq<Pod>, i: nat,
                     scan: map<string, ResourceList>, agg: map<string, ResourceList>)
    requires Requests(rdma, res) && i < |pods| && StoppedCounts(pods[i], admin, |res|)
    requires PerNodeAnswer(scan, rdma, res, admin, pods, true) && PerNodeAnswer(agg, rdma, res, admin, pods, false)
    ensures Entry(scan, pods[i].node) != Entry(agg, pods[i].node)
  {
    var n, r := pods[i].node, pods[i].rid;
    var w1, w2 := NodeWeights(pods, false, n, |res|), NodeWeights(pods, true, n, |res|);
    assert AnswerAt(Entry(scan, n), rdma, res, true, w2, true) && AnswerAt(Entry(agg, n), rdma, res, true, w1, false);
    forall j | 0 <= j < |res| ensures w1[j] <= w2[j] { StoppedRaisesCount(pods, n, j); }
    StoppedRaisesCount(pods, n, r);
    assert w1[r] < w2[r] && HasPods(w2);
    AnswerIsSum(scan[n], rdma, res, true, w2, true);
    if n in agg { AnswerIsSum(agg[n], rdma, res, true, w1, false); }
    var k :| k in res[r] && IsConcerned(rdma, k) && res[r][k] > 0;
    DotMonotone(w1, w2, res, k, r);
    assert k in SumOf(rdma, w2, res);
    assert k in SumOf(rdma, w1, res) ==> SumOf(rdma, w1, res)[k] < SumOf(rdma, w2, res)[k];
  }

  /** A wanted node with a single counted pod whose list holds a key that is not concerned: the scan
      returns the list as it is, the aggregate drops the key. */
  ghost predicate HasLoneExtra(rdma: string, res: seq<ResourceList>, admin: string, pods: seq<Pod>) {
    exists n, r: nat, k :: LoneExtra(rdma, res, admin, pods, n, r, k)
  }

  predicate LoneExtra(rdma: string, res: seq<ResourceList>, admin: string, pods: seq<Pod>, n: string, r: nat,
                      k: string) {
    Wanted(admin, n) && IsLone(NodeWeights(pods, true, n, |res|), r) && k in res[r] && !IsConcerned(rdma, k)
  }

  lemma NoneStoppedSameWeights(pods: seq<Pod>, admin: string, n: string, kinds: nat)
    requires Wanted(admin, n) && !HasStopped(pods, admin, kinds)
    ensures NodeWeights(pods, false, n, kinds) == NodeWeights(pods, true, n, kinds)
  {
    forall r | 0 <= r < kinds ensures Count(pods, PlacedOn(n), r) == Count(pods, ActiveOn(n), r) {
      StoppedRaisesCount(pods, n, r);
    }
  }

  /** The key that only the scan returns. */
  lemma LoneExtraShows(rdma: string, res: seq<ResourceList>, admin: string, pods: seq<Pod>, n: string, r: nat,
                       k: string, scan: map<string, ResourceList>, agg: map<string, ResourceList>)
    requires LoneExtra(rdma, res, admin, pods, n, r, k)
    requires PerNodeAnswer(scan, rdma, res, admin, pods, true) && PerNodeAnswer(agg, rdma, res, admin, pods, false)
    ensures Entry(scan, n) != Entry(agg, n)
  {
    var w1, w2 := NodeWeights(pods, false, n, |res|), NodeWeights(pods, true, n, |res|);
    assert AnswerAt(Entry(scan, n), rdma, res, true, w2, true) && AnswerAt(Entry(agg, n), rdma, res, true, w1, false);
    assert w2[r] > 0 && HasPods(w2);
    assert Entry(scan, n) == Some(res[r]);
    assert k !in SumOf(rdma, w1, res);
  }

  /** With neither, a node has the same list in both answers. */
  lemma PerNodeAgreeAt(rdma: string, res: seq<ResourceList>, admin: string, pods: seq<Pod>, n: string,
                       scan: map<string, ResourceList>, agg: map<string, ResourceList>)
    requires !HasStopped(pods, admin, |res|) && !HasLoneExtra(rdma, res, admin, pods)
    requires PerNodeAnswer(scan, rdma, res, admin, pods, true) && PerNodeAnswer(agg, rdma, res, admin, pods, false)
    ensures Entry(scan, n) == Entry(agg, n)
  {
    var w1, w2 := NodeWeights(pods, false, n, |res|), NodeWeights(pods, true, n, |res|);
    assert AnswerAt(Entry(scan, n), rdma, res, Wanted(admin, n), w2, true);
    assert AnswerAt(Entry(agg, n), rdma, res, Wanted(admin, n), w1, false);
    if Wanted(admin, n) {
      NoneStoppedSameWeights(pods, admin, n, |res|);
      if r: nat :| IsLone(w2, r) {
        LoneSum(rdma, w2, res, r);
        forall k | k in res[r] ensures IsConcerned(rdma, k) {
          assert !LoneExtra(rdma, res, admin, pods, n, r, k);
        }
        assert Normalize(rdma, res[r]) == res[r];
      }
    }
  }

  lemma SameEntriesSameAnswer(scan: map<string, ResourceList>, agg: map<string, ResourceList>)
    ensures scan == agg <==> forall n :: Entry(scan, n) == Entry(agg, n)
  {
    if forall n :: Entry(scan, n) == Entry(agg, n) {
      forall n ensures (n in scan <==> n in agg) && (n in scan ==> scan[n] == agg[n]) {
        assert Entry(scan, n) == Entry(agg, n);
      }
    }
  }

  /** Both paths of GetResourcesPerNode return the same map if and only if no stopped pod still names a wanted
      node and no wanted node has a single counted pod whose list holds a key that is not concerned. */
  lemma PerNodeAgreeIff(rdma: string, res: seq<ResourceList>, admin: string, pods: seq<Pod>,
                        scan: map<string, ResourceList>, agg: map<string, ResourceList>)
    requires Requests(rdma, res)
    requires PerNodeAnswer(scan, rdma, res, admin, pods, true) && PerNodeAnswer(agg, rdma, res, admin, pods, false)
    ensures scan == agg <==> !HasStopped(pods, admin, |res|) && !HasLoneExtra(rdma, res, admin, pods)
  {
    SameEntriesSameAnswer(scan, agg);
    if HasStopped(pods, admin, |res|) {
      var i :| 0 <= i < |pods| && StoppedCounts(pods[i], admin, |res|);
      StoppedShows(rdma, res, admin, pods, i, scan, agg);
    } else if HasLoneExtra(rdma, res, admin, pods) {
      var n, r: nat, k :| LoneExtra(rdma, res, admin, pods, n, r, k);
      LoneExtraShows(rdma, res, admin, pods, n, r, k, scan, agg);
    } else {
      forall n ensures Entry(scan, n) == Entry(agg, n) { PerNodeAgreeAt(rdma, res, admin, pods, n, scan, agg); }
    }
  }

  ghost predicate AllConcerned(rdma: string, res: seq<ResourceList>) {
    forall i, k :: 0 <= i < |res| && k in res[i] ==> IsConcerned(rdma, k)
  }

  /** When only concerned resources are requested, stopped pods alone decide. */
  lemma PerNodeAgreeIffNoneStopped(rdma: string, res: seq<ResourceList>, admin: string, pods: seq<Pod>,
                                   scan: map<string, ResourceList>, agg: map<string, ResourceList>)
    requires Requests(rdma, res) && AllConcerned(rdma, res)
    requires PerNodeAnswer(scan, rdma, res, admin, pods, true) && PerNodeAnswer(agg, rdma, res, admin, pods, false)
    ensures scan == agg <==> !HasStopped(pods, admin, |res|)
  {
    PerNodeAgreeIff(rdma, res, admin, pods, scan, agg);
  }

  // ---------- the nodes a workload keeps busy ----------

  function PlacedNodes(pods: seq<Pod>): set<string> {
    set i | 0 <= i < |pods| && IsPodRunning(pods[i]) :: pods[i].node
  }

  /** What GetIdleNodesOfWorkspace counts as used by one workload. */
  function UsedNodes(usage: seq<NodePodUsage>, pods: seq<Pod>): set<string> {
    if usage != [] then NodesOf(usage) - {""} else PlacedNodes(pods)
  }

  function StoppedNodes(pods: seq<Pod>): set<string> {
    set i | 0 <= i < |pods| && pods[i].phase.Stopped? && pods[i].node != "" :: pods[i].node
  }

  lemma PlacedNodesSplit(pods: seq<Pod>)
    ensures PlacedNodes(pods) == (ActiveNodes(pods) - {""}) + StoppedNodes(pods)
  {
    forall n | n in PlacedNodes(pods) ensures n in ActiveNodes(pods) - {""} || n in StoppedNodes(pods) {
      var i :| 0 <= i < |pods| && IsPodRunning(pods[i]) && pods[i].node == n;
      assert IsPodTerminated(pods[i]) ==> pods[i].phase.Stopped?;
    }
  }

  /** Publishing the aggregate keeps the busy nodes if and only if it has no entry at all or
      every node named by a stopped pod also hosts an active one. */
  lemma UsedNodesAgreeIffCovered(usage: seq<NodePodUsage>, pods: seq<Pod>)
    requires IsUsageOf(usage, pods)
    ensures UsedNodes(usage, pods) == UsedNodes([], pods) <==> usage == [] || StoppedNodes(pods) <= ActiveNodes(pods)
  {
    UsageNodesAreActive(usage, pods);
    PlacedNodesSplit(pods);
  }

  /** When the pod list is cleared too, the empty aggregate is no exception. */
  lemma ClearedUsedNodesAgreeIffCovered(usage: seq<NodePodUsage>, pods: seq<Pod>)
    requires IsUsageOf(usage, pods)
    ensures UsedNodes(usage, []) == UsedNodes([], pods) <==> StoppedNodes(pods) <= ActiveNodes(pods)
  {
    UsageNodesAreActive(usage, pods);
    PlacedNodesSplit(pods);
    PlacedNodesSplit([]);
    assert usage == [] ==> NodesOf(usage) == {};
  }

  // ---------- quota ----------

  /** GetTotalResourceList: what the workload's replicas ask for. */
  function TotalOf(rdma: string, kinds: seq<Kind>): ResourceList {
    if kinds == [] then map[]
    else
      var last := kinds[|kinds| - 1];
      Plus(rdma, TotalOf(rdma, kinds[..|kinds| - 1]), Multiplied(last.list, last.replica))
  }

  method GetTotalResourceList(rdma: string, kinds: seq<Kind>) returns (result: ResourceList)
    ensures result == TotalOf(rdma, kinds)
  {
    result := map[];
    for i := 0 to |kinds|
      invariant result == TotalOf(rdma, kinds[..i])
    {
      var list: ResourceList := map[];
      if kinds[i].replica > 0 {
        list := MultiResource(kinds[i].list, kinds[i].replica as real);
        ScaledByReplica(kinds[i].list, kinds[i].replica);
      }
      PlusAllTwo(rdma, result, list);
      result := AddResource(rdma, [result, list]);
      assert kinds[..i + 1][..i] == kinds[..i];
    }
    assert kinds[..|kinds|] == kinds;
  }

  ghost predicate NonNegative(kinds: seq<Kind>) {
    forall i, k :: 0 <= i < |kinds| && k in kinds[i].list ==> kinds[i].list[k] >= 0
  }

  lemma MultipliedCovers(list: ResourceList, replica: int, w: nat, k: string)
    requires k in list && list[k] >= 0 && 0 < w <= replica
    ensures k in Multiplied(list, replica) && w * list[k] <= Multiplied(list, replica)[k]
    ensures w == replica && list[k] % 1000 == 0 ==> Multiplied(list, replica)[k] == w * list[k]
  {
    if replica > 1 {
      var whole := Value(list[k]);
      assert list[k] <= 1000 * whole;
      ProductMonotone(w, replica, list[k]);
      ProductMonotone(list[k], 1000 * whole, replica);
      assert replica * (1000 * whole) == 1000 * (whole * replica);
    }
  }

  lemma KindCovers(kind: Kind, w: nat, k: string)
    requires w == 0 || w <= kind.replica
    requires forall j :: j in kind.list ==> kind.list[j] >= 0
    ensures var m := Multiplied(kind.list, kind.replica);
      && w * Get(kind.list, k) <= Get(m, k)
      && (w > 0 && k in kind.list ==> k in m)
      && (w == kind.replica && (forall j :: j in kind.list ==> kind.list[j] % 1000 == 0) ==>
           w * Get(kind.list, k) == Get(m, k) && (w > 0 && k in kind.list <==> k in m))
  {
    var m := Multiplied(kind.list, kind.replica);
    if k in kind.list && w > 0 {
      MultipliedCovers(kind.list, kind.replica, w, k);
    } else {
      assert w * Get(kind.list, k) == 0;
      if k in m { MultipliedIsNonNegative(kind.list, kind.replica, k); }
    }
  }

  lemma MultipliedIsNonNegative(list: ResourceList, replica: int, k: string)
    requires k in Multiplied(list, replica) && list[k] >= 0
    ensures Multiplied(list, replica)[k] >= 0
  {
    if replica > 1 { ProductMonotone(0, Value(list[k]), replica); }
  }

  lemma TotalSnoc(rdma: string, kinds: seq<Kind>, k: string)
    requires kinds != [] && IsConcerned(rdma, k)
    ensures var last := kinds[|kinds| - 1];
      var m := Multiplied(last.list, last.replica);
      var front := TotalOf(rdma, kinds[..|kinds| - 1]);
      && Get(TotalOf(rdma, kinds), k) == Get(front, k) + Get(m, k)
      && (k in TotalOf(rdma, kinds) <==> k in front || k in m)
  {
  }

  lemma MentionedSnoc(rdma: string, w: seq<nat>, res: seq<ResourceList>, k: string)
    requires |w| == |res| > 0
    ensures var last := |w| - 1;
      k in MentionedKeys(rdma, w, res) <==>
        k in MentionedKeys(rdma, w[..last], res[..last]) || (w[last] > 0 && k in res[last] && IsConcerned(rdma, k))
  {
    var last := |w| - 1;
    if k in MentionedKeys(rdma, w, res) {
      var i :| 0 <= i < |res| && w[i] > 0 && k in res[i] && IsConcerned(rdma, k);
      if i < last { assert w[..last][i] > 0 && k in res[..last][i]; }
    }
    if k in MentionedKeys(rdma, w[..last], res[..last]) {
      var i :| 0 <= i < last && w[..last][i] > 0 && k in res[..last][i];
      assert w[i] > 0 && k in res[i];
    }
  }

  ghost predicate Whole(kinds: seq<Kind>) {
    forall i, j :: 0 <= i < |kinds| && j in kinds[i].list ==> kinds[i].list[j] % 1000 == 0
  }

  lemma {:induction false} TotalCovers(rdma: string, kinds: seq<Kind>, w: seq<nat>, k: string)
    requires NonNegative(kinds) && |w| == |kinds| && IsConcerned(rdma, k)
    requires forall i :: 0 <= i < |kinds| ==> w[i] == 0 || w[i] <= kinds[i].replica
    ensures Dot(w, Lists(kinds), k) <= Get(TotalOf(rdma, kinds), k)
    ensures k in MentionedKeys(rdma, w, Lists(kinds)) ==> k in TotalOf(rdma, kinds)
    ensures Whole(kinds) && (forall i :: 0 <= i < |kinds| ==> w[i] == kinds[i].replica) ==>
              Dot(w, Lists(kinds), k) == Get(TotalOf(rdma, kinds), k) &&
              (k in MentionedKeys(rdma, w, Lists(kinds)) <==> k in TotalOf(rdma, kinds))
    decreases |kinds|
  {
    if kinds != [] {
      var last := |kinds| - 1;
      assert Lists(kinds)[..last] == Lists(kinds[..last]);
      TotalCovers(rdma, kinds[..last], w[..last], k);
      KindCovers(kinds[last], w[last], k);
      TotalSnoc(rdma, kinds, k);
      MentionedSnoc(rdma, w, Lists(kinds), k);
    }
  }

  /** While no kind has more active pods than replicas, the resources in use stay below the
      workload's total on every key, although only the total is rounded up. */
  lemma QuotaBound(rdma: string, kinds: seq<Kind>, pods: seq<Pod>)
    requires NonNegative(kinds)
    requires forall i :: 0 <= i < |kinds| ==>
      var active := Count(pods, ActiveIn(ActiveNodes(pods)), i); active == 0 || active <= kinds[i].replica
    ensures IsSub(ActiveResources(rdma, pods, ActiveNodes(pods), Lists(kinds)), TotalOf(rdma, kinds))
  {
    var w := Weights(pods, ActiveIn(ActiveNodes(pods)), |kinds|);
    forall k | k in ActiveResources(rdma, pods, ActiveNodes(pods), Lists(kinds))
      ensures k in TotalOf(rdma, kinds) && Dot(w, Lists(kinds), k) <= TotalOf(rdma, kinds)[k]
    {
      TotalCovers(rdma, kinds, w, k);
    }
  }

  /** With whole quantities and every replica active the two are equal. */
  lemma QuotaExact(rdma: string, kinds: seq<Kind>, pods: seq<Pod>)
    requires NonNegative(kinds)
    requires forall i :: 0 <= i < |kinds| ==> Count(pods, ActiveIn(ActiveNodes(pods)), i) == kinds[i].replica
    requires Whole(kinds)
    ensures ActiveResources(rdma, pods, ActiveNodes(pods), Lists(kinds)) == TotalOf(rdma, kinds)
  {
    var w := Weights(pods, ActiveIn(ActiveNodes(pods)), |kinds|);
    var a, b := ActiveResources(rdma, pods, ActiveNodes(pods), Lists(kinds)), TotalOf(rdma, kinds);
    forall k ensures (k in a <==> k in b) && (k in a ==> a[k] == b[k]) {
      if IsConcerned(rdma, k) { TotalCovers(rdma, kinds, w, k); }
    }
  }
}
