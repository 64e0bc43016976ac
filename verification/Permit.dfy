/** The rank order of a pod group and the Permit gate (topologyipsort.go). */
module Permit {
  import opened Sequences

  const MASTER := "master"

  datatype Pod = Pod(name: string, uid: string, priority: int, replicaType: string, replicaIndex: int,
                     deleting: bool, nodeName: string)

  /** less, for two pods of one group. */
  predicate Less(p: Pod, q: Pod) {
    if p.priority != q.priority then p.priority > q.priority
    else if p.replicaType == q.replicaType then p.replicaIndex < q.replicaIndex
    else p.replicaType == MASTER
  }

  predicate Tied(p: Pod, q: Pod) {
    !Less(p, q) && !Less(q, p)
  }

  // ---------- when less sorts a group ----------

  /** What sort.Slice needs: a strict order whose ties are transitive. */
  ghost predicate IsStrictWeakOrder(pods: set<Pod>) {
    && (forall p :: p in pods ==> !Less(p, p))
    && (forall p, q, r :: p in pods && q in pods && r in pods && Less(p, q) && Less(q, r) ==> Less(p, r))
    && (forall p, q, r :: p in pods && q in pods && r in pods && Tied(p, q) && Tied(q, r) ==> Tied(p, r))
  }

  /** Two ranks of one replica type beside a pod of another, neither type being the master's. */
  predicate TypesClash(p: Pod, q: Pod, r: Pod) {
    && p.priority == q.priority == r.priority
    && p.replicaType == q.replicaType != r.replicaType
    && p.replicaType != MASTER && r.replicaType != MASTER
    && p.replicaIndex < q.replicaIndex
  }

  ghost predicate HasClash(pods: set<Pod>) {
    exists p, q, r :: p in pods && q in pods && r in pods && TypesClash(p, q, r)
  }

  lemma ClashBreaksTies(p: Pod, q: Pod, r: Pod)
    requires TypesClash(p, q, r)
    ensures Tied(p, r) && Tied(r, q) && Less(p, q)
  {
  }

  lemma LessSortsIffNoClash(pods: set<Pod>)
    ensures IsStrictWeakOrder(pods) <==> !HasClash(pods)
  {
    if HasClash(pods) {
      var p, q, r :| p in pods && q in pods && r in pods && TypesClash(p, q, r);
      ClashBreaksTies(p, q, r);
    } else {
      forall p, q, r | p in pods && q in pods && r in pods && Tied(p, q) && Tied(q, r) ensures Tied(p, r) {
        assert !TypesClash(p, r, q) && !TypesClash(r, p, q);
      }
    }
  }

  /** What sort.Slice may return for a group. Tied pods come in any order, a different one each time. */
  ghost predicate IsRankOrder(order: seq<Pod>, pods: set<Pod>) {
    && (forall p :: p in pods <==> p in order)
    && (forall i, j :: 0 <= i < j < |order| ==> order[i] != order[j] && !Less(order[j], order[i]))
  }

  /** Higher priority first; at one priority nobody of another type before the master; within a type by index. */
  ghost predicate RanksInOrder(order: seq<Pod>) {
    forall i, j :: 0 <= i < j < |order| ==>
      && order[i].priority >= order[j].priority
      && (order[i].priority == order[j].priority && order[j].replicaType == "master" ==>
            order[i].replicaType == "master")
      && (order[i].priority == order[j].priority && order[i].replicaType == order[j].replicaType ==>
            order[i].replicaIndex <= order[j].replicaIndex)
  }

  /** The rank orders of a group are its listings by priority, master first, and index. */
  lemma RankOrderIff(order: seq<Pod>, pods: set<Pod>)
    ensures IsRankOrder(order, pods) <==> NoDuplicates(order) && SetOf(order) == pods && RanksInOrder(order)
  {
    assert (forall p :: p in pods <==> p in order) <==> SetOf(order) == pods;
  }

  // ---------- the gate ----------

  datatype Hosted = Hosted(uid: string, group: string)

  datatype NodeInfo = NodeInfo(name: string, pods: seq<Hosted>)

  datatype Status = Success | Pending | Unschedulable

  predicate HostsUid(n: NodeInfo, uid: string) {
    exists i :: 0 <= i < |n.pods| && n.pods[i].uid == uid
  }

  predicate HostsGroup(n: NodeInfo, group: string) {
    exists i :: 0 <= i < |n.pods| && n.pods[i].group == group
  }

  predicate Scheduled(p: Pod, nodes: seq<NodeInfo>) {
    p.nodeName != "" || exists i :: 0 <= i < |nodes| && HostsUid(nodes[i], p.uid)
  }

  /** A pod counts as scheduled when it names a node, or when a node of the snapshot hosts its uid. */
  method IsScheduled(p: Pod, nodes: seq<NodeInfo>) returns (b: bool)
    ensures b <==> Scheduled(p, nodes)
  {
    if p.nodeName != "" { return true; }
    for i := 0 to |nodes|
      invariant forall k :: 0 <= k < i ==> !HostsUid(nodes[k], p.uid)
    {
      var n := nodes[i];
      for j := 0 to |n.pods|
        invariant forall k :: 0 <= k < j ==> n.pods[k].uid != p.uid
      {
        if n.pods[j].uid == p.uid { return true; }
      }
    }
    b := false;
  }

  /** Some copy of `pod` in the list comes right after a pod that is not scheduled. */
  predicate PredecessorMissing(pods: seq<Pod>, pod: Pod, nodes: seq<NodeInfo>) {
    exists i :: 1 <= i < |pods| && pods[i].name == pod.name && !Scheduled(pods[i - 1], nodes)
  }

  /** The pod names no node, and no node of the snapshot hosts its uid. */
  ghost predicate Nowhere(p: Pod, nodes: seq<NodeInfo>) {
    p.nodeName == "" && forall n, h :: n in nodes && h in n.pods ==> h.uid != p.uid
  }

  ghost predicate PredecessorNowhere(pods: seq<Pod>, pod: Pod, nodes: seq<NodeInfo>) {
    exists i :: 1 <= i < |pods| && pods[i].name == pod.name && Nowhere(pods[i - 1], nodes)
  }

  lemma NowhereIsNotScheduled(p: Pod, nodes: seq<NodeInfo>)
    ensures Nowhere(p, nodes) <==> !Scheduled(p, nodes)
  {
    if k :| 0 <= k < |nodes| && HostsUid(nodes[k], p.uid) {
      var l :| 0 <= l < |nodes[k].pods| && nodes[k].pods[l].uid == p.uid;
      assert nodes[k] in nodes && nodes[k].pods[l] in nodes[k].pods;
    }
    if n, h :| n in nodes && h in n.pods && h.uid == p.uid {
      var k :| 0 <= k < |nodes| && nodes[k] == n;
      assert HostsUid(nodes[k], p.uid);
    }
  }

  lemma MissingIsNowhere(pods: seq<Pod>, pod: Pod, nodes: seq<NodeInfo>)
    ensures PredecessorMissing(pods, pod, nodes) <==> PredecessorNowhere(pods, pod, nodes)
  {
    forall p { NowhereIsNotScheduled(p, nodes); }
  }

  /** Why a node counts towards the group: it is the one chosen for this pod, it hosts a pod of
      the group, or it passed the filters for the pod `claim` assigns it to. */
  ghost predicate CountsFor(n: string, nodeName: string, pod: Pod, group: string, pods: seq<Pod>, nodes: seq<NodeInfo>,
                            passes: (Pod, string) -> bool, claim: map<string, nat>) {
    || n == nodeName
    || (exists i :: 0 <= i < |nodes| && nodes[i].name == n && HostsGroup(nodes[i], group))
    || (n in claim && claim[n] < |pods| && pods[claim[n]].name != pod.name && passes(pods[claim[n]], n))
  }

  /** Every pod claims at most one node. */
  ghost predicate Injective(claim: map<string, nat>) {
    forall a, b :: a in claim && b in claim && claim[a] == claim[b] ==> a == b
  }

  ghost predicate Accounted(allocate: set<string>, nodeName: string, pod: Pod, group: string, pods: seq<Pod>,
                            nodes: seq<NodeInfo>, passes: (Pod, string) -> bool, claim: map<string, nat>) {
    && Injective(claim)
    && forall n :: n in allocate ==> CountsFor(n, nodeName, pod, group, pods, nodes, passes, claim)
  }

  /** Pod j has claimed a node, or every node that hosts the group or suits the pod counts already. */
  ghost predicate Served(j: nat, allocate: set<string>, group: string, pods: seq<Pod>, nodes: seq<NodeInfo>,
                         passes: (Pod, string) -> bool, claim: map<string, nat>)
    requires j < |pods|
  {
    || (exists n :: n in claim && claim[n] == j)
    || (forall i :: 0 <= i < |nodes| && (HostsGroup(nodes[i], group) || passes(pods[j], nodes[i].name)) ==>
                    nodes[i].name in allocate)
  }

  ghost predicate Extends(claim: map<string, nat>, claim0: map<string, nat>) {
    forall n :: n in claim0 ==> n in claim && claim[n] == claim0[n]
  }

  lemma ServedStays(j: nat, allocate0: set<string>, allocate: set<string>, group: string, pods: seq<Pod>,
                    nodes: seq<NodeInfo>, passes: (Pod, string) -> bool, claim0: map<string, nat>,
                    claim: map<string, nat>)
    requires j < |pods| && allocate0 <= allocate && Extends(claim, claim0)
    requires Served(j, allocate0, group, pods, nodes, passes, claim0)
    ensures Served(j, allocate, group, pods, nodes, passes, claim)
  {
    if n :| n in claim0 && claim0[n] == j { assert n in claim && claim[n] == j; }
  }

  // One pod's turn, said without its loop: it ends at the first node that passes the pod's filters and is not counted
  // yet, or at the end of the list; the nodes on the way that host the group are counted.

  function Hosts(nodes: seq<NodeInfo>, group: string): set<string> {
    set i | 0 <= i < |nodes| && HostsGroup(nodes[i], group) :: nodes[i].name
  }

  predicate Suits(k: nat, allocate: set<string>, p: Pod, group: string, nodes: seq<NodeInfo>,
                  passes: (Pod, string) -> bool)
    requires k < |nodes|
  {
    passes(p, nodes[k].name) && nodes[k].name !in allocate + Hosts(nodes[..k + 1], group)
  }

  ghost predicate TurnEndsAt(e: nat, before: set<string>, after: set<string>, p: Pod, group: string,
                             nodes: seq<NodeInfo>, passes: (Pod, string) -> bool) {
    && e <= |nodes| && (forall k :: 0 <= k < e ==> !Suits(k, before, p, group, nodes, passes))
    && if e == |nodes| then after == before + Hosts(nodes, group)
       else Suits(e, before, p, group, nodes, passes) &&
            after == before + Hosts(nodes[..e + 1], group) + {nodes[e].name}
  }

  ghost predicate Turn(before: set<string>, after: set<string>, p: Pod, group: string, nodes: seq<NodeInfo>,
                       passes: (Pod, string) -> bool) {
    exists e: nat :: TurnEndsAt(e, before, after, p, group, nodes, passes)
  }

  /** The nodes counted after the turns of all pods but `pod` itself. */
  ghost predicate CountedAfter(pods: seq<Pod>, counted: set<string>, nodeName: string, pod: Pod, group: string,
                               nodes: seq<NodeInfo>, passes: (Pod, string) -> bool)
    decreases |pods|
  {
    if pods == [] then counted == {nodeName}
    else
      var last := |pods| - 1;
      if pods[last].name == pod.name then CountedAfter(pods[..last], counted, nodeName, pod, group, nodes, passes)
      else exists before :: CountedAfter(pods[..last], before, nodeName, pod, group, nodes, passes) &&
                            Turn(before, counted, pods[last], group, nodes, passes)
  }

  lemma TurnEndsOnce(e: nat, f: nat, before: set<string>, a: set<string>, b: set<string>, p: Pod, group: string,
                     nodes: seq<NodeInfo>, passes: (Pod, string) -> bool)
    requires TurnEndsAt(e, before, a, p, group, nodes, passes) && TurnEndsAt(f, before, b, p, group, nodes, passes)
    ensures e == f && a == b
  {
    assert e < |nodes| ==> Suits(e, before, p, group, nodes, passes);
    assert f < |nodes| ==> Suits(f, before, p, group, nodes, passes);
  }

  lemma TurnIsUnique(before: set<string>, a: set<string>, b: set<string>, p: Pod, group: string, nodes: seq<NodeInfo>,
                     passes: (Pod, string) -> bool)
    requires Turn(before, a, p, group, nodes, passes) && Turn(before, b, p, group, nodes, passes)
    ensures a == b
  {
    var e: nat :| TurnEndsAt(e, before, a, p, group, nodes, passes);
    var f: nat :| TurnEndsAt(f, before, b, p, group, nodes, passes);
    TurnEndsOnce(e, f, before, a, b, p, group, nodes, passes);
  }

  /** Which nodes are counted does not depend on anything but the group, the snapshot and the filters. */
  lemma {:induction false} CountIsUnique(pods: seq<Pod>, a: set<string>, b: set<string>, nodeName: string, pod: Pod,
                                         group: string, nodes: seq<NodeInfo>, passes: (Pod, string) -> bool)
    requires CountedAfter(pods, a, nodeName, pod, group, nodes, passes)
    requires CountedAfter(pods, b, nodeName, pod, group, nodes, passes)
    ensures a == b
    decreases |pods|
  {
    if pods != [] {
      var last := |pods| - 1;
      if pods[last].name == pod.name {
        CountIsUnique(pods[..last], a, b, nodeName, pod, group, nodes, passes);
      } else {
        var c :| CountedAfter(pods[..last], c, nodeName, pod, group, nodes, passes) &&
                 Turn(c, a, pods[last], group, nodes, passes);
        var d :| CountedAfter(pods[..last], d, nodeName, pod, group, nodes, passes) &&
                 Turn(d, b, pods[last], group, nodes, passes);
        CountIsUnique(pods[..last], c, d, nodeName, pod, group, nodes, passes);
        TurnIsUnique(c, a, b, pods[last], group, nodes, passes);
      }
    }
  }

  lemma HostsSnoc(nodes: seq<NodeInfo>, i: nat, group: string)
    requires i < |nodes|
    ensures Hosts(nodes[..i + 1], group) ==
            Hosts(nodes[..i], group) + if HostsGroup(nodes[i], group) then {nodes[i].name} else {}
  {
    assert nodes[..i + 1] == nodes[..i] + [nodes[i]];
    forall n | n in Hosts(nodes[..i], group) ensures n in Hosts(nodes[..i + 1], group) {
      var k :| 0 <= k < i && HostsGroup(nodes[..i][k], group) && nodes[..i][k].name == n;
      assert nodes[..i + 1][k] == nodes[..i][k];
    }
    assert nodes[..i + 1][i] == nodes[i];
  }

  lemma CountMore(pods: seq<Pod>, i: nat, before: set<string>, after: set<string>, nodeName: string, pod: Pod,
                  group: string, nodes: seq<NodeInfo>, passes: (Pod, string) -> bool)
    requires i < |pods| && CountedAfter(pods[..i], before, nodeName, pod, group, nodes, passes)
    requires if pods[i].name == pod.name then after == before else Turn(before, after, pods[i], group, nodes, passes)
    ensures CountedAfter(pods[..i + 1], after, nodeName, pod, group, nodes, passes)
  {
    assert pods[..i + 1][..i] == pods[..i] && pods[..i + 1][i] == pods[i];
  }

  /** A node that hosts a pod of the group is counted. */
  method AddHost(allocate0: set<string>, n: NodeInfo, group: string) returns (allocate: set<string>)
    ensures allocate == if HostsGroup(n, group) then allocate0 + {n.name} else allocate0
  {
    allocate := allocate0;
    for j := 0 to |n.pods|
      invariant allocate == if exists k :: 0 <= k < j && n.pods[k].group == group then allocate0 + {n.name}
                            else allocate0
    {
      if n.pods[j].group == group { allocate := allocate + {n.name}; }
    }
  }

  lemma HostsAreAccounted(i: nat, allocate0: set<string>, nodeName: string, pod: Pod, group: string, pods: seq<Pod>,
                          nodes: seq<NodeInfo>, passes: (Pod, string) -> bool, claim: map<string, nat>)
    requires i <= |nodes| && Accounted(allocate0, nodeName, pod, group, pods, nodes, passes, claim)
    ensures Accounted(allocate0 + Hosts(nodes[..i], group), nodeName, pod, group, pods, nodes, passes, claim)
  {
    forall n | n in Hosts(nodes[..i], group) ensures CountsFor(n, nodeName, pod, group, pods, nodes, passes, claim) {
      var k :| 0 <= k < i && HostsGroup(nodes[..i][k], group) && nodes[..i][k].name == n;
      assert nodes[k] == nodes[..i][k];
    }
  }

  lemma NobodySuits(j: nat, allocate0: set<string>, group: string, pods: seq<Pod>, nodes: seq<NodeInfo>,
                    passes: (Pod, string) -> bool, claim: map<string, nat>)
    requires j < |pods| && forall k :: 0 <= k < |nodes| ==> !Suits(k, allocate0, pods[j], group, nodes, passes)
    ensures Served(j, allocate0 + Hosts(nodes, group), group, pods, nodes, passes, claim)
  {
    forall k | 0 <= k < |nodes| && passes(pods[j], nodes[k].name)
      ensures nodes[k].name in allocate0 + Hosts(nodes, group)
    {
      assert !Suits(k, allocate0, pods[j], group, nodes, passes);
      if nodes[k].name in Hosts(nodes[..k + 1], group) {
        var l :| 0 <= l <= k && HostsGroup(nodes[..k + 1][l], group) && nodes[..k + 1][l].name == nodes[k].name;
        assert nodes[l] == nodes[..k + 1][l];
      }
    }
  }

  lemma ClaimEndsTurn(i: nat, allocate0: set<string>, allocate: set<string>, p: Pod, group: string,
                      nodes: seq<NodeInfo>, passes: (Pod, string) -> bool)
    requires i < |nodes| && allocate == allocate0 + Hosts(nodes[..i + 1], group)
    requires forall k :: 0 <= k < i ==> !Suits(k, allocate0, p, group, nodes, passes)
    requires passes(p, nodes[i].name) && nodes[i].name !in allocate
    ensures Turn(allocate0, allocate + {nodes[i].name}, p, group, nodes, passes)
  {
    assert TurnEndsAt(i, allocate0, allocate + {nodes[i].name}, p, group, nodes, passes);
  }

  lemma ClaimIsAccounted(j: nat, allocate: set<string>, n: string, nodeName: string, pod: Pod, group: string,
                         pods: seq<Pod>, nodes: seq<NodeInfo>, passes: (Pod, string) -> bool, claim: map<string, nat>)
    requires Accounted(allocate, nodeName, pod, group, pods, nodes, passes, claim) && n !in claim
    requires j < |pods| && pods[j].name != pod.name && passes(pods[j], n)
    requires forall m :: m in claim ==> claim[m] < j
    ensures Accounted(allocate + {n}, nodeName, pod, group, pods, nodes, passes, claim[n := j])
  {
    forall m | m in allocate ensures CountsFor(m, nodeName, pod, group, pods, nodes, passes, claim[n := j]) {
      assert CountsFor(m, nodeName, pod, group, pods, nodes, passes, claim);
    }
  }

  /** One pod's turn in the counting loop: nodes that already host the group are added on the way to
      the first other node that passes the pod's filters. */
  method CountFor(j: nat, allocate0: set<string>, nodeName: string, pod: Pod, group: string, pods: seq<Pod>,
                  nodes: seq<NodeInfo>, passes: (Pod, string) -> bool, ghost claim0: map<string, nat>)
    returns (allocate: set<string>, ghost claim: map<string, nat>)
    requires j < |pods| && pods[j].name != pod.name && nodeName in allocate0
    requires Accounted(allocate0, nodeName, pod, group, pods, nodes, passes, claim0)
    requires forall n :: n in claim0 ==> claim0[n] < j
    requires claim0.Keys <= allocate0
    ensures Accounted(allocate, nodeName, pod, group, pods, nodes, passes, claim)
    ensures nodeName in allocate && claim.Keys <= allocate && forall n :: n in claim ==> claim[n] <= j
    ensures allocate0 <= allocate && Extends(claim, claim0)
    ensures Served(j, allocate, group, pods, nodes, passes, claim)
    ensures Turn(allocate0, allocate, pods[j], group, nodes, passes)
  {
    allocate, claim := allocate0, claim0;
    for i := 0 to |nodes|
      invariant allocate == allocate0 + Hosts(nodes[..i], group)
      invariant forall k :: 0 <= k < i ==> !Suits(k, allocate0, pods[j], group, nodes, passes)
      invariant claim == claim0
    {
      var n := nodes[i];
      HostsSnoc(nodes, i, group);
      allocate := AddHost(allocate, n, group);
      if n.name in allocate {
        continue;
      }
      if passes(pods[j], n.name) {
        ghost var before := allocate;
        HostsAreAccounted(i + 1, allocate0, nodeName, pod, group, pods, nodes, passes, claim0);
        allocate, claim := allocate + {n.name}, claim[n.name := j];
        ClaimIsAccounted(j, before, n.name, nodeName, pod, group, pods, nodes, passes, claim0);
        assert n.name in claim && claim[n.name] == j;
        ClaimEndsTurn(i, allocate0, before, pods[j], group, nodes, passes);
        return;
      }
    }
    assert nodes[..|nodes|] == nodes;
    assert TurnEndsAt(|nodes|, allocate0, allocate, pods[j], group, nodes, passes);
    HostsAreAccounted(|nodes|, allocate0, nodeName, pod, group, pods, nodes, passes, claim0);
    NobodySuits(j, allocate0, group, pods, nodes, passes, claim0);
  }

  /** Nobody in the group is being deleted and the pod's predecessor, if any, is scheduled. */
  ghost predicate Opens(pods: seq<Pod>, pod: Pod, nodes: seq<NodeInfo>) {
    (forall p :: p in pods ==> !p.deleting) && !PredecessorMissing(pods, pod, nodes)
  }

  /** The gate. `pods` is the sorted group. Behind an open gate the pod is let through exactly when the
      nodes counted reach MinMember; each counted node is the chosen one, hosts a pod of the group, or is
      claimed by its own pod, and no other pod of the group is left without a claim while a node that
      suits it goes uncounted. */
  method PermitPod(pod: Pod, nodeName: string, group: string, pods: seq<Pod>, nodes: seq<NodeInfo>,
                   passes: (Pod, string) -> bool, minMember: nat)
    returns (s: Status, ghost allocate: set<string>, ghost claim: map<string, nat>)
    ensures group == "" ==> s.Success?
    ensures group != "" ==>
      (s.Pending? <==> (forall p :: p in pods ==> !p.deleting) && PredecessorNowhere(pods, pod, nodes))
    ensures group != "" ==> (s.Success? <==> Opens(pods, pod, nodes) && |allocate| >= minMember)
    ensures group != "" && minMember <= 1 ==> (s.Success? <==> Opens(pods, pod, nodes))
    ensures group != "" && Opens(pods, pod, nodes) ==>
      && nodeName in allocate && Accounted(allocate, nodeName, pod, group, pods, nodes, passes, claim)
      && forall j :: 0 <= j < |pods| && pods[j].name != pod.name ==>
                       Served(j, allocate, group, pods, nodes, passes, claim)
    ensures group != "" && Opens(pods, pod, nodes) ==>
      CountedAfter(pods, allocate, nodeName, pod, group, nodes, passes)
  {
    allocate, claim := {}, map[];
    MissingIsNowhere(pods, pod, nodes);
    if group == "" { return Success, {}, map[]; }
    for i := 0 to |pods|
      invariant forall j :: 0 <= j < i ==> !pods[j].deleting
    {
      if pods[i].deleting { return Unschedulable, {}, map[]; }
    }
    var k := 1;
    while k < |pods|
      invariant 1 <= k
      invariant forall j :: 1 <= j < k && j < |pods| ==> !(pods[j].name == pod.name && !Scheduled(pods[j - 1], nodes))
    {
      var scheduled := IsScheduled(pods[k - 1], nodes);
      if pods[k].name == pod.name && !scheduled { return Pending, {}, map[]; }
      k := k + 1;
    }
    var counted := {nodeName};
    for i := 0 to |pods|
      invariant Accounted(counted, nodeName, pod, group, pods, nodes, passes, claim)
      invariant nodeName in counted && claim.Keys <= counted && forall n :: n in claim ==> claim[n] < i
      invariant forall j :: 0 <= j < i && pods[j].name != pod.name ==>
                              Served(j, counted, group, pods, nodes, passes, claim)
      invariant CountedAfter(pods[..i], counted, nodeName, pod, group, nodes, passes)
    {
      if pods[i].name == pod.name {
        CountMore(pods, i, counted, counted, nodeName, pod, group, nodes, passes);
        continue;
      }
      ghost var before, held := counted, claim;
      counted, claim := CountFor(i, counted, nodeName, pod, group, pods, nodes, passes, claim);
      forall j | 0 <= j < i && pods[j].name != pod.name ensures Served(j, counted, group, pods, nodes, passes, claim) {
        ServedStays(j, before, counted, group, pods, nodes, passes, held, claim);
      }
      CountMore(pods, i, before, counted, nodeName, pod, group, nodes, passes);
    }
    assert pods[..|pods|] == pods;
    allocate := counted;
    if minMember > |counted| { return Unschedulable, allocate, claim; }
    s := Success;
  }

  // ---------- runs of Permit and bind ----------

  /** A fixed group: `scheduled` pods are on a node, `permitted` ones have passed the gate and are not bound yet. */
  datatype Gang = Gang(scheduled: set<Pod>, permitted: set<Pod>)

  /** The gate opens for a pod, the plugin having seen that list of pods and those nodes, or the pod is bound.
      MinMember may still hold a pod back behind an open gate, unless it is at most 1. */
  datatype Event = Permitted(pod: Pod, pods: seq<Pod>, nodes: seq<NodeInfo>) | Bound(pod: Pod)

  function Bare(p: Pod): Pod {
    p.(nodeName := "", deleting := false)
  }

  function Bares(pods: seq<Pod>): (r: seq<Pod>)
    ensures |r| == |pods| && forall i :: 0 <= i < |pods| ==> r[i] == Bare(pods[i])
  {
    seq(|pods|, i requires 0 <= i < |pods| => Bare(pods[i]))
  }

  ghost predicate IsGroup(group: set<Pod>) {
    && (forall p :: p in group ==> Bare(p) == p)
    && (forall p, q :: p in group && q in group && p.name == q.name ==> p == q)
  }

  /** What the plugin may see: the group in some rank order, no pod looking scheduled before it is. */
  ghost predicate Sees(pods: seq<Pod>, nodes: seq<NodeInfo>, g: Gang, group: set<Pod>) {
    && IsRankOrder(Bares(pods), group)
    && forall i :: 0 <= i < |pods| && Scheduled(pods[i], nodes) ==> Bare(pods[i]) in g.scheduled
  }

  ghost predicate Enabled(g: Gang, e: Event, group: set<Pod>) {
    match e
    case Permitted(p, pods, nodes) => p in group && Sees(pods, nodes, g, group) && Opens(pods, p, nodes)
    case Bound(p) => p in g.permitted
  }

  function Apply(g: Gang, e: Event): Gang {
    match e
    case Permitted(p, _, _) => g.(permitted := g.permitted + {p})
    case Bound(p) => Gang(g.scheduled + {p}, g.permitted - {p})
  }

  ghost predicate Runs(g: Gang, es: seq<Event>, group: set<Pod>)
    decreases |es|
  {
    es == [] || (Enabled(g, es[0], group) && Runs(Apply(g, es[0]), es[1..], group))
  }

  function After(g: Gang, es: seq<Event>): Gang
    decreases |es|
  {
    if es == [] then g else After(Apply(g, es[0]), es[1..])
  }

  /** Whoever ranks below a scheduled pod is scheduled too. */
  ghost predicate Closed(done: set<Pod>, group: set<Pod>) {
    done <= group && forall p, q :: p in group && q in done && Less(p, q) ==> p in done
  }

  /** Two pods share a rank that is not the last one. */
  ghost predicate HasBuriedTie(group: set<Pod>) {
    exists p, q, r :: p in group && q in group && r in group && p != q && Tied(p, q) && Less(p, r)
  }

  /** Everyone permitted has only scheduled pods below it. */
  ghost predicate InOrder(g: Gang, group: set<Pod>) {
    && Closed(g.scheduled, group) && g.permitted <= group
    && forall p, q :: p in group && q in g.permitted && Less(p, q) ==> p in g.scheduled
  }

  /** In a strict weak order, Less composes with "not greater". */
  lemma LessComposes(pods: set<Pod>, x: Pod, y: Pod, z: Pod)
    requires IsStrictWeakOrder(pods) && x in pods && y in pods && z in pods
    ensures !Less(y, x) && Less(y, z) ==> Less(x, z)
    ensures Less(x, y) && !Less(z, y) ==> Less(x, z)
  {
    assert Tied(x, y) && Tied(y, z) ==> Tied(x, z);
    assert Tied(x, z) && Tied(z, y) ==> Tied(x, y);
    assert Tied(y, x) && Tied(x, z) ==> Tied(y, z);
    assert Less(y, z) && Less(z, x) ==> Less(y, x);
    assert Less(z, x) && Less(x, y) ==> Less(z, y);
  }

  lemma PermitKeepsOrder(g: Gang, pod: Pod, pods: seq<Pod>, nodes: seq<NodeInfo>, group: set<Pod>, x: Pod)
    requires IsGroup(group) && IsStrictWeakOrder(group) && !HasBuriedTie(group) && InOrder(g, group)
    requires Enabled(g, Permitted(pod, pods, nodes), group) && x in group && Less(x, pod)
    ensures x in g.scheduled
  {
    var order := Bares(pods);
    assert pod in order && x in order;
    var k :| 0 <= k < |order| && order[k] == pod;
    var j :| 0 <= j < |order| && order[j] == x;
    assert !Less(pod, x) && j < k;
    var before := order[k - 1];
    assert pods[k].name == pod.name && Scheduled(pods[k - 1], nodes);
    assert before in order && before in group && before in g.scheduled;
    assert x == before || !Less(before, x);
    LessComposes(group, before, x, pod);
    assert x == before || Less(x, before) || (Tied(x, before) && Less(before, pod));
  }

  lemma {:induction false} RunKeepsOrder(g: Gang, es: seq<Event>, group: set<Pod>)
    requires IsGroup(group) && IsStrictWeakOrder(group) && !HasBuriedTie(group) && InOrder(g, group) &&
             Runs(g, es, group)
    ensures InOrder(After(g, es), group)
    decreases |es|
  {
    if es != [] {
      if es[0].Permitted? {
        forall p | p in group && Less(p, es[0].pod) ensures p in g.scheduled {
          PermitKeepsOrder(g, es[0].pod, es[0].pods, es[0].nodes, group, p);
        }
      }
      RunKeepsOrder(Apply(g, es[0]), es[1..], group);
    }
  }

  // ---------- a tie that is not last lets a pod overtake ----------

  lemma {:induction false} Lowest(pods: set<Pod>) returns (m: Pod)
    requires IsStrictWeakOrder(pods) && pods != {}
    ensures m in pods && forall p :: p in pods ==> !Less(p, m)
    decreases |pods|
  {
    var x :| x in pods;
    if pods == {x} { return x; }
    m := Lowest(pods - {x});
    if Less(x, m) { m := x; }
  }

  lemma {:induction false} RankOrderExists(pods: set<Pod>) returns (order: seq<Pod>)
    requires IsStrictWeakOrder(pods)
    ensures IsRankOrder(order, pods)
    decreases |pods|
  {
    if pods == {} { return []; }
    var m := Lowest(pods);
    var rest := RankOrderExists(pods - {m});
    assert IsRankOrder([m], {m});
    RankOrdersJoin([m], {m}, rest, pods - {m});
    assert {m} + (pods - {m}) == pods;
    order := [m] + rest;
  }

  lemma RankOrdersJoin(a: seq<Pod>, s: set<Pod>, b: seq<Pod>, t: set<Pod>)
    requires IsRankOrder(a, s) && IsRankOrder(b, t) && s !! t
    requires forall p, q :: p in s && q in t ==> !Less(q, p)
    ensures IsRankOrder(a + b, s + t)
  {
    forall i, j | 0 <= i < j < |a + b| ensures (a + b)[i] != (a + b)[j] && !Less((a + b)[j], (a + b)[i]) {
      if i < |a| <= j { assert a[i] in s && b[j - |a|] in t; }
    }
  }

  /** The pods as the plugin sees them when exactly `done` is scheduled. */
  function Seen(order: seq<Pod>, done: set<Pod>): (r: seq<Pod>)
    ensures |r| == |order|
    ensures forall i :: 0 <= i < |order| ==> r[i] == order[i].(nodeName := if order[i] in done then "node" else "")
  {
    seq(|order|, i requires 0 <= i < |order| => order[i].(nodeName := if order[i] in done then "node" else ""))
  }

  lemma OneTurn(done: set<Pod>, order: seq<Pod>, k: nat, group: set<Pod>) returns (es: seq<Event>)
    requires IsGroup(group) && IsRankOrder(order, group) && k < |order| && (k > 0 ==> order[k - 1] in done)
    ensures Runs(Gang(done, {}), es, group) && After(Gang(done, {}), es) == Gang(done + {order[k]}, {})
  {
    var g, pods, pod := Gang(done, {}), Seen(order, done), order[k];
    var e0, e1 := Permitted(pod, pods, []), Bound(pod);
    TurnIsEnabled(done, order, k, group);
    es := [e0, e1];
    TwoEvents(g, e0, e1, group);
  }

  lemma TurnIsEnabled(done: set<Pod>, order: seq<Pod>, k: nat, group: set<Pod>)
    requires IsGroup(group) && IsRankOrder(order, group) && k < |order| && (k > 0 ==> order[k - 1] in done)
    ensures Enabled(Gang(done, {}), Permitted(order[k], Seen(order, done), []), group)
  {
    var pods := Seen(order, done);
    assert forall i :: 0 <= i < |order| ==> order[i] in order && order[i] in group;
    assert Bares(pods) == order;
  }

  lemma TwoEvents(g: Gang, e0: Event, e1: Event, group: set<Pod>)
    requires Enabled(g, e0, group) && Enabled(Apply(g, e0), e1, group)
    ensures Runs(g, [e0, e1], group) && After(g, [e0, e1]) == Apply(Apply(g, e0), e1)
  {
    var g1, g2 := Apply(g, e0), Apply(Apply(g, e0), e1);
    assert [e0, e1][1..] == [e1] && [e1][1..] == [];
    assert Runs(g2, [], group) && Runs(g1, [e1], group);
    assert After(g1, [e1]) == After(g2, []);
  }

  lemma {:induction false} RunsJoin(g: Gang, es: seq<Event>, fs: seq<Event>, group: set<Pod>)
    requires Runs(g, es, group) && Runs(After(g, es), fs, group)
    ensures Runs(g, es + fs, group) && After(g, es + fs) == After(After(g, es), fs)
    decreases |es|
  {
    if es == [] {
      assert es + fs == fs;
    } else {
      var all, t := es + fs, Apply(g, es[0]);
      assert all[0] == es[0] && all[1..] == es[1..] + fs;
      RunsJoin(t, es[1..], fs, group);
      assert Runs(t, all[1..], group);
    }
  }

  lemma {:induction false} FirstTurns(order: seq<Pod>, n: nat, group: set<Pod>) returns (es: seq<Event>)
    requires IsGroup(group) && IsRankOrder(order, group) && n <= |order|
    ensures Runs(Gang({}, {}), es, group)
    ensures After(Gang({}, {}), es) == Gang(SetOf(order[..n]), {})
    decreases n
  {
    if n == 0 { return []; }
    var first := FirstTurns(order, n - 1, group);
    var turn := NextTurn(order, n - 1, group);
    RunsJoin(Gang({}, {}), first, turn, group);
    es := first + turn;
  }

  lemma NextTurn(order: seq<Pod>, k: nat, group: set<Pod>) returns (es: seq<Event>)
    requires IsGroup(group) && IsRankOrder(order, group) && k < |order|
    ensures Runs(Gang(SetOf(order[..k]), {}), es, group)
    ensures After(Gang(SetOf(order[..k]), {}), es) == Gang(SetOf(order[..k + 1]), {})
  {
    var done := SetOf(order[..k]);
    if k > 0 { assert order[..k][k - 1] in order[..k]; }
    es := OneTurn(done, order, k, group);
    assert order[..k + 1] == order[..k] + [order[k]];
    assert SetOf(order[..k + 1]) == done + {order[k]};
  }

  function Below(group: set<Pod>, p: Pod): set<Pod> {
    set q | q in group && Less(q, p)
  }

  function Beside(group: set<Pod>, p: Pod): set<Pod> {
    set q | q in group && Tied(q, p)
  }

  function Above(group: set<Pod>, p: Pod): set<Pod> {
    set q | q in group && Less(p, q)
  }

  lemma LayersJoin(group: set<Pod>, p: Pod, lo: seq<Pod>, mid: seq<Pod>, hi: seq<Pod>)
    requires IsStrictWeakOrder(group) && p in group
    requires IsRankOrder(lo, Below(group, p)) && IsRankOrder(mid, Beside(group, p)) && IsRankOrder(hi, Above(group, p))
    ensures IsRankOrder(lo + mid + hi, group)
  {
    var low, ties, high := Below(group, p), Beside(group, p), Above(group, p);
    forall x, y | x in low && y in ties ensures !Less(y, x) {
      LessComposes(group, y, x, p);
    }
    RankOrdersJoin(lo, low, mid, ties);
    forall x, y | x in low + ties && y in high ensures !Less(y, x) {
      LessComposes(group, p, y, x);
    }
    RankOrdersJoin(lo + mid, low + ties, hi, high);
    assert low + ties + high == group;
  }

  /** The orders the sort may give: p first among its ties, or last. */
  lemma TiedOrders(group: set<Pod>, p: Pod) returns (a: seq<Pod>, b: seq<Pod>)
    requires IsStrictWeakOrder(group) && p in group
    ensures IsRankOrder(a, Beside(group, p)) && IsRankOrder(b, Beside(group, p))
    ensures a != [] && a[0] == p && b != [] && b[|b| - 1] == p
  {
    var others := Beside(group, p) - {p};
    var rest := RankOrderExists(others);
    assert IsRankOrder([p], {p});
    RankOrdersJoin([p], {p}, rest, others);
    RankOrdersJoin(rest, others, [p], {p});
    assert {p} + others == Beside(group, p) && others + {p} == Beside(group, p);
    a, b := [p] + rest, rest + [p];
  }

  /** First p and everything below it, in one order; then, in the other, the pod right after p. */
  lemma Overtake(group: set<Pod>, p: Pod, lo: seq<Pod>, a: seq<Pod>, b: seq<Pod>, hi: seq<Pod>) returns (es: seq<Event>)
    requires IsGroup(group) && IsStrictWeakOrder(group) && p in group
    requires IsRankOrder(lo + a + hi, group) && IsRankOrder(lo + b + hi, group)
    requires a != [] && a[0] == p && b != [] && b[|b| - 1] == p && hi != []
    ensures Runs(Gang({}, {}), es, group)
    ensures After(Gang({}, {}), es).scheduled == SetOf(lo) + {p, hi[0]}
  {
    var one, other, k := lo + a + hi, lo + b + hi, |lo| + 1;
    var first := FirstTurns(one, k, group);
    assert one[..k] == lo + [p];
    assert SetOf(one[..k]) == SetOf(lo) + {p};
    var n := |lo| + |b|;
    assert other[n - 1] == p && other[n] == hi[0];
    var last := OneTurn(SetOf(lo) + {p}, other, n, group);
    RunsJoin(Gang({}, {}), first, last, group);
    es := first + last;
  }

  /** `q` ties with `p`, both below `top`: with p and top scheduled and q not, the set is not closed. */
  lemma LeftBehind(group: set<Pod>, p: Pod, q: Pod, lo: seq<Pod>, top: Pod)
    requires IsStrictWeakOrder(group) && p in group && q in group && top in group
    requires p != q && Tied(p, q) && Less(p, top) && IsRankOrder(lo, Below(group, p))
    ensures !Closed(SetOf(lo) + {p, top}, group)
  {
    LessComposes(group, q, p, top);
    assert q !in Below(group, p) && q !in lo && q != top;
    assert Less(q, top) && top in SetOf(lo) + {p, top} && q !in SetOf(lo) + {p, top};
  }

  lemma TieOvertakes(group: set<Pod>, p: Pod, q: Pod, r: Pod) returns (es: seq<Event>)
    requires IsGroup(group) && IsStrictWeakOrder(group)
    requires p in group && q in group && r in group && p != q && Tied(p, q) && Less(p, r)
    ensures Runs(Gang({}, {}), es, group) && !Closed(After(Gang({}, {}), es).scheduled, group)
  {
    var lo := RankOrderExists(Below(group, p));
    var hi := RankOrderExists(Above(group, p));
    var a, b := TiedOrders(group, p);
    LayersJoin(group, p, lo, a, hi);
    LayersJoin(group, p, lo, b, hi);
    assert r in Above(group, p) && hi != [];
    assert hi[0] in hi && hi[0] in Above(group, p);
    es := Overtake(group, p, lo, a, b, hi);
    LeftBehind(group, p, q, lo, hi[0]);
  }

  ghost predicate AlwaysClosed(group: set<Pod>) {
    forall es :: Runs(Gang({}, {}), es, group) ==> Closed(After(Gang({}, {}), es).scheduled, group)
  }

  /** Pods are scheduled in rank order, every scheduled set being closed downwards, in all runs exactly when
      no two pods tie below a third. */
  lemma ScheduledInRankOrderIff(group: set<Pod>)
    requires IsGroup(group) && !HasClash(group)
    ensures AlwaysClosed(group) <==> !HasBuriedTie(group)
  {
    LessSortsIffNoClash(group);
    if HasBuriedTie(group) {
      var p, q, r :| p in group && q in group && r in group && p != q && Tied(p, q) && Less(p, r);
      var es := TieOvertakes(group, p, q, r);
    } else {
      forall es | Runs(Gang({}, {}), es, group) ensures Closed(After(Gang({}, {}), es).scheduled, group) {
        RunKeepsOrder(Gang({}, {}), es, group);
      }
    }
  }
}
