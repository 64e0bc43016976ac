/** The per-node aggregate of a workload's pods (node_usage.go): how it is built, and what it
    counts. */
module NodeUsage {
  import opened Decimal
  import opened Sequences

  datatype Phase = Pending | Running | Succeeded | Failed | Unknown | Stopped

  datatype Pod = Pod(node: string, rid: int, phase: Phase)

  predicate IsPodTerminated(p: Pod) {
    p.phase.Succeeded? || p.phase.Failed? || p.phase.Stopped?
  }

  /** Succeeded and Failed pods are excluded here, Stopped ones are not. */
  predicate IsPodRunning(p: Pod) {
    !p.phase.Succeeded? && !p.phase.Failed? && p.node != ""
  }

  datatype NodePodUsage = NodePodUsage(node: string, active: map<string, int>, running: map<string, int>)

  // ---------- what the aggregate has to count ----------

  /** Which pods a count is about. */
  datatype Selection =
    | ActiveOn(node: string)            // not terminated, on this node
    | PhaseRunningOn(node: string)      // not terminated and in phase Running, on this node
    | PlacedOn(node: string)            // IsPodRunning, on this node
    | ActiveIn(nodes: set<string>)      // not terminated, on one of these nodes

  predicate Selects(sel: Selection, p: Pod) {
    match sel
    case ActiveOn(n) => !IsPodTerminated(p) && p.node == n
    case PhaseRunningOn(n) => !IsPodTerminated(p) && p.phase.Running? && p.node == n
    case PlacedOn(n) => IsPodRunning(p) && p.node == n
    case ActiveIn(nodes) => !IsPodTerminated(p) && p.node in nodes
  }

  function Count(pods: seq<Pod>, sel: Selection, rid: int): nat {
    if pods == [] then 0
    else
      var last := pods[|pods| - 1];
      Count(pods[..|pods| - 1], sel, rid) + if Selects(sel, last) && last.rid == rid then 1 else 0
  }

  /** How many selected pods there are of every kind below `kinds`. */
  function Weights(pods: seq<Pod>, sel: Selection, kinds: nat): (w: seq<nat>)
    ensures |w| == kinds
  {
    seq(kinds, r requires 0 <= r < kinds => Count(pods, sel, r))
  }

  function ActiveNodes(pods: seq<Pod>): set<string> {
    set i | 0 <= i < |pods| && !IsPodTerminated(pods[i]) :: pods[i].node
  }

  /** A count map holds exactly the non-zero counts, under their decimal keys. */
  ghost predicate CountsOf(m: map<string, int>, pods: seq<Pod>, sel: Selection) {
    && (forall r :: RidKey(r) in m <==> Count(pods, sel, r) > 0)
    && (forall r :: RidKey(r) in m ==> m[RidKey(r)] == Count(pods, sel, r))
    && (forall k :: k in m ==> exists r :: k == RidKey(r))
  }

  ghost predicate EntryOf(u: NodePodUsage, n: string, pods: seq<Pod>) {
    u.node == n && CountsOf(u.active, pods, ActiveOn(n)) && CountsOf(u.running, pods, PhaseRunningOn(n))
  }

  /** `usage` describes `pods`: one entry per node with an active pod, with exact counts. */
  ghost predicate IsUsageOf(usage: seq<NodePodUsage>, pods: seq<Pod>) {
    && (forall i, j :: 0 <= i < j < |usage| ==> usage[i].node != usage[j].node)
    && (forall n :: n in ActiveNodes(pods) <==> exists i :: 0 <= i < |usage| && usage[i].node == n)
    && (forall i :: 0 <= i < |usage| ==> EntryOf(usage[i], usage[i].node, pods))
  }

  // ---------- building it ----------

  function Bump(m: map<string, int>, key: string): map<string, int> {
    m[key := if key in m then m[key] + 1 else 1]
  }

  lemma CountSnoc(pods: seq<Pod>, p: Pod, sel: Selection, r: int)
    ensures Count(pods + [p], sel, r) == Count(pods, sel, r) + if Selects(sel, p) && p.rid == r then 1 else 0
  {
    assert (pods + [p])[..|pods|] == pods;
  }

  lemma CountsSkip(m: map<string, int>, pods: seq<Pod>, p: Pod, sel: Selection)
    requires CountsOf(m, pods, sel) && !Selects(sel, p)
    ensures CountsOf(m, pods + [p], sel)
  {
    forall r ensures Count(pods + [p], sel, r) == Count(pods, sel, r) { CountSnoc(pods, p, sel, r); }
  }

  lemma CountsBump(m: map<string, int>, pods: seq<Pod>, p: Pod, sel: Selection)
    requires CountsOf(m, pods, sel) && Selects(sel, p)
    ensures CountsOf(Bump(m, RidKey(p.rid)), pods + [p], sel)
  {
    var m' := Bump(m, RidKey(p.rid));
    forall r
      ensures RidKey(r) in m' <==> Count(pods + [p], sel, r) > 0
      ensures RidKey(r) in m' ==> m'[RidKey(r)] == Count(pods + [p], sel, r)
    {
      CountSnoc(pods, p, sel, r);
      if RidKey(r) == RidKey(p.rid) { RidKeyInjective(r, p.rid); }
    }
  }

  lemma {:induction false} EmptyCounts(pods: seq<Pod>, sel: Selection)
    requires forall i :: 0 <= i < |pods| ==> !Selects(sel, pods[i])
    ensures CountsOf(map[], pods, sel)
    decreases |pods|
  {
    if pods != [] {
      EmptyCounts(pods[..|pods| - 1], sel);
      assert pods == pods[..|pods| - 1] + [pods[|pods| - 1]];
      CountsSkip(map[], pods[..|pods| - 1], pods[|pods| - 1], sel);
    }
  }

  /** The index after some pods: one entry per node met, listed in `order` by first appearance. */
  ghost predicate IsIndex(idx: map<string, NodePodUsage>, order: seq<string>, pods: seq<Pod>) {
    && NoDuplicates(order)
    && (forall n :: n in order <==> n in idx)
    && (forall n :: n in idx <==> n in ActiveNodes(pods))
    && (forall n :: n in idx ==> EntryOf(idx[n], n, pods))
  }

  function Entered(idx: map<string, NodePodUsage>, p: Pod): NodePodUsage {
    var u := if p.node in idx then idx[p.node] else NodePodUsage(p.node, map[], map[]);
    var key := RidKey(p.rid);
    u.(active := Bump(u.active, key), running := if p.phase.Running? then Bump(u.running, key) else u.running)
  }

  lemma ActiveNodesSkip(pods: seq<Pod>, p: Pod)
    requires IsPodTerminated(p)
    ensures ActiveNodes(pods + [p]) == ActiveNodes(pods)
  {
    forall n ensures n in ActiveNodes(pods + [p]) <==> n in ActiveNodes(pods) {
      if i :| 0 <= i < |pods| && !IsPodTerminated(pods[i]) && pods[i].node == n { assert (pods + [p])[i].node == n; }
    }
  }

  lemma SkipTerminated(idx: map<string, NodePodUsage>, order: seq<string>, pods: seq<Pod>, p: Pod)
    requires IsIndex(idx, order, pods) && IsPodTerminated(p)
    ensures IsIndex(idx, order, pods + [p])
  {
    ActiveNodesSkip(pods, p);
    forall n | n in idx ensures EntryOf(idx[n], n, pods + [p]) {
      CountsSkip(idx[n].active, pods, p, ActiveOn(n));
      CountsSkip(idx[n].running, pods, p, PhaseRunningOn(n));
    }
  }

  lemma ActiveNodesSnoc(pods: seq<Pod>, p: Pod)
    requires !IsPodTerminated(p)
    ensures ActiveNodes(pods + [p]) == ActiveNodes(pods) + {p.node}
  {
    forall n ensures n in ActiveNodes(pods + [p]) <==> n in ActiveNodes(pods) || n == p.node {
      assert (pods + [p])[|pods|] == p;
      if i :| 0 <= i < |pods| && !IsPodTerminated(pods[i]) && pods[i].node == n { assert (pods + [p])[i].node == n; }
    }
  }

  /** The entry of the pod's node. */
  lemma EnteredFits(idx: map<string, NodePodUsage>, order: seq<string>, pods: seq<Pod>, p: Pod)
    requires IsIndex(idx, order, pods) && !IsPodTerminated(p)
    ensures EntryOf(Entered(idx, p), p.node, pods + [p])
  {
    var n := p.node;
    var u := if n in idx then idx[n] else NodePodUsage(n, map[], map[]);
    if n !in idx {
      forall i | 0 <= i < |pods| ensures !Selects(ActiveOn(n), pods[i]) && !Selects(PhaseRunningOn(n), pods[i]) {
        assert Selects(ActiveOn(n), pods[i]) ==> n in ActiveNodes(pods);
      }
      EmptyCounts(pods, ActiveOn(n));
      EmptyCounts(pods, PhaseRunningOn(n));
    }
    CountsBump(u.active, pods, p, ActiveOn(n));
    if p.phase.Running? { CountsBump(u.running, pods, p, PhaseRunningOn(n)); }
    else { CountsSkip(u.running, pods, p, PhaseRunningOn(n)); }
  }

  lemma EnterActive(idx: map<string, NodePodUsage>, order: seq<string>, pods: seq<Pod>, p: Pod)
    requires IsIndex(idx, order, pods) && !IsPodTerminated(p)
    ensures IsIndex(idx[p.node := Entered(idx, p)], if p.node in idx then order else order + [p.node], pods + [p])
  {
    ActiveNodesSnoc(pods, p);
    var idx' := idx[p.node := Entered(idx, p)];
    forall n | n in idx' ensures EntryOf(idx'[n], n, pods + [p]) {
      if n != p.node {
        CountsSkip(idx[n].active, pods, p, ActiveOn(n));
        CountsSkip(idx[n].running, pods, p, PhaseRunningOn(n));
      } else {
        EnteredFits(idx, order, pods, p);
      }
    }
  }

  function NextIdx(idx: map<string, NodePodUsage>, p: Pod): map<string, NodePodUsage> {
    if IsPodTerminated(p) then idx else idx[p.node := Entered(idx, p)]
  }

  function NextOrder(idx: map<string, NodePodUsage>, order: seq<string>, p: Pod): seq<string> {
    if IsPodTerminated(p) || p.node in idx then order else order + [p.node]
  }

  /** One pod keeps the index exact. */
  lemma IndexStep(idx: map<string, NodePodUsage>, order: seq<string>, pods: seq<Pod>, i: nat)
    requires i < |pods| && IsIndex(idx, order, pods[..i])
    ensures IsIndex(NextIdx(idx, pods[i]), NextOrder(idx, order, pods[i]), pods[..i + 1])
  {
    assert pods[..i + 1] == pods[..i] + [pods[i]];
    if IsPodTerminated(pods[i]) { SkipTerminated(idx, order, pods[..i], pods[i]); }
    else { EnterActive(idx, order, pods[..i], pods[i]); }
  }

  /** The entries in the order of first appearance. */
  method ListEntries(idx: map<string, NodePodUsage>, order: seq<string>) returns (result: seq<NodePodUsage>)
    requires forall n :: n in order ==> n in idx
    ensures |result| == |order| && forall k :: 0 <= k < |order| ==> result[k] == idx[order[k]]
  {
    result := [];
    for j := 0 to |order|
      invariant |result| == j
      invariant forall k :: 0 <= k < j ==> result[k] == idx[order[k]]
    {
      result := result + [idx[order[j]]];
    }
  }

  lemma ListedIndexIsUsage(idx: map<string, NodePodUsage>, order: seq<string>, pods: seq<Pod>,
                           result: seq<NodePodUsage>)
    requires IsIndex(idx, order, pods)
    requires |result| == |order| && forall k :: 0 <= k < |order| ==> result[k] == idx[order[k]]
    ensures IsUsageOf(result, pods)
  {
    forall n ensures n in ActiveNodes(pods) <==> exists k :: 0 <= k < |result| && result[k].node == n {
      if n in ActiveNodes(pods) {
        var k :| 0 <= k < |order| && order[k] == n;
        assert result[k].node == n;
      }
    }
  }

  /** The aggregate has an entry for a node exactly when one of its pods is pending, running or of unknown phase. */
  lemma UsageIsByPhase(usage: seq<NodePodUsage>, pods: seq<Pod>, n: string)
    requires IsUsageOf(usage, pods)
    ensures (exists i :: 0 <= i < |usage| && usage[i].node == n) <==>
            exists j :: 0 <= j < |pods| && pods[j].node == n && pods[j].phase in {Pending, Running, Unknown}
  {
    if n in ActiveNodes(pods) {
      var j :| 0 <= j < |pods| && !IsPodTerminated(pods[j]) && pods[j].node == n;
      assert pods[j].phase in {Pending, Running, Unknown};
    }
    if j :| 0 <= j < |pods| && pods[j].node == n && pods[j].phase in {Pending, Running, Unknown} {
      assert n in ActiveNodes(pods);
    }
  }

  method BuildNodeUsage(pods: seq<Pod>) returns (result: seq<NodePodUsage>)
    ensures IsUsageOf(result, pods)
  {
    var idx: map<string, NodePodUsage> := map[];
    var order: seq<string> := [];
    for i := 0 to |pods|
      invariant IsIndex(idx, order, pods[..i])
    {
      var p := pods[i];
      IndexStep(idx, order, pods, i);
      if IsPodTerminated(p) {
        continue;
      }
      ghost var idx0, order0 := idx, order;
      var u := NodePodUsage(p.node, map[], map[]);
      if p.node in idx {
        u := idx[p.node];
      } else {
        order := order + [p.node];
      }
      var key := RidKey(p.rid);
      u := u.(active := Bump(u.active, key));
      if p.phase.Running? {
        u := u.(running := Bump(u.running, key));
      }
      idx := idx[p.node := u];
      assert idx == NextIdx(idx0, p) && order == NextOrder(idx0, order0, p);
    }
    assert pods[..|pods|] == pods;
    result := ListEntries(idx, order);
    ListedIndexIsUsage(idx, order, pods, result);
  }
}
