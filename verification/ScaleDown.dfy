/** Choosing the nodes a shrinking workspace gives up (workspace_webhook.go, nodes.go). */
module ScaleDown {
  import opened NodeUsage
  import NodesAction
  import opened Options
  import opened Readers
  import W = Workload

  datatype Node = Node(name: string, workspace: string, available: bool, created: int, deleting: bool)

  /** What a workload of the workspace shows in its status. */
  datatype Status = Status(ended: bool, usage: seq<NodePodUsage>, pods: seq<Pod>)

  // ---------- idle nodes ----------

  function InUse(workloads: seq<Status>): set<string> {
    if workloads == [] then {}
    else
      var w := workloads[|workloads| - 1];
      InUse(workloads[..|workloads| - 1]) + if w.ended then {} else W.UsedNodes(w.usage, w.pods)
  }

  predicate IsIdle(n: Node, workspace: string, used: set<string>) {
    n.workspace == workspace && !n.deleting && n.name !in used
  }

  ghost predicate DistinctNames(nodes: seq<Node>) {
    forall i, j :: 0 <= i < j < |nodes| ==> nodes[i].name != nodes[j].name
  }

  method MarkUsage(used0: set<string>, usage: seq<NodePodUsage>) returns (used: set<string>)
    ensures used == used0 + (NodesOf(usage) - {""})
  {
    used := used0;
    for i := 0 to |usage|
      invariant used == used0 + (NodesOf(usage[..i]) - {""})
    {
      assert usage[..i + 1] == usage[..i] + [usage[i]];
      assert NodesOf(usage[..i + 1]) == NodesOf(usage[..i]) + {usage[i].node};
      if usage[i].node != "" { used := used + {usage[i].node}; }
    }
    assert usage[..|usage|] == usage;
  }

  method MarkPods(used0: set<string>, pods: seq<Pod>) returns (used: set<string>)
    ensures used == used0 + W.PlacedNodes(pods)
  {
    used := used0;
    for i := 0 to |pods|
      invariant used == used0 + W.PlacedNodes(pods[..i])
    {
      ghost var here: set<string> := if IsPodRunning(pods[i]) then {pods[i].node} else {};
      assert W.PlacedNodes(pods[..i + 1]) == W.PlacedNodes(pods[..i]) + here by {
        assert pods[..i + 1][i] == pods[i];
        assert forall k :: 0 <= k < i ==> pods[..i + 1][k] == pods[..i][k];
      }
      if IsPodRunning(pods[i]) { used := used + {pods[i].node}; }
    }
    assert pods[..|pods|] == pods;
  }

  /** The nodes of the workspace that are not being deleted and that no live workload uses, in list order. */
  method GetIdleNodes(workspace: string, nodes: seq<Node>, workloads: seq<Status>) returns (idle: seq<Node>)
    requires DistinctNames(nodes)
    ensures forall n :: n in idle <==> n in nodes && IsIdle(n, workspace, InUse(workloads))
    ensures forall n :: n in idle ==> n.workspace == workspace && !n.deleting && n.name !in InUse(workloads)
    ensures DistinctNames(idle)
  {
    var used := {};
    for i := 0 to |workloads|
      invariant used == InUse(workloads[..i])
    {
      assert workloads[..i + 1][..i] == workloads[..i];
      var w := workloads[i];
      if w.ended { continue; }
      if |w.usage| > 0 {
        used := MarkUsage(used, w.usage);
      } else {
        used := MarkPods(used, w.pods);
      }
    }
    assert workloads[..|workloads|] == workloads;
    idle := [];
    for i := 0 to |nodes|
      invariant forall n :: n in idle <==> n in nodes[..i] && IsIdle(n, workspace, used)
      invariant DistinctNames(idle)
    {
      assert nodes[..i + 1] == nodes[..i] + [nodes[i]];
      assert nodes[i] !in idle && forall n :: n in idle ==> n.name != nodes[i].name;
      if nodes[i].workspace != workspace || nodes[i].deleting || nodes[i].name in used { continue; }
      idle := idle + [nodes[i]];
    }
    assert nodes[..|nodes|] == nodes;
  }

  // ---------- the order in which nodes go ----------

  /** `a` has to go before `b`: unavailable before available, then the newer first. Less also answers
      true both ways for two nodes of one age, which leaves them in either order. */
  predicate GoesBefore(a: Node, b: Node) {
    (!a.available && b.available) || (a.available == b.available && a.created > b.created)
  }

  predicate Less(a: Node, b: Node) {
    if !a.available && b.available then true
    else if !b.available && a.available then false
    else !(a.created < b.created)
  }

  /** What sort.Sort is relied on for: a permutation with nobody behind a node that goes later. */
  ghost predicate Sorts(sort: seq<Node> -> seq<Node>) {
    forall s :: multiset(sort(s)) == multiset(s) && InOrder(sort(s))
  }

  ghost predicate InOrder(s: seq<Node>) {
    forall i, j :: 0 <= i < j < |s| ==> !GoesBefore(s[j], s[i])
  }

  function Insert(x: Node, s: seq<Node>): seq<Node> {
    if s == [] then [x] else if GoesBefore(s[0], x) then [s[0]] + Insert(x, s[1..]) else [x] + s
  }

  /** A sort that meets the contract. */
  function SortNodes(s: seq<Node>): seq<Node> {
    if s == [] then [] else Insert(s[0], SortNodes(s[1..]))
  }

  lemma {:induction false} InsertSorts(x: Node, s: seq<Node>)
    requires InOrder(s)
    ensures multiset(Insert(x, s)) == multiset(s) + multiset{x} && InOrder(Insert(x, s))
    decreases |s|
  {
    if s != [] && GoesBefore(s[0], x) {
      assert s == [s[0]] + s[1..];
      InsertSorts(x, s[1..]);
      forall y | y in Insert(x, s[1..]) ensures !GoesBefore(y, s[0]) { InsertedFrom(x, s[1..], y); }
      PrependInOrder(s[0], Insert(x, s[1..]));
    } else {
      forall y | y in s ensures !GoesBefore(y, x) { assert y == s[0] || !GoesBefore(y, s[0]); }
      PrependInOrder(x, s);
    }
  }

  lemma {:induction false} InsertedFrom(x: Node, s: seq<Node>, y: Node)
    requires y in Insert(x, s)
    ensures y == x || y in s
    decreases |s|
  {
    if s != [] && GoesBefore(s[0], x) && y != s[0] { InsertedFrom(x, s[1..], y); }
  }

  lemma PrependInOrder(x: Node, s: seq<Node>)
    requires InOrder(s) && forall y :: y in s ==> !GoesBefore(y, x)
    ensures InOrder([x] + s)
  {
  }

  lemma {:induction false} SortNodesInOrder(s: seq<Node>)
    ensures multiset(SortNodes(s)) == multiset(s) && InOrder(SortNodes(s))
    decreases |s|
  {
    if s != [] {
      assert s == [s[0]] + s[1..];
      SortNodesInOrder(s[1..]);
      InsertSorts(s[0], SortNodes(s[1..]));
    }
  }

  lemma SortExists()
    ensures Sorts(SortNodes)
  {
    forall s ensures multiset(SortNodes(s)) == multiset(s) && InOrder(SortNodes(s)) { SortNodesInOrder(s); }
  }

  /** Neighbours in the order of Less are enough: it is total, and what must go before is not behind. */
  lemma {:induction false} SortedByLessIff(s: seq<Node>)
    ensures InOrder(s) <==> forall i :: 0 <= i < |s| - 1 ==> Less(s[i], s[i + 1])
  {
    if forall i :: 0 <= i < |s| - 1 ==> Less(s[i], s[i + 1]) {
      forall i, j | 0 <= i < j < |s| ensures !GoesBefore(s[j], s[i]) { LessChains(s, i, j); }
    }
  }

  lemma {:induction false} LessChains(s: seq<Node>, i: nat, j: nat)
    requires i < j < |s| && forall k :: 0 <= k < |s| - 1 ==> Less(s[k], s[k + 1])
    ensures Less(s[i], s[j])
    decreases j - i
  {
    if i < j - 1 {
      LessChains(s, i, j - 1);
      assert Less(s[j - 1], s[j - 1 + 1]);
    }
  }

  ghost predicate Chosen(chosen: seq<Node>, idle: seq<Node>) {
    && DistinctNames(chosen)
    && (forall n :: n in chosen ==> n in idle)
    && (forall n, m :: n in chosen && m in idle && m !in chosen ==> !GoesBefore(m, n))
  }

  /** An idle node that stays is available wherever one that goes is, and of the two the one that goes is not older
      unless it alone is unavailable. */
  ghost predicate MostUrgent(chosen: seq<Node>, idle: seq<Node>) {
    forall n, m :: n in chosen && m in idle && m !in chosen ==>
      && (n.available ==> m.available)
      && (n.available == m.available ==> n.created >= m.created)
  }

  lemma ChosenAreMostUrgent(chosen: seq<Node>, idle: seq<Node>)
    ensures Chosen(chosen, idle) ==> MostUrgent(chosen, idle)
  {
    if Chosen(chosen, idle) {
      forall n, m | n in chosen && m in idle && m !in chosen
        ensures (n.available ==> m.available) && (n.available == m.available ==> n.created >= m.created)
      {
        assert !GoesBefore(m, n);
      }
    }
  }

  lemma SortedStaysDistinct(s: seq<Node>, idle: seq<Node>)
    requires multiset(s) == multiset(idle) && DistinctNames(idle)
    ensures DistinctNames(s) && |s| == |idle| && forall n :: n in s <==> n in idle
  {
    assert |multiset(s)| == |s| && |multiset(idle)| == |idle|;
    forall n ensures n in s <==> n in idle {
      assert n in multiset(s) <==> n in s;
      assert n in multiset(idle) <==> n in idle;
    }
    forall i, j | 0 <= i < j < |s| ensures s[i].name != s[j].name {
      NamesOnce(s, idle, i, j);
    }
  }

  lemma {:induction false} OneCopy(idle: seq<Node>, n: Node)
    requires DistinctNames(idle)
    ensures multiset(idle)[n] <= 1
  {
    if |idle| > 0 {
      var rest := idle[..|idle| - 1];
      assert idle == rest + [idle[|idle| - 1]];
      OneCopy(rest, n);
      assert n == idle[|idle| - 1] ==> n !in rest;
      assert n !in rest ==> multiset(rest)[n] == 0;
    }
  }

  lemma TwoCopies(s: seq<Node>, i: nat, j: nat)
    requires i < j < |s|
    ensures s[i] == s[j] ==> multiset(s)[s[i]] >= 2
  {
    var front := s[..j];
    assert s == front + [s[j]] + s[j + 1..];
    assert front[i] == s[i] && s[i] in front;
    assert multiset(front)[s[i]] >= 1;
    assert multiset(s) == multiset(front) + multiset{s[j]} + multiset(s[j + 1..]);
  }

  lemma SameNodeSameName(idle: seq<Node>, a: Node, b: Node)
    requires DistinctNames(idle) && a in idle && b in idle
    ensures a.name == b.name ==> a == b
  {
  }

  lemma PrefixHas(s: seq<Node>, count: nat, j: nat)
    requires count <= |s| && j < |s|
    ensures j < count ==> s[j] in s[..count]
  {
    if j < count { assert s[..count][j] == s[j]; }
  }

  lemma NamesOnce(s: seq<Node>, idle: seq<Node>, i: nat, j: nat)
    requires multiset(s) == multiset(idle) && DistinctNames(idle) && i < j < |s|
    ensures s[i].name != s[j].name
  {
    assert s[i] in multiset(idle) && s[j] in multiset(idle);
    assert s[i] in idle && s[j] in idle;
    OneCopy(idle, s[i]);
    TwoCopies(s, i, j);
    SameNodeSameName(idle, s[i], s[j]);
  }

  lemma PrefixIsChosen(sorted: seq<Node>, idle: seq<Node>, count: nat)
    requires multiset(sorted) == multiset(idle) && DistinctNames(idle) && InOrder(sorted) && count <= |idle|
    ensures count <= |sorted| && Chosen(sorted[..count], idle)
  {
    SortedStaysDistinct(sorted, idle);
    forall n, m | n in sorted[..count] && m in idle && m !in sorted[..count] ensures !GoesBefore(m, n) {
      var i :| 0 <= i < count && sorted[i] == n;
      assert m in sorted;
      var j :| 0 <= j < |sorted| && sorted[j] == m;
      PrefixHas(sorted, count, j);
    }
  }

  method GetNodesForScalingDown(workspace: string, count: int, nodes: seq<Node>, workloads: seq<Status>,
                                sort: seq<Node> -> seq<Node>, ghost all: seq<Node>)
    returns (chosen: Option<seq<Node>>)
    requires DistinctNames(nodes) && Sorts(sort)
    requires DistinctNames(all) && forall n :: n in all <==> n in nodes && IsIdle(n, workspace, InUse(workloads))
    ensures chosen.None? <==> count <= 0
    ensures count > 0 ==> Chosen(chosen.value, all) && MostUrgent(chosen.value, all)
    ensures count > 0 ==> |chosen.value| == if count < |all| then count else |all|
  {
    if count <= 0 { return None; }
    var idle := GetIdleNodes(workspace, nodes, workloads);
    SameListing(idle, all);
    if count < |idle| {
      var sorted := sort(idle);
      PrefixIsChosen(sorted, idle, count);
      ChosenAreMostUrgent(sorted[..count], idle);
      return Some(sorted[..count]);
    }
    chosen := Some(idle);
  }

  lemma {:induction false} SameListing(a: seq<Node>, b: seq<Node>)
    requires DistinctNames(a) && DistinctNames(b) && forall n :: n in a <==> n in b
    ensures |a| == |b|
  {
    ListingSize(a);
    ListingSize(b);
    assert (set n | n in a) == (set n | n in b);
  }

  lemma {:induction false} ListingSize(a: seq<Node>)
    requires DistinctNames(a)
    ensures |set n | n in a| == |a|
  {
    if |a| > 0 {
      var rest, last := a[..|a| - 1], a[|a| - 1];
      assert a == rest + [last];
      ListingSize(rest);
      assert last !in rest;
      assert (set n | n in a) == (set n | n in rest) + {last};
    } else {
      assert (set n | n in a) == {};
    }
  }

  // ---------- the mutation ----------

  datatype Outcome = Untouched | Marked(action: map<string, string>) | NotEnoughNodes

  method BuildAction(names: seq<string>) returns (action: map<string, string>)
    ensures forall k :: k in action <==> k in names
    ensures forall k :: k in action ==> action[k] == NodesAction.REMOVE
    ensures (forall i, j :: 0 <= i < j < |names| ==> names[i] != names[j]) ==> |action| == |names|
  {
    action := map[];
    for i := 0 to |names|
      invariant forall k :: k in action <==> k in names[..i]
      invariant forall k :: k in action ==> action[k] == NodesAction.REMOVE
      invariant (forall i, j :: 0 <= i < j < |names| ==> names[i] != names[j]) ==> |action| == i
    {
      assert names[..i + 1] == names[..i] + [names[i]];
      action := action[names[i] := NodesAction.REMOVE];
    }
    assert names[..|names|] == names;
  }

  /** A shrinking workspace marks as many nodes for removal as it has too many, all of them idle, and
      leaves out no idle node that should go before a marked one; it fails exactly when too few are idle.
      `idle` is any listing of the idle nodes. */
  method MutateScaleDown(workspace: string, oldReplica: int, newReplica: int, currentReplica: int, nodes: seq<Node>,
                         workloads: seq<Status>, sort: seq<Node> -> seq<Node>, ghost idle: seq<Node>)
    returns (o: Outcome, ghost chosen: seq<Node>)
    requires DistinctNames(nodes) && Sorts(sort)
    requires DistinctNames(idle) && forall n :: n in idle <==> n in nodes && IsIdle(n, workspace, InUse(workloads))
    ensures o.Untouched? <==> oldReplica <= newReplica || newReplica >= currentReplica
    ensures o.NotEnoughNodes? <==> oldReplica > newReplica && currentReplica - newReplica > |idle|
    ensures o.Marked? ==>
      && |o.action| == currentReplica - newReplica == |chosen| && Chosen(chosen, idle) && MostUrgent(chosen, idle)
      && (forall k :: k in o.action <==> exists i :: 0 <= i < |chosen| && chosen[i].name == k)
      && (forall k :: k in o.action ==> o.action[k] == NodesAction.REMOVE)
      && (forall n :: n in chosen ==> n.workspace == workspace && !n.deleting && n.name !in InUse(workloads))
  {
    chosen := [];
    if oldReplica <= newReplica { return Untouched, []; }
    if newReplica >= currentReplica { return Untouched, []; }
    var count := currentReplica - newReplica;
    var picked := GetNodesForScalingDown(workspace, count, nodes, workloads, sort, idle);
    if |picked.value| != count { return NotEnoughNodes, []; }
    chosen := picked.value;
    var names: seq<string> := [];
    for i := 0 to |picked.value|
      invariant |names| == i && forall k :: 0 <= k < i ==> names[k] == picked.value[k].name
    {
      names := names + [picked.value[i].name];
    }
    var action := BuildAction(names);
    assert forall i, j :: 0 <= i < j < |names| ==> names[i] != names[j];
    forall k ensures k in action <==> exists i :: 0 <= i < |chosen| && chosen[i].name == k {
      if k in action { var i :| 0 <= i < |names| && names[i] == k; assert chosen[i].name == k; }
      if i :| 0 <= i < |chosen| && chosen[i].name == k { assert names[i] == k; }
    }
    o := Marked(action);
  }

  // ---------- scaling down does not depend on where the pods are stored ----------

  ghost predicate Shows(w: Status, pods: seq<Pod>) {
    W.Represents(w.pods, w.usage, pods)
  }

  ghost predicate AllShow(workloads: seq<Status>, original: seq<seq<Pod>>) {
    |workloads| == |original| && forall i :: 0 <= i < |workloads| ==> Shows(workloads[i], original[i])
  }

  lemma ShownNodesInUse(w: Status, pods: seq<Pod>)
    requires Shows(w, pods)
    ensures ActiveNodes(pods) - {""} <= W.UsedNodes(w.usage, w.pods)
    ensures W.StoppedNodes(pods) <= ActiveNodes(pods) ==> W.UsedNodes(w.usage, w.pods) == W.UsedNodes([], pods)
  {
    W.PlacedNodesSplit(pods);
    W.PlacedNodesSplit(w.pods);
    if IsUsageOf(w.usage, pods) {
      W.UsedNodesAgreeIffCovered(w.usage, pods);
      W.ClearedUsedNodesAgreeIffCovered(w.usage, pods);
    }
  }

  lemma {:induction false} LiveWorkloadsCount(workloads: seq<Status>, i: nat)
    requires i < |workloads| && !workloads[i].ended
    ensures W.UsedNodes(workloads[i].usage, workloads[i].pods) <= InUse(workloads)
    decreases |workloads|
  {
    var last := |workloads| - 1;
    if i < last {
      assert workloads[..last][i] == workloads[i];
      LiveWorkloadsCount(workloads[..last], i);
    }
  }

  /** A node that hosts an unfinished pod of a live workload is never idle, offloaded or not. */
  lemma ActiveNodesStay(workloads: seq<Status>, i: nat, pods: seq<Pod>, n: Node, workspace: string)
    requires i < |workloads| && !workloads[i].ended && Shows(workloads[i], pods)
    requires n.name != "" && n.name in ActiveNodes(pods)
    ensures !IsIdle(n, workspace, InUse(workloads))
  {
    ShownNodesInUse(workloads[i], pods);
    LiveWorkloadsCount(workloads, i);
  }

  lemma {:induction false} InUseMember(workloads: seq<Status>, n: string)
    ensures n in InUse(workloads) <==>
            exists i :: 0 <= i < |workloads| && !workloads[i].ended &&
                        n in W.UsedNodes(workloads[i].usage, workloads[i].pods)
    decreases |workloads|
  {
    if workloads != [] {
      var last := |workloads| - 1;
      InUseMember(workloads[..last], n);
      if i :| 0 <= i < |workloads| && !workloads[i].ended && n in W.UsedNodes(workloads[i].usage, workloads[i].pods) {
        assert i < last ==> workloads[..last][i] == workloads[i];
      }
      var front := workloads[..last];
      if i :| 0 <= i < last && !front[i].ended && n in W.UsedNodes(front[i].usage, front[i].pods) {
        assert front[i] == workloads[i];
      }
    }
  }

  /** The reader takes this status's pods from the pod list. */
  predicate ReadAsPods(w: Status, pods: seq<Pod>) {
    w.usage == [] && w.pods == pods
  }

  /** What a status still shows of its pods' nodes: those of stopped pods only as long as the pods are stored. */
  function Shown(w: Status, pods: seq<Pod>): set<string> {
    (ActiveNodes(pods) - {""}) + if ReadAsPods(w, pods) then W.StoppedNodes(pods) else {}
  }

  lemma UsedIsShown(w: Status, pods: seq<Pod>)
    requires Shows(w, pods)
    ensures W.UsedNodes(w.usage, w.pods) == Shown(w, pods)
  {
    W.PlacedNodesSplit(pods);
    W.PlacedNodesSplit([]);
    if w.usage != [] || w.pods != pods { UsageNodesAreActive(w.usage, pods); }
  }

  /** The nodes that the live workloads together still show. */
  function StillShown(workloads: seq<Status>, original: seq<seq<Pod>>): set<string>
    requires |workloads| == |original|
  {
    set i, n | 0 <= i < |workloads| && !workloads[i].ended && n in Shown(workloads[i], original[i]) :: n
  }

  lemma InUseIsStillShown(workloads: seq<Status>, original: seq<seq<Pod>>)
    requires AllShow(workloads, original)
    ensures InUse(workloads) == StillShown(workloads, original)
  {
    forall n ensures n in InUse(workloads) <==> n in StillShown(workloads, original) {
      InUseMember(workloads, n);
      forall i | 0 <= i < |workloads|
        ensures W.UsedNodes(workloads[i].usage, workloads[i].pods) == Shown(workloads[i], original[i])
      {
        UsedIsShown(workloads[i], original[i]);
      }
    }
  }

  /** The same workloads with their pods stored in full. */
  ghost predicate IsPlain(plain: seq<Status>, workloads: seq<Status>, original: seq<seq<Pod>>) {
    && |plain| == |workloads| == |original|
    && forall i :: 0 <= i < |plain| ==> plain[i] == Status(workloads[i].ended, [], original[i])
  }

  /** The nodes of a live workload's stopped pods are all shown by some live workload. */
  ghost predicate StoppedAreShown(workloads: seq<Status>, original: seq<seq<Pod>>)
    requires |workloads| == |original|
  {
    forall i :: 0 <= i < |workloads| && !workloads[i].ended ==>
                  W.StoppedNodes(original[i]) <= StillShown(workloads, original)
  }

  /** Offloading some of the workloads is invisible to the idle-node reader if and only if the node of every
      stopped pod of a live workload hosts an active pod of some live workload, or a stopped one of a live
      workload whose pods are still stored. */
  lemma OffloadKeepsIdleIff(workloads: seq<Status>, plain: seq<Status>, original: seq<seq<Pod>>)
    requires AllShow(workloads, original) && IsPlain(plain, workloads, original)
    ensures InUse(workloads) == InUse(plain) <==> StoppedAreShown(workloads, original)
  {
    InUseIsStillShown(workloads, original);
    InUseIsStillShown(plain, original);
    forall n | n in StillShown(workloads, original) ensures n in StillShown(plain, original) {
      var i :| 0 <= i < |workloads| && !workloads[i].ended && n in Shown(workloads[i], original[i]);
      assert n in Shown(plain[i], original[i]);
    }
    forall i, n | 0 <= i < |plain| && !plain[i].ended && n in Shown(plain[i], original[i])
      ensures n in StillShown(plain, original)
      ensures n in StillShown(workloads, original) || n in W.StoppedNodes(original[i])
    {
      assert n in ActiveNodes(original[i]) - {""} ==> n in Shown(workloads[i], original[i]);
    }
    if StoppedAreShown(workloads, original) {
      forall n | n in StillShown(plain, original) ensures n in StillShown(workloads, original) {
        var i :| 0 <= i < |plain| && !plain[i].ended && n in Shown(plain[i], original[i]);
      }
    } else {
      var i :| && 0 <= i < |workloads| && !workloads[i].ended
               && !(W.StoppedNodes(original[i]) <= StillShown(workloads, original));
      var n :| n in W.StoppedNodes(original[i]) && n !in StillShown(workloads, original);
      assert n in Shown(plain[i], original[i]);
    }
  }

  function LiveActive(workloads: seq<Status>, original: seq<seq<Pod>>): set<string>
    requires |workloads| == |original|
  {
    set i, n | 0 <= i < |workloads| && !workloads[i].ended && n in ActiveNodes(original[i]) :: n
  }

  /** With every workload offloaded only active pods keep a node busy. */
  lemma AllOffloadedKeepsIdleIff(workloads: seq<Status>, plain: seq<Status>, original: seq<seq<Pod>>)
    requires |workloads| == |original| && IsPlain(plain, workloads, original)
    requires forall i :: 0 <= i < |workloads| ==> workloads[i].pods == [] && IsUsageOf(workloads[i].usage, original[i])
    ensures InUse(workloads) == InUse(plain) <==>
            forall i :: 0 <= i < |workloads| && !workloads[i].ended ==>
                          W.StoppedNodes(original[i]) <= LiveActive(workloads, original)
  {
    OffloadKeepsIdleIff(workloads, plain, original);
    OnlyActiveShown(workloads, original);
    forall i | 0 <= i < |original| ensures "" !in W.StoppedNodes(original[i]) {
    }
  }

  lemma OnlyActiveShown(workloads: seq<Status>, original: seq<seq<Pod>>)
    requires |workloads| == |original|
    requires forall i :: 0 <= i < |workloads| ==> workloads[i].pods == [] && IsUsageOf(workloads[i].usage, original[i])
    ensures StillShown(workloads, original) == LiveActive(workloads, original) - {""}
  {
    forall i | 0 <= i < |workloads| ensures Shown(workloads[i], original[i]) == ActiveNodes(original[i]) - {""} {
      assert ReadAsPods(workloads[i], original[i]) ==> W.StoppedNodes(original[i]) == {};
    }
    forall i, n | 0 <= i < |workloads| && !workloads[i].ended && n in ActiveNodes(original[i]) - {""}
      ensures n in StillShown(workloads, original)
    {
      assert n in Shown(workloads[i], original[i]);
    }
  }

  /** It is enough that each workload's stopped pods sit beside active pods of its own. */
  lemma OffloadKeepsIdle(workloads: seq<Status>, plain: seq<Status>, original: seq<seq<Pod>>)
    requires AllShow(workloads, original) && IsPlain(plain, workloads, original)
    requires forall i :: 0 <= i < |original| && !workloads[i].ended ==>
                           W.StoppedNodes(original[i]) <= ActiveNodes(original[i])
    ensures InUse(workloads) == InUse(plain)
  {
    OffloadKeepsIdleIff(workloads, plain, original);
    forall i, n | 0 <= i < |workloads| && !workloads[i].ended && n in W.StoppedNodes(original[i])
      ensures n in StillShown(workloads, original)
    {
      assert n in Shown(workloads[i], original[i]);
    }
  }
}
