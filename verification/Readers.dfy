/** The readers of a workload's status (workload.go). Each reads the aggregate when there is one
    and the pod list otherwise. */
module Readers {
  import opened Decimal
  import opened NodeUsage
  import opened Options
  import opened Quantity

  /** Resource ids are an int8; negative ones would index out of range in Go. */
  predicate ValidIds(pods: seq<Pod>) {
    forall i :: 0 <= i < |pods| ==> 0 <= pods[i].rid < 128
  }

  /** int8(n). */
  function Int8(n: nat): int {
    (n + 128) % 256 - 128
  }

  predicate HasPods(w: seq<nat>) {
    exists i :: 0 <= i < |w| && w[i] > 0
  }

  predicate Wanted(admin: string, n: string) {
    n != "" && (admin == "" || admin == n)
  }

  function Entry(ans: map<string, ResourceList>, n: string): Option<ResourceList> {
    if n in ans then Some(ans[n]) else None
  }

  /** One pod is counted, and it is of kind r. */
  predicate IsLone(w: seq<nat>, r: nat) {
    r < |w| && w[r] == 1 && forall i :: 0 <= i < |w| && i != r ==> w[i] == 0
  }

  /** A node has a list exactly when it is wanted and hosts counted pods. The list is their sum, except that
      the scan keeps the list of a single pod as it is, keys that are not concerned included. */
  ghost predicate AnswerAt(entry: Option<ResourceList>, rdma: string, res: seq<ResourceList>, wanted: bool, w: seq<nat>,
                           scanned: bool)
    requires |w| == |res|
  {
    && (entry.Some? <==> wanted && HasPods(w))
    && (entry.Some? && scanned ==> forall r: nat :: IsLone(w, r) ==> entry.value == res[r])
    && (entry.Some? && !(scanned && exists r: nat :: IsLone(w, r)) ==> entry.value == SumOf(rdma, w, res))
  }

  /** The pods GetResourcesPerNode counts on a node: those IsPodRunning accepts (`placed`), or
      the active ones. */
  function NodeWeights(pods: seq<Pod>, placed: bool, n: string, kinds: nat): (w: seq<nat>)
    ensures |w| == kinds
  {
    Weights(pods, if placed then PlacedOn(n) else ActiveOn(n), kinds)
  }

  ghost predicate PerNodeAnswer(ans: map<string, ResourceList>, rdma: string, res: seq<ResourceList>,
                                admin: string, pods: seq<Pod>, placed: bool) {
    forall n :: AnswerAt(Entry(ans, n), rdma, res, Wanted(admin, n), NodeWeights(pods, placed, n, |res|), placed)
  }

  // ---------- reading the aggregate ----------

  function AddWeights(a: seq<nat>, b: seq<nat>): (c: seq<nat>)
    requires |a| == |b|
    ensures |c| == |a|
  {
    seq(|a|, i requires 0 <= i < |a| => a[i] + b[i])
  }

  /** The counts whose keys have been visited. */
  function Visited(active: map<string, int>, todo: set<string>, kinds: nat): (w: seq<nat>)
    requires forall k :: k in active ==> active[k] >= 0
    ensures |w| == kinds
  {
    seq(kinds, r requires 0 <= r < kinds =>
      if RidKey(r) in active && RidKey(r) !in todo then active[RidKey(r)] else 0)
  }

  /** Visiting one more key adds its count under its id, if the id has a resource list. */
  lemma VisitOne(active: map<string, int>, todo: set<string>, w0: seq<nat>, key: string, rid: int)
    requires forall k :: k in active ==> active[k] > 0
    requires key == RidKey(rid) && key in todo && todo <= active.Keys
    ensures var w := AddWeights(w0, Visited(active, todo, |w0|));
      var w' := AddWeights(w0, Visited(active, todo - {key}, |w0|));
      w' == if 0 <= rid < |w0| then w[rid := w[rid] + active[key]] else w
    ensures var v, v' := Visited(active, todo, |w0|), Visited(active, todo - {key}, |w0|);
      if 0 <= rid < |w0| then HasPods(v') else v' == v
  {
    forall r | 0 <= r < |w0| && r != rid ensures RidKey(r) != key {
      if RidKey(r) == key { RidKeyInjective(r, rid); }
    }
    var v, v' := Visited(active, todo, |w0|), Visited(active, todo - {key}, |w0|);
    if 0 <= rid < |w0| { assert v'[rid] > 0; } else { assert v' == v; }
  }

  /** Positive counts under the decimal keys of resource ids. */
  predicate Canonical(active: map<string, int>) {
    forall key :: key in active ==>
      active[key] > 0 && ParseRid(key).Some? && ParseRid(key).value >= 0 && RidKey(ParseRid(key).value) == key
  }

  function VisitedSum(rdma: string, active: map<string, int>, todo: set<string>, w0: seq<nat>,
                      res: seq<ResourceList>): ResourceList
    requires |w0| == |res| && forall k :: k in active ==> active[k] >= 0
  {
    SumOf(rdma, AddWeights(w0, Visited(active, todo, |w0|)), res)
  }

  lemma SumAfter(rdma: string, w: seq<nat>, w': seq<nat>, res: seq<ResourceList>, rid: int, n: nat)
    requires |w| == |w'| == |res| && w' == if 0 <= rid < |res| then w[rid := w[rid] + n] else w
    ensures SumOf(rdma, w', res) == if 0 <= rid < |res| then PlusTimes(rdma, SumOf(rdma, w, res), res[rid], n)
                                    else SumOf(rdma, w, res)
  {
    if 0 <= rid < |res| { PlusTimesBump(rdma, w, w', res, rid, n); }
  }

  lemma VisitOneSum(rdma: string, active: map<string, int>, todo: set<string>, w0: seq<nat>, res: seq<ResourceList>,
                    key: string, rid: int)
    requires |w0| == |res| && forall k :: k in active ==> active[k] > 0
    requires key == RidKey(rid) && key in todo && todo <= active.Keys
    ensures var sum, sum' := VisitedSum(rdma, active, todo, w0, res), VisitedSum(rdma, active, todo - {key}, w0, res);
      sum' == if 0 <= rid < |res| then PlusTimes(rdma, sum, res[rid], active[key]) else sum
  {
    var w, w' := AddWeights(w0, Visited(active, todo, |w0|)), AddWeights(w0, Visited(active, todo - {key}, |w0|));
    VisitOne(active, todo, w0, key, rid);
    SumAfter(rdma, w, w', res, rid, active[key]);
  }

  /** Adds the pods of one entry to a sum, whatever order the map is ranged over. */
  method AddCounts(rdma: string, active: map<string, int>, res: seq<ResourceList>, sum: ResourceList,
                   ghost w0: seq<nat>)
    returns (r: ResourceList, touched: bool)
    requires |w0| == |res| && sum == SumOf(rdma, w0, res) && Canonical(active)
    ensures r == SumOf(rdma, AddWeights(w0, Visited(active, {}, |res|)), res)
    ensures (touched <==> HasPods(Visited(active, {}, |res|))) && (!touched ==> r == sum)
  {
    r, touched := sum, false;
    var todo := active.Keys;
    assert AddWeights(w0, Visited(active, todo, |w0|)) == w0;
    while todo != {}
      invariant todo <= active.Keys
      invariant r == VisitedSum(rdma, active, todo, w0, res)
      invariant touched <==> HasPods(Visited(active, todo, |w0|))
      invariant !touched ==> r == sum
    {
      var key :| key in todo;
      var rid, count := ParseRid(key), active[key];
      VisitOneSum(rdma, active, todo, w0, res, key, rid.value);
      VisitOne(active, todo, w0, key, rid.value);
      todo := todo - {key};
      if rid.None? || rid.value >= |res| || count <= 0 {
        continue;
      }
      r := AddResourceNTimes(rdma, r, res[rid.value], count);
      touched := true;
    }
  }

  lemma CountedKey(m: map<string, int>, pods: seq<Pod>, sel: Selection, id: int)
    requires ValidIds(pods) && CountsOf(m, pods, sel) && RidKey(id) in m
    ensures m[RidKey(id)] > 0 && id >= 0 && ParseRid(RidKey(id)) == Some(id)
  {
    CountedIdsAreValid(pods, sel, id);
    RidRoundTrip(id);
  }

  lemma CountsAreCanonical(m: map<string, int>, pods: seq<Pod>, sel: Selection, kinds: nat)
    requires ValidIds(pods) && CountsOf(m, pods, sel)
    ensures Canonical(m) && Visited(m, {}, kinds) == Weights(pods, sel, kinds)
  {
    forall key | key in m
      ensures m[key] > 0 && ParseRid(key).Some? && ParseRid(key).value >= 0 && RidKey(ParseRid(key).value) == key
    {
      var id :| key == RidKey(id);
      CountedKey(m, pods, sel, id);
    }
    VisitedAreWeights(m, pods, sel, kinds);
  }

  lemma VisitedAreWeights(m: map<string, int>, pods: seq<Pod>, sel: Selection, kinds: nat)
    requires CountsOf(m, pods, sel) && forall key :: key in m ==> m[key] > 0
    ensures Visited(m, {}, kinds) == Weights(pods, sel, kinds)
  {
    forall r | 0 <= r < kinds ensures Visited(m, {}, kinds)[r] == Weights(pods, sel, kinds)[r] {
      assert RidKey(r) in m <==> Count(pods, sel, r) > 0;
    }
  }

  lemma {:induction false} CountedIdsAreValid(pods: seq<Pod>, sel: Selection, r: int)
    requires ValidIds(pods) && Count(pods, sel, r) > 0
    ensures 0 <= r < 128
    decreases |pods|
  {
    var last := |pods| - 1;
    if Count(pods[..last], sel, r) > 0 { CountedIdsAreValid(pods[..last], sel, r); }
  }

  function Zeros(kinds: nat): (w: seq<nat>)
    ensures |w| == kinds
  {
    seq(kinds, _ => 0)
  }

  lemma SumOfZeros(rdma: string, w: seq<nat>, res: seq<ResourceList>)
    requires |w| == |res| && !HasPods(w)
    ensures SumOf(rdma, w, res) == map[]
  {
  }

  lemma {:induction false} CountNone(pods: seq<Pod>, sel: Selection, r: int)
    requires forall i :: 0 <= i < |pods| ==> !Selects(sel, pods[i])
    ensures Count(pods, sel, r) == 0
    decreases |pods|
  {
    if pods != [] { CountNone(pods[..|pods| - 1], sel, r); }
  }

  lemma NoPodsElsewhere(pods: seq<Pod>, n: string, kinds: nat)
    requires n !in ActiveNodes(pods)
    ensures !HasPods(Weights(pods, ActiveOn(n), kinds))
  {
    forall r | 0 <= r < kinds ensures Count(pods, ActiveOn(n), r) == 0 { CountNone(pods, ActiveOn(n), r); }
  }

  function NodesOf(usage: seq<NodePodUsage>): set<string> {
    set i | 0 <= i < |usage| :: usage[i].node
  }

  lemma NodesOfSnoc(usage: seq<NodePodUsage>, i: nat)
    requires i < |usage|
    ensures NodesOf(usage[..i + 1]) == NodesOf(usage[..i]) + {usage[i].node}
  {
    forall n ensures n in NodesOf(usage[..i + 1]) <==> n in NodesOf(usage[..i]) || n == usage[i].node {
      if j :| 0 <= j < i && usage[..i][j].node == n { assert usage[..i + 1][j].node == n; }
      if n == usage[i].node { assert usage[..i + 1][i].node == n; }
    }
  }

  lemma UsageNodesAreActive(usage: seq<NodePodUsage>, pods: seq<Pod>)
    requires IsUsageOf(usage, pods)
    ensures NodesOf(usage) == ActiveNodes(pods)
  {
  }

  /** The answer for the entries read so far. */
  ghost predicate PartialAnswer(ans: map<string, ResourceList>, rdma: string, res: seq<ResourceList>,
                                admin: string, pods: seq<Pod>, done: set<string>) {
    forall n :: AnswerAt(Entry(ans, n), rdma, res, Wanted(admin, n) && n in done,
                         NodeWeights(pods, false, n, |res|), false)
  }

  lemma SumOfIsConcerned(rdma: string, w: seq<nat>, res: seq<ResourceList>)
    requires |w| == |res|
    ensures Normalize(rdma, SumOf(rdma, w, res)) == SumOf(rdma, w, res)
  {
  }

  /** The list one entry of the aggregate contributes. */
  method EntryResources(rdma: string, u: NodePodUsage, res: seq<ResourceList>, ghost pods: seq<Pod>)
    returns (sum: ResourceList, touched: bool)
    requires ValidIds(pods) && CountsOf(u.active, pods, ActiveOn(u.node))
    ensures AnswerAt(if touched then Some(sum) else None, rdma, res, true, NodeWeights(pods, false, u.node, |res|),
                     false)
  {
    ghost var zeros, w := Zeros(|res|), NodeWeights(pods, false, u.node, |res|);
    CountsAreCanonical(u.active, pods, ActiveOn(u.node), |res|);
    SumOfZeros(rdma, zeros, res);
    sum, touched := AddCounts(rdma, u.active, res, map[], zeros);
    assert AddWeights(zeros, w) == w;
  }

  /** The aggregate answers GetResourcesPerNode by the active pods it was built from. Its entries
      are for distinct nodes, so every entry starts from an empty list. */
  method ResourcesPerNodeFromUsage(rdma: string, usage: seq<NodePodUsage>, res: seq<ResourceList>, admin: string,
                                   ghost pods: seq<Pod>)
    returns (ans: map<string, ResourceList>)
    requires ValidIds(pods) && IsUsageOf(usage, pods)
    ensures PerNodeAnswer(ans, rdma, res, admin, pods, false)
  {
    ans := map[];
    for i := 0 to |usage|
      invariant PartialAnswer(ans, rdma, res, admin, pods, NodesOf(usage[..i]))
    {
      NodesOfSnoc(usage, i);
      var u := usage[i];
      if u.node == "" || (admin != "" && admin != u.node) {
        continue;
      }
      NodeIsNew(usage, i, pods);
      var sum, touched := EntryResources(rdma, u, res, pods);
      EntryAnswers(ans, if touched then Some(sum) else None, rdma, res, admin, pods, NodesOf(usage[..i]), u.node);
      if touched {
        ans := ans[u.node := sum];
      }
    }
    assert usage[..|usage|] == usage;
    UsageNodesAreActive(usage, pods);
    AllEntriesAnswer(ans, rdma, res, admin, pods);
  }

  lemma NodeIsNew(usage: seq<NodePodUsage>, i: nat, pods: seq<Pod>)
    requires IsUsageOf(usage, pods) && i < |usage|
    ensures usage[i].node !in NodesOf(usage[..i]) && CountsOf(usage[i].active, pods, ActiveOn(usage[i].node))
  {
    assert EntryOf(usage[i], usage[i].node, pods);
  }

  function Extended(ans: map<string, ResourceList>, n: string, entry: Option<ResourceList>): map<string, ResourceList> {
    if entry.Some? then ans[n := entry.value] else ans
  }

  /** One more node is answered for. */
  lemma EntryAnswers(ans: map<string, ResourceList>, entry: Option<ResourceList>, rdma: string, res: seq<ResourceList>,
                     admin: string, pods: seq<Pod>, done: set<string>, n: string)
    requires PartialAnswer(ans, rdma, res, admin, pods, done) && n !in done && Wanted(admin, n)
    requires AnswerAt(entry, rdma, res, true, NodeWeights(pods, false, n, |res|), false)
    ensures PartialAnswer(Extended(ans, n, entry), rdma, res, admin, pods, done + {n})
  {
    assert AnswerAt(Entry(ans, n), rdma, res, false, NodeWeights(pods, false, n, |res|), false);
    forall m ensures AnswerAt(Entry(Extended(ans, n, entry), m), rdma, res, Wanted(admin, m) && m in done + {n},
                              NodeWeights(pods, false, m, |res|), false) {
      assert AnswerAt(Entry(ans, m), rdma, res, Wanted(admin, m) && m in done,
                      NodeWeights(pods, false, m, |res|), false);
    }
  }

  lemma AllEntriesAnswer(ans: map<string, ResourceList>, rdma: string, res: seq<ResourceList>, admin: string,
                         pods: seq<Pod>)
    requires PartialAnswer(ans, rdma, res, admin, pods, ActiveNodes(pods))
    ensures PerNodeAnswer(ans, rdma, res, admin, pods, false)
  {
    forall n ensures AnswerAt(Entry(ans, n), rdma, res, Wanted(admin, n), NodeWeights(pods, false, n, |res|), false) {
      assert AnswerAt(Entry(ans, n), rdma, res, Wanted(admin, n) && n in ActiveNodes(pods),
                      NodeWeights(pods, false, n, |res|), false);
      if n !in ActiveNodes(pods) { NoPodsElsewhere(pods, n, |res|); }
    }
  }

  lemma WeightsSnoc(pods: seq<Pod>, p: Pod, sel: Selection, kinds: nat)
    ensures var w := Weights(pods, sel, kinds);
      Weights(pods + [p], sel, kinds) == if Selects(sel, p) && 0 <= p.rid < kinds then w[p.rid := w[p.rid] + 1] else w
  {
    forall r | 0 <= r < kinds
      ensures Count(pods + [p], sel, r) == Count(pods, sel, r) + if Selects(sel, p) && p.rid == r then 1 else 0
    {
      CountSnoc(pods, p, sel, r);
    }
  }

  lemma LoneSum(rdma: string, w: seq<nat>, res: seq<ResourceList>, r: nat)
    requires |w| == |res| && IsLone(w, r)
    ensures SumOf(rdma, w, res) == Normalize(rdma, res[r])
  {
    var zeros := Zeros(|res|);
    SumOfZeros(rdma, zeros, res);
    SumOfBump(rdma, zeros, res, r);
    assert zeros[r := zeros[r] + 1] == w;
    PlusDropsUnconcerned(rdma, map[], res[r]);
  }

  /** Whichever way the list was built, its concerned part is the sum. */
  lemma AnswerIsSum(list: ResourceList, rdma: string, res: seq<ResourceList>, wanted: bool, w: seq<nat>, scanned: bool)
    requires |w| == |res| && AnswerAt(Some(list), rdma, res, wanted, w, scanned)
    ensures Normalize(rdma, list) == SumOf(rdma, w, res)
  {
    SumOfIsConcerned(rdma, w, res);
    if scanned && exists r: nat :: IsLone(w, r) {
      var r: nat :| IsLone(w, r);
      LoneSum(rdma, w, res, r);
    }
  }

  /** One more pod of kind `rid` on a node. */
  method CountPod(rdma: string, entry: Option<ResourceList>, res: seq<ResourceList>, rid: nat, ghost w: seq<nat>)
    returns (list: ResourceList)
    requires |w| == |res| && rid < |res| && AnswerAt(entry, rdma, res, true, w, true)
    ensures AnswerAt(Some(list), rdma, res, true, w[rid := w[rid] + 1], true)
  {
    ghost var more := w[rid := w[rid] + 1];
    assert more[rid] > 0;
    if entry.Some? {
      PlusAllTwo(rdma, entry.value, res[rid]);
      list := AddResource(rdma, [entry.value, res[rid]]);
      AnswerIsSum(entry.value, rdma, res, true, w, true);
      PlusDropsUnconcerned(rdma, entry.value, res[rid]);
      SumOfBump(rdma, w, res, rid);
      NotLoneAnyMore(w, more, rid);
    } else {
      list := res[rid];
      assert IsLone(more, rid);
    }
  }

  lemma NotLoneAnyMore(w: seq<nat>, more: seq<nat>, rid: nat)
    requires HasPods(w) && rid < |w| && more == w[rid := w[rid] + 1]
    ensures forall r: nat :: !IsLone(more, r)
  {
    var i :| 0 <= i < |w| && w[i] > 0;
    assert more[i] > 0 && more[rid] > 0 && (i == rid ==> more[i] > 1);
  }

  /** The pod scan of GetResourcesPerNode counts the pods IsPodRunning accepts. */
  method ResourcesPerNodeFromPods(rdma: string, pods: seq<Pod>, res: seq<ResourceList>, admin: string)
    returns (ans: map<string, ResourceList>)
    requires ValidIds(pods) && |res| < 128
    ensures PerNodeAnswer(ans, rdma, res, admin, pods, true)
  {
    ans := map[];
    NothingScanned(rdma, res, admin);
    assert pods[..0] == [];
    for i := 0 to |pods|
      invariant PerNodeAnswer(ans, rdma, res, admin, pods[..i], true)
    {
      var pod := pods[i];
      if !IsPodRunning(pod) || pod.rid >= Int8(|res|) {
        ScanSkips(ans, rdma, pods, res, admin, i);
        continue;
      }
      if admin != "" && admin != pod.node {
        ScanSkips(ans, rdma, pods, res, admin, i);
        continue;
      }
      AnswerFor(ans, rdma, res, admin, pods[..i], pod.node);
      var list := CountPod(rdma, Entry(ans, pod.node), res, pod.rid, NodeWeights(pods[..i], true, pod.node, |res|));
      ScanCounts(ans, list, rdma, pods, res, admin, i);
      ans := ans[pod.node := list];
    }
    assert pods[..|pods|] == pods;
  }

  lemma NothingScanned(rdma: string, res: seq<ResourceList>, admin: string)
    ensures PerNodeAnswer(map[], rdma, res, admin, [], true)
  {
    forall n ensures AnswerAt(Entry(map[], n), rdma, res, Wanted(admin, n), NodeWeights([], true, n, |res|), true) {
      assert NodeWeights([], true, n, |res|) == Zeros(|res|);
    }
  }

  lemma AnswerFor(ans: map<string, ResourceList>, rdma: string, res: seq<ResourceList>, admin: string,
                  pods: seq<Pod>, n: string)
    requires PerNodeAnswer(ans, rdma, res, admin, pods, true) && Wanted(admin, n)
    ensures AnswerAt(Entry(ans, n), rdma, res, true, NodeWeights(pods, true, n, |res|), true)
  {
  }

  lemma ScanSkips(ans: map<string, ResourceList>, rdma: string, pods: seq<Pod>, res: seq<ResourceList>,
                  admin: string, i: nat)
    requires i < |pods| && pods[i].rid >= 0 && PerNodeAnswer(ans, rdma, res, admin, pods[..i], true)
    requires !IsPodRunning(pods[i]) || pods[i].rid >= |res| || !Wanted(admin, pods[i].node)
    ensures PerNodeAnswer(ans, rdma, res, admin, pods[..i + 1], true)
  {
    ScanStep(rdma, pods, res, admin, i);
    forall n ensures AnswerAt(Entry(ans, n), rdma, res, Wanted(admin, n),
                              NodeWeights(pods[..i + 1], true, n, |res|), true) {
      assert AnswerAt(Entry(ans, n), rdma, res, Wanted(admin, n), NodeWeights(pods[..i], true, n, |res|), true);
    }
  }

  lemma ScanCounts(ans: map<string, ResourceList>, list: ResourceList, rdma: string, pods: seq<Pod>,
                   res: seq<ResourceList>, admin: string, i: nat)
    requires i < |pods| && 0 <= pods[i].rid < |res| && PerNodeAnswer(ans, rdma, res, admin, pods[..i], true)
    requires IsPodRunning(pods[i]) && Wanted(admin, pods[i].node)
    requires var w := NodeWeights(pods[..i], true, pods[i].node, |res|);
      AnswerAt(Some(list), rdma, res, true, w[pods[i].rid := w[pods[i].rid] + 1], true)
    ensures PerNodeAnswer(ans[pods[i].node := list], rdma, res, admin, pods[..i + 1], true)
  {
    ScanStep(rdma, pods, res, admin, i);
    var ans' := ans[pods[i].node := list];
    forall n ensures AnswerAt(Entry(ans', n), rdma, res, Wanted(admin, n),
                              NodeWeights(pods[..i + 1], true, n, |res|), true) {
      assert AnswerAt(Entry(ans, n), rdma, res, Wanted(admin, n), NodeWeights(pods[..i], true, n, |res|), true);
    }
  }

  lemma ScanStep(rdma: string, pods: seq<Pod>, res: seq<ResourceList>, admin: string, i: nat)
    requires i < |pods| && pods[i].rid >= 0
    ensures forall n :: var w := NodeWeights(pods[..i], true, n, |res|);
      NodeWeights(pods[..i + 1], true, n, |res|) ==
        if IsPodRunning(pods[i]) && pods[i].node == n && pods[i].rid < |res|
        then w[pods[i].rid := w[pods[i].rid] + 1] else w
  {
    assert pods[..i + 1] == pods[..i] + [pods[i]];
    forall n { WeightsSnoc(pods[..i], pods[i], PlacedOn(n), |res|); }
  }
}
