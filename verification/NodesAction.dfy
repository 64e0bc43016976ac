/** Adding nodes to a workspace and removing them (workspace_webhook.go): the actions are iterated in
    map order, so in any order, and each one adjusts the replica count and perhaps the flavor. */
module NodesAction {
  import opened Options
  import opened Sequences

  const ADD := "add"
  const REMOVE := "remove"

  type Actions = map<string, string>

  datatype Node = Node(cluster: string, workspace: string, flavor: string)

  datatype Home = Home(name: string, cluster: string)

  datatype Error = ReplicaChanged | NotFound(key: string) | ClusterMismatch | FlavorMismatch | Busy

  /** The fields the loop updates. */
  datatype Fields = Fields(replica: int, flavor: string, kept: Actions)

  datatype Result = Done(fields: Fields) | Refused(error: Error)

  /** The cases in which the loop goes on to the next key. */
  predicate Skips(h: Home, val: string, n: Node) {
    if val == ADD then n.workspace == h.name
    else if val == REMOVE then n.workspace == ""
    else true
  }

  /** The loop body. */
  function Take(h: Home, key: string, actions: Actions, nodes: map<string, Node>, f: Fields): Result
    requires key in actions
  {
    var val := actions[key];
    if key !in nodes then Refused(NotFound(key))
    else if nodes[key].cluster != h.cluster then Refused(ClusterMismatch)
    else
      var n := nodes[key];
      var kept := f.kept[key := val];
      if Skips(h, val, n) then Done(f)
      else if f.replica == 0 then
        if val == ADD then Done(Fields(1, n.flavor, kept)) else Done(f.(kept := kept))
      else if n.flavor != f.flavor then Refused(FlavorMismatch)
      else if val == ADD then Done(Fields(f.replica + 1, f.flavor, kept))
      else Done(Fields(f.replica - 1, f.flavor, kept))
  }

  ghost predicate InActions(order: seq<string>, actions: Actions) {
    forall i :: 0 <= i < |order| ==> order[i] in actions
  }

  /** The loop, in this order. */
  function Process(h: Home, order: seq<string>, actions: Actions, nodes: map<string, Node>, f: Fields): Result
    requires InActions(order, actions)
    decreases |order|
  {
    if order == [] then Done(f)
    else
      var r := Take(h, order[0], actions, nodes, f);
      if r.Refused? then r else Process(h, order[1..], actions, nodes, r.fields)
  }

  ghost predicate IsOrderOf(order: seq<string>, actions: Actions) {
    NoDuplicates(order) && InActions(order, actions) && forall k :: k in actions ==> k in order
  }

  function Parsed(annotation: Option<Actions>): Actions {
    if annotation.Some? then annotation.value else map[]
  }

  class Workspace {
    const home: Home
    var replica: int
    var flavor: string
    var annotation: Option<Actions>
    var forced: bool

    constructor (home: Home, replica: int, flavor: string, annotation: Option<Actions>, forced: bool)
      ensures this.home == home && this.replica == replica && this.flavor == flavor
      ensures this.annotation == annotation && this.forced == forced
    {
      this.home, this.replica, this.flavor, this.annotation, this.forced := home, replica, flavor, annotation, forced;
    }

    /** `order` is the order in which the loop met the actions. A request that goes through leaves the
        effective actions in the annotation; while earlier actions are in progress it leaves exactly those. */
    method MutateNodesAction(oldReplica: int, oldAnnotation: Option<Actions>, nodes: map<string, Node>)
      returns (e: Option<Error>, ghost order: seq<string>)
      modifies this
      ensures oldReplica != old(replica) ==> e == Some(ReplicaChanged) && unchanged(this)
      ensures oldReplica == old(replica) && old(annotation).None? ==> e.None? && unchanged(this)
      ensures oldReplica == old(replica) && old(annotation).Some? ==>
        var actions, before := old(annotation).value, Fields(old(replica), old(flavor), map[]);
        && NoDuplicates(order) && InActions(order, actions)
        && var r := Process(home, order, actions, nodes, before);
           match e
           case Some(error) =>
             r == Refused(error) ||
             (error.Busy? && r.Done? && Parsed(oldAnnotation) != map[]
              && r.fields.kept != map[] && r.fields.kept != Parsed(oldAnnotation))
           case None =>
             && IsOrderOf(order, actions) && r.Done? && r.fields.replica == replica && r.fields.flavor == flavor
             && Parsed(annotation) == (if r.fields.kept == map[] then Parsed(oldAnnotation) else r.fields.kept)
             && (Parsed(oldAnnotation) != map[] ==> Parsed(annotation) == Parsed(oldAnnotation))
             && (r.fields.kept == map[] && Parsed(oldAnnotation) == map[] ==> annotation.None? && !forced)
      ensures e.Some? || annotation.Some? || old(annotation).None? ==> forced == old(forced)
    {
      order := [];
      if oldReplica != replica { return Some(ReplicaChanged), []; }
      if annotation.None? { return None, []; }
      var current := annotation.value;
      var kept: Actions := map[];
      var left := current.Keys;
      ghost var before := Fields(replica, flavor, map[]);
      while left != {}
        invariant annotation == old(annotation) && current == annotation.value && left <= current.Keys
        invariant forced == old(forced)
        invariant NoDuplicates(order) && InActions(order, current)
        invariant forall k :: k in current ==> (k in left <==> k !in order)
        invariant Process(home, order, current, nodes, before) == Done(Fields(replica, flavor, kept))
        invariant forall k :: k in kept ==> k in current && kept[k] == current[k]
        decreases |left|
      {
        var key :| key in left;
        left := left - {key};
        ProcessJoins(home, order, [key], current, nodes, before);
        order := order + [key];
        OneAction(home, key, current, nodes, Fields(replica, flavor, kept));
        var val := current[key];
        if key !in nodes { return Some(NotFound(key)), order; }
        var n := nodes[key];
        if n.cluster != home.cluster { return Some(ClusterMismatch), order; }
        if val == ADD {
          if n.workspace == home.name { continue; }
        } else if val == REMOVE {
          if n.workspace == "" { continue; }
        } else {
          continue;
        }
        if replica == 0 {
          if val == ADD {
            flavor := n.flavor;
            replica := 1;
          }
        } else {
          if n.flavor != flavor { return Some(FlavorMismatch), order; }
          if val == ADD {
            replica := replica + 1;
          } else {
            replica := replica - 1;
          }
        }
        kept := kept[key := val];
      }
      e := Settle(kept, oldAnnotation);
    }

    /** The annotation after the loop: the actions kept, unless others are in progress. */
    method Settle(kept: Actions, oldAnnotation: Option<Actions>) returns (e: Option<Error>)
      requires annotation.Some? && forall k :: k in kept ==> k in annotation.value && kept[k] == annotation.value[k]
      modifies this`annotation, this`forced
      ensures e == if kept != map[] && Parsed(oldAnnotation) != map[] && Parsed(oldAnnotation) != kept then Some(Busy)
                   else None
      ensures e.Some? ==> annotation == old(annotation)
      ensures e.None? ==> Parsed(annotation) == if kept == map[] then Parsed(oldAnnotation) else kept
      ensures e.None? && kept == map[] && Parsed(oldAnnotation) == map[] ==> annotation.None? && !forced
      ensures e.Some? || annotation.Some? ==> forced == old(forced)
    {
      var current := annotation.value;
      var inProgress := Parsed(oldAnnotation);
      if kept == map[] {
        if inProgress == map[] {
          annotation := None;
          forced := false;
        } else {
          annotation := oldAnnotation;
        }
      } else {
        if inProgress != map[] && inProgress != kept { return Some(Busy); }
        if |kept| != |current| {
          annotation := Some(kept);
        } else {
          SameSizeSameMap(kept, current);
        }
      }
      e := None;
    }
  }

  lemma OneAction(h: Home, key: string, actions: Actions, nodes: map<string, Node>, f: Fields)
    requires key in actions
    ensures Process(h, [key], actions, nodes, f) == Take(h, key, actions, nodes, f)
  {
    assert [key][1..] == [];
  }

  lemma {:induction false} ProcessJoins(h: Home, a: seq<string>, b: seq<string>, actions: Actions,
                                        nodes: map<string, Node>, f: Fields)
    requires InActions(a, actions) && InActions(b, actions)
    ensures var r := Process(h, a, actions, nodes, f);
            Process(h, a + b, actions, nodes, f) == if r.Refused? then r else Process(h, b, actions, nodes, r.fields)
    decreases |a|
  {
    if a == [] {
      assert a + b == b;
    } else {
      assert (a + b)[0] == a[0] && (a + b)[1..] == a[1..] + b;
      var r := Take(h, a[0], actions, nodes, f);
      if r.Done? { ProcessJoins(h, a[1..], b, actions, nodes, r.fields); }
    }
  }

  lemma SameSizeSameMap(m: Actions, n: Actions)
    requires |m| == |n| && forall k :: k in m ==> k in n && m[k] == n[k]
    ensures m == n
  {
    assert m.Keys <= n.Keys;
    assert |m.Keys| == |n.Keys|;
    SubsetOfSameSize(m.Keys, n.Keys);
  }

  lemma SubsetOfSameSize(s: set<string>, t: set<string>)
    requires s <= t && |s| == |t|
    ensures s == t
  {
    assert t == s + (t - s) && |t| == |s| + |t - s|;
  }

  // ---------- what the loop does, whatever the order ----------

  /** Every action names a known node of the right cluster, so that only flavors can stop the loop. */
  ghost predicate Known(h: Home, actions: Actions, nodes: map<string, Node>) {
    forall k :: k in actions ==> k in nodes && nodes[k].cluster == h.cluster
  }

  /** An add of a node that is elsewhere, or a remove of a node that is in some workspace. */
  predicate IsAdd(h: Home, val: string, n: Node) {
    val == ADD && n.workspace != h.name
  }

  predicate IsRemove(val: string, n: Node) {
    val == REMOVE && n.workspace != ""
  }

  predicate Adds(h: Home, actions: Actions, nodes: map<string, Node>, k: string) {
    k in actions && k in nodes && IsAdd(h, actions[k], nodes[k])
  }

  predicate Removes(actions: Actions, nodes: map<string, Node>, k: string) {
    k in actions && k in nodes && IsRemove(actions[k], nodes[k])
  }

  predicate Effective(h: Home, actions: Actions, nodes: map<string, Node>, k: string) {
    Adds(h, actions, nodes, k) || Removes(actions, nodes, k)
  }

  function AddSet(h: Home, actions: Actions, nodes: map<string, Node>): set<string> {
    set k | k in actions && Adds(h, actions, nodes, k)
  }

  function RemoveSet(actions: Actions, nodes: map<string, Node>): set<string> {
    set k | k in actions && Removes(actions, nodes, k)
  }

  function AddCount(h: Home, order: seq<string>, actions: Actions, nodes: map<string, Node>): nat {
    if order == [] then 0
    else (if Adds(h, actions, nodes, order[0]) then 1 else 0) + AddCount(h, order[1..], actions, nodes)
  }

  function RemoveCount(order: seq<string>, actions: Actions, nodes: map<string, Node>): nat {
    if order == [] then 0
    else (if Removes(actions, nodes, order[0]) then 1 else 0) + RemoveCount(order[1..], actions, nodes)
  }

  function Max(a: int, b: int): int {
    if a < b then b else a
  }

  /** The count never goes below zero, and a remove that meets zero is lost. */
  lemma {:induction false} ReplicaWithin(h: Home, order: seq<string>, actions: Actions, nodes: map<string, Node>,
                                         f: Fields)
    requires InActions(order, actions) && Known(h, actions, nodes) && f.replica >= 0
    requires Process(h, order, actions, nodes, f).Done?
    ensures var n := Process(h, order, actions, nodes, f).fields.replica;
            var a, r := AddCount(h, order, actions, nodes), RemoveCount(order, actions, nodes);
            0 <= n && f.replica + a - r <= n <= Max(0, f.replica - r) + a && (r <= f.replica ==> n == f.replica + a - r)
    decreases |order|
  {
    if order != [] {
      var r := Take(h, order[0], actions, nodes, f);
      ReplicaWithin(h, order[1..], actions, nodes, r.fields);
    }
  }

  lemma {:induction false} NeverRefused(h: Home, order: seq<string>, actions: Actions, nodes: map<string, Node>,
                                        f: Fields, flavor: string)
    requires InActions(order, actions) && Known(h, actions, nodes) && (f.replica == 0 || f.flavor == flavor)
    requires forall k :: k in actions && Effective(h, actions, nodes, k) ==> nodes[k].flavor == flavor
    ensures Process(h, order, actions, nodes, f).Done?
    decreases |order|
  {
    if order != [] {
      assert Effective(h, actions, nodes, order[0]) ==> nodes[order[0]].flavor == flavor;
      NeverRefused(h, order[1..], actions, nodes, Take(h, order[0], actions, nodes, f).fields, flavor);
    }
  }

  function AddsIn(h: Home, order: seq<string>, actions: Actions, nodes: map<string, Node>): set<string> {
    set k | k in order && Adds(h, actions, nodes, k)
  }

  function RemovesIn(order: seq<string>, actions: Actions, nodes: map<string, Node>): set<string> {
    set k | k in order && Removes(actions, nodes, k)
  }

  lemma SetsCons(h: Home, order: seq<string>, actions: Actions, nodes: map<string, Node>)
    requires order != []
    ensures AddsIn(h, order, actions, nodes) ==
            (if Adds(h, actions, nodes, order[0]) then {order[0]} else {}) + AddsIn(h, order[1..], actions, nodes)
    ensures RemovesIn(order, actions, nodes) ==
            (if Removes(actions, nodes, order[0]) then {order[0]} else {}) + RemovesIn(order[1..], actions, nodes)
  {
    assert forall k :: k in order <==> k == order[0] || k in order[1..];
  }

  lemma {:induction false} CountsAreSizes(h: Home, order: seq<string>, actions: Actions, nodes: map<string, Node>)
    requires NoDuplicates(order)
    ensures AddCount(h, order, actions, nodes) == |AddsIn(h, order, actions, nodes)|
    ensures RemoveCount(order, actions, nodes) == |RemovesIn(order, actions, nodes)|
    decreases |order|
  {
    if order != [] {
      CountsAreSizes(h, order[1..], actions, nodes);
      SetsCons(h, order, actions, nodes);
      assert order[0] !in order[1..];
    }
  }

  lemma {:induction false} Listing(s: set<string>) returns (order: seq<string>)
    ensures NoDuplicates(order) && forall k :: k in order <==> k in s
    decreases |s|
  {
    if s == {} { return []; }
    var k :| k in s;
    var rest := Listing(s - {k});
    order := [k] + rest;
  }

  /** An order of the actions that begins with `first`. */
  lemma OrderFrom(first: seq<string>, actions: Actions) returns (order: seq<string>, rest: seq<string>)
    requires NoDuplicates(first) && InActions(first, actions)
    ensures order == first + rest && IsOrderOf(order, actions) && forall k :: k in rest ==> k !in first
  {
    rest := Listing(set k | k in actions && k !in first);
    order := first + rest;
    forall i | 0 <= i < |order| ensures order[i] in actions {
      assert i >= |first| ==> rest[i - |first|] in rest;
    }
    forall i, j | 0 <= i < j < |order| ensures order[i] != order[j] {
      assert j >= |first| ==> rest[j - |first|] in rest;
      assert i < |first| ==> order[i] in first;
    }
  }

  // ---------- conservation ----------

  ghost predicate Conserves(h: Home, order: seq<string>, actions: Actions, nodes: map<string, Node>, f: Fields)
    requires InActions(order, actions)
  {
    var r := Process(h, order, actions, nodes, f);
    r.Done? && r.fields.replica == f.replica + |AddSet(h, actions, nodes)| - |RemoveSet(actions, nodes)|
  }

  ghost predicate AlwaysConserves(h: Home, actions: Actions, nodes: map<string, Node>, f: Fields) {
    forall order :: IsOrderOf(order, actions) ==> Conserves(h, order, actions, nodes, f)
  }

  ghost predicate FlavorsAgree(h: Home, actions: Actions, nodes: map<string, Node>, f: Fields)
    requires Known(h, actions, nodes)
  {
    if f.replica == 0 then
      forall k, l :: k in actions && l in actions && Effective(h, actions, nodes, k) && Effective(h, actions, nodes, l)
                     ==> nodes[k].flavor == nodes[l].flavor
    else forall k :: k in actions && Effective(h, actions, nodes, k) ==> nodes[k].flavor == f.flavor
  }

  lemma WholeOrderCounts(h: Home, order: seq<string>, actions: Actions, nodes: map<string, Node>)
    requires IsOrderOf(order, actions)
    ensures AddCount(h, order, actions, nodes) == |AddSet(h, actions, nodes)|
    ensures RemoveCount(order, actions, nodes) == |RemoveSet(actions, nodes)|
  {
    CountsAreSizes(h, order, actions, nodes);
    assert AddSet(h, actions, nodes) == AddsIn(h, order, actions, nodes);
    assert RemoveSet(actions, nodes) == RemovesIn(order, actions, nodes);
  }

  lemma OrderConserves(h: Home, order: seq<string>, actions: Actions, nodes: map<string, Node>, f: Fields)
    requires Known(h, actions, nodes) && f.replica >= |RemoveSet(actions, nodes)| && FlavorsAgree(h, actions, nodes, f)
    requires IsOrderOf(order, actions)
    ensures Conserves(h, order, actions, nodes, f)
  {
    var flavor := f.flavor;
    if f.replica == 0 {
      if k :| k in actions && Effective(h, actions, nodes, k) { flavor := nodes[k].flavor; }
    }
    NeverRefused(h, order, actions, nodes, f, flavor);
    ReplicaWithin(h, order, actions, nodes, f);
    WholeOrderCounts(h, order, actions, nodes);
  }

  lemma {:induction false} CountsJoin(h: Home, a: seq<string>, b: seq<string>, actions: Actions,
                                      nodes: map<string, Node>)
    ensures AddCount(h, a + b, actions, nodes) == AddCount(h, a, actions, nodes) + AddCount(h, b, actions, nodes)
    ensures RemoveCount(a + b, actions, nodes) == RemoveCount(a, actions, nodes) + RemoveCount(b, actions, nodes)
    decreases |a|
  {
    if a == [] {
      assert a + b == b;
    } else {
      assert (a + b)[0] == a[0] && (a + b)[1..] == a[1..] + b;
      CountsJoin(h, a[1..], b, actions, nodes);
    }
  }

  /** An order that meets the keys in s first, and how the loop gets through its two parts. */
  lemma SplitOrder(h: Home, s: set<string>, actions: Actions, nodes: map<string, Node>, f: Fields)
    returns (order: seq<string>, first: seq<string>, rest: seq<string>)
    requires s <= actions.Keys
    ensures IsOrderOf(order, actions) && InActions(first, actions) && InActions(rest, actions)
    ensures NoDuplicates(first) && forall k :: k in first <==> k in s
    ensures var r := Process(h, first, actions, nodes, f);
            Process(h, order, actions, nodes, f) == if r.Refused? then r else Process(h, rest, actions, nodes, r.fields)
    ensures AddCount(h, first, actions, nodes) + AddCount(h, rest, actions, nodes) == |AddSet(h, actions, nodes)|
    ensures RemoveCount(first, actions, nodes) + RemoveCount(rest, actions, nodes) == |RemoveSet(actions, nodes)|
  {
    first := Listing(s);
    forall i | 0 <= i < |first| ensures first[i] in actions { assert first[i] in first; }
    order, rest := OrderFrom(first, actions);
    forall i | 0 <= i < |rest| ensures rest[i] in actions { assert order[|first| + i] == rest[i]; }
    ProcessJoins(h, first, rest, actions, nodes, f);
    WholeOrderCounts(h, order, actions, nodes);
    CountsJoin(h, first, rest, actions, nodes);
  }

  /** With the removes first, more removes than replicas leave exactly the adds. */
  lemma RemovesFirst(h: Home, actions: Actions, nodes: map<string, Node>, f: Fields) returns (order: seq<string>)
    requires Known(h, actions, nodes) && 0 <= f.replica < |RemoveSet(actions, nodes)|
    ensures IsOrderOf(order, actions) && !Conserves(h, order, actions, nodes, f)
    ensures var r := Process(h, order, actions, nodes, f);
            r.Done? ==> r.fields.replica == |AddSet(h, actions, nodes)|
  {
    var first, rest;
    order, first, rest := SplitOrder(h, RemoveSet(actions, nodes), actions, nodes, f);
    CountsAreSizes(h, first, actions, nodes);
    assert RemovesIn(first, actions, nodes) == RemoveSet(actions, nodes) && AddsIn(h, first, actions, nodes) == {};
    var r := Process(h, first, actions, nodes, f);
    if r.Done? {
      ReplicaWithin(h, first, actions, nodes, f);
      if Process(h, rest, actions, nodes, r.fields).Done? { ReplicaWithin(h, rest, actions, nodes, r.fields); }
    }
  }

  /** With the adds first, every remove finds what they have added. */
  lemma AddsFirst(h: Home, actions: Actions, nodes: map<string, Node>, f: Fields) returns (order: seq<string>)
    requires Known(h, actions, nodes) && f.replica >= 0
    ensures IsOrderOf(order, actions)
    ensures var r := Process(h, order, actions, nodes, f);
            var adds, removes := |AddSet(h, actions, nodes)|, |RemoveSet(actions, nodes)|;
            r.Done? ==> r.fields.replica == Max(0, f.replica + adds - removes)
  {
    var first, rest;
    order, first, rest := SplitOrder(h, AddSet(h, actions, nodes), actions, nodes, f);
    CountsAreSizes(h, first, actions, nodes);
    assert AddsIn(h, first, actions, nodes) == AddSet(h, actions, nodes) && RemovesIn(first, actions, nodes) == {};
    var r := Process(h, first, actions, nodes, f);
    if r.Done? {
      ReplicaWithin(h, first, actions, nodes, f);
      if Process(h, rest, actions, nodes, r.fields).Done? { ReplicaWithin(h, rest, actions, nodes, r.fields); }
    }
  }

  /** What stops the loop after some actions stops it in an order that begins with them. */
  lemma RefusedFirst(h: Home, first: seq<string>, actions: Actions, nodes: map<string, Node>, f: Fields)
    returns (order: seq<string>)
    requires NoDuplicates(first) && InActions(first, actions)
    requires Process(h, first, actions, nodes, f).Refused?
    ensures IsOrderOf(order, actions) && Process(h, order, actions, nodes, f).Refused?
  {
    var rest;
    order, rest := OrderFrom(first, actions);
    forall i | 0 <= i < |rest| ensures rest[i] in actions { assert order[|first| + i] == rest[i]; }
    ProcessJoins(h, first, rest, actions, nodes, f);
  }

  lemma OddFlavors(h: Home, actions: Actions, nodes: map<string, Node>, f: Fields) returns (first: seq<string>)
    requires Known(h, actions, nodes) && f.replica >= |RemoveSet(actions, nodes)| && !FlavorsAgree(h, actions, nodes, f)
    ensures NoDuplicates(first) && InActions(first, actions) && Process(h, first, actions, nodes, f).Refused?
  {
    if f.replica == 0 {
      var k, l :| k in actions && l in actions && Effective(h, actions, nodes, k) && Effective(h, actions, nodes, l)
                  && nodes[k].flavor != nodes[l].flavor;
      assert k !in RemoveSet(actions, nodes) && l !in RemoveSet(actions, nodes);
      assert k in RemoveSet(actions, nodes) || Adds(h, actions, nodes, k);
      assert l in RemoveSet(actions, nodes) || Adds(h, actions, nodes, l);
      first := [k, l];
      assert first[1..] == [l];
      OneAction(h, l, actions, nodes, Take(h, k, actions, nodes, f).fields);
    } else {
      var k :| k in actions && Effective(h, actions, nodes, k) && nodes[k].flavor != f.flavor;
      first := [k];
      OneAction(h, k, actions, nodes, f);
    }
  }

  /** In every iteration order the request goes through with old + adds - removes replicas exactly when all nodes
      are known and in the cluster, the removes do not exceed the replica, and the flavors agree. */
  lemma ConservedIff(h: Home, actions: Actions, nodes: map<string, Node>, f: Fields)
    requires f.replica >= 0
    ensures AlwaysConserves(h, actions, nodes, f)
            <==> && Known(h, actions, nodes) && |RemoveSet(actions, nodes)| <= f.replica
                 && FlavorsAgree(h, actions, nodes, f)
  {
    if !Known(h, actions, nodes) {
      var k :| k in actions && !(k in nodes && nodes[k].cluster == h.cluster);
      OneAction(h, k, actions, nodes, f);
      var order := RefusedFirst(h, [k], actions, nodes, f);
    } else if |RemoveSet(actions, nodes)| > f.replica {
      var order := RemovesFirst(h, actions, nodes, f);
    } else if !FlavorsAgree(h, actions, nodes, f) {
      var first := OddFlavors(h, actions, nodes, f);
      var order := RefusedFirst(h, first, actions, nodes, f);
    } else {
      forall order | IsOrderOf(order, actions) ensures Conserves(h, order, actions, nodes, f) {
        OrderConserves(h, order, actions, nodes, f);
      }
    }
  }

  /** The actions kept are the effective ones, whatever the order. */
  lemma {:induction false} KeptAreEffective(h: Home, order: seq<string>, actions: Actions, nodes: map<string, Node>,
                                            f: Fields)
    requires InActions(order, actions) && Known(h, actions, nodes) && Process(h, order, actions, nodes, f).Done?
    ensures var kept := Process(h, order, actions, nodes, f).fields.kept;
            && (forall k :: k in kept <==> k in f.kept || (k in order && Effective(h, actions, nodes, k)))
            && (forall k :: k in order && Effective(h, actions, nodes, k) ==> kept[k] == actions[k])
            && (forall k :: k in f.kept && k !in order ==> kept[k] == f.kept[k])
    decreases |order|
  {
    if order != [] {
      assert order == [order[0]] + order[1..];
      KeptAreEffective(h, order[1..], actions, nodes, Take(h, order[0], actions, nodes, f).fields);
    }
  }

  ghost predicate AddsFlavor(h: Home, order: seq<string>, actions: Actions, nodes: map<string, Node>, flavor: string) {
    exists k :: k in order && Adds(h, actions, nodes, k) && nodes[k].flavor == flavor
  }

  lemma AddsFlavorCons(h: Home, order: seq<string>, actions: Actions, nodes: map<string, Node>, flavor: string)
    requires order != []
    ensures AddsFlavor(h, order, actions, nodes, flavor) <==>
            || (Adds(h, actions, nodes, order[0]) && nodes[order[0]].flavor == flavor)
            || AddsFlavor(h, order[1..], actions, nodes, flavor)
  {
    assert forall k :: k in order <==> k == order[0] || k in order[1..];
  }

  /** The flavor stays while there are more replicas than removes, is an added node's flavor when an empty workspace
      grows, and in between is one or the other. */
  lemma {:induction false} FlavorFollows(h: Home, order: seq<string>, actions: Actions, nodes: map<string, Node>,
                                         f: Fields)
    requires InActions(order, actions) && f.replica >= 0 && Process(h, order, actions, nodes, f).Done?
    ensures var g := Process(h, order, actions, nodes, f).fields;
            && (g.flavor == f.flavor || AddsFlavor(h, order, actions, nodes, g.flavor))
            && (f.replica > RemoveCount(order, actions, nodes) ==> g.flavor == f.flavor)
            && (f.replica == 0 && AddCount(h, order, actions, nodes) > 0 ==>
                  AddsFlavor(h, order, actions, nodes, g.flavor))
    decreases |order|
  {
    if order != [] {
      var r := Take(h, order[0], actions, nodes, f);
      FlavorFollows(h, order[1..], actions, nodes, r.fields);
      AddsFlavorCons(h, order, actions, nodes, Process(h, order, actions, nodes, f).fields.flavor);
    }
  }

  /** An effective action on a node whose flavor is not the workspace's, or not that of an added node. */
  ghost predicate OddFlavor(h: Home, order: seq<string>, actions: Actions, nodes: map<string, Node>, f: Fields,
                            k: string) {
    && k in order && Effective(h, actions, nodes, k)
    && (nodes[k].flavor != f.flavor ||
        exists l :: l in order && Adds(h, actions, nodes, l) && nodes[l].flavor != nodes[k].flavor)
  }

  /** Why the loop may stop: a key that names no node, a node of another cluster, or flavors that differ. */
  ghost predicate Justified(error: Error, h: Home, order: seq<string>, actions: Actions, nodes: map<string, Node>,
                            f: Fields) {
    match error
    case NotFound(k) => k in order && k !in nodes
    case ClusterMismatch => exists k :: k in order && k in nodes && nodes[k].cluster != h.cluster
    case FlavorMismatch => exists k :: OddFlavor(h, order, actions, nodes, f, k)
    case _ => false
  }

  lemma {:induction false} RefusalIsJustified(h: Home, order: seq<string>, actions: Actions, nodes: map<string, Node>,
                                              f: Fields)
    requires InActions(order, actions) && Process(h, order, actions, nodes, f).Refused?
    ensures Justified(Process(h, order, actions, nodes, f).error, h, order, actions, nodes, f)
    decreases |order|
  {
    var r, error := Take(h, order[0], actions, nodes, f), Process(h, order, actions, nodes, f).error;
    if r.Refused? {
      if error.FlavorMismatch? { assert OddFlavor(h, order, actions, nodes, f, order[0]); }
    } else {
      RefusalIsJustified(h, order[1..], actions, nodes, r.fields);
      assert forall k :: k in order[1..] ==> k in order;
      if error.FlavorMismatch? {
        var k :| OddFlavor(h, order[1..], actions, nodes, r.fields, k);
        assert OddFlavor(h, order, actions, nodes, f, k);
      }
    }
  }

  function EffectiveActions(h: Home, actions: Actions, nodes: map<string, Node>): Actions {
    map k | k in actions && Effective(h, actions, nodes, k) :: actions[k]
  }

  /** A request that repeats the actions in progress, with ineffective ones added, is not busy and keeps the
      annotation, but counts them once more: the replica stays only if their adds and removes balance. */
  lemma ResubmittedActionsCountAgain(h: Home, order: seq<string>, actions: Actions, inProgress: Actions,
                                     nodes: map<string, Node>, f: Fields)
    requires Known(h, actions, nodes) && f.replica >= |RemoveSet(actions, nodes)| && FlavorsAgree(h, actions, nodes, f)
    requires IsOrderOf(order, actions) && f.kept == map[]
    requires inProgress == EffectiveActions(h, actions, nodes)
    ensures var r := Process(h, order, actions, nodes, f);
            && r.Done? && r.fields.kept == inProgress
            && (r.fields.replica == f.replica <==> |AddSet(h, inProgress, nodes)| == |RemoveSet(inProgress, nodes)|)
  {
    assert AddSet(h, inProgress, nodes) == AddSet(h, actions, nodes);
    assert RemoveSet(inProgress, nodes) == RemoveSet(actions, nodes);
    OrderConserves(h, order, actions, nodes, f);
    InProgressKept(h, order, actions, nodes, f);
  }

  // ---------- when a repeated request changes nothing ----------

  ghost predicate Unchanged(h: Home, order: seq<string>, actions: Actions, nodes: map<string, Node>, f: Fields)
    requires InActions(order, actions)
  {
    var r := Process(h, order, actions, nodes, f);
    r.Done? && r.fields.replica == f.replica
  }

  ghost predicate AlwaysUnchanged(h: Home, actions: Actions, nodes: map<string, Node>, f: Fields) {
    forall order :: IsOrderOf(order, actions) ==> Unchanged(h, order, actions, nodes, f)
  }

  /** Adds and removes balance, within the replica; or an empty workspace is asked for removes alone. */
  ghost predicate Balanced(h: Home, actions: Actions, nodes: map<string, Node>, f: Fields)
    requires Known(h, actions, nodes)
  {
    var adds, removes := |AddSet(h, actions, nodes)|, |RemoveSet(actions, nodes)|;
    (removes <= f.replica && FlavorsAgree(h, actions, nodes, f) && adds == removes) || (f.replica == 0 && adds == 0)
  }

  lemma {:induction false} RemovesFromNothing(h: Home, order: seq<string>, actions: Actions,
                                              nodes: map<string, Node>, f: Fields)
    requires InActions(order, actions) && Known(h, actions, nodes) && f.replica == 0 && AddSet(h, actions, nodes) == {}
    ensures Unchanged(h, order, actions, nodes, f)
    decreases |order|
  {
    if order != [] {
      assert order[0] !in AddSet(h, actions, nodes);
      RemovesFromNothing(h, order[1..], actions, nodes, Take(h, order[0], actions, nodes, f).fields);
    }
  }

  lemma BalancedIsUnchanged(h: Home, actions: Actions, nodes: map<string, Node>, f: Fields)
    requires f.replica >= 0 && Known(h, actions, nodes) && Balanced(h, actions, nodes, f)
    ensures AlwaysUnchanged(h, actions, nodes, f)
  {
    forall order | IsOrderOf(order, actions) ensures Unchanged(h, order, actions, nodes, f) {
      if f.replica == 0 && |AddSet(h, actions, nodes)| == 0 {
        RemovesFromNothing(h, order, actions, nodes, f);
      } else {
        OrderConserves(h, order, actions, nodes, f);
      }
    }
  }

  /** Otherwise some order is refused or ends with another count. */
  lemma UnbalancedOrder(h: Home, actions: Actions, nodes: map<string, Node>, f: Fields) returns (order: seq<string>)
    requires f.replica >= 0 && Known(h, actions, nodes) && !Balanced(h, actions, nodes, f)
    ensures IsOrderOf(order, actions) && !Unchanged(h, order, actions, nodes, f)
  {
    var adds, removes := |AddSet(h, actions, nodes)|, |RemoveSet(actions, nodes)|;
    if removes <= f.replica {
      if FlavorsAgree(h, actions, nodes, f) {
        var rest;
        order, rest := OrderFrom([], actions);
        OrderConserves(h, order, actions, nodes, f);
      } else {
        var first := OddFlavors(h, actions, nodes, f);
        order := RefusedFirst(h, first, actions, nodes, f);
      }
    } else if adds != f.replica {
      order := RemovesFirst(h, actions, nodes, f);
    } else {
      order := AddsFirst(h, actions, nodes, f);
    }
  }

  /** A request leaves the replica alone in every iteration order exactly when its nodes are known and its adds and
      removes balance. So does one that repeats the actions in progress with ineffective ones added: it is
      not busy, keeps the annotation, and otherwise counts them once more. */
  lemma UnchangedIffBalanced(h: Home, actions: Actions, nodes: map<string, Node>, f: Fields)
    requires f.replica >= 0
    ensures AlwaysUnchanged(h, actions, nodes, f) <==> Known(h, actions, nodes) && Balanced(h, actions, nodes, f)
  {
    if !Known(h, actions, nodes) {
      var k :| k in actions && !(k in nodes && nodes[k].cluster == h.cluster);
      OneAction(h, k, actions, nodes, f);
      var order := RefusedFirst(h, [k], actions, nodes, f);
      assert !Unchanged(h, order, actions, nodes, f);
    } else if Balanced(h, actions, nodes, f) {
      BalancedIsUnchanged(h, actions, nodes, f);
    } else {
      var order := UnbalancedOrder(h, actions, nodes, f);
    }
  }

  lemma InProgressKept(h: Home, order: seq<string>, actions: Actions, nodes: map<string, Node>, f: Fields)
    requires Known(h, actions, nodes) && IsOrderOf(order, actions) && f.kept == map[]
    requires Process(h, order, actions, nodes, f).Done?
    ensures Process(h, order, actions, nodes, f).fields.kept == EffectiveActions(h, actions, nodes)
  {
    KeptAreEffective(h, order, actions, nodes, f);
  }
}
