/** Resource lists and their arithmetic (quantity.go). A quantity is a number of milli-units. */
module Quantity {

  type ResourceList = map<string, int>

  predicate IsConcerned(rdma: string, name: string) {
    || name == "nvidia.com/gpu" || name == "amd.com/gpu"
    || name == "cpu" || name == "memory"
    || name == "storage" || name == "ephemeral-storage"
    || name == rdma
  }

  function Get(r: ResourceList, k: string): int {
    if k in r then r[k] else 0
  }

  /** The concerned part of a list. */
  function Normalize(rdma: string, r: ResourceList): ResourceList {
    map k | k in r && IsConcerned(rdma, k) :: r[k]
  }

  function Plus(rdma: string, a: ResourceList, b: ResourceList): ResourceList {
    map k | k in a.Keys + b.Keys && IsConcerned(rdma, k) :: Get(a, k) + Get(b, k)
  }

  function PlusAll(rdma: string, rs: seq<ResourceList>): ResourceList {
    if rs == [] then map[] else Plus(rdma, PlusAll(rdma, rs[..|rs| - 1]), rs[|rs| - 1])
  }

  function Restrict(r: ResourceList, keys: set<string>): ResourceList {
    map k | k in r && k in keys :: r[k]
  }

  lemma PlusKey(rdma: string, a: ResourceList, b: ResourceList, keys: set<string>, k: string)
    requires k in b && k !in keys
    ensures var sum := Plus(rdma, a, Restrict(b, keys));
      Plus(rdma, a, Restrict(b, keys + {k})) ==
        if IsConcerned(rdma, k) then sum[k := b[k] + Get(a, k)] else sum
  {
    var sum := Plus(rdma, a, Restrict(b, keys));
    var next := Plus(rdma, a, Restrict(b, keys + {k}));
    forall j | j != k ensures (j in next <==> j in sum) && (j in next ==> next[j] == sum[j]) {
      PlusKeyElsewhere(rdma, a, b, keys, k, j);
    }
    if IsConcerned(rdma, k) {
      assert next[k] == b[k] + Get(a, k);
      assert next == sum[k := b[k] + Get(a, k)];
    } else {
      assert next == sum;
    }
  }

  lemma PlusKeyElsewhere(rdma: string, a: ResourceList, b: ResourceList, keys: set<string>, k: string, j: string)
    requires j != k
    ensures var sum, next := Plus(rdma, a, Restrict(b, keys)), Plus(rdma, a, Restrict(b, keys + {k}));
      (j in next <==> j in sum) && (j in next ==> next[j] == sum[j])
  {
    assert j in Restrict(b, keys + {k}) <==> j in Restrict(b, keys);
  }

  lemma PlusNothing(rdma: string, a: ResourceList)
    requires Normalize(rdma, a) == a
    ensures Plus(rdma, a, map[]) == a
  {
    forall k ensures k in Plus(rdma, a, map[]) <==> k in a {
      assert k in a ==> k in Normalize(rdma, a);
    }
  }

  /** The sum when all keys but `todo` have been added. */
  function PlusVisited(rdma: string, sum: ResourceList, res: ResourceList, todo: set<string>): ResourceList {
    Plus(rdma, sum, Restrict(res, res.Keys - todo))
  }

  lemma PlusVisitOne(rdma: string, sum: ResourceList, res: ResourceList, todo: set<string>, k: string)
    requires k in todo && todo <= res.Keys
    ensures var r := PlusVisited(rdma, sum, res, todo);
      PlusVisited(rdma, sum, res, todo - {k}) ==
        if IsConcerned(rdma, k) then r[k := if k in r then res[k] + r[k] else res[k]] else r
  {
    PlusKey(rdma, sum, res, res.Keys - todo, k);
    assert res.Keys - (todo - {k}) == (res.Keys - todo) + {k};
    assert k !in Restrict(res, res.Keys - todo);
  }

  /** The inner loop of AddResource. Go ranges over the keys in any order; the sum is the same. */
  method AddList(rdma: string, sum: ResourceList, res: ResourceList) returns (result: ResourceList)
    requires Normalize(rdma, sum) == sum
    ensures result == Plus(rdma, sum, res)
  {
    result := sum;
    var todo := res.Keys;
    assert Restrict(res, {}) == map[];
    PlusNothing(rdma, sum);
    while todo != {}
      invariant todo <= res.Keys
      invariant result == PlusVisited(rdma, sum, res, todo)
    {
      var k :| k in todo;
      PlusVisitOne(rdma, sum, res, todo, k);
      if IsConcerned(rdma, k) {
        result := result[k := if k in result then res[k] + result[k] else res[k]];
      }
      todo := todo - {k};
    }
    assert Restrict(res, res.Keys - todo) == res;
  }

  lemma PlusAllIsConcerned(rdma: string, rs: seq<ResourceList>)
    ensures Normalize(rdma, PlusAll(rdma, rs)) == PlusAll(rdma, rs)
  {
  }

  /** What all the lists together ask for of one resource. */
  function Asked(resources: seq<ResourceList>, k: string): int {
    if resources == [] then 0 else Asked(resources[..|resources| - 1], k) + Get(resources[|resources| - 1], k)
  }

  lemma {:induction false} PlusAllGets(rdma: string, rs: seq<ResourceList>, k: string)
    ensures Get(PlusAll(rdma, rs), k) == if IsConcerned(rdma, k) then Asked(rs, k) else 0
    decreases |rs|
  {
    if rs != [] { PlusAllGets(rdma, rs[..|rs| - 1], k); }
  }

  predicate SomeNames(rs: seq<ResourceList>, k: string) {
    exists i :: 0 <= i < |rs| && k in rs[i]
  }

  lemma SomeNamesSnoc(rs: seq<ResourceList>, k: string)
    requires rs != []
    ensures SomeNames(rs, k) <==> SomeNames(rs[..|rs| - 1], k) || k in rs[|rs| - 1]
  {
    var last := |rs| - 1;
    if i :| 0 <= i < |rs| && k in rs[i] { assert i < last ==> rs[..last][i] == rs[i]; }
  }

  lemma {:induction false} PlusAllNames(rdma: string, rs: seq<ResourceList>, k: string)
    ensures k in PlusAll(rdma, rs) <==> IsConcerned(rdma, k) && SomeNames(rs, k)
    decreases |rs|
  {
    if rs != [] {
      PlusAllNames(rdma, rs[..|rs| - 1], k);
      SomeNamesSnoc(rs, k);
    }
  }

  /** The sum has the concerned resources that some list names, each with what all lists ask for. */
  lemma PlusAllAt(rdma: string, rs: seq<ResourceList>, k: string)
    ensures k in PlusAll(rdma, rs) <==>
            && k in {"nvidia.com/gpu", "amd.com/gpu", "cpu", "memory", "storage", "ephemeral-storage", rdma}
            && SomeNames(rs, k)
    ensures k in PlusAll(rdma, rs) ==> PlusAll(rdma, rs)[k] == Asked(rs, k)
  {
    PlusAllNames(rdma, rs, k);
    PlusAllGets(rdma, rs, k);
  }

  method AddResource(rdma: string, resources: seq<ResourceList>) returns (result: ResourceList)
    ensures result == PlusAll(rdma, resources)
  {
    result := map[];
    for i := 0 to |resources|
      invariant result == PlusAll(rdma, resources[..i])
    {
      PlusAllIsConcerned(rdma, resources[..i]);
      result := AddList(rdma, result, resources[i]);
      assert resources[..i + 1][..i] == resources[..i];
    }
    assert resources[..|resources|] == resources;
  }

  /** Value() rounds to whole units, away from zero. */
  function Value(q: int): int {
    if q >= 0 then (q + 999) / 1000 else -((-q + 999) / 1000)
  }

  /** math.Round: to the nearest whole number, halves away from zero. */
  function Round(x: real): int {
    if x >= 0.0 then (x + 0.5).Floor else -(-x + 0.5).Floor
  }

  const EPSILON := 0.000000001

  predicate FloatEqual(a: real, b: real) {
    -EPSILON <= a - b <= EPSILON
  }

  /** What a per-pod list becomes for `replica` pods: nothing for none, the list itself for one,
      and otherwise every quantity rounded up to whole units before it is multiplied. */
  function Multiplied(r: ResourceList, replica: int): ResourceList {
    if replica <= 0 then map[]
    else if replica == 1 then r
    else map k | k in r :: 1000 * (Value(r[k]) * replica)
  }

  /** MultiResource for any multiplier. */
  function Scaled(r: ResourceList, multiplier: real): ResourceList {
    if FloatEqual(multiplier, 1.0) then r
    else map k | k in r :: ScaledValue(r[k], multiplier)
  }

  function ScaledValue(q: int, multiplier: real): int {
    1000 * Times(Value(q), multiplier)
  }

  /** math.Round(float64(v) * multiplier). */
  function Times(v: int, multiplier: real): int {
    Round(v as real * multiplier)
  }

  method MultiResource(inputs: ResourceList, multiplier: real) returns (result: ResourceList)
    ensures result == Scaled(inputs, multiplier)
  {
    if FloatEqual(multiplier, 1.0) { return inputs; }
    result := map[];
    var todo := inputs.Keys;
    while todo != {}
      invariant todo <= inputs.Keys
      invariant result == map k | k in inputs && k !in todo :: ScaledValue(inputs[k], multiplier)
    {
      var k :| k in todo;
      result := result[k := ScaledValue(inputs[k], multiplier)];
      todo := todo - {k};
    }
  }

  lemma TimesWhole(a: int, n: int)
    ensures Times(a, n as real) == a * n
  {
    assert a as real * n as real == (a * n) as real;
  }

  /** A whole multiplier loses nothing to rounding beyond Value itself. */
  lemma WholeMultiplier(q: int, n: int)
    ensures ScaledValue(q, n as real) == 1000 * (Value(q) * n)
  {
    TimesWhole(Value(q), n);
  }

  lemma ScaledByReplica(r: ResourceList, replica: int)
    requires replica > 0
    ensures Scaled(r, replica as real) == Multiplied(r, replica)
  {
    if replica != 1 {
      forall k | k in r ensures Scaled(r, replica as real)[k] == Multiplied(r, replica)[k] {
        WholeMultiplier(r[k], replica);
      }
    }
  }

  /** Value is the least number of whole units that covers the quantity, away from zero. */
  lemma ValueCovers(q: int)
    ensures q >= 0 ==> 1000 * (Value(q) - 1) < q <= 1000 * Value(q)
    ensures q < 0 ==> Value(q) == -Value(-q)
  {
  }

  /** Round gives the nearest whole number, and the one farther from zero when two are as near. */
  lemma RoundIsNearest(x: real)
    ensures x >= 0.0 ==> Round(x) as real - 0.5 <= x < Round(x) as real + 0.5
    ensures x < 0.0 ==> Round(x) == -Round(-x)
  {
  }

  /** Within one billionth of 1 a multiplier copies; any other multiplies whole units and rounds. */
  lemma ScaledBy(r: ResourceList, m: real, k: string)
    ensures 0.999999999 <= m <= 1.000000001 ==> Scaled(r, m) == r
    ensures k in Scaled(r, m) <==> k in r
    ensures (m < 0.999999999 || m > 1.000000001) && k in r ==>
              Scaled(r, m)[k] == 1000 * Round(Value(r[k]) as real * m)
  {
    assert FloatEqual(m, 1.0) <==> 0.999999999 <= m <= 1.000000001;
    if !FloatEqual(m, 1.0) && k in r { assert Scaled(r, m)[k] == ScaledValue(r[k], m); }
  }

  /** A multiplier of 0 keeps the keys and leaves nothing of them. */
  lemma ScaledByZero(r: ResourceList)
    ensures Scaled(r, 0.0).Keys == r.Keys && forall k :: k in r ==> Scaled(r, 0.0)[k] == 0
  {
    forall k | k in r ensures Scaled(r, 0.0)[k] == 0 { WholeMultiplier(r[k], 0); }
  }

  /** IsSubResource. */
  predicate IsSub(a: ResourceList, b: ResourceList) {
    forall k :: k in a ==> k in b && a[k] <= b[k]
  }

  // ---------- weighted sums ----------

  /** Sum over i of w[i] * res[i][k]. */
  function Dot(w: seq<nat>, res: seq<ResourceList>, k: string): int
    requires |w| == |res|
  {
    if w == [] then 0 else Dot(w[..|w| - 1], res[..|w| - 1], k) + w[|w| - 1] * Get(res[|w| - 1], k)
  }

  function MentionedKeys(rdma: string, w: seq<nat>, res: seq<ResourceList>): set<string>
    requires |w| == |res|
  {
    set i, k | 0 <= i < |res| && w[i] > 0 && k in res[i] && IsConcerned(rdma, k) :: k
  }

  /** The resources of w[i] pods of every kind i. */
  function SumOf(rdma: string, w: seq<nat>, res: seq<ResourceList>): ResourceList
    requires |w| == |res|
  {
    map k | k in MentionedKeys(rdma, w, res) :: Dot(w, res, k)
  }

  lemma {:induction false} DotBump(w: seq<nat>, res: seq<ResourceList>, k: string, i: nat, n: nat)
    requires |w| == |res| && i < |w|
    ensures Dot(w[i := w[i] + n], res, k) == Dot(w, res, k) + n * Get(res[i], k)
    decreases |w|
  {
    var last := |w| - 1;
    var w' := w[i := w[i] + n];
    if i == last {
      assert w'[..last] == w[..last];
    } else {
      assert w'[..last] == w[..last][i := w[i] + n];
      DotBump(w[..last], res[..last], k, i, n);
    }
  }

  lemma {:induction false} DotUnmentioned(w: seq<nat>, res: seq<ResourceList>, k: string)
    requires |w| == |res| && forall i :: 0 <= i < |res| && w[i] > 0 ==> k !in res[i]
    ensures Dot(w, res, k) == 0
    decreases |w|
  {
    if w != [] { DotUnmentioned(w[..|w| - 1], res[..|w| - 1], k); }
  }

  lemma MentionedBump(rdma: string, w: seq<nat>, res: seq<ResourceList>, i: nat, n: nat, k: string)
    requires |w| == |res| && i < |w| && n > 0
    ensures k in MentionedKeys(rdma, w[i := w[i] + n], res) <==>
            k in MentionedKeys(rdma, w, res) || (k in res[i] && IsConcerned(rdma, k))
  {
    var w' := w[i := w[i] + n];
    if k in MentionedKeys(rdma, w, res) {
      var j :| 0 <= j < |res| && w[j] > 0 && k in res[j];
      assert w'[j] > 0;
    }
    if k in res[i] && IsConcerned(rdma, k) { assert w'[i] > 0; }
    if k in MentionedKeys(rdma, w', res) {
      var j :| 0 <= j < |res| && w'[j] > 0 && k in res[j];
      assert j != i ==> w[j] > 0;
    }
  }

  lemma SumOfBumpAt(rdma: string, w: seq<nat>, res: seq<ResourceList>, i: nat, k: string)
    requires |w| == |res| && i < |w|
    ensures var a, b := Plus(rdma, SumOf(rdma, w, res), res[i]), SumOf(rdma, w[i := w[i] + 1], res);
      (k in a <==> k in b) && (k in a ==> a[k] == b[k])
  {
    MentionedBump(rdma, w, res, i, 1, k);
    DotBump(w, res, k, i, 1);
    SumOfGet(rdma, w, res, k);
  }

  lemma SumOfGet(rdma: string, w: seq<nat>, res: seq<ResourceList>, k: string)
    requires |w| == |res|
    ensures var sum := SumOf(rdma, w, res);
      (k in sum ==> IsConcerned(rdma, k)) && (IsConcerned(rdma, k) ==> Get(sum, k) == Dot(w, res, k))
  {
    var sum := SumOf(rdma, w, res);
    if k !in sum && IsConcerned(rdma, k) {
      forall j | 0 <= j < |res| && w[j] > 0 ensures k !in res[j] {}
      DotUnmentioned(w, res, k);
    }
  }

  /** Adding one pod of kind i to a weighted sum gives the weighted sum with one more i. */
  lemma SumOfBump(rdma: string, w: seq<nat>, res: seq<ResourceList>, i: nat)
    requires |w| == |res| && i < |w|
    ensures Plus(rdma, SumOf(rdma, w, res), res[i]) == SumOf(rdma, w[i := w[i] + 1], res)
  {
    var a, b := Plus(rdma, SumOf(rdma, w, res), res[i]), SumOf(rdma, w[i := w[i] + 1], res);
    forall k ensures (k in a <==> k in b) && (k in a ==> a[k] == b[k]) {
      SumOfBumpAt(rdma, w, res, i, k);
    }
  }

  /** Keys that are not concerned never reach a sum. */
  lemma PlusDropsUnconcerned(rdma: string, a: ResourceList, b: ResourceList)
    ensures Plus(rdma, a, b) == Plus(rdma, Normalize(rdma, a), b)
    ensures Plus(rdma, map[], b) == Normalize(rdma, b)
    ensures Normalize(rdma, Plus(rdma, a, b)) == Plus(rdma, a, b)
  {
  }

  lemma PlusAllTwo(rdma: string, a: ResourceList, b: ResourceList)
    ensures PlusAll(rdma, [a, b]) == Plus(rdma, a, b)
  {
    PlusAllOne(rdma, a);
    var both := [a, b];
    assert both[..1] == [a];
    assert PlusAll(rdma, both) == Plus(rdma, PlusAll(rdma, both[..1]), both[1]);
    PlusDropsUnconcerned(rdma, a, b);
  }

  lemma PlusAllOne(rdma: string, a: ResourceList)
    ensures PlusAll(rdma, [a]) == Normalize(rdma, a)
  {
    assert [a][..0] == [];
    PlusDropsUnconcerned(rdma, a, a);
  }

  function PlusTimes(rdma: string, acc: ResourceList, r: ResourceList, n: nat): ResourceList {
    if n == 0 then acc else Plus(rdma, PlusTimes(rdma, acc, r, n - 1), r)
  }

  method AddResourceNTimes(rdma: string, acc: ResourceList, podResource: ResourceList, n: int)
    returns (r: ResourceList)
    ensures r == PlusTimes(rdma, acc, podResource, if n < 0 then 0 else n)
  {
    r := acc;
    var k := 0;
    while k < n
      invariant 0 <= k && (k <= n || k == 0)
      invariant r == PlusTimes(rdma, acc, podResource, k)
    {
      PlusAllTwo(rdma, r, podResource);
      r := AddResource(rdma, [r, podResource]);
      k := k + 1;
    }
  }

  lemma BumpAgain(rdma: string, w1: seq<nat>, w2: seq<nat>, res: seq<ResourceList>, i: nat)
    requires |w1| == |w2| == |res| && i < |w1| && w2 == w1[i := w1[i] + 1]
    ensures Plus(rdma, SumOf(rdma, w1, res), res[i]) == SumOf(rdma, w2, res)
  {
    SumOfBump(rdma, w1, res, i);
  }

  /** Adding n pods of kind i one after the other. */
  lemma {:induction false} PlusTimesBump(rdma: string, w: seq<nat>, w2: seq<nat>, res: seq<ResourceList>, i: nat,
                                         n: nat)
    requires |w| == |w2| == |res| && i < |w| && w2 == w[i := w[i] + n]
    ensures PlusTimes(rdma, SumOf(rdma, w, res), res[i], n) == SumOf(rdma, w2, res)
    decreases n
  {
    if n == 0 {
      assert w2 == w;
    } else {
      var w1 := w[i := w[i] + (n - 1)];
      PlusTimesBump(rdma, w, w1, res, i, n - 1);
      BumpAgain(rdma, w1, w2, res, i);
    }
  }
}
