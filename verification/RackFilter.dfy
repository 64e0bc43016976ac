/** Choosing nodes rack by rack and giving them to a group's pods in rank order: filter,
    minimizeVariance and the tail of rackNodeCache (topologyipsort.go). */
module RackFilter {
  import opened Allocation
  import opened AllocationShape
  import opened Multiples
  import opened Options

  datatype Node = Node(name: string, ip: int, pod: string)

  /** `BadSlice` is a slice past the end of a rack. Go's outcome then depends on spare capacity:
      a panic, or zero-valued nodes. `DivideByZero` is a unit of 0. */
  datatype Choice = Chosen(nodes: seq<Node>) | BadSlice | DivideByZero

  function Bag(racks: seq<seq<Node>>): multiset<Node> {
    if racks == [] then multiset{} else Bag(racks[..|racks| - 1]) + multiset(racks[|racks| - 1])
  }

  function Sizes(racks: seq<seq<Node>>): (s: seq<int>)
    ensures |s| == |racks|
  {
    seq(|racks|, i requires 0 <= i < |racks| => |racks[i]|)
  }

  function Total(racks: seq<seq<Node>>): int {
    Sum(Sizes(racks))
  }

  /** len / unit * unit in Go, where division truncates. */
  function Usable(rack: seq<Node>, unit: int): (usable: nat)
    requires unit != 0
    ensures usable <= |rack| < usable + Abs(unit) && usable % Abs(unit) == 0
  {
    DivisionFits(|rack|, Abs(unit));
    |rack| / Abs(unit) * Abs(unit)
  }

  function Abs(n: int): nat {
    if n < 0 then -n else n
  }

  lemma DivisionFits(n: nat, u: nat)
    requires u > 0
    ensures 0 <= n / u * u <= n < n / u * u + u && n / u * u % u == 0
  {
    Quotient(u, n);
    MultipleDivides(u, n / u);
  }

  /** The first rack i, from `from` on, such that i + 1 racks of its usable size meet the demand. */
  function FirstFit(racks: seq<seq<Node>>, unit: int, count: nat, from: nat): (i: Option<nat>)
    requires unit != 0 && from <= |racks|
    ensures i.Some? ==> from <= i.value < |racks| && count == Usable(racks[i.value], unit) * (i.value + 1)
    decreases |racks| - from
  {
    if from == |racks| then None
    else if count == Usable(racks[from], unit) * (from + 1) then Some(from)
    else FirstFit(racks, unit, count, from + 1)
  }

  /** The racks visited for that fit are the last i + 1; one of them is shorter than the fit. The
      guard meant to skip such racks measures rack i instead of rack j. */
  predicate FitMeetsShortRack(racks: seq<seq<Node>>, unit: int, count: nat)
    requires unit != 0
  {
    var fit := FirstFit(racks, unit, count, 0);
    fit.Some? && exists j :: |racks| - 1 - fit.value <= j < |racks| && |racks[j]| < Usable(racks[fit.value], unit)
  }

  ghost predicate SortedByIp(s: seq<Node>) {
    forall i, j :: 0 <= i < j < |s| ==> s[i].ip <= s[j].ip
  }

  // ---------- bags of nodes ----------

  lemma PrefixBag(s: seq<Node>, k: nat)
    requires k <= |s|
    ensures multiset(s[..k]) <= multiset(s)
  {
    assert s == s[..k] + s[k..];
  }

  lemma BagSnoc(racks: seq<seq<Node>>, i: nat)
    requires i < |racks|
    ensures Bag(racks[..i + 1]) == Bag(racks[..i]) + multiset(racks[i])
    ensures Total(racks[..i + 1]) == Total(racks[..i]) + |racks[i]|
  {
    assert racks[..i + 1][..i] == racks[..i];
    assert Sizes(racks[..i + 1])[..i] == Sizes(racks[..i]);
  }

  // ---------- taking some nodes of every rack ----------

  /** The first a[i] nodes of every rack i. */
  function Taken(racks: seq<seq<Node>>, a: seq<int>): (r: seq<seq<Node>>)
    requires Within(a, Sizes(racks))
    ensures |r| == |racks| && forall i :: 0 <= i < |racks| ==> r[i] == racks[i][..a[i]]
  {
    seq(|racks|, i requires 0 <= i < |racks| => racks[i][..a[i]])
  }

  ghost predicate TakenFrom(s: seq<Node>, racks: seq<seq<Node>>, a: seq<int>) {
    Within(a, Sizes(racks)) && multiset(s) == Bag(Taken(racks, a))
  }

  function Nothing(n: nat): (a: seq<int>)
    ensures |a| == n && forall i :: 0 <= i < n ==> a[i] == 0
  {
    seq(n, _ => 0)
  }

  lemma {:induction false} BagSize(racks: seq<seq<Node>>)
    ensures |Bag(racks)| == Total(racks)
    decreases |racks|
  {
    if racks != [] {
      BagSize(racks[..|racks| - 1]);
      BagSnoc(racks, |racks| - 1);
      assert racks[..|racks| - 1 + 1] == racks;
    }
  }

  lemma SizeOfTaken(s: seq<Node>, racks: seq<seq<Node>>, a: seq<int>)
    requires TakenFrom(s, racks, a)
    ensures |s| == Sum(a)
  {
    assert Sizes(Taken(racks, a)) == a;
    BagSize(Taken(racks, a));
    assert |multiset(s)| == |s|;
  }

  lemma NothingTaken(racks: seq<seq<Node>>)
    ensures TakenFrom([], racks, Nothing(|racks|))
  {
    var a := Nothing(|racks|);
    assert Sizes(Taken(racks, a)) == a == seq(|racks|, _ => 0);
    BagSize(Taken(racks, a));
    SumOfZeros(|racks|);
  }

  lemma TakenFront(racks: seq<seq<Node>>, a: seq<int>)
    requires racks != [] && Within(a, Sizes(racks))
    ensures var last := |racks| - 1;
      && Within(a[..last], Sizes(racks[..last]))
      && Bag(Taken(racks, a)) == Bag(Taken(racks[..last], a[..last])) + multiset(racks[last][..a[last]])
  {
    var last := |racks| - 1;
    assert Taken(racks, a)[..last] == Taken(racks[..last], a[..last]);
  }

  lemma MoreIsWithin(racks: seq<seq<Node>>, a: seq<int>, j: nat, k: nat)
    requires Within(a, Sizes(racks)) && j < |racks| && k <= |racks[j]|
    ensures Within(a[j := k], Sizes(racks))
  {
  }

  lemma {:induction false} TakeMore(racks: seq<seq<Node>>, a: seq<int>, j: nat, k: nat)
    requires Within(a, Sizes(racks)) && j < |racks| && a[j] == 0 && k <= |racks[j]|
    requires Within(a[j := k], Sizes(racks))
    ensures Bag(Taken(racks, a[j := k])) == Bag(Taken(racks, a)) + multiset(racks[j][..k])
    decreases |racks|
  {
    var last, b := |racks| - 1, a[j := k];
    TakenFront(racks, a);
    TakenFront(racks, b);
    if j < last {
      assert b[..last] == a[..last][j := k];
      TakeMore(racks[..last], a[..last], j, k);
    } else {
      assert b[..last] == a[..last];
    }
  }

  lemma TakeOn(s: seq<Node>, racks: seq<seq<Node>>, a: seq<int>, j: nat, k: nat)
    requires TakenFrom(s, racks, a) && j < |racks| && a[j] == 0 && k <= |racks[j]|
    ensures TakenFrom(s + racks[j][..k], racks, a[j := k])
  {
    MoreIsWithin(racks, a, j, k);
    TakeMore(racks, a, j, k);
  }

  lemma {:induction false} TakenIsPart(racks: seq<seq<Node>>, a: seq<int>)
    requires Within(a, Sizes(racks))
    ensures Bag(Taken(racks, a)) <= Bag(racks)
    decreases |racks|
  {
    if racks != [] {
      var last := |racks| - 1;
      TakenFront(racks, a);
      TakenIsPart(racks[..last], a[..last]);
      PrefixBag(racks[last], a[last]);
    }
  }

  lemma AllTaken(racks: seq<seq<Node>>, s: seq<Node>)
    requires multiset(s) == Bag(racks)
    ensures TakenFrom(s, racks, Sizes(racks))
  {
    forall i | 0 <= i < |racks| ensures Taken(racks, Sizes(racks))[i] == racks[i] {
      assert racks[i][..|racks[i]|] == racks[i];
    }
    assert Taken(racks, Sizes(racks)) == racks;
  }

  // ---------- minimizeVariance ----------

  /** The first i racks have been visited. */
  ghost predicate Copied(a: seq<int>, all: seq<int>, i: nat) {
    |a| == |all| && forall k :: 0 <= k < |a| ==> a[k] == if k < i then all[k] else 0
  }

  /** The first nodes of every rack, as many as the allocation says. */
  method TakeAllocated(racks: seq<seq<Node>>, allocation: array<int>) returns (result: seq<Node>)
    requires Within(allocation[..], Sizes(racks))
    ensures TakenFrom(result, racks, allocation[..])
  {
    ghost var all, a := allocation[..], Nothing(|racks|);
    result := [];
    NothingTaken(racks);
    for i := 0 to allocation.Length
      invariant allocation[..] == all && TakenFrom(result, racks, a) && Copied(a, all, i)
    {
      if allocation[i] > 0 {
        var nodesToTake := Min(allocation[i], |racks[i]|);
        TakeOn(result, racks, a, i, nodesToTake);
        result, a := result + racks[i][..nodesToTake], a[i := nodesToTake];
      }
    }
    assert a == all;
  }

  /** All or nothing: exactly `count` nodes if the racks hold that many, none otherwise. */
  method MinimizeVariance(racks: seq<seq<Node>>, count: int) returns (result: seq<Node>, ghost a: seq<int>)
    ensures |result| == if 0 < count <= Total(racks) then count else 0
    ensures 0 < count <= Total(racks) ==> TakenFrom(result, racks, a) && IsAllocation(a, Sizes(racks), count)
  {
    result, a := [], [];
    if count <= 0 || |racks| == 0 { return; }
    var rackCounts := Sizes(racks);
    var allocation := FindMinVarianceAllocation(rackCounts, count);
    a := allocation[..];
    AllocationIsExact(rackCounts, count);
    AllocateFits(rackCounts, count);
    result := TakeAllocated(racks, allocation);
    SizeOfTaken(result, racks, a);
    if |result| < count { return [], a; }
  }

  // ---------- filter ----------

  lemma InsertBag(t: seq<Node>, k: nat, x: Node)
    requires k <= |t|
    ensures multiset(t[..k] + [x] + t[k..]) == multiset(t) + multiset{x}
  {
    assert t == t[..k] + t[k..];
  }

  method InsertByIp(t: seq<Node>, x: Node) returns (r: seq<Node>)
    requires SortedByIp(t)
    ensures SortedByIp(r) && |r| == |t| + 1 && multiset(r) == multiset(t) + multiset{x}
  {
    var k := |t|;
    while k > 0 && t[k - 1].ip > x.ip
      invariant 0 <= k <= |t|
      invariant forall j :: k <= j < |t| ==> x.ip < t[j].ip
    {
      k := k - 1;
    }
    InsertBag(t, k, x);
    r := t[..k] + [x] + t[k..];
  }

  /** Library sort, by ip. */
  method SortByIp(s: seq<Node>) returns (t: seq<Node>)
    ensures SortedByIp(t) && multiset(t) == multiset(s) && |t| == |s|
  {
    t := [];
    for i := 0 to |s|
      invariant |t| == i && SortedByIp(t) && multiset(t) == multiset(s[..i])
    {
      t := InsertByIp(t, s[i]);
      assert s[..i + 1] == s[..i] + [s[i]];
    }
    assert s[..|s|] == s;
  }

  /** m times `length`, as a sum. */
  function Times(length: nat, m: nat): nat {
    if m == 0 then 0 else Times(length, m - 1) + length
  }

  lemma {:induction false} TimesIsProduct(length: nat, m: nat)
    ensures Times(length, m) == length * m
    decreases m
  {
    if m > 0 {
      TimesIsProduct(length, m - 1);
      assert length * m == length * (m - 1) + length;
    }
  }

  lemma {:induction false} TimesGrows(length: nat, m: nat, n: nat)
    requires m < n
    ensures Times(length, m) + length <= Times(length, n)
    ensures Times(length, m) == Times(length, n) ==> length == 0
    decreases n
  {
    if m < n - 1 { TimesGrows(length, m, n - 1); }
  }

  /** `length` nodes from each of the last racks, none from the others. */
  ghost predicate IsUniform(a: seq<int>, racksUsed: nat, length: nat) {
    forall i :: 0 <= i < |a| ==> a[i] == if i >= |a| - racksUsed then length else 0
  }

  /** `taken` is `length` nodes from each of the racks from j on. */
  ghost predicate Uniform(taken: seq<Node>, racks: seq<seq<Node>>, a: seq<int>, j: nat, length: nat) {
    && j <= |racks| && TakenFrom(taken, racks, a) && IsUniform(a, |racks| - j, length)
    && |taken| == Times(length, |racks| - j)
    && forall l :: j <= l < |racks| ==> |racks[l]| >= length
  }

  lemma UniformStep(taken: seq<Node>, racks: seq<seq<Node>>, a: seq<int>, j: nat, length: nat)
    requires j < |racks| && |racks[j]| >= length && Uniform(taken, racks, a, j + 1, length)
    ensures Uniform(taken + racks[j][..length], racks, a[j := length], j, length)
  {
    TakeOn(taken, racks, a, j, length);
    assert Times(length, |racks| - j) == Times(length, |racks| - (j + 1)) + length;
  }

  /** Before the count is reached, a rack is left to visit; once it is, the last racks have all been visited, unless
      nothing is taken at all. */
  lemma UniformGoesOn(taken: seq<Node>, racks: seq<seq<Node>>, a: seq<int>, j: nat, length: nat, racksUsed: nat)
    requires racksUsed <= |racks| && |racks| - racksUsed <= j && Uniform(taken, racks, a, j, length)
    ensures |taken| != Times(length, racksUsed) ==> j > |racks| - racksUsed
    ensures |taken| == Times(length, racksUsed) ==>
      IsUniform(a, racksUsed, length) && forall l :: |racks| - racksUsed <= l < |racks| ==> |racks[l]| >= length
  {
    if j > |racks| - racksUsed { TimesGrows(length, |racks| - j, racksUsed); }
  }

  /** The first strategy: the same number of nodes from the last racks, as many as needed. */
  method TakeUniform(racks: seq<seq<Node>>, length: nat, count: nat, ghost racksUsed: nat)
    returns (ok: bool, filters: seq<Node>, ghost a: seq<int>)
    requires 0 < racksUsed <= |racks| && count == Times(length, racksUsed)
    ensures ok <==> forall j :: |racks| - racksUsed <= j < |racks| ==> |racks[j]| >= length
    ensures ok ==> |filters| == count && TakenFrom(filters, racks, a) && IsUniform(a, racksUsed, length)
  {
    filters, a := [], Nothing(|racks|);
    NothingTaken(racks);
    var j := |racks|;
    while |filters| != count || j == |racks|
      invariant |racks| - racksUsed <= j <= |racks| && Uniform(filters, racks, a, j, length)
      decreases j
    {
      UniformGoesOn(filters, racks, a, j, length, racksUsed);
      j := j - 1;
      if |racks[j]| < length { return false, [], a; }
      UniformStep(filters, racks, a, j, length);
      filters, a := filters + racks[j][..length], a[j := length];
    }
    ok := true;
    UniformGoesOn(filters, racks, a, j, length, racksUsed);
  }

  function Usables(racks: seq<seq<Node>>, unit: int): (s: seq<int>)
    requires unit != 0 || racks == []
    ensures |s| == |racks|
  {
    seq(|racks|, i requires 0 <= i < |racks| => Usable(racks[i], unit))
  }

  /** Every rack's usable nodes before any of the next, until the count is reached. */
  ghost predicate FrontFirst(a: seq<int>, usables: seq<int>, count: nat) {
    && Within(a, usables) && Sum(a) == Min(count, Sum(usables))
    && forall i, j :: 0 <= i < j < |a| && a[j] > 0 ==> a[i] == usables[i]
  }

  /** The usable nodes of the first i racks have been taken. */
  ghost predicate Filled(a: seq<int>, usables: seq<int>, i: nat) {
    |a| == |usables| && forall k :: 0 <= k < |a| ==> a[k] == if k < i then usables[k] else 0
  }

  /** What has been taken when the first i racks have been visited. */
  ghost predicate FilledUpTo(filters: seq<Node>, racks: seq<seq<Node>>, a: seq<int>, usables: seq<int>, i: nat) {
    |filters| == Sum(a) && TakenFrom(filters, racks, a) && Filled(a, usables, i)
  }

  lemma FillOneMore(filters: seq<Node>, racks: seq<seq<Node>>, a: seq<int>, usables: seq<int>, i: nat, length: nat)
    requires i < |racks| && length <= |racks[i]| && FilledUpTo(filters, racks, a, usables, i) && usables[i] == length
    ensures FilledUpTo(filters + racks[i][..length], racks, a[i := length], usables, i + 1)
  {
    TakeOn(filters, racks, a, i, length);
    SumBump(a, i, length);
  }

  /** The rack at which less is wanted than it has. */
  lemma LastIsCut(a: seq<int>, usables: seq<int>, i: nat, wanted: nat, count: nat)
    requires Filled(a, usables, i) && i < |a| && wanted < usables[i] && Sum(a) + wanted == count
    requires forall k :: 0 <= k < |usables| ==> usables[k] >= 0
    ensures FrontFirst(a[i := wanted], usables, count)
  {
    SumBump(a, i, wanted);
    SumMonotone(a[i := wanted], usables);
  }

  /** The second strategy: fill racks from the front, whole units at a time. */
  method TakeInOrder(racks: seq<seq<Node>>, unit: int, count: nat) returns (filters: seq<Node>, ghost a: seq<int>)
    requires unit != 0 || racks == []
    ensures TakenFrom(filters, racks, a) && FrontFirst(a, Usables(racks, unit), count)
  {
    filters, a := [], Nothing(|racks|);
    NothingTaken(racks);
    SumOfZeros(|racks|);
    ghost var usables := Usables(racks, unit);
    for i := 0 to |racks|
      invariant |filters| <= count && FilledUpTo(filters, racks, a, usables, i)
    {
      var length := Usable(racks[i], unit);
      if count - |filters| >= length {
        FillOneMore(filters, racks, a, usables, i, length);
        filters, a := filters + racks[i][..length], a[i := length];
      } else {
        var wanted := count - |filters|;
        TakeOn(filters, racks, a, i, wanted);
        LastIsCut(a, usables, i, wanted, count);
        filters, a := filters + racks[i][..wanted], a[i := wanted];
        return;
      }
    }
    assert a == usables;
  }

  method TakeAll(racks: seq<seq<Node>>) returns (filters: seq<Node>)
    ensures |filters| == Total(racks) && multiset(filters) == Bag(racks)
  {
    filters := [];
    for i := 0 to |racks|
      invariant |filters| == Total(racks[..i]) && multiset(filters) == Bag(racks[..i])
    {
      BagSnoc(racks, i);
      filters := filters + racks[i];
    }
    assert racks[..|racks|] == racks;
  }

  // ---------- which nodes each strategy takes ----------

  /** i + 1 racks of rack i's usable size meet the demand exactly. */
  ghost predicate FitsAt(racks: seq<seq<Node>>, unit: int, count: nat, i: nat)
    requires unit != 0 || racks == []
  {
    i < |racks| && count == Usable(racks[i], unit) * (i + 1)
  }

  ghost predicate FirstFits(racks: seq<seq<Node>>, unit: int, count: nat, i: nat)
    requires unit != 0 || racks == []
  {
    FitsAt(racks, unit, count, i) && forall j: nat :: j < i ==> !FitsAt(racks, unit, count, j)
  }

  ghost predicate HasFit(racks: seq<seq<Node>>, unit: int, count: nat)
    requires unit != 0 || racks == []
  {
    exists i: nat :: FirstFits(racks, unit, count, i)
  }

  ghost predicate IsUniformPlan(a: seq<int>, racks: seq<seq<Node>>, unit: int, count: nat)
    requires unit != 0 || racks == []
  {
    exists i: nat :: FirstFits(racks, unit, count, i) && IsUniform(a, i + 1, Usable(racks[i], unit))
  }

  /** How many nodes of every rack are taken. With a fit, the fitting number from each of the last racks; otherwise
      racks are filled from the front while their usable nodes reach the count; otherwise the allocation of least
      variance; and if there are too few nodes, all of them. */
  ghost predicate IsPlan(a: seq<int>, racks: seq<seq<Node>>, unit: int, count: nat)
    requires unit != 0 || racks == []
  {
    if HasFit(racks, unit, count) then IsUniformPlan(a, racks, unit, count)
    else if count <= Sum(Usables(racks, unit)) then FrontFirst(a, Usables(racks, unit), count)
    else if count <= Total(racks) then IsAllocation(a, Sizes(racks), count)
    else a == Sizes(racks)
  }

  ghost predicate Planned(s: seq<Node>, racks: seq<seq<Node>>, unit: int, count: nat)
    requires unit != 0 || racks == []
  {
    exists a :: TakenFrom(s, racks, a) && IsPlan(a, racks, unit, count)
  }

  lemma {:induction false} FirstFitFits(racks: seq<seq<Node>>, unit: int, count: nat, from: nat)
    requires unit != 0 && from <= |racks| && forall j: nat :: j < from ==> !FitsAt(racks, unit, count, j)
    ensures var fit := FirstFit(racks, unit, count, from);
      if fit.Some? then FirstFits(racks, unit, count, fit.value) else !HasFit(racks, unit, count)
    decreases |racks| - from
  {
    if from < |racks| && !FitsAt(racks, unit, count, from) { FirstFitFits(racks, unit, count, from + 1); }
  }

  /** The first strategy, with its search for a fitting rack size. */
  method TryUniform(racks: seq<seq<Node>>, unit: int, count: nat)
    returns (ok: bool, filters: seq<Node>, ghost a: seq<int>)
    requires unit != 0
    ensures !ok <==> FitMeetsShortRack(racks, unit, count)
    ensures ok && HasFit(racks, unit, count) ==>
      |filters| == count && TakenFrom(filters, racks, a) && IsUniformPlan(a, racks, unit, count)
    ensures ok && !HasFit(racks, unit, count) ==> filters == []
  {
    var i := 0;
    FirstFitFits(racks, unit, count, 0);
    while i < |racks|
      invariant 0 <= i <= |racks| && FirstFit(racks, unit, count, 0) == FirstFit(racks, unit, count, i)
    {
      var length := Usable(racks[i], unit);
      if count == length * (i + 1) {
        TimesIsProduct(length, i + 1);
        ok, filters, a := TakeUniform(racks, length, count, i + 1);
        return;
      }
      i := i + 1;
    }
    ok, filters, a := true, [], [];
  }

  lemma SubBagSize(a: multiset<Node>, b: multiset<Node>)
    requires a <= b
    ensures |a| <= |b|
  {
    assert b == a + (b - a);
  }

  lemma NoMoreThanTotal(s: seq<Node>, racks: seq<seq<Node>>)
    requires multiset(s) <= Bag(racks)
    ensures |s| <= Total(racks)
  {
    BagSize(racks);
    SubBagSize(multiset(s), Bag(racks));
    assert |multiset(s)| == |s|;
  }

  lemma PlannedIsPart(s: seq<Node>, racks: seq<seq<Node>>, unit: int, count: nat)
    requires (unit != 0 || racks == []) && Planned(s, racks, unit, count)
    ensures multiset(s) <= Bag(racks)
  {
    var a :| TakenFrom(s, racks, a) && IsPlan(a, racks, unit, count);
    TakenIsPart(racks, a);
  }

  /** The usable nodes reach the count exactly when filling from the front does. */
  lemma FrontFirstSize(s: seq<Node>, racks: seq<seq<Node>>, a: seq<int>, unit: int, count: nat)
    requires unit != 0 || racks == []
    requires TakenFrom(s, racks, a) && FrontFirst(a, Usables(racks, unit), count)
    ensures |s| <= count && (|s| < count <==> Sum(Usables(racks, unit)) < count)
  {
    SizeOfTaken(s, racks, a);
  }

  /** The third and fourth strategies. */
  method SpreadOut(racks: seq<seq<Node>>, unit: int, count: nat) returns (filters: seq<Node>)
    requires unit != 0 || racks == []
    requires !HasFit(racks, unit, count) && Sum(Usables(racks, unit)) < count
    ensures |filters| == Min(count, Total(racks)) && Planned(filters, racks, unit, count)
  {
    SumMonotone(Nothing(|racks|), Usables(racks, unit));
    SumOfZeros(|racks|);
    ghost var a;
    filters, a := MinimizeVariance(racks, count);
    if |filters| < count {
      var all := TakeAll(racks);
      filters := filters + all;
      AllTaken(racks, filters);
    }
  }

  /** The second to fourth strategies, each tried only when the one before falls short. */
  method Complete(racks: seq<seq<Node>>, unit: int, count: nat, first: seq<Node>, ghost a0: seq<int>)
    returns (filters: seq<Node>)
    requires unit != 0 || racks == []
    requires if HasFit(racks, unit, count)
             then |first| == count && TakenFrom(first, racks, a0) && IsUniformPlan(a0, racks, unit, count)
             else first == []
    ensures |filters| == Min(count, Total(racks)) && Planned(filters, racks, unit, count)
  {
    filters := first;
    ghost var a := a0;
    if |filters| < count {
      filters, a := TakeInOrder(racks, unit, count);
      FrontFirstSize(filters, racks, a, unit, count);
    } else if !HasFit(racks, unit, count) {
      NothingWanted(racks, unit);
      a := Nothing(|racks|);
    }
    if |filters| < count {
      filters := SpreadOut(racks, unit, count);
    } else {
      assert Planned(filters, racks, unit, count);
      PlannedIsPart(filters, racks, unit, count);
      NoMoreThanTotal(filters, racks);
    }
  }

  /** For no pods, no nodes. */
  lemma NothingWanted(racks: seq<seq<Node>>, unit: int)
    requires unit != 0 || racks == []
    ensures TakenFrom([], racks, Nothing(|racks|)) && FrontFirst(Nothing(|racks|), Usables(racks, unit), 0)
    ensures 0 <= Sum(Usables(racks, unit))
  {
    NothingTaken(racks);
    SumOfZeros(|racks|);
    SumMonotone(Nothing(|racks|), Usables(racks, unit));
  }

  /** Whatever strategy applies, exactly as many nodes as asked for, or all of them, taken from the racks by plan and
      listed in ascending ip order. The only failures are a unit of 0 and the slice past the end of a short rack. */
  method Filter(racks: seq<seq<Node>>, unit: int, count: nat) returns (r: Choice)
    ensures unit == 0 && racks != [] ==> r.DivideByZero?
    ensures unit != 0 ==> (r.BadSlice? <==> FitMeetsShortRack(racks, unit, count)) && !r.DivideByZero?
    ensures r.Chosen? ==> (unit != 0 || racks == []) && Planned(r.nodes, racks, unit, count)
    ensures r.Chosen? ==> |r.nodes| == Min(count, Total(racks)) && SortedByIp(r.nodes)
    ensures unit == 0 && racks == [] ==> r.Chosen?
  {
    if unit == 0 && racks != [] { return DivideByZero; }
    var filters: seq<Node> := [];
    ghost var a: seq<int> := [];
    if racks != [] {
      var ok;
      ok, filters, a := TryUniform(racks, unit, count);
      if !ok { return BadSlice; }
    }
    filters := Complete(racks, unit, count, filters, a);
    var sorted := SortByIp(filters);
    r := Chosen(sorted);
  }

  /** Racks sorted by descending size: the first strategy works if and only if the smallest rack
      holds the fitting size. */
  lemma FitMeetsShortRackWhenSorted(racks: seq<seq<Node>>, unit: int, count: nat)
    requires unit != 0 && racks != []
    requires forall i, j :: 0 <= i < j < |racks| ==> |racks[i]| >= |racks[j]|
    ensures var fit := FirstFit(racks, unit, count, 0);
      FitMeetsShortRack(racks, unit, count) <==> fit.Some? && |racks[|racks| - 1]| < Usable(racks[fit.value], unit)
  {
    var fit, last := FirstFit(racks, unit, count, 0), |racks| - 1;
    if fit.Some? {
      assert |racks| - 1 - fit.value <= last < |racks|;
      forall j | 0 <= j < |racks| ensures |racks[j]| >= |racks[last]| {
        if j < last { assert |racks[j]| >= |racks[last]|; }
      }
    }
  }

  /** Four pods, racks of 4, 4 and 2 nodes: the first rack fits alone, and the slice of four is
      taken from the last rack, which has two. */
  lemma ShortRackExample(racks: seq<seq<Node>>)
    requires Sizes(racks) == [4, 4, 2]
    ensures FitMeetsShortRack(racks, 1, 4)
  {
    assert |racks| == |Sizes(racks)| == 3;
    assert forall i :: 0 <= i < 3 ==> |racks[i]| == Sizes(racks)[i];
    assert Usable(racks[0], 1) == 4;
    assert FirstFit(racks, 1, 4, 0) == Some(0);
    assert |racks[2]| < Usable(racks[0], 1);
  }

  // ---------- ranks ----------

  lemma TwiceInBag(s: seq<Node>, i: nat, j: nat)
    requires i < j < |s|
    ensures s[i] == s[j] ==> multiset(s)[s[i]] >= 2
  {
    assert s == s[..i] + [s[i]] + s[i + 1..j] + [s[j]] + s[j + 1..];
  }

  /** Nodes taken from racks that hold each node once are distinct. */
  lemma ChosenAreDistinct(s: seq<Node>, racks: seq<seq<Node>>)
    requires multiset(s) <= Bag(racks) && forall n :: Bag(racks)[n] <= 1
    ensures forall i, j :: 0 <= i < j < |s| ==> s[i] != s[j]
  {
    forall i, j | 0 <= i < j < |s| ensures s[i] != s[j] {
      TwiceInBag(s, i, j);
      assert multiset(s)[s[i]] <= Bag(racks)[s[i]];
    }
  }

  /** The tail of rackNodeCache: the k-th pod in rank order goes to the k-th node by ip. Pods never
      run out, every node is used once, and as many pods get a node as nodes allow. */
  method AssignRanks(racks: seq<seq<Node>>, unit: int, pods: seq<string>) returns (r: Choice)
    ensures unit != 0 ==> (r.Chosen? <==> !FitMeetsShortRack(racks, unit, |pods|))
    ensures r.Chosen? ==>
      && (unit != 0 || racks == [])
      && |r.nodes| == Min(|pods|, Total(racks))
      && (forall i, j :: 0 <= i < j < |r.nodes| ==> r.nodes[i].ip <= r.nodes[j].ip)
      && (forall k :: 0 <= k < |r.nodes| ==> r.nodes[k].pod == pods[k])
      && exists chosen: seq<Node> :: Planned(chosen, racks, unit, |pods|) && |chosen| == |r.nodes| &&
           forall k :: 0 <= k < |chosen| ==> r.nodes[k] == chosen[k].(pod := pods[k])
  {
    r := Filter(racks, unit, |pods|);
    if !r.Chosen? { return; }
    var filters := r.nodes;
    for k := 0 to |filters|
      invariant |filters| == |r.nodes|
      invariant forall j :: 0 <= j < k ==> filters[j] == r.nodes[j].(pod := pods[j])
      invariant forall j :: k <= j < |filters| ==> filters[j] == r.nodes[j]
    {
      filters := filters[k := filters[k].(pod := pods[k])];
    }
    ghost var chosen := r.nodes;
    r := Chosen(filters);
    assert Planned(chosen, racks, unit, |pods|);
  }
}
