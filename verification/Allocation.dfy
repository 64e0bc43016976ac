/** How many nodes to take from every rack: findMinVarianceAllocation (topologyipsort.go). */
module Allocation {
  import opened Options

  function Sum(s: seq<int>): int {
    if s == [] then 0 else Sum(s[..|s| - 1]) + s[|s| - 1]
  }

  function SumSq(s: seq<int>): int {
    if s == [] then 0 else SumSq(s[..|s| - 1]) + s[|s| - 1] * s[|s| - 1]
  }

  function Min(a: int, b: int): int {
    if a < b then a else b
  }

  // ---------- variance ----------

  function NonZero(s: seq<int>): seq<int> {
    if s == [] then []
    else NonZero(s[..|s| - 1]) + if s[|s| - 1] > 0 then [s[|s| - 1]] else []
  }

  /** Mean of the squares minus square of the mean; 0 for no values. */
  function VarianceOf(s: seq<int>): real {
    if s == [] then 0.0 else OnePass(|s| as real, Sum(s) as real, SumSq(s) as real)
  }

  function OnePass(n: real, sum: real, sumSq: real): real
    requires n != 0.0
  {
    var mean := sum / n;
    sumSq / n - mean * mean
  }

  /** The variance over the racks in use. */
  function Spread(allocation: seq<int>): real {
    VarianceOf(NonZero(allocation))
  }

  method Variance(arr: seq<int>) returns (v: real)
    ensures v == VarianceOf(arr)
  {
    var n := |arr|;
    if n == 0 { return 0.0; }
    var sum, sqSum := 0.0, 0.0;
    for i := 0 to n
      invariant sum == Sum(arr[..i]) as real && sqSum == SumSq(arr[..i]) as real
    {
      assert arr[..i + 1][..i] == arr[..i];
      sum := sum + arr[i] as real;
      sqSum := sqSum + (arr[i] * arr[i]) as real;
    }
    assert arr[..n] == arr;
    var mean := sum / n as real;
    v := sqSum / n as real - mean * mean;
  }

  method CalculateVariance(allocation: array<int>) returns (v: real)
    ensures v == Spread(allocation[..])
  {
    var nonZero: seq<int> := [];
    for i := 0 to allocation.Length
      invariant nonZero == NonZero(allocation[..i])
    {
      assert allocation[..i + 1][..i] == allocation[..i];
      if allocation[i] > 0 { nonZero := nonZero + [allocation[i]]; }
    }
    assert allocation[..allocation.Length] == allocation[..];
    if |nonZero| == 0 { return 0.0; }
    v := Variance(nonZero);
  }

  /** Sum of squared distances from `m`. */
  function Deviation(s: seq<int>, m: real): real {
    if s == [] then 0.0
    else
      var d := s[|s| - 1] as real - m;
      Deviation(s[..|s| - 1], m) + d * d
  }

  function Expanded(n: real, m: real, sum: real, sumSq: real): real {
    sumSq - 2.0 * m * sum + m * m * n
  }

  lemma {:induction false} DeviationExpands(s: seq<int>, m: real)
    ensures Deviation(s, m) == Expanded(|s| as real, m, Sum(s) as real, SumSq(s) as real)
    decreases |s|
  {
    if s != [] {
      var last, x := |s| - 1, s[|s| - 1];
      DeviationExpands(s[..last], m);
      var d := x as real - m;
      assert d * d == (x * x) as real - 2.0 * m * x as real + m * m;
    }
  }

  /** The one-pass formula is the mean squared deviation from the mean. */
  lemma VarianceIsMeanSquaredDeviation(s: seq<int>, n: real, mean: real)
    requires s != [] && n == |s| as real && mean == Sum(s) as real / n
    ensures VarianceOf(s) * n == Deviation(s, mean)
  {
    DeviationExpands(s, mean);
    OnePassFormula(n, mean, Sum(s) as real, SumSq(s) as real, VarianceOf(s));
  }

  lemma OnePassFormula(n: real, mean: real, sum: real, sumSq: real, v: real)
    requires n > 0.0 && mean == sum / n && v == OnePass(n, sum, sumSq)
    ensures v * n == Expanded(n, mean, sum, sumSq)
  {
    var meanSq := sumSq / n;
    assert mean * n == sum && meanSq * n == sumSq;
    RealIdentity(n, mean, meanSq, sum, sumSq);
  }

  lemma RealIdentity(n: real, mean: real, meanSq: real, sum: real, sumSq: real)
    requires mean * n == sum && meanSq * n == sumSq
    ensures (meanSq - mean * mean) * n == sumSq - 2.0 * mean * sum + mean * mean * n
  {
    assert mean * mean * n == mean * (mean * n) == mean * sum;
  }

  // ---------- the greedy step ----------

  function Bumped(allocation: seq<int>, i: nat): seq<int>
    requires i < |allocation|
  {
    allocation[i := allocation[i] + 1]
  }

  predicate HasRoom(allocation: seq<int>, maxAlloc: seq<int>, i: nat)
    requires |allocation| == |maxAlloc|
  {
    i < |allocation| && allocation[i] < maxAlloc[i]
  }

  /** The first rack with room, below `n`, whose extra node gives the least variance. */
  function BestBelow(allocation: seq<int>, maxAlloc: seq<int>, n: nat): (b: Option<nat>)
    requires |allocation| == |maxAlloc| && n <= |allocation|
    ensures b.Some? ==> b.value < n && HasRoom(allocation, maxAlloc, b.value)
  {
    if n == 0 then None
    else
      var b := BestBelow(allocation, maxAlloc, n - 1);
      if allocation[n - 1] < maxAlloc[n - 1] &&
         (b.None? || Spread(Bumped(allocation, n - 1)) < Spread(Bumped(allocation, b.value)))
      then Some(n - 1) else b
  }

  function Best(allocation: seq<int>, maxAlloc: seq<int>): (b: Option<nat>)
    requires |allocation| == |maxAlloc|
    ensures b.Some? ==> HasRoom(allocation, maxAlloc, b.value)
  {
    BestBelow(allocation, maxAlloc, |allocation|)
  }

  /** Adds one node at a time to the best rack while there is room. */
  function Greedy(allocation: seq<int>, maxAlloc: seq<int>, remaining: nat): (r: seq<int>)
    requires |allocation| == |maxAlloc|
    ensures |r| == |allocation|
    decreases remaining
  {
    var b := Best(allocation, maxAlloc);
    if remaining == 0 || b.None? then allocation
    else Greedy(Bumped(allocation, b.value), maxAlloc, remaining - 1)
  }

  /** No rack with room would do better, and an earlier one would do worse. */
  ghost predicate IsBest(allocation: seq<int>, maxAlloc: seq<int>, b: nat)
    requires |allocation| == |maxAlloc|
  {
    && HasRoom(allocation, maxAlloc, b)
    && forall i: nat :: HasRoom(allocation, maxAlloc, i) ==>
         && Spread(Bumped(allocation, b)) <= Spread(Bumped(allocation, i))
         && (i < b ==> Spread(Bumped(allocation, b)) < Spread(Bumped(allocation, i)))
  }

  lemma {:induction false} BestBelowIsBest(allocation: seq<int>, maxAlloc: seq<int>, n: nat)
    requires |allocation| == |maxAlloc| && n <= |allocation|
    ensures var b := BestBelow(allocation, maxAlloc, n);
      && (b.None? ==> forall i: nat :: i < n ==> !HasRoom(allocation, maxAlloc, i))
      && (b.Some? ==> forall i: nat :: i < n && HasRoom(allocation, maxAlloc, i) ==>
           && Spread(Bumped(allocation, b.value)) <= Spread(Bumped(allocation, i))
           && (i < b.value ==> Spread(Bumped(allocation, b.value)) < Spread(Bumped(allocation, i))))
  {
    if n > 0 { BestBelowIsBest(allocation, maxAlloc, n - 1); }
  }

  lemma BestIsBest(allocation: seq<int>, maxAlloc: seq<int>)
    requires |allocation| == |maxAlloc|
    ensures var b := Best(allocation, maxAlloc);
      if b.Some? then IsBest(allocation, maxAlloc, b.value)
      else forall i: nat :: !HasRoom(allocation, maxAlloc, i)
  {
    BestBelowIsBest(allocation, maxAlloc, |allocation|);
  }

  // ---------- the whole allocation ----------

  function Caps(rackCounts: seq<int>, totalCount: int): (m: seq<int>)
    ensures |m| == |rackCounts|
  {
    seq(|rackCounts|, i requires 0 <= i < |rackCounts| => Min(rackCounts[i], totalCount))
  }

  /** How many racks from the front reach the demand; all of them when none do. */
  function RacksNeeded(maxAlloc: seq<int>, totalCount: int, i: nat): (k: nat)
    requires i <= |maxAlloc|
    ensures i <= k <= |maxAlloc|
    decreases |maxAlloc| - i
  {
    if i == |maxAlloc| then i
    else if Sum(maxAlloc[..i + 1]) >= totalCount then i + 1
    else RacksNeeded(maxAlloc, totalCount, i + 1)
  }

  function Share(totalCount: nat, k: nat, i: nat): nat
    requires k > 0
  {
    totalCount / k + if i < totalCount % k then 1 else 0
  }

  /** The demand divided evenly over the first `k` racks, cut to what each rack holds. */
  function EvenSplit(maxAlloc: seq<int>, totalCount: nat, k: nat): (a: seq<int>)
    requires 0 < k <= |maxAlloc|
    ensures |a| == |maxAlloc|
  {
    seq(|maxAlloc|, i requires 0 <= i < |maxAlloc| => if i < k then Min(Share(totalCount, k, i), maxAlloc[i]) else 0)
  }

  function Start(rackCounts: seq<int>, totalCount: nat): (a: seq<int>)
    requires rackCounts != []
    ensures |a| == |rackCounts|
  {
    var maxAlloc := Caps(rackCounts, totalCount);
    EvenSplit(maxAlloc, totalCount, RacksNeeded(maxAlloc, totalCount, 0))
  }

  function Allocate(rackCounts: seq<int>, totalCount: nat): (a: seq<int>)
    ensures |a| == |rackCounts|
  {
    if rackCounts == [] || totalCount == 0 then seq(|rackCounts|, _ => 0)
    else
      var start := Start(rackCounts, totalCount);
      if Sum(start) < totalCount then Greedy(start, Caps(rackCounts, totalCount), totalCount - Sum(start)) else start
  }

  method FindMinVarianceAllocation(rackCounts: seq<int>, totalCount: nat) returns (allocation: array<int>)
    ensures fresh(allocation) && allocation[..] == Allocate(rackCounts, totalCount)
  {
    var n := |rackCounts|;
    allocation := new int[n](_ => 0);
    assert allocation[..] == seq(n, _ => 0);
    if n == 0 || totalCount == 0 { return; }
    var maxAlloc := CapRacks(rackCounts, totalCount);
    var racksNeeded := CountRacks(maxAlloc, totalCount);
    SplitEvenly(allocation, maxAlloc, totalCount, racksNeeded);
    var handedOut := SumArray(allocation);
    if handedOut < totalCount {
      DistributeRest(allocation, maxAlloc, totalCount - handedOut);
    }
  }

  method CapRacks(rackCounts: seq<int>, totalCount: nat) returns (maxAlloc: array<int>)
    ensures fresh(maxAlloc) && maxAlloc[..] == Caps(rackCounts, totalCount)
  {
    maxAlloc := new int[|rackCounts|];
    for i := 0 to |rackCounts|
      invariant forall j :: 0 <= j < i ==> maxAlloc[j] == Min(rackCounts[j], totalCount)
    {
      maxAlloc[i] := Min(rackCounts[i], totalCount);
    }
  }

  method CountRacks(maxAlloc: array<int>, totalCount: nat) returns (racksNeeded: nat)
    requires maxAlloc.Length > 0
    ensures racksNeeded == RacksNeeded(maxAlloc[..], totalCount, 0)
  {
    racksNeeded := 0;
    var totalCapacity, i := 0, 0;
    while i < maxAlloc.Length
      invariant 0 <= i <= maxAlloc.Length
      invariant totalCapacity == Sum(maxAlloc[..i])
      invariant RacksNeeded(maxAlloc[..], totalCount, 0) == RacksNeeded(maxAlloc[..], totalCount, i)
    {
      totalCapacity := totalCapacity + maxAlloc[i];
      assert maxAlloc[..i + 1][..i] == maxAlloc[..i] && maxAlloc[..][..i + 1] == maxAlloc[..i + 1];
      if totalCapacity >= totalCount {
        return i + 1;
      }
      i := i + 1;
    }
    racksNeeded := maxAlloc.Length;
  }

  method SplitEvenly(allocation: array<int>, maxAlloc: array<int>, totalCount: nat, racksNeeded: nat)
    requires allocation != maxAlloc && 0 < racksNeeded <= maxAlloc.Length == allocation.Length
    requires forall i :: 0 <= i < allocation.Length ==> allocation[i] == 0
    modifies allocation
    ensures allocation[..] == EvenSplit(maxAlloc[..], totalCount, racksNeeded)
  {
    var avgPerRack, remainder := totalCount / racksNeeded, totalCount % racksNeeded;
    for j := 0 to racksNeeded
      invariant forall l :: 0 <= l < j ==> allocation[l] == Min(Share(totalCount, racksNeeded, l), maxAlloc[l])
      invariant forall l :: j <= l < allocation.Length ==> allocation[l] == 0
    {
      allocation[j] := avgPerRack;
      if j < remainder { allocation[j] := allocation[j] + 1; }
      if allocation[j] > maxAlloc[j] { allocation[j] := maxAlloc[j]; }
    }
  }

  method SumArray(a: array<int>) returns (s: int)
    ensures s == Sum(a[..])
  {
    s := 0;
    for i := 0 to a.Length
      invariant s == Sum(a[..i])
    {
      assert a[..i + 1][..i] == a[..i];
      s := s + a[i];
    }
    assert a[..a.Length] == a[..];
  }

  /** Tries every rack with room by adding a node in place and taking it back. */
  method BestRack(allocation: array<int>, maxAlloc: array<int>) returns (bestRack: int)
    requires allocation != maxAlloc && allocation.Length == maxAlloc.Length
    modifies allocation
    ensures allocation[..] == old(allocation[..])
    ensures -1 <= bestRack < allocation.Length
    ensures Best(allocation[..], maxAlloc[..]) == if bestRack == -1 then None else Some(bestRack)
  {
    ghost var a, caps := allocation[..], maxAlloc[..];
    bestRack := -1;
    var bestVariance := 0.0;
    for i := 0 to allocation.Length
      invariant allocation[..] == a && maxAlloc[..] == caps
      invariant -1 <= bestRack < i
      invariant BestBelow(a, caps, i) == if bestRack == -1 then None else Some(bestRack)
      invariant bestRack != -1 ==> bestVariance == Spread(Bumped(a, bestRack))
    {
      if allocation[i] < maxAlloc[i] {
        allocation[i] := allocation[i] + 1;
        assert allocation[..] == Bumped(a, i);
        var variance := CalculateVariance(allocation);
        if bestRack == -1 || variance < bestVariance {
          bestVariance := variance;
          bestRack := i;
        }
        allocation[i] := allocation[i] - 1;
        assert allocation[..] == a;
      }
    }
  }

  /** The loop that hands out what the even split left over. */
  method DistributeRest(allocation: array<int>, maxAlloc: array<int>, rest: nat)
    requires allocation != maxAlloc && allocation.Length == maxAlloc.Length
    modifies allocation
    ensures allocation[..] == Greedy(old(allocation[..]), maxAlloc[..], rest)
  {
    ghost var start, caps := allocation[..], maxAlloc[..];
    var remaining := rest;
    while remaining > 0
      invariant 0 <= remaining <= rest && maxAlloc[..] == caps
      invariant Greedy(start, caps, rest) == Greedy(allocation[..], caps, remaining)
    {
      var bestRack := BestRack(allocation, maxAlloc);
      ghost var a := allocation[..];
      if bestRack != -1 {
        allocation[bestRack] := allocation[bestRack] + 1;
        assert allocation[..] == Bumped(a, bestRack);
        remaining := remaining - 1;
      } else {
        break;
      }
    }
  }

  // ---------- what the allocation guarantees ----------

  lemma {:induction false} SumBump(s: seq<int>, i: nat, d: int)
    requires i < |s|
    ensures Sum(s[i := s[i] + d]) == Sum(s) + d
    decreases |s|
  {
    var last := |s| - 1;
    var t := s[i := s[i] + d];
    if i == last { assert t[..last] == s[..last]; }
    else {
      assert t[..last] == s[..last][i := s[i] + d];
      SumBump(s[..last], i, d);
    }
  }

  lemma {:induction false} SumMonotone(a: seq<int>, b: seq<int>)
    requires |a| == |b| && forall i :: 0 <= i < |a| ==> a[i] <= b[i]
    ensures Sum(a) <= Sum(b)
    ensures Sum(a) == Sum(b) ==> a == b
    decreases |a|
  {
    if a != [] {
      var last := |a| - 1;
      SumMonotone(a[..last], b[..last]);
      assert a == a[..last] + [a[last]] && b == b[..last] + [b[last]];
    }
  }

  ghost predicate Within(a: seq<int>, caps: seq<int>) {
    |a| == |caps| && forall i :: 0 <= i < |a| ==> 0 <= a[i] <= caps[i]
  }

  lemma NoRoomIsFull(a: seq<int>, caps: seq<int>)
    requires Within(a, caps) && Best(a, caps).None?
    ensures a == caps
  {
    BestIsBest(a, caps);
    forall i | 0 <= i < |a| ensures a[i] == caps[i] { assert !HasRoom(a, caps, i); }
  }

  lemma BumpStaysWithin(a: seq<int>, caps: seq<int>, b: nat)
    requires Within(a, caps) && HasRoom(a, caps, b)
    ensures Within(Bumped(a, b), caps) && Sum(Bumped(a, b)) == Sum(a) + 1 <= Sum(caps)
  {
    SumBump(a, b, 1);
    SumMonotone(Bumped(a, b), caps);
  }

  /** The greedy phase stays within the caps and stops short only when every rack is full. */
  lemma {:induction false} GreedySum(a: seq<int>, caps: seq<int>, remaining: nat)
    requires Within(a, caps)
    ensures var r := Greedy(a, caps, remaining);
      && Within(r, caps)
      && Sum(r) == Min(Sum(a) + remaining, Sum(caps))
    decreases remaining
  {
    SumMonotone(a, caps);
    var b := Best(a, caps);
    if b.None? {
      NoRoomIsFull(a, caps);
    } else if remaining > 0 {
      BumpStaysWithin(a, caps, b.value);
      GreedySum(Bumped(a, b.value), caps, remaining - 1);
    }
  }

  /** Even shares add up to the demand. */
  function Shares(totalCount: nat, k: nat, n: nat): (s: seq<int>)
    requires k > 0
    ensures |s| == n
  {
    seq(n, i requires 0 <= i < n => Share(totalCount, k, i))
  }

  lemma {:induction false} SumShares(totalCount: nat, k: nat, n: nat)
    requires 0 < k && n <= k
    ensures Sum(Shares(totalCount, k, n)) == n * (totalCount / k) + Min(n, totalCount % k)
    decreases n
  {
    if n > 0 {
      var q, r := totalCount / k, totalCount % k;
      assert Shares(totalCount, k, n)[..n - 1] == Shares(totalCount, k, n - 1);
      SumShares(totalCount, k, n - 1);
      NextMultiple(n - 1, q);
      assert Share(totalCount, k, n - 1) == q + if n - 1 < r then 1 else 0;
    }
  }

  lemma NextMultiple(n: int, q: int)
    ensures (n + 1) * q == n * q + q
  {
  }

  lemma {:induction false} SumPadded(a: seq<int>, k: nat)
    requires k <= |a| && forall i :: k <= i < |a| ==> a[i] == 0
    ensures Sum(a) == Sum(a[..k])
    decreases |a|
  {
    if k < |a| {
      SumPadded(a[..|a| - 1], k);
      assert a[..|a| - 1][..k] == a[..k];
    } else {
      assert a[..k] == a;
    }
  }

  lemma EvenSplitWithin(caps: seq<int>, totalCount: nat, k: nat)
    requires 0 < k <= |caps| && forall i :: 0 <= i < |caps| ==> caps[i] >= 0
    ensures Within(EvenSplit(caps, totalCount, k), caps)
    ensures Sum(EvenSplit(caps, totalCount, k)) <= totalCount
  {
    var a := EvenSplit(caps, totalCount, k);
    SumPadded(a, k);
    SumMonotone(a[..k], Shares(totalCount, k, k));
    SumAllShares(totalCount, k);
  }

  lemma SumAllShares(totalCount: nat, k: nat)
    requires 0 < k
    ensures Sum(Shares(totalCount, k, k)) == totalCount
  {
    SumShares(totalCount, k, k);
  }

  lemma {:induction false} CapsSum(rackCounts: seq<int>, totalCount: nat)
    requires forall i :: 0 <= i < |rackCounts| ==> rackCounts[i] >= 0
    ensures Min(totalCount, Sum(Caps(rackCounts, totalCount))) == Min(totalCount, Sum(rackCounts))
    ensures Sum(Caps(rackCounts, totalCount)) >= 0
    decreases |rackCounts|
  {
    if rackCounts != [] {
      var last := |rackCounts| - 1;
      assert Caps(rackCounts, totalCount)[..last] == Caps(rackCounts[..last], totalCount);
      CapsSum(rackCounts[..last], totalCount);
    }
  }

  lemma {:induction false} SumOfZeros(n: nat)
    ensures Sum(seq(n, _ => 0)) == 0
  {
    if n > 0 {
      assert seq(n, _ => 0)[..n - 1] == seq(n - 1, _ => 0);
      SumOfZeros(n - 1);
    }
  }

  lemma StartFacts(rackCounts: seq<int>, totalCount: nat)
    requires rackCounts != [] && forall i :: 0 <= i < |rackCounts| ==> rackCounts[i] >= 0
    ensures Within(Start(rackCounts, totalCount), Caps(rackCounts, totalCount))
    ensures Sum(Start(rackCounts, totalCount)) <= totalCount
    ensures Sum(Start(rackCounts, totalCount)) <= Sum(Caps(rackCounts, totalCount))
  {
    var caps := Caps(rackCounts, totalCount);
    EvenSplitWithin(caps, totalCount, RacksNeeded(caps, totalCount, 0));
    SumMonotone(Start(rackCounts, totalCount), caps);
  }

  lemma Completed(start: seq<int>, caps: seq<int>, rackCounts: seq<int>, totalCount: nat)
    requires Within(start, caps) && Sum(start) <= totalCount && Sum(start) <= Sum(caps)
    requires |caps| == |rackCounts| && forall i :: 0 <= i < |caps| ==> caps[i] <= rackCounts[i]
    requires Min(totalCount, Sum(caps)) == Min(totalCount, Sum(rackCounts))
    ensures var r := if Sum(start) < totalCount then Greedy(start, caps, totalCount - Sum(start)) else start;
      Within(r, rackCounts) && Sum(r) == Min(totalCount, Sum(rackCounts))
  {
    if Sum(start) < totalCount { GreedySum(start, caps, totalCount - Sum(start)); }
  }

  lemma NothingAllocated(rackCounts: seq<int>)
    requires forall i :: 0 <= i < |rackCounts| ==> rackCounts[i] >= 0
    ensures var zeros := seq(|rackCounts|, _ => 0); Within(zeros, rackCounts) && Sum(zeros) == 0 <= Sum(rackCounts)
  {
    SumOfZeros(|rackCounts|);
    SumMonotone(seq(|rackCounts|, _ => 0), rackCounts);
  }

  /** Every rack stays within its size, and together they give exactly the demand or everything
      there is, whichever is less. */
  lemma AllocationIsExact(rackCounts: seq<int>, totalCount: nat)
    requires forall i :: 0 <= i < |rackCounts| ==> rackCounts[i] >= 0
    ensures Within(Allocate(rackCounts, totalCount), rackCounts)
    ensures Sum(Allocate(rackCounts, totalCount)) == Min(totalCount, Sum(rackCounts))
  {
    if rackCounts == [] || totalCount == 0 {
      NothingAllocated(rackCounts);
    } else {
      DemandAllocated(rackCounts, totalCount);
    }
  }

  lemma DemandAllocated(rackCounts: seq<int>, totalCount: nat)
    requires rackCounts != [] && totalCount > 0 && forall i :: 0 <= i < |rackCounts| ==> rackCounts[i] >= 0
    ensures Within(Allocate(rackCounts, totalCount), rackCounts)
    ensures Sum(Allocate(rackCounts, totalCount)) == Min(totalCount, Sum(rackCounts))
  {
    CapsSum(rackCounts, totalCount);
    StartFacts(rackCounts, totalCount);
    Completed(Start(rackCounts, totalCount), Caps(rackCounts, totalCount), rackCounts, totalCount);
  }

  // ---------- where the greedy step puts a node ----------

  lemma NonZeroSnoc(s: seq<int>, x: int)
    ensures x <= 0 ==> NonZero(s + [x]) == NonZero(s)
    ensures x > 0 ==> |NonZero(s + [x])| == |NonZero(s)| + 1
    ensures x > 0 ==> Sum(NonZero(s + [x])) == Sum(NonZero(s)) + x
    ensures x > 0 ==> SumSq(NonZero(s + [x])) == SumSq(NonZero(s)) + x * x
  {
    assert (s + [x])[..|s|] == s;
    SnocSums(NonZero(s), x);
  }

  lemma NextSquare(x: int)
    ensures (x + 1) * (x + 1) == x * x + 2 * x + 1
  {
  }

  lemma {:induction false} NonZeroFacts(s: seq<int>, i: nat)
    requires i < |s| && s[i] > 0 && forall j :: 0 <= j < |s| ==> s[j] >= 0
    ensures |NonZero(Bumped(s, i))| == |NonZero(s)| > 0
    ensures Sum(NonZero(Bumped(s, i))) == Sum(NonZero(s)) + 1
    ensures SumSq(NonZero(Bumped(s, i))) == SumSq(NonZero(s)) + 2 * s[i] + 1
    decreases |s|
  {
    var last := |s| - 1;
    var front, x := s[..last], s[last];
    assert s == front + [x];
    NonZeroSnoc(front, x);
    if i == last {
      assert Bumped(s, i) == front + [x + 1];
      NonZeroSnoc(front, x + 1);
      NextSquare(x);
    } else {
      assert Bumped(s, i) == Bumped(front, i) + [x];
      NonZeroFacts(front, i);
      NonZeroSnoc(Bumped(front, i), x);
    }
  }

  lemma SnocSums(s: seq<int>, x: int)
    ensures Sum(s + [x]) == Sum(s) + x && SumSq(s + [x]) == SumSq(s) + x * x
    ensures s + [] == s
  {
    assert (s + [x])[..|s|] == s;
  }

  /** Between racks in use, an extra node spreads the allocation less exactly where fewer nodes
      were taken. */
  lemma SpreadFollowsSize(a: seq<int>, i: nat, j: nat)
    requires i < |a| && j < |a| && a[i] > 0 && a[j] > 0 && forall l :: 0 <= l < |a| ==> a[l] >= 0
    ensures Spread(Bumped(a, i)) <= Spread(Bumped(a, j)) <==> a[i] <= a[j]
  {
    NonZeroFacts(a, i);
    NonZeroFacts(a, j);
    var n := |NonZero(a)| as real;
    var x, y := SumSq(NonZero(Bumped(a, i))), SumSq(NonZero(Bumped(a, j)));
    assert x - y == 2 * (a[i] - a[j]);
    DivideBoth(x as real, y as real, n);
  }

  lemma DivideBoth(x: real, y: real, n: real)
    requires n > 0.0
    ensures x / n <= y / n <==> x <= y
  {
  }

  /** One step of the greedy phase. */
  ghost predicate BestStep(a: seq<int>, caps: seq<int>, a': seq<int>) {
    |a| == |caps| && exists b: nat :: IsBest(a, caps, b) && a' == Bumped(a, b)
  }

  /** The allocation grows out of the even split by best steps alone. */
  lemma {:induction false} GreedyIsBestSteps(a: seq<int>, caps: seq<int>, remaining: nat) returns (trace: seq<seq<int>>)
    requires |a| == |caps|
    ensures trace != [] && trace[0] == a && trace[|trace| - 1] == Greedy(a, caps, remaining)
    ensures |trace| <= remaining + 1
    ensures forall i :: 0 <= i < |trace| - 1 ==> BestStep(trace[i], caps, trace[i + 1])
    decreases remaining
  {
    BestIsBest(a, caps);
    var b := Best(a, caps);
    if remaining == 0 || b.None? {
      trace := [a];
    } else {
      var rest := GreedyIsBestSteps(Bumped(a, b.value), caps, remaining - 1);
      trace := [a] + rest;
      assert BestStep(a, caps, rest[0]);
      forall i | 0 <= i < |trace| - 1 ensures BestStep(trace[i], caps, trace[i + 1]) {
        if i > 0 { assert trace[i] == rest[i - 1] && trace[i + 1] == rest[i]; }
      }
    }
  }

  /** A best step into a rack already in use goes to one holding the fewest among those in use
      that still have room. */
  lemma BestUsedRackHoldsFewest(a: seq<int>, caps: seq<int>, b: nat, i: nat)
    requires Within(a, caps) && IsBest(a, caps, b) && a[b] > 0
    requires HasRoom(a, caps, i) && a[i] > 0
    ensures a[b] <= a[i]
  {
    SpreadFollowsSize(a, b, i);
  }
}
