/** Which allocation findMinVarianceAllocation returns, said without its steps: an even split over the first racks
    that reach the demand, cut to their sizes, and grown by best steps. */
module AllocationShape {
  import opened Allocation

  /** k is the number of racks from the front that are needed to reach the demand, or of all when none do. */
  ghost predicate ReachesFirst(caps: seq<int>, totalCount: nat, k: nat) {
    && 0 < k <= |caps|
    && (k == |caps| || Sum(caps[..k]) >= totalCount)
    && forall j :: 0 <= j < k ==> Sum(caps[..j]) < totalCount
  }

  /** Shares that add up to the demand and differ by at most one, the larger ones first. */
  ghost predicate IsEven(shares: seq<int>, totalCount: nat) {
    Sum(shares) == totalCount && forall i, j :: 0 <= i < j < |shares| ==> shares[j] <= shares[i] <= shares[j] + 1
  }

  ghost predicate IsCut(a: seq<int>, shares: seq<int>, caps: seq<int>) {
    && |shares| <= |a| == |caps|
    && forall i :: 0 <= i < |a| ==> a[i] == if i < |shares| then Min(shares[i], caps[i]) else 0
  }

  ghost predicate IsStart(a: seq<int>, caps: seq<int>, totalCount: nat) {
    exists shares :: ReachesFirst(caps, totalCount, |shares|) && IsEven(shares, totalCount) && IsCut(a, shares, caps)
  }

  /** Best steps lead from the first allocation of the trace to the last. */
  ghost predicate IsGrowth(trace: seq<seq<int>>, caps: seq<int>) {
    trace != [] && forall i :: 0 <= i < |trace| - 1 ==> BestStep(trace[i], caps, trace[i + 1])
  }

  /** The trace leads from an even split to `a`. */
  ghost predicate Builds(trace: seq<seq<int>>, a: seq<int>, caps: seq<int>, totalCount: nat) {
    IsGrowth(trace, caps) && IsStart(trace[0], caps, totalCount) && trace[|trace| - 1] == a
  }

  /** The demand, or everything there is, is spread as evenly as the front racks allow, and the rest goes where it
      raises the variance least. */
  ghost predicate IsAllocation(a: seq<int>, rackCounts: seq<int>, totalCount: nat) {
    && |a| == |rackCounts|
    && Sum(a) == Min(totalCount, Sum(rackCounts))
    && if rackCounts == [] || totalCount == 0 then forall i :: 0 <= i < |a| ==> a[i] == 0
       else exists trace :: Builds(trace, a, Caps(rackCounts, totalCount), totalCount)
  }

  // ---------- Allocate fits the description ----------

  lemma {:induction false} NeededReachesFirst(caps: seq<int>, totalCount: nat, i: nat)
    requires i < |caps| && totalCount > 0 && forall j :: 0 <= j <= i ==> Sum(caps[..j]) < totalCount
    ensures ReachesFirst(caps, totalCount, RacksNeeded(caps, totalCount, i))
    decreases |caps| - i
  {
    if Sum(caps[..i + 1]) < totalCount && i + 1 < |caps| { NeededReachesFirst(caps, totalCount, i + 1); }
  }

  lemma SharesAreEven(totalCount: nat, k: nat)
    requires k > 0
    ensures IsEven(Shares(totalCount, k, k), totalCount)
  {
    SumAllShares(totalCount, k);
  }

  lemma StartIsStart(rackCounts: seq<int>, totalCount: nat)
    requires rackCounts != [] && totalCount > 0
    ensures IsStart(Start(rackCounts, totalCount), Caps(rackCounts, totalCount), totalCount)
  {
    var caps := Caps(rackCounts, totalCount);
    var k := RacksNeeded(caps, totalCount, 0);
    NeededReachesFirst(caps, totalCount, 0);
    SharesAreEven(totalCount, k);
    assert IsCut(Start(rackCounts, totalCount), Shares(totalCount, k, k), caps);
  }

  lemma AllocationTrace(rackCounts: seq<int>, totalCount: nat) returns (trace: seq<seq<int>>)
    requires rackCounts != [] && totalCount > 0
    ensures IsGrowth(trace, Caps(rackCounts, totalCount)) && trace[0] == Start(rackCounts, totalCount)
    ensures trace[|trace| - 1] == Allocate(rackCounts, totalCount)
  {
    var start := Start(rackCounts, totalCount);
    trace := [start];
    if Sum(start) < totalCount {
      trace := GreedyIsBestSteps(start, Caps(rackCounts, totalCount), totalCount - Sum(start));
    }
  }

  lemma AllocateFits(rackCounts: seq<int>, totalCount: nat)
    requires forall i :: 0 <= i < |rackCounts| ==> rackCounts[i] >= 0
    ensures IsAllocation(Allocate(rackCounts, totalCount), rackCounts, totalCount)
  {
    AllocationIsExact(rackCounts, totalCount);
    if rackCounts != [] && totalCount > 0 {
      StartIsStart(rackCounts, totalCount);
      var trace := AllocationTrace(rackCounts, totalCount);
      assert Builds(trace, Allocate(rackCounts, totalCount), Caps(rackCounts, totalCount), totalCount);
    }
  }

  // ---------- and nothing else does ----------

  lemma ReachesFirstOnce(caps: seq<int>, totalCount: nat, k: nat, l: nat)
    requires ReachesFirst(caps, totalCount, k) && ReachesFirst(caps, totalCount, l)
    ensures k == l
  {
  }

  lemma LastDecides(s: seq<int>, t: seq<int>, totalCount: nat)
    requires IsEven(s, totalCount) && IsEven(t, totalCount) && |s| == |t| > 0
    ensures s[|s| - 1] >= t[|t| - 1]
  {
    var last := |s| - 1;
    if s[last] < t[last] { SumMonotone(s, t); }
  }

  lemma EvenIsUnique(s: seq<int>, t: seq<int>, totalCount: nat)
    requires IsEven(s, totalCount) && IsEven(t, totalCount) && |s| == |t|
    ensures s == t
  {
    if s != [] {
      LastDecides(s, t, totalCount);
      LastDecides(t, s, totalCount);
      if i :| 0 <= i < |s| && s[i] > t[i] {
        forall j | 0 <= j < |s| ensures t[j] <= s[j] {}
        SumMonotone(t, s);
      } else {
        SumMonotone(s, t);
      }
    }
  }

  lemma StartIsUnique(a: seq<int>, b: seq<int>, caps: seq<int>, totalCount: nat)
    requires IsStart(a, caps, totalCount) && IsStart(b, caps, totalCount)
    ensures a == b
  {
    var s :| ReachesFirst(caps, totalCount, |s|) && IsEven(s, totalCount) && IsCut(a, s, caps);
    var t :| ReachesFirst(caps, totalCount, |t|) && IsEven(t, totalCount) && IsCut(b, t, caps);
    ReachesFirstOnce(caps, totalCount, |s|, |t|);
    EvenIsUnique(s, t, totalCount);
  }

  lemma BestStepIsUnique(a: seq<int>, caps: seq<int>, b: seq<int>, c: seq<int>)
    requires BestStep(a, caps, b) && BestStep(a, caps, c)
    ensures b == c
  {
    var i: nat :| IsBest(a, caps, i) && b == Bumped(a, i);
    var j: nat :| IsBest(a, caps, j) && c == Bumped(a, j);
    assert HasRoom(a, caps, i) && HasRoom(a, caps, j);
  }

  lemma StepAddsOne(a: seq<int>, caps: seq<int>, b: seq<int>)
    requires BestStep(a, caps, b)
    ensures Sum(b) == Sum(a) + 1
  {
    var i: nat :| IsBest(a, caps, i) && b == Bumped(a, i);
    SumBump(a, i, 1);
  }

  lemma {:induction false} GrowthAddsUp(trace: seq<seq<int>>, caps: seq<int>, i: nat)
    requires IsGrowth(trace, caps) && i < |trace|
    ensures Sum(trace[i]) == Sum(trace[0]) + i
    decreases i
  {
    if i > 0 {
      GrowthAddsUp(trace, caps, i - 1);
      StepAddsOne(trace[i - 1], caps, trace[i - 1 + 1]);
    }
  }

  lemma {:induction false} GrowthIsUnique(t: seq<seq<int>>, u: seq<seq<int>>, caps: seq<int>, i: nat)
    requires IsGrowth(t, caps) && IsGrowth(u, caps) && t[0] == u[0] && i < |t| && i < |u|
    ensures t[i] == u[i]
    decreases i
  {
    if i > 0 {
      GrowthIsUnique(t, u, caps, i - 1);
      assert BestStep(t[i - 1], caps, t[i - 1 + 1]) && BestStep(u[i - 1], caps, u[i - 1 + 1]);
      BestStepIsUnique(t[i - 1], caps, t[i], u[i]);
    }
  }

  lemma BuiltOnce(t: seq<seq<int>>, u: seq<seq<int>>, a: seq<int>, b: seq<int>, caps: seq<int>, totalCount: nat)
    requires Builds(t, a, caps, totalCount) && Builds(u, b, caps, totalCount) && Sum(a) == Sum(b)
    ensures a == b
  {
    StartIsUnique(t[0], u[0], caps, totalCount);
    GrowthAddsUp(t, caps, |t| - 1);
    GrowthAddsUp(u, caps, |u| - 1);
    GrowthIsUnique(t, u, caps, |t| - 1);
  }

  lemma AllocationIsUnique(a: seq<int>, b: seq<int>, rackCounts: seq<int>, totalCount: nat)
    requires IsAllocation(a, rackCounts, totalCount) && IsAllocation(b, rackCounts, totalCount)
    ensures a == b
  {
    if rackCounts == [] || totalCount == 0 {
      assert forall i :: 0 <= i < |a| ==> a[i] == b[i];
    } else {
      var caps := Caps(rackCounts, totalCount);
      var t :| Builds(t, a, caps, totalCount);
      var u :| Builds(u, b, caps, totalCount);
      BuiltOnce(t, u, a, b, caps, totalCount);
    }
  }

  /** Of all allocations, findMinVarianceAllocation returns the one that fits the description. */
  lemma AllocateIff(a: seq<int>, rackCounts: seq<int>, totalCount: nat)
    requires forall i :: 0 <= i < |rackCounts| ==> rackCounts[i] >= 0
    ensures IsAllocation(a, rackCounts, totalCount) <==> a == Allocate(rackCounts, totalCount)
  {
    var b := Allocate(rackCounts, totalCount);
    AllocateFits(rackCounts, totalCount);
    if IsAllocation(a, rackCounts, totalCount) { AllocationIsUnique(a, b, rackCounts, totalCount); }
  }

  /** A first rack that holds the demand gets all of it. */
  lemma FirstRackSuffices(rackCounts: seq<int>, totalCount: nat)
    requires forall i :: 0 <= i < |rackCounts| ==> rackCounts[i] >= 0
    requires rackCounts != [] && rackCounts[0] >= totalCount
    ensures Allocate(rackCounts, totalCount) == [totalCount] + seq(|rackCounts| - 1, _ => 0)
  {
    var a := [totalCount] + seq(|rackCounts| - 1, _ => 0);
    AllocationIsExact(rackCounts, totalCount);
    SumPadded(a, 1);
    assert a[..1] == [totalCount] && [totalCount][..0] == [];
    if totalCount > 0 {
      var caps := Caps(rackCounts, totalCount);
      StartIsStart(rackCounts, totalCount);
      assert caps[..1][..0] == [];
      assert ReachesFirst(caps, totalCount, 1) && IsEven([totalCount], totalCount) && IsCut(a, [totalCount], caps);
      StartIsUnique(a, Start(rackCounts, totalCount), caps, totalCount);
    }
  }
}
