/** Fitting a benchmark's node count and global batch size to its parallel degrees (adapt_nodes.py). */
module AdaptNodes {
  import opened Multiples

  // ---------- divisors ----------

  function Gcd(a: nat, b: nat): (d: nat)
    requires a > 0
    ensures d > 0
    decreases b
  {
    if b == 0 then a else Gcd(b, a % b)
  }

  lemma DividesSum(d: int, m: int, n: int, x: int, y: int)
    requires d > 0 && Divides(d, m) && Divides(d, n)
    ensures Divides(d, x * m + y * n)
  {
    Quotient(d, m);
    Quotient(d, n);
    var p, q := m / d, n / d;
    assert x * m == x * p * d by { assert m == p * d; }
    assert y * n == y * q * d by { assert n == q * d; }
    assert x * m + y * n == (x * p + y * q) * d;
    MultipleDivides(d, x * p + y * q);
  }

  lemma {:induction false} GcdDivides(a: nat, b: nat)
    requires a > 0
    ensures Divides(Gcd(a, b), a) && Divides(Gcd(a, b), b)
    decreases b
  {
    if b > 0 {
      var d := Gcd(a, b);
      GcdDivides(b, a % b);
      DividesSum(d, b, a % b, a / b, 1);
      Quotient(b, a);
    } else {
      MultipleDivides(a, 1);
      MultipleDivides(a, 0);
    }
  }

  lemma {:induction false} Bezout(a: nat, b: nat) returns (x: int, y: int)
    requires a > 0
    ensures x * a + y * b == Gcd(a, b)
    decreases b
  {
    if b == 0 { return 1, 0; }
    var p, q := Bezout(b, a % b);
    Quotient(b, a);
    var t := a / b;
    x, y := q, p - q * t;
    assert a % b == a - t * b;
    assert q * (a % b) == q * a - q * t * b;
    assert y * b == p * b - q * t * b;
  }

  // ---------- the node counts that fit ----------

  function Abs(g: int): nat {
    if g < 0 then -g else g
  }

  /** The smallest number of nodes whose GPUs are a multiple of the parallel unit. */
  function NodeStep(unit: int, gpus: int): (s: int)
    requires unit > 0
    ensures s > 0
  {
    var d := Gcd(unit, Abs(gpus));
    GcdDivides(unit, Abs(gpus));
    Quotient(d, unit);
    MultipleSign(unit / d, d);
    unit / d
  }

  lemma MultipleSign(q: int, d: int)
    requires d > 0
    ensures q * d > 0 <==> q > 0
  {
    if q <= 0 { assert q * d <= 0; } else { assert q * d >= d; }
  }

  /** gpus and -gpus have the same multiples. */
  lemma SignDoesNotMatter(unit: int, n: int, gpus: int)
    requires unit > 0
    ensures Divides(unit, n * gpus) <==> Divides(unit, n * Abs(gpus))
  {
    if gpus < 0 {
      assert n * Abs(gpus) == -(n * gpus);
      if Divides(unit, n * gpus) {
        DividesSum(unit, n * gpus, 0, -1, 0);
      } else if Divides(unit, n * Abs(gpus)) {
        DividesSum(unit, n * Abs(gpus), 0, -1, 0);
      }
    }
  }

  lemma StepsFit(unit: int, g: int, d: int, s: int, n: int)
    requires unit > 0 && d > 0 && s > 0 && unit == s * d && Divides(d, g) && Divides(s, n)
    ensures Divides(unit, n * g)
  {
    Quotient(s, n);
    Quotient(d, g);
    var k, h := n / s, g / d;
    assert n * g == (k * s) * (h * d) == (k * h) * (s * d);
    MultipleDivides(unit, k * h);
  }

  lemma FittingAreSteps(unit: int, g: int, d: int, s: int, n: int, x: int, y: int)
    requires unit > 0 && d > 0 && s > 0 && unit == s * d && Divides(unit, n * g) && x * unit + y * g == d
    ensures Divides(s, n)
  {
    Quotient(unit, n * g);
    var k := n * g / unit;
    var m := n * x + y * k;
    assert n * d == m * unit by { TimesBezout(n, unit, g, d, x, y, k); }
    assert m * unit == (m * s) * d by { assert unit == s * d; }
    CancelFactor(n, m * s, d);
    MultipleDivides(s, m);
  }

  lemma TimesBezout(n: int, unit: int, g: int, d: int, x: int, y: int, k: int)
    requires x * unit + y * g == d && n * g == k * unit
    ensures n * d == (n * x + y * k) * unit
  {
    assert n * d == n * (x * unit) + n * (y * g);
    assert n * (x * unit) == (n * x) * unit;
    assert n * (y * g) == y * (n * g) == y * (k * unit) == (y * k) * unit;
  }

  /** n nodes fit exactly when n is a multiple of unit / gcd(unit, gpus). */
  lemma FitsIff(unit: int, gpus: int, n: int)
    requires unit > 0
    ensures Divides(unit, n * gpus) <==> Divides(NodeStep(unit, gpus), n)
  {
    var g := Abs(gpus);
    var d, s := Gcd(unit, g), NodeStep(unit, gpus);
    SignDoesNotMatter(unit, n, gpus);
    GcdDivides(unit, g);
    Quotient(d, unit);
    if Divides(s, n) {
      StepsFit(unit, g, d, s, n);
    }
    if Divides(unit, n * g) {
      var x, y := Bezout(unit, g);
      FittingAreSteps(unit, g, d, s, n, x, y);
    }
  }

  lemma CancelFactor(a: int, b: int, d: int)
    requires d > 0 && a * d == b * d
    ensures a == b
  {
    assert (a - b) * d == 0;
    SmallMultiple(a - b, d);
  }

  /** The greatest node count that fits: nothing between it and the healthy nodes does. */
  method ComputeUsableNodes(healthy: int, gpus: int, tp: int, pp: int, ep: int) returns (n: int)
    ensures tp * pp * ep <= 0 ==> n == healthy
    ensures tp * pp * ep > 0 && healthy < 0 ==> n == 0
    ensures tp * pp * ep > 0 && healthy >= 0 ==>
      && 0 <= n <= healthy && healthy - n < NodeStep(tp * pp * ep, gpus)
      && forall m :: 0 < m <= healthy && Divides(tp * pp * ep, m * gpus) ==> m <= n
    ensures tp * pp * ep > 0 ==> Divides(tp * pp * ep, n * gpus)
  {
    var unit := tp * pp * ep;
    if unit <= 0 { return healthy; }
    n := healthy;
    while n > 0
      invariant n <= healthy && (healthy >= 0 ==> 0 <= n)
      invariant forall m :: n < m <= healthy ==> !Divides(unit, m * gpus)
      invariant healthy < 0 ==> n == healthy
    {
      if n * gpus % unit == 0 {
        SlackIsSmall(unit, gpus, healthy, n);
        return n;
      }
      n := n - 1;
    }
    n := 0;
    assert 0 * gpus == 0;
    if healthy >= 0 { SlackIsSmall(unit, gpus, healthy, 0); }
  }

  lemma SlackIsSmall(unit: int, gpus: int, healthy: int, n: int)
    requires unit > 0 && 0 <= n <= healthy && Divides(unit, n * gpus)
    requires forall m :: n < m <= healthy ==> !Divides(unit, m * gpus)
    ensures healthy - n < NodeStep(unit, gpus)
  {
    var s := NodeStep(unit, gpus);
    FitsIff(unit, gpus, n);
    DividesSum(s, n, s, 1, 1);
    FitsIff(unit, gpus, n + s);
  }

  // ---------- the global batch size ----------

  datatype Error = DivisionByZero

  datatype Result = Ok(gbs: int) | Err(error: Error)

  /** Python's floor division. */
  function FloorDiv(a: int, b: int): int
    requires b != 0
  {
    if b > 0 then a / b else (-a) / (-b)
  }

  /** It rounds towards minus infinity, whatever the signs. */
  lemma FloorDivIsFloor(a: int, b: int)
    requires b != 0
    ensures b > 0 ==> b * FloorDiv(a, b) <= a < b * FloorDiv(a, b) + b
    ensures b < 0 ==> b * FloorDiv(a, b) + b < a <= b * FloorDiv(a, b)
  {
    if b > 0 { Quotient(b, a); } else {
      Quotient(-b, -a);
      assert b * FloorDiv(a, b) == -(FloorDiv(a, b) * -b);
    }
  }

  function AdaptGbs(original: int, mbs: int, usable: int, gpus: int, tp: int, pp: int, ep: int): Result {
    if tp * pp * ep == 0 then Err(DivisionByZero)
    else
      var step := mbs * FloorDiv(usable * gpus, tp * pp * ep);
      if step <= 0 then Ok(original) else Ok(Adjusted(original, step))
  }

  function Adjusted(original: int, step: int): int
    requires step > 0
  {
    if original % step == 0 then original
    else
      var adjusted := original / step * step;
      if adjusted <= 0 then step else adjusted
  }

  predicate IsFloorMultiple(r: int, step: int, n: int)
    requires step > 0
  {
    Divides(step, r) && r <= n < r + step
  }

  /** How many samples one step of all data-parallel groups takes. */
  function GbsStep(mbs: int, usable: int, gpus: int, unit: int): int
    requires unit != 0
  {
    mbs * FloorDiv(usable * gpus, unit)
  }

  /** A unit of 0 divides by zero, and without a step the original stays. With a step, the result is a multiple
      of it: the last one not above the original when that is positive or the original is a multiple
      itself, and otherwise the step; so it is positive unless the original was a multiple that is not. */
  lemma GbsFits(original: int, mbs: int, usable: int, gpus: int, tp: int, pp: int, ep: int)
    ensures AdaptGbs(original, mbs, usable, gpus, tp, pp, ep).Err? <==> tp * pp * ep == 0
    ensures tp * pp * ep != 0 ==>
            var step, r := GbsStep(mbs, usable, gpus, tp * pp * ep), AdaptGbs(original, mbs, usable, gpus, tp, pp, ep);
            && (step <= 0 ==> r.gbs == original)
            && (step > 0 ==> Fits(original, step, r.gbs))
            && AdaptGbs(r.gbs, mbs, usable, gpus, tp, pp, ep) == r
  {
    if tp * pp * ep != 0 {
      var step := GbsStep(mbs, usable, gpus, tp * pp * ep);
      if step > 0 { AdjustedFits(original, step); }
    }
  }

  ghost predicate Fits(original: int, step: int, r: int)
    requires step > 0
  {
    && Divides(step, r)
    && (original >= step || Divides(step, original) ==> IsFloorMultiple(r, step, original))
    && (original < step && !Divides(step, original) ==> r == step)
    && (r > 0 <==> original > 0 || !Divides(step, original))
  }

  lemma AdjustedFits(original: int, step: int)
    requires step > 0
    ensures Fits(original, step, Adjusted(original, step)) && Divides(step, Adjusted(original, step))
  {
    Quotient(step, original);
    MultipleDivides(step, original / step);
    MultipleDivides(step, 1);
    FloorIsPositiveIff(original, step);
  }

  lemma FloorIsPositiveIff(n: int, step: int)
    requires step > 0
    ensures n / step * step > 0 <==> n >= step
  {
    Quotient(step, n);
    var q := n / step;
    if q <= 0 { assert q * step <= 0; } else { assert q * step >= step; }
  }

  /** On a node count that fits, every GPU is in some data-parallel group, and with nodes, GPUs and a micro
      batch there is a step. */
  lemma UsableNodesHaveAStep(mbs: int, usable: int, gpus: int, unit: int)
    requires unit > 0 && mbs > 0 && usable > 0 && gpus > 0 && Divides(unit, usable * gpus)
    ensures FloorDiv(usable * gpus, unit) * unit == usable * gpus
    ensures mbs * FloorDiv(usable * gpus, unit) > 0
  {
    Quotient(unit, usable * gpus);
    var dp := usable * gpus / unit;
    assert usable * gpus > 0;
    MultipleSign(dp, unit);
    assert mbs * dp > 0;
  }
}
