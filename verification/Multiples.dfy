/** Division without remainder. */
module Multiples {
  predicate Divides(d: int, n: int)
    requires d > 0
  {
    n % d == 0
  }

  lemma Quotient(d: int, n: int)
    requires d > 0
    ensures n == n / d * d + n % d
  {
  }

  lemma SmallMultiple(k: int, d: int)
    requires d > 0
    ensures 0 <= k * d < d ==> k == 0
  {
    if k >= 1 { assert k * d >= d; } else if k <= -1 { assert k * d <= -d; }
  }

  lemma MultipleDivides(d: int, k: int)
    requires d > 0
    ensures Divides(d, k * d) && k * d / d == k
  {
    var q, r := k * d / d, k * d % d;
    Quotient(d, k * d);
    assert (k - q) * d == r;
    SmallMultiple(k - q, d);
  }
}
