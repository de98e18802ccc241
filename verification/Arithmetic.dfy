/** Products and remainders. */
module Arithmetic {
  lemma MulMonotone(x: int, y: int, k: int)
    requires x <= y && 0 <= k
    ensures x * k <= y * k
  {}

  /** Quotient and remainder are unique. */
  lemma DivideExact(x: int, q: int, k: int, r: int)
    requires 0 <= r < k && x == q * k + r
    ensures x / k == q && x % k == r
  {
    var q', r' := x / k, x % k;
    assert (q - q') * k == r' - r;
    if q > q' {
      MulMonotone(1, q - q', k);
    } else if q < q' {
      MulMonotone(1, q' - q, k);
    }
  }

  lemma MultipleOf(q: int, d: int)
    requires d > 0
    ensures q * d % d == 0
  {
    DivideExact(q * d, q, d, 0);
  }

  lemma NextMultiple(x: int, d: int)
    requires d > 0 && x % d == 0
    ensures (x + d) % d == 0
  {
    assert x + d == (x / d + 1) * d;
    MultipleOf(x / d + 1, d);
  }

  /** Two multiples less than one step apart are the same. */
  lemma SameMultiple(x: int, y: int, d: int)
    requires d > 0 && x % d == 0 && y % d == 0 && -d < x - y < d
    ensures x == y
  {
    var p, q := x / d, y / d;
    assert (p - q) * d == x - y;
    if p > q {
      MulMonotone(1, p - q, d);
    } else if p < q {
      MulMonotone(1, q - p, d);
    }
  }
}
