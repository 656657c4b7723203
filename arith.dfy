/** Facts about multiplication and Euclidean division by a positive divisor. */
module Arith {

  lemma {:induction false} MulAtLeast(d: int, p: int)
    requires d >= 1 && p >= 1
    ensures d * p >= p
  {
    if d > 1 {
      MulAtLeast(d - 1, p);
      assert d * p == (d - 1) * p + p;
    }
  }

  /** Quotient and remainder are determined by `n == q * p + r` with `0 <= r < p`. */
  lemma ModUnique(n: int, p: int, q: int, r: int)
    requires p >= 1 && 0 <= r < p && n == q * p + r
    ensures n / p == q && n % p == r
  {
    var q', r' := n / p, n % p;
    assert n == q' * p + r' && 0 <= r' < p;
    assert (q - q') * p == r' - r;
    if q > q' {
      MulAtLeast(q - q', p);
    } else if q < q' {
      MulAtLeast(q' - q, p);
    }
  }

  lemma MulMonotone(a: int, b: int, p: int)
    requires a <= b && p >= 1
    ensures a * p <= b * p
  {
    if a < b {
      MulAtLeast(b - a, p);
      assert b * p - a * p == (b - a) * p;
    }
  }
}
