/** Products and quotients, in the few forms the audio code needs. */
module Arithmetic {
  type pos = n: nat | n > 0 witness 1

  lemma {:induction false} MulMonotone(a: int, b: int, c: nat)
    requires a <= b
    ensures a * c <= b * c
  {
    assert (b - a) * c >= 0;
  }

  /** A quotient is below `n` exactly when the dividend is below `n` divisors. */
  lemma {:induction false} QuotientBelow(a: int, n: int, d: pos)
    ensures a < n * d <==> a / d < n
  {
    var q, r := a / d, a % d;
    assert a == q * d + r;
    if q < n {
      MulMonotone(q + 1, n, d);
      assert (q + 1) * d == q * d + d;
    } else {
      MulMonotone(n, q, d);
    }
  }

  lemma {:induction false} QuotientIs(a: int, d: pos, q: int, r: nat)
    requires a == q * d + r && r < d
    ensures a / d == q && a % d == r
  {
    assert (q + 1) * d == q * d + d;
    QuotientBelow(a, q, d);
    QuotientBelow(a, q + 1, d);
  }
}
