/** Facts about Euclidean division that the alignment and cycling proofs share. */
module Arith {

  lemma MulAtLeast(a: int, d: int)
    requires a >= 1 && d > 0
    ensures a * d >= d
  {
  }

  /** Euclidean division has one quotient and one remainder. */
  lemma DivModUnique(n: int, d: int, q: int, r: int)
    requires d > 0 && n == q * d + r && 0 <= r < d
    ensures n / d == q && n % d == r
  {
    var q0, r0 := n / d, n % d;
    assert n == q0 * d + r0;
    assert (q0 - q) * d == r - r0;
    if q0 > q {
      MulAtLeast(q0 - q, d);
    } else if q0 < q {
      MulAtLeast(q - q0, d);
    }
  }

  /** Adding the divisor does not change the remainder. */
  lemma ModAddDivisor(x: int, d: int)
    requires d > 0
    ensures (x + d) % d == x % d
  {
    var q := x / d;
    assert x == q * d + x % d;
    assert x + d == (q + 1) * d + x % d;
    DivModUnique(x + d, d, q + 1, x % d);
  }
}
