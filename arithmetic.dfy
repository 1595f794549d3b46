/** Arithmetic: facts about integer products, quotients and remainders used by the index code. */
module Arithmetic {

  lemma MulNonNegative(a: int, b: int)
    requires 0 <= a && 0 <= b
    ensures 0 <= a * b
  {
  }

  /** Multiplying by a positive number keeps the order. */
  lemma MulMonotone(n: int, a: int, b: int)
    requires 0 < n && a <= b
    ensures n * a <= n * b
  {
    MulNonNegative(n, b - a);
    assert n * b == n * a + n * (b - a);
  }

  /** `x == n q + r` with `0 <= r < n` fixes the quotient and the remainder. */
  lemma DivModUnique(x: int, n: int, q: int, r: int)
    requires 0 < n && 0 <= r < n && x == n * q + r
    ensures x / n == q && x % n == r
  {
    assert x == n * (x / n) + x % n;
    if q < x / n {
      MulMonotone(n, q + 1, x / n);
    } else if q > x / n {
      MulMonotone(n, x / n + 1, q);
    }
  }
}
