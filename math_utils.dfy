/** MathUtils: clamping to [0,1] and comparison within a tolerance. */
module MathUtils {
  import opened Natives

  /** The tolerance `compare(a, b)` uses. */
  const DEFAULT_EPSILON: real := 0.000001

  /** Clamp a value to the range [0,1]: min(1, max(value, 0)). */
  function Saturate(value: real): (r: real)
    ensures 0.0 <= r <= 1.0
    ensures 0.0 <= value <= 1.0 ==> r == value
    ensures value < 0.0 ==> r == 0.0
    ensures value > 1.0 ==> r == 1.0
  {
    Min(1.0, Max(value, 0.0))
  }

  lemma SaturateIdempotent(value: real)
    ensures Saturate(Saturate(value)) == Saturate(value)
  {
  }

  /** Fuzzy comparison: `a` and `b` differ by at most `epsilon`. */
  predicate Compare(a: real, b: real, epsilon: real) {
    Abs(a - b) <= epsilon
  }

  /** Fuzzy comparison with the default tolerance. */
  predicate CompareDefault(a: real, b: real) {
    Compare(a, b, DEFAULT_EPSILON)
  }

  lemma CompareExactly(a: real, b: real, epsilon: real)
    ensures Compare(a, b, epsilon) <==> a - epsilon <= b <= a + epsilon
    ensures Compare(a, b, epsilon) == Compare(b, a, epsilon)
    ensures 0.0 <= epsilon ==> Compare(a, a, epsilon)
  {
  }
}
