/**
 * The parts of java.lang.Math and of Java's double arithmetic that the core relies on,
 * stated over real numbers.
 *
 * The transcendental functions are not defined here: they are fields of `Libm`, which every
 * member that needs one takes as a parameter. Nothing is known about them except the laws a
 * member explicitly requires (`SqrtLaw`, `TrigLaws`).
 */
module Natives {

  /** The transcendental functions of java.lang.Math used by the renderer. */
  datatype Libm = Libm(
    sqrt: real -> real,
    sin: real -> real,
    cos: real -> real,
    tan: real -> real,
    atan2: (real, real) -> real,
    asin: real -> real)

  /** `sqrt` is the non-negative square root on non-negative arguments. */
  ghost predicate SqrtLaw(m: Libm) {
    forall x: real :: 0.0 <= x ==> 0.0 <= m.sqrt(x) && m.sqrt(x) * m.sqrt(x) == x
  }

  /**
   * `sin` is odd, `cos` is even, the two satisfy the Pythagorean identity, and cos 0 = 1. The
   * symmetry laws relate two arguments that already occur, so they never produce new ones.
   */
  ghost predicate TrigLaws(m: Libm) {
    (forall x: real, y: real :: x == -y ==> m.sin(x) == -m.sin(y)) &&
    (forall x: real, y: real :: x == -y ==> m.cos(x) == m.cos(y)) &&
    (forall x: real :: m.sin(x) * m.sin(x) + m.cos(x) * m.cos(x) == 1.0) &&
    m.cos(0.0) == 1.0
  }

  /** Math.PI, the double closest to pi. */
  const PI: real := 3.141592653589793

  /** The factor Math.toRadians multiplies by. */
  const DEGREES_TO_RADIANS: real := 0.017453292519943295

  /** Math.toRadians. */
  function ToRadians(degrees: real): (radians: real)
    ensures (radians == 0.0 <==> degrees == 0.0) && (radians > 0.0 <==> degrees > 0.0)
  {
    degrees * DEGREES_TO_RADIANS
  }

  function Abs(x: real): (r: real)
    ensures 0.0 <= r && (r == x || r == -x)
  {
    if x < 0.0 then -x else x
  }

  function Max(a: real, b: real): (r: real)
    ensures a <= r && b <= r && (r == a || r == b)
  {
    if a >= b then a else b
  }

  function Min(a: real, b: real): (r: real)
    ensures r <= a && r <= b && (r == a || r == b)
  {
    if a <= b then a else b
  }

  /** Math.signum on a real: -1, 0 or 1 according to the sign of `x`. */
  function Signum(x: real): (s: real)
    ensures s == -1.0 || s == 0.0 || s == 1.0
    ensures (s == 1.0 <==> x > 0.0) && (s == -1.0 <==> x < 0.0) && (s == 0.0 <==> x == 0.0)
  {
    if x > 0.0 then 1.0 else if x < 0.0 then -1.0 else 0.0
  }

  /** Rounding toward zero, as a cast from double to int does. */
  function Truncate(x: real): (t: int)
    ensures Abs(t as real) <= Abs(x) < Abs(t as real) + 1.0
    ensures t == 0 || (t > 0 <==> x > 0.0)
  {
    if x >= 0.0 then x.Floor else -((-x).Floor)
  }

  /**
   * Java's `%` on doubles: the remainder of a truncating division, so the result has the sign
   * of the dividend.
   */
  function Remainder(a: real, b: real): real
    requires b != 0.0
  {
    a - b * (Truncate(a / b) as real)
  }

  /** The whole number of divisors `Remainder(a, b)` takes away from `a`. */
  function Quotient(a: real, b: real): int
    requires b != 0.0
  {
    Truncate(a / b)
  }

  lemma RemainderProperties(a: real, b: real)
    requires b > 0.0
    ensures Abs(Remainder(a, b)) < b
    ensures a >= 0.0 ==> 0.0 <= Remainder(a, b)
    ensures a <= 0.0 ==> Remainder(a, b) <= 0.0
    ensures a - Remainder(a, b) == (Quotient(a, b) as real) * b
  {
    var t := Quotient(a, b) as real;
    assert a - Remainder(a, b) == t * b by {
      assert b * t == t * b;
    }
    RemainderBounds(a, b);
    DivideBack(a, b);
  }

  /** The remainder is the fractional part of the quotient times the divisor, so it is below it. */
  lemma RemainderBounds(a: real, b: real)
    requires b > 0.0
    ensures a / b >= 0.0 ==> 0.0 <= Remainder(a, b) < b
    ensures a / b < 0.0 ==> -b < Remainder(a, b) <= 0.0
  {
    var q := a / b;
    var t := Truncate(q) as real;
    var f := q - t;
    DivideBack(a, b);
    assert b * t == t * b;
    assert (q - t) * b == q * b - t * b;
    assert Remainder(a, b) == f * b;
    if q >= 0.0 {
      ScaleBelowOne(f, b, Remainder(a, b));
    } else {
      ScaleBelowOne(-f, b, -Remainder(a, b));
    }
  }

  lemma DivideBack(a: real, b: real)
    requires b > 0.0
    ensures (a / b) * b == a
    ensures a >= 0.0 <==> a / b >= 0.0
  {
  }

  lemma ScaleBelowOne(f: real, b: real, r: real)
    requires b > 0.0 && 0.0 <= f < 1.0 && r == f * b
    ensures 0.0 <= r < b
  {
  }

  /**
   * A Java double as far as the cube's slab test needs it: finite values, the two infinities
   * that a division by zero produces, and NaN for 0/0.
   */
  datatype ExtReal = NaN | NegInf | Finite(value: real) | PosInf {

    /** The ordering of doubles, defined only when neither side is NaN. */
    predicate LessEq(that: ExtReal)
      requires !NaN? && !that.NaN?
    {
      match (this, that)
      case (NegInf, _) => true
      case (_, PosInf) => true
      case (Finite(x), Finite(y)) => x <= y
      case _ => false
    }
  }

  /** Java's `x / y` on doubles, with the infinities and NaN of a zero divisor. */
  function Divide(x: real, y: real): (r: ExtReal)
    ensures y != 0.0 ==> r == Finite(x / y)
    ensures r.NaN? <==> x == 0.0 && y == 0.0
  {
    if y != 0.0 then Finite(x / y)
    else if x > 0.0 then PosInf
    else if x < 0.0 then NegInf
    else NaN
  }

  /** Math.max on doubles: NaN if either argument is NaN, otherwise the larger one. */
  function ExtMax(a: ExtReal, b: ExtReal): (r: ExtReal)
    ensures r.NaN? <==> a.NaN? || b.NaN?
    ensures !r.NaN? ==> a.LessEq(r) && b.LessEq(r) && (r == a || r == b)
  {
    if a.NaN? || b.NaN? then NaN else if b.LessEq(a) then a else b
  }

  /** Math.min on doubles: NaN if either argument is NaN, otherwise the smaller one. */
  function ExtMin(a: ExtReal, b: ExtReal): (r: ExtReal)
    ensures r.NaN? <==> a.NaN? || b.NaN?
    ensures !r.NaN? ==> r.LessEq(a) && r.LessEq(b) && (r == a || r == b)
  {
    if a.NaN? || b.NaN? then NaN else if a.LessEq(b) then a else b
  }

  /** The sign of a double that is not NaN: -1, 0 or 1. */
  function Sign(a: ExtReal): int
    requires !a.NaN?
  {
    match a
    case NegInf => -1
    case PosInf => 1
    case Finite(x) => if x > 0.0 then 1 else if x < 0.0 then -1 else 0
  }

  /** Java's `a * b` on doubles: NaN in, NaN out, and zero times an infinity is NaN. */
  function ExtMul(a: ExtReal, b: ExtReal): (r: ExtReal)
    ensures r.NaN? <==> (a.NaN? || b.NaN? || (a == Finite(0.0) && (b.NegInf? || b.PosInf?)) ||
                         ((a.NegInf? || a.PosInf?) && b == Finite(0.0)))
    ensures a.Finite? && b.Finite? ==> r == Finite(a.value * b.value)
  {
    if a.NaN? || b.NaN? then NaN
    else if a.Finite? && b.Finite? then Finite(a.value * b.value)
    else if Sign(a) * Sign(b) > 0 then PosInf
    else if Sign(a) * Sign(b) < 0 then NegInf
    else NaN
  }

  /** Java's `a + b` on doubles: NaN in, NaN out, and opposite infinities add up to NaN. */
  function ExtAdd(a: ExtReal, b: ExtReal): (r: ExtReal)
    ensures r.NaN? <==> a.NaN? || b.NaN? || (a.PosInf? && b.NegInf?) || (a.NegInf? && b.PosInf?)
    ensures a.Finite? && b.Finite? ==> r == Finite(a.value + b.value)
  {
    if a.NaN? || b.NaN? then NaN
    else if a.Finite? && b.Finite? then Finite(a.value + b.value)
    else if (a.PosInf? && b.NegInf?) || (a.NegInf? && b.PosInf?) then NaN
    else if a.PosInf? || b.PosInf? then PosInf
    else NegInf
  }

  /** Java's `a >= b` on doubles: false whenever either side is NaN. */
  predicate ExtGreaterEq(a: ExtReal, b: ExtReal) {
    !a.NaN? && !b.NaN? && b.LessEq(a)
  }
}
