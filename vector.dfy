/**
 * Immutable vectors of any dimension (Vector.java). A vector is a value: every operation
 * returns a new one and none changes its argument.
 */
module Vectors {
  import opened Natives
  import Sums
  import MathUtils

  datatype Vector = Vector(data: seq<real>) {
    function Dimensions(): nat {
      |data|
    }
  }

  function Vec2(x: real, y: real): (v: Vector)
    ensures v.data == [x, y]
  {
    Vector([x, y])
  }

  function Vec3(x: real, y: real, z: real): (v: Vector)
    ensures v.data == [x, y, z]
  {
    Vector([x, y, z])
  }

  function Vec4(x: real, y: real, z: real, w: real): (v: Vector)
    ensures v.data == [x, y, z, w]
  {
    Vector([x, y, z, w])
  }

  const ONE: Vector := Vec3(1.0, 1.0, 1.0)
  const ZERO: Vector := Vec3(0.0, 0.0, 0.0)
  const NEGATIVE_ONE: Vector := Vec3(-1.0, -1.0, -1.0)
  const RIGHT: Vector := Vec3(1.0, 0.0, 0.0)
  const FORWARD: Vector := Vec3(0.0, 1.0, 0.0)
  const UP: Vector := Vec3(0.0, 0.0, 1.0)
  const LEFT: Vector := Vec3(-1.0, 0.0, 0.0)
  const BACKWARD: Vector := Vec3(0.0, -1.0, 0.0)
  const DOWN: Vector := Vec3(0.0, 0.0, -1.0)

  /** A vector holding a copy of the array's current contents. */
  method FromArray(a: array<real>) returns (v: Vector)
    ensures v.data == a[..]
  {
    var copy := new real[a.Length];
    var i := 0;
    while i < a.Length
      invariant 0 <= i <= a.Length
      invariant copy[..i] == a[..i]
      modifies copy
    {
      copy[i] := a[i];
      i := i + 1;
    }
    assert copy[..] == copy[..a.Length];
    v := Vector(copy[..]);
  }

  /** Component `i`; the source asserts the index is in range. */
  function Get(v: Vector, i: nat): (x: real)
    requires i < v.Dimensions()
    ensures x in v.data
  {
    v.data[i]
  }

  /** Component `i`, or 0 past the last one; a total form used inside sums. */
  function Component(v: Vector, i: nat): real {
    if i < |v.data| then v.data[i] else 0.0
  }

  /** Applies `op` to every component (the source's `map`). */
  function Map(v: Vector, op: real -> real): (r: Vector)
    ensures r.Dimensions() == v.Dimensions()
  {
    Vector(seq(|v.data|, i requires 0 <= i < |v.data| => op(v.data[i])))
  }

  /** Combines the components of two vectors of equal dimension pairwise with `op`. */
  function BinaryPiecewise(a: Vector, b: Vector, op: (real, real) -> real): (r: Vector)
    requires a.Dimensions() == b.Dimensions()
    ensures r.Dimensions() == a.Dimensions()
  {
    Vector(seq(|a.data|, i requires 0 <= i < |a.data| => op(a.data[i], b.data[i])))
  }

  function Add(a: Vector, b: Vector): (r: Vector)
    requires a.Dimensions() == b.Dimensions()
    ensures r.Dimensions() == a.Dimensions()
  {
    BinaryPiecewise(a, b, (x, y) => x + y)
  }

  function Subtract(a: Vector, b: Vector): (r: Vector)
    requires a.Dimensions() == b.Dimensions()
    ensures r.Dimensions() == a.Dimensions()
  {
    BinaryPiecewise(a, b, (x, y) => x - y)
  }

  function Scale(v: Vector, scalar: real): (r: Vector)
    ensures r.Dimensions() == v.Dimensions()
  {
    Map(v, x => x * scalar)
  }

  /** Piecewise product. */
  function Multiply(a: Vector, b: Vector): (r: Vector)
    requires a.Dimensions() == b.Dimensions()
    ensures r.Dimensions() == a.Dimensions()
  {
    BinaryPiecewise(a, b, (x, y) => x * y)
  }

  predicate NoZeroComponent(v: Vector) {
    forall i :: 0 <= i < |v.data| ==> v.data[i] != 0.0
  }

  /** Piecewise quotient; a zero divisor, which yields an infinity or NaN in Java, is excluded. */
  function Divide(a: Vector, b: Vector): (r: Vector)
    requires a.Dimensions() == b.Dimensions() && NoZeroComponent(b)
    ensures r.Dimensions() == a.Dimensions()
  {
    Vector(seq(|a.data|, i requires 0 <= i < |a.data| => a.data[i] / b.data[i]))
  }

  /** Piecewise reciprocal; zero components are excluded as for `Divide`. */
  function Reciprocal(v: Vector): (r: Vector)
    requires NoZeroComponent(v)
    ensures r.Dimensions() == v.Dimensions() && NoZeroComponent(r)
  {
    Vector(seq(|v.data|, i requires 0 <= i < |v.data| => 1.0 / v.data[i]))
  }

  /** The sum of the pairwise products of the components. */
  function Dot(a: Vector, b: Vector): real
    requires a.Dimensions() == b.Dimensions()
  {
    Sums.Dot(a.data, b.data)
  }

  /** The sum of the squared components, whose square root is the length. */
  function SquaredLength(v: Vector): (s: real)
    ensures 0.0 <= s
  {
    Sums.DotSelfNonNegative(v.data);
    Dot(v, v)
  }

  /** The Euclidean length, computed once when a Java vector is built. */
  function Length(m: Libm, v: Vector): real {
    m.sqrt(SquaredLength(v))
  }

  /** The cross product of two 3D vectors. */
  function Cross(a: Vector, b: Vector): (r: Vector)
    requires a.Dimensions() == 3 && b.Dimensions() == 3
    ensures r.Dimensions() == 3
  {
    Vec3(a.data[1] * b.data[2] - a.data[2] * b.data[1],
         a.data[2] * b.data[0] - a.data[0] * b.data[2],
         a.data[0] * b.data[1] - a.data[1] * b.data[0])
  }

  /** A vector counts as normalized when its length is within the default tolerance of 1. */
  predicate IsNormalized(m: Libm, v: Vector) {
    MathUtils.CompareDefault(Length(m, v), 1.0)
  }

  /**
   * The vector itself when it already counts as normalized, otherwise the vector divided by
   * its length. A zero-length vector, which Java turns into NaNs, is excluded.
   */
  function Normalized(m: Libm, v: Vector): (r: Vector)
    requires Length(m, v) != 0.0
    ensures r.Dimensions() == v.Dimensions()
  {
    if IsNormalized(m, v) then v else Scale(v, 1.0 / Length(m, v))
  }

  /** A 4D position: the first components copied, the rest zero, and w set to 1. */
  function AsHeterogeneous(v: Vector): (r: Vector)
    ensures r.Dimensions() == 4 && r.data[3] == 1.0
  {
    Vector(seq(4, (i: nat) => if i == 3 then 1.0 else Component(v, i)))
  }

  /** A 4D direction: like `AsHeterogeneous`, but w is 0 so translations do not move it. */
  function AsHeterogeneousNormal(v: Vector): (r: Vector)
    ensures r.Dimensions() == 4 && r.data[3] == 0.0
  {
    Vector(seq(4, (i: nat) => if i == 3 then 0.0 else Component(v, i)))
  }

  /** The first three components, zero-padded; w is dropped, not divided by. */
  function AsHomogeneous(v: Vector): (r: Vector)
    ensures r.Dimensions() == 3
  {
    Vector(seq(3, (i: nat) => Component(v, i)))
  }

  /** The distance between two points, as the lights and shapes call it. */
  function Distance(m: Libm, a: Vector, b: Vector): real
    requires a.Dimensions() == b.Dimensions()
  {
    Length(m, Subtract(a, b))
  }

  /** Mirror `incidence` about the plane with unit normal `normal`. */
  function Reflect(incidence: Vector, normal: Vector): Vector
    requires incidence.Dimensions() == normal.Dimensions()
  {
    Subtract(incidence, Scale(normal, 2.0 * Dot(incidence, normal)))
  }

  // Algebra of the piecewise operations

  lemma AddSubtractInverse(a: Vector, b: Vector)
    requires a.Dimensions() == b.Dimensions()
    ensures Subtract(Add(a, b), b) == a
    ensures Add(Subtract(a, b), b) == a
  {
    assert Subtract(Add(a, b), b).data == a.data;
    assert Add(Subtract(a, b), b).data == a.data;
  }

  lemma AddCommutative(a: Vector, b: Vector)
    requires a.Dimensions() == b.Dimensions()
    ensures Add(a, b) == Add(b, a)
  {
    assert Add(a, b).data == Add(b, a).data;
  }

  lemma MultiplyDivideInverse(a: Vector, b: Vector)
    requires a.Dimensions() == b.Dimensions() && NoZeroComponent(b)
    ensures Divide(Multiply(a, b), b) == a
    ensures Multiply(Divide(a, b), b) == a
  {
    forall i | 0 <= i < |a.data|
      ensures Divide(Multiply(a, b), b).data[i] == a.data[i]
      ensures Multiply(Divide(a, b), b).data[i] == a.data[i]
    {
      assert b.data[i] != 0.0;
      assert (a.data[i] * b.data[i]) / b.data[i] == a.data[i];
      assert (a.data[i] / b.data[i]) * b.data[i] == a.data[i];
    }
    assert Divide(Multiply(a, b), b).data == a.data;
    assert Multiply(Divide(a, b), b).data == a.data;
  }

  lemma ReciprocalInvolutive(v: Vector)
    requires NoZeroComponent(v)
    ensures Reciprocal(Reciprocal(v)) == v
    ensures Multiply(v, Reciprocal(v)) == Map(v, x => 1.0)
  {
    forall i | 0 <= i < |v.data|
      ensures Reciprocal(Reciprocal(v)).data[i] == v.data[i]
      ensures Multiply(v, Reciprocal(v)).data[i] == 1.0
    {
      assert v.data[i] != 0.0;
      assert 1.0 / (1.0 / v.data[i]) == v.data[i];
      assert v.data[i] * (1.0 / v.data[i]) == 1.0;
    }
    assert Reciprocal(Reciprocal(v)).data == v.data;
    assert Multiply(v, Reciprocal(v)).data == Map(v, x => 1.0).data;
  }

  lemma ScaleCompose(v: Vector, s: real, t: real)
    ensures Scale(Scale(v, s), t) == Scale(v, s * t)
    ensures Scale(v, 1.0) == v
  {
    forall i | 0 <= i < |v.data|
      ensures Scale(Scale(v, s), t).data[i] == Scale(v, s * t).data[i]
    {
      assert (v.data[i] * s) * t == v.data[i] * (s * t);
    }
    assert Scale(Scale(v, s), t).data == Scale(v, s * t).data;
    assert Scale(v, 1.0).data == v.data;
  }

  // The dot product is a symmetric bilinear form

  lemma DotSymmetric(a: Vector, b: Vector)
    requires a.Dimensions() == b.Dimensions()
    ensures Dot(a, b) == Dot(b, a)
  {
    Sums.DotSymmetric(a.data, b.data);
  }

  lemma DotScale(a: Vector, b: Vector, s: real)
    requires a.Dimensions() == b.Dimensions()
    ensures Dot(Scale(a, s), b) == s * Dot(a, b)
    ensures Dot(a, Scale(b, s)) == s * Dot(a, b)
  {
    Sums.DotScale(a.data, Scale(a, s).data, b.data, s);
    Sums.DotScale(b.data, Scale(b, s).data, a.data, s);
    Sums.DotSymmetric(a.data, Scale(b, s).data);
    Sums.DotSymmetric(a.data, b.data);
  }

  lemma DotAdd(a: Vector, b: Vector, c: Vector)
    requires a.Dimensions() == b.Dimensions() == c.Dimensions()
    ensures Dot(Add(a, b), c) == Dot(a, c) + Dot(b, c)
  {
    Sums.DotAdd(a.data, b.data, Add(a, b).data, c.data);
  }

  lemma DotSubtract(a: Vector, b: Vector, c: Vector)
    requires a.Dimensions() == b.Dimensions() == c.Dimensions()
    ensures Dot(Subtract(a, b), c) == Dot(a, c) - Dot(b, c)
  {
    Sums.DotAdd(Subtract(a, b).data, b.data, a.data, c.data);
  }

  /** Only the zero vector has zero length. */
  lemma SquaredLengthZero(v: Vector)
    ensures SquaredLength(v) == 0.0 <==> forall i :: 0 <= i < |v.data| ==> v.data[i] == 0.0
  {
    Sums.DotSelfZero(v.data);
  }

  /** A dot product of two 2D vectors written out. */
  lemma Dot2(a: Vector, b: Vector)
    requires a.Dimensions() == b.Dimensions() == 2
    ensures Dot(a, b) == a.data[0] * b.data[0] + a.data[1] * b.data[1]
  {
    assert Sums.DotTo(a.data, b.data, 1) == a.data[0] * b.data[0];
  }

  /** A dot product of two 3D vectors written out. */
  lemma Dot3(a: Vector, b: Vector)
    requires a.Dimensions() == b.Dimensions() == 3
    ensures Dot(a, b) == a.data[0] * b.data[0] + a.data[1] * b.data[1] + a.data[2] * b.data[2]
  {
    assert Sums.DotTo(a.data, b.data, 1) == a.data[0] * b.data[0];
    assert Sums.DotTo(a.data, b.data, 2) == a.data[0] * b.data[0] + a.data[1] * b.data[1];
  }

  /** A dot product of two 4D vectors written out. */
  lemma Dot4(a: Vector, b: Vector)
    requires a.Dimensions() == b.Dimensions() == 4
    ensures Dot(a, b) == a.data[0] * b.data[0] + a.data[1] * b.data[1] + a.data[2] * b.data[2] + a.data[3] * b.data[3]
  {
    assert Sums.DotTo(a.data, b.data, 1) == a.data[0] * b.data[0];
    assert Sums.DotTo(a.data, b.data, 2) == a.data[0] * b.data[0] + a.data[1] * b.data[1];
    assert Sums.DotTo(a.data, b.data, 3) == a.data[0] * b.data[0] + a.data[1] * b.data[1] + a.data[2] * b.data[2];
  }

  // Lengths and normalization

  /** The square root law makes `sqrt` unique: any non-negative root is the root. */
  lemma SqrtUnique(m: Libm, x: real, r: real)
    requires SqrtLaw(m)
    requires 0.0 <= r && r * r == x
    ensures m.sqrt(x) == r
  {
    var s := m.sqrt(x);
    assert 0.0 <= s && s * s == x;
    if s < r {
      SquareStrictlyMonotonic(s, r);
    } else if r < s {
      SquareStrictlyMonotonic(r, s);
    }
  }

  lemma SquarePositive(x: real)
    ensures x != 0.0 ==> 0.0 < x * x
    ensures 0.0 <= x * x
  {
    if x > 0.0 {
      MulPositive(x, x);
    } else if x < 0.0 {
      var y := -x;
      MulPositive(y, y);
      assert x * x == y * y;
    }
  }

  lemma MulPositive(a: real, b: real)
    requires 0.0 < a && 0.0 < b
    ensures 0.0 < a * b
  {
  }

  lemma MulMonotonic(c: real, x: real, y: real)
    requires 0.0 <= c && x <= y
    ensures c * x <= c * y
  {
    assert c * y - c * x == c * (y - x);
  }

  lemma SquareStrictlyMonotonic(a: real, b: real)
    requires 0.0 <= a < b
    ensures a * a < b * b
  {
    calc {
      a * a;
    <= { MulMonotonic(a, a, b); }
      a * b;
    < { MulPositive(b, b - a); assert b * (b - a) == b * b - a * b; }
      b * b;
    }
  }

  lemma LengthNonNegative(m: Libm, v: Vector)
    requires SqrtLaw(m)
    ensures 0.0 <= Length(m, v)
    ensures Length(m, v) * Length(m, v) == SquaredLength(v)
  {
  }

  lemma LengthOfScaled(m: Libm, v: Vector, s: real)
    requires SqrtLaw(m)
    ensures Length(m, Scale(v, s)) == Abs(s) * Length(m, v)
  {
    SquaredLengthOfScaled(v, s);
    ScaledRoot(SquaredLength(v), Length(m, v), s);
    SqrtUnique(m, SquaredLength(Scale(v, s)), Abs(s) * Length(m, v));
  }

  lemma SquaredLengthOfScaled(v: Vector, s: real)
    ensures SquaredLength(Scale(v, s)) == s * (s * SquaredLength(v))
  {
    var w := Scale(v, s);
    DotScale(v, w, s);
    DotScale(v, v, s);
  }

  lemma ScaledRoot(q: real, l: real, s: real)
    requires 0.0 <= l && l * l == q
    ensures 0.0 <= Abs(s) * l && (Abs(s) * l) * (Abs(s) * l) == s * (s * q)
  {
    var a := Abs(s);
    assert a * a == s * s;
    assert (a * l) * (a * l) == (a * a) * (l * l);
  }

  /** Normalizing yields a vector that counts as normalized and still has a length. */
  lemma NormalizedIsNormalized(m: Libm, v: Vector)
    requires SqrtLaw(m) && Length(m, v) != 0.0
    ensures IsNormalized(m, Normalized(m, v))
    ensures !IsNormalized(m, v) ==> Length(m, Normalized(m, v)) == 1.0
    ensures Length(m, Normalized(m, v)) != 0.0
  {
    if !IsNormalized(m, v) {
      var l := Length(m, v);
      LengthOfScaled(m, v, 1.0 / l);
      assert Abs(1.0 / l) * l == 1.0;
    }
  }

  lemma NormalizedIdempotent(m: Libm, v: Vector)
    requires SqrtLaw(m) && Length(m, v) != 0.0
    ensures Length(m, Normalized(m, v)) != 0.0
    ensures Normalized(m, Normalized(m, v)) == Normalized(m, v)
  {
    NormalizedIsNormalized(m, v);
  }

  /**
   * Normalizing keeps the direction: the result is a positive multiple of the vector, so
   * every pair of components keeps its ratio and the two point the same way.
   */
  lemma NormalizedSameDirection(m: Libm, v: Vector)
    requires SqrtLaw(m) && Length(m, v) != 0.0
    ensures var n := Normalized(m, v);
      forall i, j :: 0 <= i < |v.data| && 0 <= j < |v.data| ==>
        n.data[i] * v.data[j] == n.data[j] * v.data[i]
    ensures Dot(Normalized(m, v), v) > 0.0
  {
    var l := Length(m, v);
    var k := if IsNormalized(m, v) then 1.0 else 1.0 / l;
    assert Normalized(m, v) == Scale(v, k) by {
      ScaleCompose(v, 1.0, 1.0);
    }
    assert l > 0.0;
    assert k > 0.0;
    DotScale(v, v, k);
    assert SquaredLength(v) == l * l;
    assert SquaredLength(v) > 0.0;
    assert Dot(Normalized(m, v), v) == k * SquaredLength(v);
  }

  lemma DistanceProperties(m: Libm, a: Vector, b: Vector)
    requires SqrtLaw(m) && a.Dimensions() == b.Dimensions()
    ensures 0.0 <= Distance(m, a, b)
    ensures Distance(m, a, b) == Distance(m, b, a)
    ensures Distance(m, a, a) == 0.0
  {
    var d := Subtract(a, b);
    var e := Subtract(b, a);
    assert e == Scale(d, -1.0) by {
      assert e.data == Scale(d, -1.0).data;
    }
    LengthOfScaled(m, d, -1.0);
    SquaredLengthZero(Subtract(a, a));
    SqrtUnique(m, 0.0, 0.0);
  }

  // Cross products

  lemma CrossPerpendicular(a: Vector, b: Vector)
    requires a.Dimensions() == 3 && b.Dimensions() == 3
    ensures Dot(a, Cross(a, b)) == 0.0
    ensures Dot(b, Cross(a, b)) == 0.0
  {
    var c := Cross(a, b);
    Dot3(a, c);
    Dot3(b, c);
  }

  lemma CrossAntiCommutative(a: Vector, b: Vector)
    requires a.Dimensions() == 3 && b.Dimensions() == 3
    ensures Cross(a, b) == Scale(Cross(b, a), -1.0)
  {
    assert Cross(a, b).data == Scale(Cross(b, a), -1.0).data;
  }

  /** The axis constants form a right-handed system, as the vector tests expect. */
  lemma RightHandRule()
    ensures Cross(RIGHT, FORWARD) == UP && Cross(LEFT, BACKWARD) == UP
    ensures Cross(FORWARD, UP) == RIGHT && Cross(BACKWARD, DOWN) == RIGHT
    ensures Cross(UP, RIGHT) == FORWARD && Cross(DOWN, LEFT) == FORWARD
  {
  }

  /** The dot products the vector tests expect. */
  lemma DotExamples()
    ensures Dot(Vec3(1.0, 1.0, 1.0), Vec3(1.0, 1.0, 1.0)) == 3.0
    ensures Dot(Vec3(1.0, 0.0, 0.0), Vec3(0.0, 1.0, 0.0)) == 0.0
    ensures Dot(Vec3(1.0, 1.0, 1.0), Vec3(-1.0, 1.0, -1.0)) == -1.0
  {
    Dot3(Vec3(1.0, 1.0, 1.0), Vec3(1.0, 1.0, 1.0));
    Dot3(Vec3(1.0, 0.0, 0.0), Vec3(0.0, 1.0, 0.0));
    Dot3(Vec3(1.0, 1.0, 1.0), Vec3(-1.0, 1.0, -1.0));
  }

  /** The lengths the vector tests expect. */
  lemma LengthExamples(m: Libm)
    requires SqrtLaw(m)
    ensures Length(m, Vec3(1.0, 0.0, 0.0)) == 1.0
    ensures Length(m, Vec4(1.0, 0.0, 0.0, 0.0)) == 1.0
    ensures Length(m, Vec4(2.0, 2.0, 0.0, 0.0)) == m.sqrt(8.0)
  {
    var x := Vec3(1.0, 0.0, 0.0);
    var y := Vec4(1.0, 0.0, 0.0, 0.0);
    var z := Vec4(2.0, 2.0, 0.0, 0.0);
    Dot3(x, x);
    Dot4(y, y);
    Dot4(z, z);
    SqrtUnique(m, 1.0, 1.0);
  }

  lemma ReciprocalExample()
    ensures Reciprocal(Vec3(1.0, 2.0, 4.0)) == Vec3(1.0, 0.5, 0.25)
  {
    assert Reciprocal(Vec3(1.0, 2.0, 4.0)).data == [1.0, 0.5, 0.25];
  }

  // Heterogeneous coordinates

  /** Lifting a 3D point or direction to 4D and dropping w again gives it back. */
  lemma HeterogeneousRoundTrip(p: Vector)
    requires p.Dimensions() == 3
    ensures AsHomogeneous(AsHeterogeneous(p)) == p
    ensures AsHomogeneous(AsHeterogeneousNormal(p)) == p
    ensures forall i :: 0 <= i < 3 ==> AsHeterogeneous(p).data[i] == p.data[i]
    ensures forall i :: 0 <= i < 3 ==> AsHeterogeneousNormal(p).data[i] == p.data[i]
  {
    assert AsHomogeneous(AsHeterogeneous(p)).data == p.data;
    assert AsHomogeneous(AsHeterogeneousNormal(p)).data == p.data;
  }

  // Reflection

  /** Reflecting twice about the same unit normal restores the incident vector. */
  lemma ReflectInvolutive(d: Vector, n: Vector)
    requires d.Dimensions() == n.Dimensions() && SquaredLength(n) == 1.0
    ensures Reflect(Reflect(d, n), n) == d
    ensures Dot(Reflect(d, n), n) == -Dot(d, n)
  {
    var k := Dot(d, n);
    var r := Reflect(d, n);
    DotSubtract(d, Scale(n, 2.0 * k), n);
    DotScale(n, n, 2.0 * k);
    assert Dot(r, n) == -k;
    var rr := Reflect(r, n);
    forall i | 0 <= i < |d.data|
      ensures rr.data[i] == d.data[i]
    {
      assert r.data[i] == d.data[i] - n.data[i] * (2.0 * k);
      assert rr.data[i] == r.data[i] - n.data[i] * (2.0 * -k);
    }
    assert rr.data == d.data;
  }

  /** Reflection keeps the length of the incident vector. */
  lemma ReflectKeepsLength(d: Vector, n: Vector)
    requires d.Dimensions() == n.Dimensions() && SquaredLength(n) == 1.0
    ensures SquaredLength(Reflect(d, n)) == SquaredLength(d)
  {
    var k := Dot(d, n);
    var s := Scale(n, 2.0 * k);
    var r := Reflect(d, n);
    var sd := Dot(s, d);
    var ss := Dot(s, s);
    assert sd == 2.0 * k * k by {
      DotScale(n, d, 2.0 * k);
      DotSymmetric(n, d);
    }
    assert ss == 4.0 * k * k by {
      DotScale(n, s, 2.0 * k);
      DotScale(n, n, 2.0 * k);
    }
    var dr := Dot(d, r);
    var sr := Dot(s, r);
    assert dr == SquaredLength(d) - sd by {
      DotSymmetric(d, r);
      DotSubtract(d, s, d);
    }
    assert sr == sd - ss by {
      DotSymmetric(s, r);
      DotSubtract(d, s, s);
      DotSymmetric(d, s);
    }
    DotSubtract(d, s, r);
    assert SquaredLength(r) == dr - sr;
  }

  /** The reflection the vector tests expect. */
  lemma ReflectExample(m: Libm)
    requires SqrtLaw(m)
    ensures Length(m, Vec2(1.0, -1.0)) != 0.0 && Length(m, Vec2(1.0, 1.0)) != 0.0
    ensures Reflect(Normalized(m, Vec2(1.0, -1.0)), Vec2(0.0, 1.0)) == Normalized(m, Vec2(1.0, 1.0))
  {
    var a := Vec2(1.0, -1.0);
    var b := Vec2(1.0, 1.0);
    Dot2(a, a);
    Dot2(b, b);
    var r := m.sqrt(2.0);
    assert Length(m, a) == r && Length(m, b) == r;
    assert r * r == 2.0 && r >= 0.0;
    assert r > 1.000001 by {
      if r <= 1.000001 {
        if r < 1.000001 {
          SquareStrictlyMonotonic(r, 1.000001);
        }
      }
    }
    var d := Normalized(m, a);
    assert !IsNormalized(m, a);
    assert d == Scale(a, 1.0 / r);
    assert d == Vec2(1.0 / r, -1.0 / r) by {
      assert d.data[0] == 1.0 / r && d.data[1] == -1.0 / r;
      assert d.data == [1.0 / r, -1.0 / r];
    }
    Dot2(d, Vec2(0.0, 1.0));
    assert Dot(d, Vec2(0.0, 1.0)) == -1.0 / r;
    assert Reflect(d, Vec2(0.0, 1.0)).data == Normalized(m, b).data;
  }

  // Iteration over the components

  /**
   * One step of the Java iterator: `hasNext` is `index + 1 < dimensions`, so iteration stops
   * one component early. This is what a for-each loop over a vector yields as written.
   */
  function IterateAsWritten(v: Vector, index: nat): seq<real>
    decreases |v.data| - index
  {
    if index + 1 < |v.data| then [v.data[index]] + IterateAsWritten(v, index + 1) else []
  }

  /** As written, every component but the last is produced. */
  lemma {:induction false} IterateAsWrittenDropsLast(v: Vector, index: nat)
    requires index < |v.data|
    ensures IterateAsWritten(v, index) == v.data[index..|v.data| - 1]
    decreases |v.data| - index
  {
    if index + 1 < |v.data| {
      IterateAsWrittenDropsLast(v, index + 1);
    }
  }

  /** The discrepancy on a concrete vector: (1, 2, 3) iterates as [1, 2]. */
  lemma IterateAsWrittenExample()
    ensures IterateAsWritten(Vec3(1.0, 2.0, 3.0), 0) == [1.0, 2.0]
    ensures IterateAsWritten(Vector([7.0]), 0) == []
  {
    IterateAsWrittenDropsLast(Vec3(1.0, 2.0, 3.0), 0);
  }

  /** The iterator with the intended test `index < dimensions`. */
  class VectorIterator {
    var index: nat
    const vector: Vector

    constructor (vector: Vector)
      ensures this.vector == vector && index == 0
    {
      this.vector := vector;
      index := 0;
    }

    predicate HasNext()
      reads this
    {
      index < vector.Dimensions()
    }

    /** The component under the cursor; the cursor then moves one step on. */
    method Next() returns (x: real)
      requires HasNext()
      modifies this
      ensures x == vector.data[old(index)] && index == old(index) + 1
    {
      x := Get(vector, index);
      index := index + 1;
    }

    /** The remaining components in order, as a for-each loop draining the iterator sees them. */
    method Drain() returns (xs: seq<real>)
      requires index <= vector.Dimensions()
      modifies this
      ensures xs == vector.data[old(index)..]
      ensures index == vector.Dimensions()
    {
      xs := [];
      ghost var start := index;
      while HasNext()
        invariant start <= index <= vector.Dimensions()
        invariant xs == vector.data[start..index]
        decreases vector.Dimensions() - index
      {
        var x := Next();
        xs := xs + [x];
      }
    }
  }

  /**
   * `iterator()` followed to the end, with the corrected `hasNext`: every component. With the
   * test as written the last one is missing (`IterateAsWrittenDropsLast`).
   */
  method Components(v: Vector) returns (xs: seq<real>)
    ensures xs == v.data
  {
    var it := new VectorIterator(v);
    xs := it.Drain();
  }
}
