/**
 * The two primitive shapes: a unit sphere and a cube spanning [-1, 1] on every axis, both at
 * the origin of their own object space and placed in the world by a transform
 * (SphereShape.java, CubeShape.java).
 */
module Shapes {
  import opened Wrappers
  import opened Natives
  import opened Vectors
  import Matrices
  import opened Rays
  import opened Transforms

  // The sphere's quadratic

  /** `a t² + b t + c`, whose roots are the ray parameters where a ray meets the unit sphere. */
  datatype Quadratic = Quadratic(a: real, b: real, c: real) {
    function Discriminant(): real {
      b * b - 4.0 * a * c
    }

    function At(t: real): real {
      a * t * t + b * t + c
    }
  }

  /** The coefficients `raycast` computes from the local origin `o` and direction `d`. */
  function SphereQuadratic(o: Vector, d: Vector): (q: Quadratic)
    requires o.Dimensions() == d.Dimensions()
    ensures q.a == SquaredLength(d)
  {
    Quadratic(Dot(d, d), 2.0 * Dot(o, d), Dot(o, o) - 1.0)
  }

  /** The quadratic is zero exactly where the point `o + t d` lies on the unit sphere. */
  lemma SphereQuadraticMeaning(o: Vector, d: Vector, t: real)
    requires o.Dimensions() == d.Dimensions()
    ensures SphereQuadratic(o, d).At(t) == SquaredLength(Add(o, Scale(d, t))) - 1.0
  {
    var sd := Scale(d, t);
    var p := Add(o, sd);
    DotsAlongRay(o, d, t);
    DotAdd(o, sd, p);
    QuadraticExpand(Dot(o, o), Dot(o, d), Dot(d, d), t, Dot(o, p), Dot(sd, p));
  }

  /** The two halves of `p . p` for the point `p = o + t d`. */
  lemma DotsAlongRay(o: Vector, d: Vector, t: real)
    requires o.Dimensions() == d.Dimensions()
    ensures Dot(o, Add(o, Scale(d, t))) == Dot(o, o) + t * Dot(o, d)
    ensures Dot(Scale(d, t), Add(o, Scale(d, t))) == t * (Dot(o, d) + t * Dot(d, d))
  {
    var sd := Scale(d, t);
    var p := Add(o, sd);
    DotSymmetric(o, p);
    DotAdd(o, sd, o);
    DotScale(d, o, t);
    DotSymmetric(d, o);
    DotScale(d, p, t);
    DotSymmetric(d, p);
    DotAdd(o, sd, d);
    DotScale(d, d, t);
  }

  /** The expansion of `|o + t d|^2 - 1` in terms of the three dot products. */
  lemma QuadraticExpand(oo: real, od: real, dd: real, t: real, op: real, sp: real)
    requires op == oo + t * od && sp == t * (od + t * dd)
    ensures dd * t * t + 2.0 * od * t + (oo - 1.0) == op + sp - 1.0
  {
  }

  /** The roots as the source writes them: `-b + sqrt(disc) / 2.0 * a`, read by Java as `-b + (sqrt(disc) / 2) * a`. */
  function RootsAsWritten(m: Libm, q: Quadratic): (roots: (real, real))
    requires q.Discriminant() >= 0.0 && q.a >= 0.0
    ensures SqrtLaw(m) ==> roots.0 >= roots.1
  {
    var s := m.sqrt(q.Discriminant());
    (-q.b + s / 2.0 * q.a, -q.b - s / 2.0 * q.a)
  }

  /** The roots of the quadratic formula, `(-b ± sqrt(disc)) / 2a`. */
  function Roots(m: Libm, q: Quadratic): (roots: (real, real))
    requires q.Discriminant() >= 0.0 && q.a > 0.0
    ensures SqrtLaw(m) ==> roots.0 >= roots.1 && q.At(roots.0) == 0.0 && q.At(roots.1) == 0.0
  {
    var s := m.sqrt(q.Discriminant());
    var roots := ((-q.b + s) / (2.0 * q.a), (-q.b - s) / (2.0 * q.a));
    FormulaRoots(m, q, roots.0, roots.1);
    roots
  }

  /** Under the square-root law the formula's two values are roots, the first the larger. */
  lemma FormulaRoots(m: Libm, q: Quadratic, t1: real, t2: real)
    requires q.Discriminant() >= 0.0 && q.a > 0.0
    requires t1 == (-q.b + m.sqrt(q.Discriminant())) / (2.0 * q.a)
    requires t2 == (-q.b - m.sqrt(q.Discriminant())) / (2.0 * q.a)
    ensures SqrtLaw(m) ==> t1 >= t2 && q.At(t1) == 0.0 && q.At(t2) == 0.0
  {
    if SqrtLaw(m) {
      var s := m.sqrt(q.Discriminant());
      QuadraticFactors(q, s, t1, t2, t1);
      QuadraticFactors(q, s, t1, t2, t2);
    }
  }

  /** With roots `t1` and `t2` from the formula, the quadratic is `a (t - t1) (t - t2)`. */
  lemma QuadraticFactors(q: Quadratic, s: real, t1: real, t2: real, t: real)
    requires q.a > 0.0 && s >= 0.0 && s * s == q.Discriminant()
    requires t1 == (-q.b + s) / (2.0 * q.a) && t2 == (-q.b - s) / (2.0 * q.a)
    ensures q.At(t) == q.a * ((t - t1) * (t - t2))
    ensures t1 >= t2
  {
    var a, b, c := q.a, q.b, q.c;
    assert t1 * (2.0 * a) == -b + s;
    assert t2 * (2.0 * a) == -b - s;
    assert a * (t1 + t2) == -b by {
      assert (t1 + t2) * (2.0 * a) == -2.0 * b;
    }
    assert a * (t1 * t2) == c by {
      assert (t1 * (2.0 * a)) * (t2 * (2.0 * a)) == b * b - s * s;
      assert (t1 * t2) * (4.0 * a * a) == 4.0 * a * c;
      assert (a * (t1 * t2)) * (4.0 * a) == c * (4.0 * a);
    }
    assert q.a * ((t - t1) * (t - t2)) == a * t * t - a * (t1 + t2) * t + a * (t1 * t2);
    assert t1 - t2 == (2.0 * s) / (2.0 * a);
  }

  /** Without a real root, the quadratic is positive everywhere: the ray misses the sphere. */
  lemma NoRealRoot(q: Quadratic, t: real)
    requires q.a > 0.0 && q.Discriminant() < 0.0
    ensures q.At(t) > 0.0
  {
    var a, b, c := q.a, q.b, q.c;
    assert 4.0 * a * q.At(t) == (2.0 * a * t + b) * (2.0 * a * t + b) - q.Discriminant();
    SquarePositive(2.0 * a * t + b);
  }

  /**
   * The root selection of `raycast`: no hit when both roots are behind the origin; the larger
   * one when the signs differ (zero counting as its own sign); otherwise the smaller one. The
   * chosen parameter is the nearest root in front of the origin, or 0 when both roots are 0.
   */
  function ChooseRoot(t1: real, t2: real): (t: Option<real>)
    ensures t.None? <==> t1 < 0.0 && t2 < 0.0
    ensures t.Some? ==> 0.0 <= t.value && (t.value == t1 || t.value == t2)
    ensures t.Some? ==> (0.0 < t1 ==> t.value <= t1) && (0.0 < t2 ==> t.value <= t2)
    ensures t.Some? && (0.0 < t1 || 0.0 < t2) ==> 0.0 < t.value
  {
    if t1 < 0.0 && t2 < 0.0 then None
    else if Signum(t1) != Signum(t2) then Some(Max(t1, t2))
    else Some(Min(t1, t2))
  }

  /** The hit parameter with the roots as written: never negative, but not a root in general. */
  function SphereHitAsWritten(m: Libm, o: Vector, d: Vector): (t: Option<real>)
    requires o.Dimensions() == d.Dimensions()
    ensures t.Some? ==> 0.0 <= t.value
  {
    var q := SphereQuadratic(o, d);
    if q.Discriminant() < 0.0 then None
    else
      var roots := RootsAsWritten(m, q);
      ChooseRoot(roots.0, roots.1)
  }

  /** The hit parameter with the quadratic formula's roots. */
  function SphereHit(m: Libm, o: Vector, d: Vector): (t: Option<real>)
    requires o.Dimensions() == d.Dimensions() && SquaredLength(d) > 0.0
    ensures t.Some? ==> 0.0 <= t.value
    ensures SqrtLaw(m) && t.Some? ==> SquaredLength(Add(o, Scale(d, t.value))) == 1.0
  {
    var q := SphereQuadratic(o, d);
    if q.Discriminant() < 0.0 then None
    else
      var roots := Roots(m, q);
      var t := ChooseRoot(roots.0, roots.1);
      if t.Some? then
        SphereQuadraticMeaning(o, d, t.value);
        t
      else
        t
  }

  /** A quadratic with a positive leading coefficient has no roots but the formula's two. */
  lemma OnlyRoots(m: Libm, q: Quadratic, t: real)
    requires SqrtLaw(m) && q.a > 0.0 && q.At(t) == 0.0
    ensures q.Discriminant() >= 0.0
    ensures t == Roots(m, q).0 || t == Roots(m, q).1
  {
    if q.Discriminant() < 0.0 {
      NoRealRoot(q, t);
    }
    var s := m.sqrt(q.Discriminant());
    var roots := Roots(m, q);
    QuadraticFactors(q, s, roots.0, roots.1, t);
    var x, y := t - roots.0, t - roots.1;
    assert q.a * (x * y) == 0.0;
    assert x * y == 0.0;
    ZeroProduct(x, y);
  }

  lemma ZeroProduct(x: real, y: real)
    requires x * y == 0.0
    ensures x == 0.0 || y == 0.0
  {
  }

  /**
   * The selection is complete: whenever the ray meets the sphere in front of its origin, a hit
   * is reported, no farther than that point.
   */
  lemma SphereHitNearest(m: Libm, o: Vector, d: Vector, t: real)
    requires SqrtLaw(m) && o.Dimensions() == d.Dimensions() && SquaredLength(d) > 0.0
    requires 0.0 < t && SquaredLength(Add(o, Vectors.Scale(d, t))) == 1.0
    ensures SphereHit(m, o, d).Some? && SphereHit(m, o, d).value <= t
  {
    var q := SphereQuadratic(o, d);
    SphereQuadraticMeaning(o, d, t);
    OnlyRoots(m, q, t);
  }

  /** And no hit is reported only when the ray meets the sphere nowhere at or after its origin. */
  lemma SphereHitNone(m: Libm, o: Vector, d: Vector, t: real)
    requires SqrtLaw(m) && o.Dimensions() == d.Dimensions() && SquaredLength(d) > 0.0
    requires SphereHit(m, o, d).None? && 0.0 <= t
    ensures SquaredLength(Add(o, Vectors.Scale(d, t))) != 1.0
  {
    var q := SphereQuadratic(o, d);
    SphereQuadraticMeaning(o, d, t);
    if q.At(t) == 0.0 {
      OnlyRoots(m, q, t);
    }
  }

  /**
   * A ray from (0, 0, 5) straight down the z axis enters the sphere at t = 4. The roots as
   * written are 11 and 9, so the reported hit is at (0, 0, -4), off the sphere.
   */
  lemma SphereHitAsWrittenExample(m: Libm)
    requires SqrtLaw(m)
    ensures var o, d := Vec3(0.0, 0.0, 5.0), Vec3(0.0, 0.0, -1.0);
      SphereHitAsWritten(m, o, d) == Some(9.0) &&
      SquaredLength(Add(o, Scale(d, 9.0))) == 16.0 &&
      SquaredLength(d) == 1.0 && SphereHit(m, o, d) == Some(4.0)
  {
    var o, d := Vec3(0.0, 0.0, 5.0), Vec3(0.0, 0.0, -1.0);
    Dot3(d, d);
    Dot3(o, d);
    Dot3(o, o);
    var q := SphereQuadratic(o, d);
    assert q == Quadratic(1.0, -10.0, 24.0);
    SqrtUnique(m, 4.0, 2.0);
    var p := Add(o, Scale(d, 9.0));
    assert p.data == [0.0, 0.0, -4.0];
    Dot3(p, p);
  }

  // The sphere shape

  /** Under the square-root law a vector with a length is not the zero vector. */
  lemma PositiveSquaredLength(m: Libm, v: Vector)
    requires SqrtLaw(m) && HasLength(m, v)
    ensures SquaredLength(v) > 0.0
  {
    if SquaredLength(v) == 0.0 {
      SqrtUnique(m, 0.0, 0.0);
    }
  }

  /** A point on the unit sphere has length 1, so normalizing it keeps it as it is. */
  lemma UnitPoint(m: Libm, p: Vector)
    requires SqrtLaw(m) && SquaredLength(p) == 1.0
    ensures Length(m, p) == 1.0 && HasLength(m, p) && Normalized(m, p) == p
  {
    SqrtUnique(m, 1.0, 1.0);
  }

  /**
   * The hit parameter along an object-space ray whose direction has a length, from the corrected
   * roots `SphereHit` rather than `SphereHitAsWritten`.
   */
  function LocalSphereHit(m: Libm, local: Ray): (t: Option<real>)
    requires SqrtLaw(m) && local.Valid() && HasLength(m, local.direction)
    ensures t.Some? ==> 0.0 <= t.value && SquaredLength(GetPoint(local, t.value)) == 1.0
  {
    PositiveSquaredLength(m, local.direction);
    SphereHit(m, local.from, local.direction)
  }

  /** A surface normal in object space carried into world space: w = 0, so translation is ignored. */
  function NormalToWorld(matrix: Matrices.Matrix, normal: Vector): (r: Vector)
    requires Matrices.IsSquare(matrix, 4)
    ensures r.Dimensions() == 3
  {
    AsHomogeneous(Matrices.Transform(matrix, AsHeterogeneousNormal(normal)))
  }

  /** The sphere's texture coordinates of a unit normal: longitude and latitude, each scaled to [0, 1]. */
  function SphereTexcoords(m: Libm, normal: Vector): (r: Vector)
    requires normal.Dimensions() == 3
    ensures r.Dimensions() == 2
    ensures r.data[0] == (PI + m.atan2(normal.data[1], normal.data[0])) / (2.0 * PI)
    ensures r.data[1] == (PI / 2.0 + m.asin(normal.data[2])) / PI
  {
    Vec2((PI + m.atan2(normal.data[1], normal.data[0])) / (2.0 * PI), (PI / 2.0 + m.asin(normal.data[2])) / PI)
  }

  /** A unit sphere at the origin of its own space, placed in the world by `transform`. */
  class SphereShape {
    var transform: Transform

    /** A sphere with the identity transform. */
    constructor ()
      ensures fresh(transform) && transform.Valid() && transform.Inverts()
      ensures transform.matrix == Matrices.IdentityMatrix(4)
    {
      transform := new Transform();
    }

    /** `setTransform`: the sphere shares the given transform from now on. */
    method SetTransform(transform: Transform)
      modifies this
      ensures this.transform == transform
    {
      this.transform := transform;
    }

    /**
     * `raycast`: the ray is carried into object space, met with the unit sphere there, and the
     * hit is carried back. The normal is the local hit point itself (the sphere is centred at
     * the origin with radius 1) and the distance is measured in world space. The hit uses the
     * corrected roots (`SphereHit`), not the ones the code computes (`SphereHitAsWritten`).
     */
    function Raycast(m: Libm, ray: Ray): (r: RaycastResult)
      reads this, transform
      requires SqrtLaw(m) && transform.Valid() && ray.from.Dimensions() == 3
      requires Movable(m, transform.inverseMatrix, ray)
      ensures var local := transform.InverseTransformRay(m, ray);
        HasLength(m, local.direction) &&
        (r.isHit <==> LocalSphereHit(m, local).Some?) &&
        (!r.isHit ==> r == NO_HIT) &&
        (r.isHit ==>
          var localPoint := GetPoint(local, LocalSphereHit(m, local).value);
          Length(m, localPoint) == 1.0 &&
          r.shape == this &&
          r.point == MapPoint(transform.matrix, localPoint) &&
          r.normal == NormalToWorld(transform.matrix, localPoint) &&
          r.texcoords == SphereTexcoords(m, localPoint) &&
          r.distance == Distance(m, ray.from, r.point))
    {
      var local := transform.InverseTransformRay(m, ray);
      NewRayDirection(m, local.from, Subtract(MapPoint(transform.inverseMatrix, GetPoint(ray, 1.0)), local.from));
      var hit := LocalSphereHit(m, local);
      if hit.None? then
        NO_HIT
      else
        var localPoint := GetPoint(local, hit.value);
        UnitPoint(m, localPoint);
        var hitPoint := MapPoint(transform.matrix, localPoint);
        var normal := Normalized(m, localPoint);
        RaycastResult(true, this, Distance(m, ray.from, hitPoint), hitPoint,
          NormalToWorld(transform.matrix, normal), SphereTexcoords(m, normal))
    }
  }

  // The cube's slab test

  /** Where the line of a ray crosses the planes `x_i = +1` and `x_i = -1`, as doubles divide. */
  function Crossings(o: Vector, d: Vector, i: nat): (ts: (ExtReal, ExtReal))
    requires o.Dimensions() == d.Dimensions() && i < d.Dimensions()
    ensures d.data[i] != 0.0 ==> ts.0 == Finite((1.0 - o.data[i]) / d.data[i]) && ts.1 == Finite((-1.0 - o.data[i]) / d.data[i])
  {
    (Natives.Divide(1.0 - o.data[i], d.data[i]), Natives.Divide(-1.0 - o.data[i], d.data[i]))
  }

  /** Where the ray enters the slab `-1 <= x_i <= 1`. */
  function SlabEntry(o: Vector, d: Vector, i: nat): ExtReal
    requires o.Dimensions() == d.Dimensions() && i < d.Dimensions()
  {
    ExtMin(Crossings(o, d, i).0, Crossings(o, d, i).1)
  }

  /** Where the ray leaves the slab `-1 <= x_i <= 1`. */
  function SlabExit(o: Vector, d: Vector, i: nat): ExtReal
    requires o.Dimensions() == d.Dimensions() && i < d.Dimensions()
  {
    ExtMax(Crossings(o, d, i).0, Crossings(o, d, i).1)
  }

  /** `tmin` after the first `n` axes: the last entry into a slab so far. */
  function Entry(o: Vector, d: Vector, n: nat): ExtReal
    requires o.Dimensions() == d.Dimensions() && n <= d.Dimensions()
  {
    if n == 0 then NegInf else ExtMax(Entry(o, d, n - 1), SlabEntry(o, d, n - 1))
  }

  /** `tmax` after the first `n` axes: the first exit from a slab so far. */
  function Exit(o: Vector, d: Vector, n: nat): ExtReal
    requires o.Dimensions() == d.Dimensions() && n <= d.Dimensions()
  {
    if n == 0 then PosInf else ExtMin(Exit(o, d, n - 1), SlabExit(o, d, n - 1))
  }

  /**
   * Unless it is NaN, `tmin` is no earlier than any slab's entry and is one of them (or
   * -infinity before any axis); a NaN crossing on any axis makes it NaN for good.
   */
  lemma {:induction false} EntryIsLatest(o: Vector, d: Vector, n: nat)
    requires o.Dimensions() == d.Dimensions() && n <= d.Dimensions()
    ensures Entry(o, d, n).NaN? <==> exists k :: 0 <= k < n && SlabEntry(o, d, k).NaN?
    ensures !Entry(o, d, n).NaN? ==> forall k :: 0 <= k < n ==> SlabEntry(o, d, k).LessEq(Entry(o, d, n))
    ensures Entry(o, d, n) == NegInf || exists k :: 0 <= k < n && Entry(o, d, n) == SlabEntry(o, d, k)
  {
    if n > 0 {
      EntryIsLatest(o, d, n - 1);
    }
  }

  /** Unless it is NaN, `tmax` is no later than any slab's exit and is one of them (or +infinity). */
  lemma {:induction false} ExitIsEarliest(o: Vector, d: Vector, n: nat)
    requires o.Dimensions() == d.Dimensions() && n <= d.Dimensions()
    ensures Exit(o, d, n).NaN? <==> exists k :: 0 <= k < n && SlabExit(o, d, k).NaN?
    ensures !Exit(o, d, n).NaN? ==> forall k :: 0 <= k < n ==> Exit(o, d, n).LessEq(SlabExit(o, d, k))
    ensures Exit(o, d, n) == PosInf || exists k :: 0 <= k < n && Exit(o, d, n) == SlabExit(o, d, k)
  {
    if n > 0 {
      ExitIsEarliest(o, d, n - 1);
    }
  }

  /** The slab loop of `raycast`, leaving `tmin` and `tmax` over every axis of the local ray. */
  method Slabs(o: Vector, d: Vector) returns (tmin: ExtReal, tmax: ExtReal)
    requires o.Dimensions() == d.Dimensions()
    ensures tmin == Entry(o, d, d.Dimensions()) && tmax == Exit(o, d, d.Dimensions())
  {
    tmin, tmax := NegInf, PosInf;
    for i := 0 to d.Dimensions()
      invariant tmin == Entry(o, d, i) && tmax == Exit(o, d, i)
    {
      var t1 := Natives.Divide(1.0 - o.data[i], d.data[i]);
      var t2 := Natives.Divide(-1.0 - o.data[i], d.data[i]);
      assert (t1, t2) == Crossings(o, d, i);
      tmin := ExtMax(tmin, ExtMin(t1, t2));
      tmax := ExtMin(tmax, ExtMax(t1, t2));
    }
  }

  /** The hit test `tmax >= tmin && tmin >= 0.0`, false when either is NaN. */
  predicate SlabHit(tmin: ExtReal, tmax: ExtReal) {
    ExtGreaterEq(tmax, tmin) && ExtGreaterEq(tmin, Finite(0.0))
  }

  /** On one axis, a parameter between the slab's entry and exit puts the point inside the slab. */
  lemma InsideSlab(o: real, d: real, t: real)
    requires var t1, t2 := Natives.Divide(1.0 - o, d), Natives.Divide(-1.0 - o, d);
      !t1.NaN? && !t2.NaN? && ExtMin(t1, t2).LessEq(Finite(t)) && Finite(t).LessEq(ExtMax(t1, t2))
    ensures -1.0 <= o + d * t <= 1.0
  {
    if d != 0.0 {
      var t1, t2 := (1.0 - o) / d, (-1.0 - o) / d;
      assert t1 * d == 1.0 - o && t2 * d == -1.0 - o;
      assert (t1 <= t <= t2) || (t2 <= t <= t1);
      ScaledBetween(d, t1, t2, t);
      assert -1.0 - o <= t * d <= 1.0 - o;
      assert t * d == d * t;
    } else {
      // Both crossings are the same infinity when o is outside the slab.
      var t1, t2 := Natives.Divide(1.0 - o, d), Natives.Divide(-1.0 - o, d);
      assert o > 1.0 ==> t1 == NegInf && t2 == NegInf;
      assert o < -1.0 ==> t1 == PosInf && t2 == PosInf;
      assert d * t == 0.0;
    }
  }

  /** Scaling keeps a value between two others, whichever the sign of the scalar. */
  lemma ScaledBetween(d: real, x: real, y: real, t: real)
    requires (x <= t <= y) || (y <= t <= x)
    ensures (x * d <= t * d <= y * d) || (y * d <= t * d <= x * d)
  {
    var lo, hi := if x <= y then x else y, if x <= y then y else x;
    if d >= 0.0 {
      MulMonotonic(d, lo, t);
      MulMonotonic(d, t, hi);
    } else {
      MulMonotonic(-d, lo, t);
      MulMonotonic(-d, t, hi);
    }
  }

  /**
   * When the test reports a hit and the direction is not zero, `tmin` is a finite, non-negative
   * parameter and the point there lies inside the cube on every axis.
   */
  lemma SlabHitInside(o: Vector, d: Vector)
    requires o.Dimensions() == d.Dimensions() && SquaredLength(d) > 0.0
    requires SlabHit(Entry(o, d, d.Dimensions()), Exit(o, d, d.Dimensions()))
    ensures var tmin := Entry(o, d, d.Dimensions());
      tmin.Finite? && 0.0 <= tmin.value &&
      forall i :: 0 <= i < o.Dimensions() ==> -1.0 <= Add(o, Scale(d, tmin.value)).data[i] <= 1.0
  {
    var n := d.Dimensions();
    var tmin, tmax := Entry(o, d, n), Exit(o, d, n);
    EntryIsLatest(o, d, n);
    ExitIsEarliest(o, d, n);
    SquaredLengthZero(d);
    var j :| 0 <= j < n && d.data[j] != 0.0;
    assert SlabExit(o, d, j).Finite?;
    assert !tmax.PosInf?;
    assert tmin.Finite?;
    forall i | 0 <= i < n
      ensures -1.0 <= Add(o, Scale(d, tmin.value)).data[i] <= 1.0
    {
      SlabPointInside(o, d, i, tmin.value);
    }
  }

  /** A parameter between a slab's entry and exit gives a point inside that slab. */
  lemma SlabPointInside(o: Vector, d: Vector, i: nat, t: real)
    requires o.Dimensions() == d.Dimensions() && i < d.Dimensions()
    requires !SlabEntry(o, d, i).NaN? && !SlabExit(o, d, i).NaN?
    requires SlabEntry(o, d, i).LessEq(Finite(t)) && Finite(t).LessEq(SlabExit(o, d, i))
    ensures -1.0 <= Add(o, Scale(d, t)).data[i] <= 1.0
  {
    InsideSlab(o.data[i], d.data[i], t);
    assert Add(o, Scale(d, t)).data[i] == o.data[i] + d.data[i] * t;
  }

  /** On one axis, a point inside the slab lies between the slab's entry and exit. */
  lemma SlabContainsPoint(o: Vector, d: Vector, i: nat, t: real)
    requires o.Dimensions() == d.Dimensions() && i < d.Dimensions()
    requires !SlabEntry(o, d, i).NaN? && !SlabExit(o, d, i).NaN?
    requires -1.0 <= Add(o, Scale(d, t)).data[i] <= 1.0
    ensures SlabEntry(o, d, i).LessEq(Finite(t)) && Finite(t).LessEq(SlabExit(o, d, i))
  {
    assert Add(o, Scale(d, t)).data[i] == o.data[i] + d.data[i] * t;
    ContainedInSlab(o.data[i], d.data[i], t);
  }

  /** On one axis, the converse of `InsideSlab`. */
  lemma ContainedInSlab(o: real, d: real, t: real)
    requires -1.0 <= o + d * t <= 1.0
    requires var t1, t2 := Natives.Divide(1.0 - o, d), Natives.Divide(-1.0 - o, d); !t1.NaN? && !t2.NaN?
    ensures var t1, t2 := Natives.Divide(1.0 - o, d), Natives.Divide(-1.0 - o, d);
      ExtMin(t1, t2).LessEq(Finite(t)) && Finite(t).LessEq(ExtMax(t1, t2))
  {
    if d > 0.0 {
      QuotientBound(d, t, 1.0 - o, -1.0 - o);
    } else if d < 0.0 {
      QuotientBound(-d, t, 1.0 + o, o - 1.0);
      assert (o - 1.0) / -d == (1.0 - o) / d && (1.0 + o) / -d == (-1.0 - o) / d;
    }
  }

  /** For a positive `d`, `lo <= d * t <= hi` puts `t` between `lo / d` and `hi / d`. */
  lemma QuotientBound(d: real, t: real, hi: real, lo: real)
    requires d > 0.0 && lo <= d * t <= hi
    ensures lo / d <= t <= hi / d
  {
    DivideBack(hi, d);
    DivideBack(lo, d);
    if t > hi / d {
      MulStrict(d, hi / d, t);
    }
    if t < lo / d {
      MulStrict(d, t, lo / d);
    }
  }

  /** Multiplying by a positive number keeps a strict order. */
  lemma MulStrict(d: real, x: real, y: real)
    requires d > 0.0 && x < y
    ensures x * d < y * d
  {
    assert y * d - x * d == (y - x) * d;
  }

  /**
   * Every point of the ray inside the cube lies between `tmin` and `tmax`, unless the slab test
   * met a NaN: the two bounds cut out exactly the part of the ray inside the cube.
   */
  lemma SlabsContainPoint(o: Vector, d: Vector, t: real)
    requires o.Dimensions() == d.Dimensions()
    requires !Entry(o, d, d.Dimensions()).NaN? && !Exit(o, d, d.Dimensions()).NaN?
    requires forall i :: 0 <= i < o.Dimensions() ==> -1.0 <= Add(o, Scale(d, t)).data[i] <= 1.0
    ensures Entry(o, d, d.Dimensions()).LessEq(Finite(t)) && Finite(t).LessEq(Exit(o, d, d.Dimensions()))
  {
    var n := d.Dimensions();
    EntryIsLatest(o, d, n);
    ExitIsEarliest(o, d, n);
    if Entry(o, d, n) != NegInf {
      var k :| 0 <= k < n && Entry(o, d, n) == SlabEntry(o, d, k);
      SlabContainsPoint(o, d, k, t);
    }
    if Exit(o, d, n) != PosInf {
      var k :| 0 <= k < n && Exit(o, d, n) == SlabExit(o, d, k);
      SlabContainsPoint(o, d, k, t);
    }
  }

  /**
   * For a ray that meets the cube at some parameter `t >= 0`: the test reports a hit exactly
   * when `tmin` is not behind the origin, so a ray starting inside the cube is a miss, and a
   * reported hit is the nearest point of the cube ahead of the origin.
   */
  lemma SlabHitIsNearest(o: Vector, d: Vector, t: real)
    requires o.Dimensions() == d.Dimensions() && 0.0 <= t
    requires !Entry(o, d, d.Dimensions()).NaN? && !Exit(o, d, d.Dimensions()).NaN?
    requires forall i :: 0 <= i < o.Dimensions() ==> -1.0 <= Add(o, Scale(d, t)).data[i] <= 1.0
    ensures var tmin, tmax := Entry(o, d, d.Dimensions()), Exit(o, d, d.Dimensions());
      SlabHit(tmin, tmax) <==> Finite(0.0).LessEq(tmin)
    ensures var tmin, tmax := Entry(o, d, d.Dimensions()), Exit(o, d, d.Dimensions());
      SlabHit(tmin, tmax) ==> tmin.Finite? && tmin.value <= t
  {
    SlabsContainPoint(o, d, t);
  }

  // The cube's faces

  /** Axis `i` of a 3D point is strictly the largest in magnitude. */
  predicate Dominates(p: Vector, i: nat)
    requires p.Dimensions() == 3 && i < 3
  {
    forall j :: 0 <= j < 3 && j != i ==> Abs(p.data[j]) < Abs(p.data[i])
  }

  /** The two components of a 3D point other than axis `i`, in order. */
  function Others(p: Vector, i: nat): (r: Vector)
    requires p.Dimensions() == 3 && i < 3
    ensures r.Dimensions() == 2
  {
    if i == 0 then Vec2(p.data[1], p.data[2])
    else if i == 1 then Vec2(p.data[0], p.data[2])
    else Vec2(p.data[0], p.data[1])
  }

  /**
   * The face a local hit point lies on, as the normal and the raw texture coordinates: the
   * axis whose magnitude is strictly the largest gives a normal of its sign and the other two
   * components; on a tie both stay the zero vector.
   */
  function Face(p: Vector): (face: (Vector, Vector))
    requires p.Dimensions() == 3
    ensures face.0.Dimensions() == 3
  {
    var x, y, z := Abs(p.data[0]), Abs(p.data[1]), Abs(p.data[2]);
    if x > y && x > z then (Vec3(Signum(p.data[0]), 0.0, 0.0), Vec2(p.data[1], p.data[2]))
    else if y > x && y > z then (Vec3(0.0, Signum(p.data[1]), 0.0), Vec2(p.data[0], p.data[2]))
    else if z > x && z > y then (Vec3(0.0, 0.0, Signum(p.data[2])), Vec2(p.data[0], p.data[1]))
    else (ZERO, ZERO)
  }

  /**
   * On a dominant axis the normal is the unit axis vector pointing the way the point does, and
   * the texture coordinates are the other two components.
   */
  lemma FaceOfDominantAxis(p: Vector, i: nat)
    requires p.Dimensions() == 3 && i < 3 && Dominates(p, i)
    ensures var face := Face(p);
      (face.0.data[i] == 1.0 || face.0.data[i] == -1.0) && face.0.data[i] * p.data[i] > 0.0 &&
      (forall j :: 0 <= j < 3 && j != i ==> face.0.data[j] == 0.0) &&
      face.1 == Others(p, i)
  {
    assert Abs(p.data[(i + 1) % 3]) < Abs(p.data[i]);
    assert Abs(p.data[(i + 2) % 3]) < Abs(p.data[i]);
  }

  /** When no axis dominates, the normal and the texture coordinates are both zero. */
  lemma FaceOfTie(p: Vector)
    requires p.Dimensions() == 3 && !Dominates(p, 0) && !Dominates(p, 1) && !Dominates(p, 2)
    ensures Face(p) == (ZERO, ZERO)
  {
  }

  /** The texture map `v -> (1 + v) / 2`, which takes [-1, 1] onto [0, 1]. */
  function CubeTexcoords(raw: Vector): (r: Vector)
    ensures r.Dimensions() == raw.Dimensions()
    ensures forall i :: 0 <= i < raw.Dimensions() && -1.0 <= raw.data[i] <= 1.0 ==> 0.0 <= r.data[i] <= 1.0
  {
    Map(raw, v => (1.0 + v) / 2.0)
  }

  /** The texture map is a bijection: `2 r - 1` gives the raw coordinates back. */
  lemma CubeTexcoordsInvert(raw: Vector)
    ensures Map(CubeTexcoords(raw), v => 2.0 * v - 1.0) == raw
  {
    assert Map(CubeTexcoords(raw), v => 2.0 * v - 1.0).data == raw.data;
  }

  /** The result `raycast` builds for a local hit point on the cube. */
  function CubeHitResult(m: Libm, shape: object, matrix: Matrices.Matrix, from: Vector, localPoint: Vector): (r: RaycastResult)
    requires Matrices.IsSquare(matrix, 4) && from.Dimensions() == 3 && localPoint.Dimensions() == 3
    ensures r.isHit && r.shape == shape && r.point == MapPoint(matrix, localPoint)
    ensures r.normal == NormalToWorld(matrix, Face(localPoint).0)
    ensures r.texcoords == CubeTexcoords(Face(localPoint).1)
    ensures r.distance == Distance(m, from, r.point)
  {
    var face := Face(localPoint);
    var point := MapPoint(matrix, localPoint);
    RaycastResult(true, shape, Distance(m, from, point), point, NormalToWorld(matrix, face.0), CubeTexcoords(face.1))
  }

  /** The texture coordinates of a hit lie in [0, 1]: a hit point is inside the cube. */
  lemma CubeTexcoordsInRange(p: Vector)
    requires p.Dimensions() == 3 && forall i :: 0 <= i < 3 ==> -1.0 <= p.data[i] <= 1.0
    ensures var t := CubeTexcoords(Face(p).1);
      forall i :: 0 <= i < t.Dimensions() ==> 0.0 <= t.data[i] <= 1.0
  {
  }

  /** A cube spanning [-1, 1] on every axis of its own space, placed in the world by `transform`. */
  class CubeShape {
    var transform: Transform

    /** A cube with the identity transform. */
    constructor ()
      ensures fresh(transform) && transform.Valid() && transform.Inverts()
      ensures transform.matrix == Matrices.IdentityMatrix(4)
    {
      transform := new Transform();
    }

    /** `setTransform`: the cube shares the given transform from now on. */
    method SetTransform(transform: Transform)
      modifies this
      ensures this.transform == transform
    {
      this.transform := transform;
    }

    /**
     * `raycast`: the slab test in object space; on a hit, the point at `tmin`, the normal and
     * texture coordinates of its face, and the distance measured in world space.
     */
    method Raycast(m: Libm, ray: Ray) returns (r: RaycastResult)
      requires SqrtLaw(m) && transform.Valid() && ray.from.Dimensions() == 3
      requires Movable(m, transform.inverseMatrix, ray)
      ensures var local := transform.InverseTransformRay(m, ray);
        var tmin := Entry(local.from, local.direction, 3);
        (r.isHit <==> SlabHit(tmin, Exit(local.from, local.direction, 3))) &&
        (!r.isHit ==> r == NO_HIT) &&
        (r.isHit ==>
          tmin.Finite? && 0.0 <= tmin.value &&
          r == CubeHitResult(m, this, transform.matrix, ray.from, GetPoint(local, tmin.value)))
    {
      var local := transform.InverseTransformRay(m, ray);
      var tmin, tmax := Slabs(local.from, local.direction);
      if SlabHit(tmin, tmax) {
        NewRayDirection(m, local.from, Subtract(MapPoint(transform.inverseMatrix, GetPoint(ray, 1.0)), local.from));
        PositiveSquaredLength(m, local.direction);
        SlabHitInside(local.from, local.direction);
        var localPoint := GetPoint(local, tmin.value);
        r := CubeHitResult(m, this, transform.matrix, ray.from, localPoint);
      } else {
        r := NO_HIT;
      }
    }
  }

  /** The `Shape` interface, over the two shapes that implement it. */
  datatype Shape = Sphere(sphere: SphereShape) | Cube(cube: CubeShape) {
    /** The shape object itself, as a hit records it. */
    function Object(): object {
      if Sphere? then sphere else cube
    }

    /** `getTransform`. */
    function GetTransform(): Transform
      reads Object()
    {
      if Sphere? then sphere.transform else cube.transform
    }

    /**
     * `raycast`, dispatched to the implementation: a miss is `NO_HIT`, and a hit names this
     * shape and lies at the distance it records from the ray's origin.
     */
    method Raycast(m: Libm, ray: Ray) returns (r: RaycastResult)
      requires SqrtLaw(m) && GetTransform().Valid() && ray.from.Dimensions() == 3
      requires Movable(m, GetTransform().inverseMatrix, ray)
      ensures !r.isHit ==> r == NO_HIT
      ensures r.isHit ==> r.shape == Object() && r.point.Dimensions() == 3 && r.distance == Distance(m, ray.from, r.point)
    {
      if Sphere? {
        r := sphere.Raycast(m, ray);
      } else {
        r := cube.Raycast(m, ray);
      }
    }
  }
}
