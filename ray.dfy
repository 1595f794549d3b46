/** Rays, and the record a raycast returns. */
module Rays {
  import opened Natives
  import opened Vectors

  /** A ray as its constructor leaves it: the origin as given and the direction normalized. */
  datatype Ray = Ray(from: Vector, direction: Vector) {
    /** Origin and direction have the same number of dimensions, so points along it exist. */
    predicate Valid() {
      from.Dimensions() == direction.Dimensions()
    }
  }

  /** `v` has a non-zero length to divide by; normalizing a zero vector gives NaNs in Java. */
  predicate HasLength(m: Libm, v: Vector) {
    Length(m, v) != 0.0
  }

  /** The constructor: the origin unchanged, the direction `direction.normalized()`. */
  function NewRay(m: Libm, from: Vector, direction: Vector): (r: Ray)
    requires HasLength(m, direction)
    ensures r.from == from && r.direction.Dimensions() == direction.Dimensions()
    ensures from.Dimensions() == direction.Dimensions() ==> r.Valid()
  {
    Ray(from, Normalized(m, direction))
  }

  /** The stored direction counts as normalized and points the way the given one does. */
  lemma NewRayDirection(m: Libm, from: Vector, direction: Vector)
    requires SqrtLaw(m) && HasLength(m, direction)
    ensures var d := NewRay(m, from, direction).direction;
      IsNormalized(m, d) && HasLength(m, d) && Dot(d, direction) > 0.0
    ensures !IsNormalized(m, direction) ==> Length(m, NewRay(m, from, direction).direction) == 1.0
    ensures IsNormalized(m, direction) ==> NewRay(m, from, direction).direction == direction
  {
    NormalizedIsNormalized(m, direction);
    NormalizedSameDirection(m, direction);
  }

  /** `getPoint`: the point `distance` direction lengths along the ray. */
  function GetPoint(r: Ray, distance: real): (p: Vector)
    requires r.Valid()
    ensures p.Dimensions() == r.from.Dimensions()
  {
    Add(r.from, Scale(r.direction, distance))
  }

  /** The point at `t` lies `|t|` direction lengths from the origin; at 0 it is the origin. */
  lemma GetPointDistance(m: Libm, r: Ray, t: real)
    requires SqrtLaw(m) && r.Valid()
    ensures Distance(m, GetPoint(r, t), r.from) == Abs(t) * Length(m, r.direction)
    ensures GetPoint(r, 0.0) == r.from
  {
    AddSubtractInverse(Scale(r.direction, t), r.from);
    AddCommutative(r.from, Scale(r.direction, t));
    LengthOfScaled(m, r.direction, t);
    assert Scale(r.direction, 0.0) == Map(r.direction, x => 0.0) by {
      assert Scale(r.direction, 0.0).data == Map(r.direction, x => 0.0).data;
    }
    assert GetPoint(r, 0.0).data == r.from.data;
  }

  /** `lookat`: a ray from `from` towards `at`. */
  function Lookat(m: Libm, from: Vector, at: Vector): (r: Ray)
    requires from.Dimensions() == at.Dimensions() && HasLength(m, Subtract(at, from))
    ensures r.from == from && r.Valid()
  {
    NewRay(m, from, Subtract(at, from))
  }

  /**
   * How far along `Lookat(m, from, at)` the target lies: one direction length when the
   * difference already counted as normalized and was kept, otherwise its length.
   */
  function TargetDistance(m: Libm, from: Vector, at: Vector): real
    requires from.Dimensions() == at.Dimensions()
  {
    var d := Subtract(at, from);
    if IsNormalized(m, d) then 1.0 else Length(m, d)
  }

  /** The ray `lookat` builds passes through `at`, at a positive distance along it. */
  lemma LookatReaches(m: Libm, from: Vector, at: Vector)
    requires from.Dimensions() == at.Dimensions() && HasLength(m, Subtract(at, from))
    ensures GetPoint(Lookat(m, from, at), TargetDistance(m, from, at)) == at
    ensures SqrtLaw(m) ==> TargetDistance(m, from, at) > 0.0
  {
    var d := Subtract(at, from);
    Rescaled(m, d);
    assert GetPoint(Lookat(m, from, at), TargetDistance(m, from, at)) == Add(from, d);
    AddCommutative(from, d);
    AddSubtractInverse(at, from);
    if SqrtLaw(m) {
      LengthNonNegative(m, d);
    }
  }

  /** Scaling a normalized vector back by the factor normalization removed gives the vector. */
  lemma Rescaled(m: Libm, d: Vector)
    requires HasLength(m, d)
    ensures Scale(Normalized(m, d), if IsNormalized(m, d) then 1.0 else Length(m, d)) == d
  {
    ScaleCompose(d, 1.0, 1.0);
    if !IsNormalized(m, d) {
      var l := Length(m, d);
      var k := 1.0 / l;
      assert Normalized(m, d) == Scale(d, k);
      ScaleCompose(d, k, l);
      assert k * l == 1.0;
    }
  }

  /** `equals`: origins and directions hold the same components. */
  predicate Equals(a: Ray, b: Ray) {
    a.from.data == b.from.data && a.direction.data == b.direction.data
  }

  /** Ray equality is exactly equality of the two values. */
  lemma EqualsIsEquality(a: Ray, b: Ray)
    ensures Equals(a, b) <==> a == b
  {
  }

  /**
   * The result of a raycast. `shape` is the shape that was hit (null for no hit) and
   * `distance` the distance from the ray's origin to the hit point.
   */
  datatype RaycastResult = RaycastResult(
    isHit: bool,
    shape: object?,
    distance: real,
    point: Vector,
    normal: Vector,
    texcoords: Vector)

  /** The shared "nothing was hit" result. */
  const NO_HIT: RaycastResult := RaycastResult(false, null, 0.0, ZERO, ZERO, ZERO)
}
