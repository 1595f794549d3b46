/**
 * Light sources: a point light, which shines from a position, and a directional light, which
 * shines along a direction from infinitely far away. Fields the Java classes leave unset
 * (they have no constructors) are `None`; the intensity starts at 0. What a light answers
 * (whether it reaches a point, its ray towards itself, whether a hit shadows a point) is
 * computed from `LightState`, the value of its fields.
 */
module Lights {
  import opened Wrappers
  import opened Natives
  import opened Vectors
  import opened Colors
  import opened Rays

  /** The fields of a light, as a value. */
  datatype LightState =
    | PointState(color: Option<Color>, intensity: real, position: Option<Vector>)
    | DirectionalState(color: Option<Color>, intensity: real, direction: Option<Vector>)
  {
    /**
     * The light can aim a ray at itself from `at`: a point light has a position away from
     * `at`, a directional light a direction with a length; either with as many dimensions.
     */
    predicate Reaches(m: Libm, at: Vector) {
      match this
      case PointState(_, _, position) =>
        position.Some? && at.Dimensions() == position.value.Dimensions() &&
        HasLength(m, Subtract(position.value, at))
      case DirectionalState(_, _, direction) =>
        direction.Some? && at.Dimensions() == direction.value.Dimensions() &&
        HasLength(m, Vectors.Scale(direction.value, -1.0))
    }

    /**
     * `getRayTowardsSource`: from `at`, a point light looks at its position, a directional
     * light looks against its direction.
     */
    function GetRayTowardsSource(m: Libm, at: Vector): (r: Ray)
      requires Reaches(m, at)
      ensures r.from == at && r.Valid()
    {
      match this
      case PointState(_, _, position) => Lookat(m, at, position.value)
      case DirectionalState(_, _, direction) => NewRay(m, at, Vectors.Scale(direction.value, -1.0))
    }

    /**
     * `isInShadow`: a hit shadows `at` when it is nearer than a point light's position; for a
     * directional light, any hit does.
     */
    function IsInShadow(m: Libm, at: Vector, result: RaycastResult): (b: bool)
      requires PointState? && result.isHit ==> position.Some? && at.Dimensions() == position.value.Dimensions()
      ensures b ==> result.isHit
    {
      match this
      case PointState(_, _, position) => result.isHit && result.distance < Distance(m, at, position.value)
      case DirectionalState(_, _, _) => result.isHit
    }
  }

  /** A light shining from `position` in every direction. */
  class PointLight {
    var color: Option<Color>
    var intensity: real
    var position: Option<Vector>

    /** Java's default constructor: nothing set, intensity 0. */
    constructor ()
      ensures color == None && intensity == 0.0 && position == None
    {
      color := None;
      intensity := 0.0;
      position := None;
    }

    method SetColor(color: Color)
      modifies this
      ensures this.color == Some(color) && intensity == old(intensity) && position == old(position)
    {
      this.color := Some(color);
    }

    method SetIntensity(intensity: real)
      modifies this
      ensures this.intensity == intensity && color == old(color) && position == old(position)
    {
      this.intensity := intensity;
    }

    method SetPosition(position: Vector)
      modifies this
      ensures this.position == Some(position) && color == old(color) && intensity == old(intensity)
    {
      this.position := Some(position);
    }

    function State(): (s: LightState)
      reads this
      ensures s == PointState(color, intensity, position)
    {
      PointState(color, intensity, position)
    }

    /** The light has a position, away from `point` and with as many dimensions. */
    predicate Reaches(m: Libm, point: Vector)
      reads this
    {
      State().Reaches(m, point)
    }

    /** `getRayTowardsSource`: the ray from `point` that passes through the light. */
    function GetRayTowardsSource(m: Libm, point: Vector): (r: Ray)
      reads this
      requires Reaches(m, point)
      ensures r.from == point && r.Valid()
      ensures GetPoint(r, TargetDistance(m, point, position.value)) == position.value
      ensures SqrtLaw(m) ==> TargetDistance(m, point, position.value) > 0.0
    {
      LookatReaches(m, point, position.value);
      State().GetRayTowardsSource(m, point)
    }

    /**
     * `isInShadow`: a hit shadows the point when it is nearer than the light. A miss is never
     * a shadow and does not read the position, so only a hit needs one.
     */
    function IsInShadow(m: Libm, point: Vector, result: RaycastResult): (b: bool)
      reads this
      requires result.isHit ==> position.Some? && point.Dimensions() == position.value.Dimensions()
      ensures !result.isHit ==> !b
      ensures result.isHit ==> (b <==> result.distance < Distance(m, point, position.value))
    {
      State().IsInShadow(m, point, result)
    }
  }

  /**
   * For a hit on the ray towards a point light, at `t` along it and recorded with its distance
   * from the ray's origin, the point is in shadow exactly when the hit lies before the light.
   */
  lemma PointShadowMeansBlocked(m: Libm, light: PointLight, point: Vector, result: RaycastResult, t: real)
    requires SqrtLaw(m) && light.Reaches(m, point) && 0.0 <= t
    requires var r := light.GetRayTowardsSource(m, point);
      result.isHit && result.point == GetPoint(r, t) && result.distance == Distance(m, point, result.point)
    ensures light.IsInShadow(m, point, result) <==> t < TargetDistance(m, point, light.position.value)
  {
    NearerThanTarget(m, point, light.position.value, t);
  }

  /** Along a `lookat` ray, a point is nearer than the target exactly when it comes before it. */
  lemma NearerThanTarget(m: Libm, from: Vector, at: Vector, t: real)
    requires SqrtLaw(m) && from.Dimensions() == at.Dimensions() && HasLength(m, Subtract(at, from))
    requires 0.0 <= t
    ensures var p := GetPoint(Lookat(m, from, at), t);
      Distance(m, from, p) < Distance(m, from, at) <==> t < TargetDistance(m, from, at)
  {
    var r := Lookat(m, from, at);
    var p := GetPoint(r, t);
    var d := Subtract(at, from);
    var l, k := Length(m, d), Length(m, r.direction);
    assert Distance(m, from, at) == l && l > 0.0 by {
      LengthNonNegative(m, d);
      DistanceProperties(m, from, at);
    }
    assert Distance(m, from, p) == t * k by {
      DistanceProperties(m, from, p);
      GetPointDistance(m, r, t);
    }
    assert (TargetDistance(m, from, at) == 1.0 && k == l) || (TargetDistance(m, from, at) == l && k == 1.0) by {
      NewRayDirection(m, from, d);
    }
    CompareScaled(t, k, l, TargetDistance(m, from, at));
  }

  /** `t k < l` exactly when `t` is below the target, in either of the two normalization cases. */
  lemma CompareScaled(t: real, k: real, l: real, target: real)
    requires 0.0 <= t && 0.0 < l
    requires (target == 1.0 && k == l) || (target == l && k == 1.0)
    ensures t * k < l <==> t < target
  {
    if target == 1.0 && k == l {
      if t < 1.0 {
        MulStrict(k, t, 1.0);
        assert t * k < 1.0 * k;
      } else {
        MulMonotonic(k, 1.0, t);
      }
    }
  }

  lemma MulStrict(c: real, x: real, y: real)
    requires 0.0 < c && x < y
    ensures x * c < y * c
  {
    assert y * c - x * c == c * (y - x);
  }

  /** A light shining along `direction` from infinitely far away. */
  class DirectionalLight {
    var color: Option<Color>
    var intensity: real
    var direction: Option<Vector>

    /** Java's default constructor: nothing set, intensity 0. */
    constructor ()
      ensures color == None && intensity == 0.0 && direction == None
    {
      color := None;
      intensity := 0.0;
      direction := None;
    }

    method SetColor(color: Color)
      modifies this
      ensures this.color == Some(color) && intensity == old(intensity) && direction == old(direction)
    {
      this.color := Some(color);
    }

    method SetIntensity(intensity: real)
      modifies this
      ensures this.intensity == intensity && color == old(color) && direction == old(direction)
    {
      this.intensity := intensity;
    }

    /** `setDirection`: the direction is stored normalized. */
    method SetDirection(m: Libm, direction: Vector)
      requires HasLength(m, direction)
      modifies this
      ensures this.direction == Some(Normalized(m, direction))
      ensures SqrtLaw(m) ==> IsNormalized(m, this.direction.value)
      ensures color == old(color) && intensity == old(intensity)
    {
      this.direction := Some(Normalized(m, direction));
      if SqrtLaw(m) {
        NormalizedIsNormalized(m, direction);
      }
    }

    function State(): (s: LightState)
      reads this
      ensures s == DirectionalState(color, intensity, direction)
    {
      DirectionalState(color, intensity, direction)
    }

    /** The light has a direction with a length and as many dimensions as `point`. */
    predicate Reaches(m: Libm, point: Vector)
      reads this
    {
      State().Reaches(m, point)
    }

    /** `getRayTowardsSource`: from `point` against the light's direction. */
    function GetRayTowardsSource(m: Libm, point: Vector): (r: Ray)
      reads this
      requires Reaches(m, point)
      ensures r.from == point && r.Valid()
      ensures r == NewRay(m, point, Vectors.Scale(direction.value, -1.0))
    {
      State().GetRayTowardsSource(m, point)
    }

    /** `isInShadow`: any hit shadows the point, however far away, wherever the point is. */
    function IsInShadow(m: Libm, point: Vector, result: RaycastResult): (b: bool)
      reads this
      ensures b == result.isHit
    {
      State().IsInShadow(m, point, result)
    }
  }

  /** The ray towards a directional light points against the light's direction. */
  lemma DirectionalRayOpposes(m: Libm, light: DirectionalLight, point: Vector)
    requires SqrtLaw(m) && light.Reaches(m, point)
    ensures Dot(light.GetRayTowardsSource(m, point).direction, light.direction.value) < 0.0
  {
    var towards := Vectors.Scale(light.direction.value, -1.0);
    var r := light.GetRayTowardsSource(m, point);
    NewRayDirection(m, point, towards);
    DotScale(r.direction, light.direction.value, -1.0);
  }

  /** The `Light` interface, over the two lights that implement it. */
  datatype Light = Point(point: PointLight) | Directional(directional: DirectionalLight) {
    function Object(): object {
      if Point? then point else directional
    }

    /** The fields of the implementation. */
    function State(): LightState
      reads Object()
    {
      if Point? then point.State() else directional.State()
    }

    function GetColor(): Option<Color>
      reads Object()
    {
      State().color
    }

    function GetIntensity(): real
      reads Object()
    {
      State().intensity
    }

    /** The light can build a ray towards itself from `at`. */
    predicate Reaches(m: Libm, at: Vector)
      reads Object()
    {
      State().Reaches(m, at)
    }

    /** `getRayTowardsSource`, dispatched to the implementation. */
    function GetRayTowardsSource(m: Libm, at: Vector): (r: Ray)
      reads Object()
      requires Reaches(m, at)
      ensures r.from == at && r.Valid()
    {
      State().GetRayTowardsSource(m, at)
    }

    /** `isInShadow`, dispatched to the implementation: a miss never shadows. */
    function IsInShadow(m: Libm, at: Vector, result: RaycastResult): (b: bool)
      reads Object()
      requires result.isHit ==> Reaches(m, at)
      ensures b ==> result.isHit
    {
      State().IsInShadow(m, at, result)
    }
  }
}
