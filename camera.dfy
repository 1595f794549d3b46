/**
 * The perspective camera: it turns texture coordinates on the screen into a ray from the
 * origin through an image plane one unit ahead, along the forward (y) axis.
 */
module Cameras {
  import opened Natives
  import opened Vectors
  import opened Rays

  /** A camera at the origin looking forward, with an aspect ratio and a field of view in radians. */
  class PerspectiveCamera {
    var aspectRatio: real
    var fieldOfView: real

    /** The default camera: square, with a 60 degree field of view. */
    constructor ()
      ensures aspectRatio == 1.0 && fieldOfView == ToRadians(60.0)
    {
      aspectRatio := 1.0;
      fieldOfView := ToRadians(60.0);
    }

    constructor Of(aspectRatio: real, fieldOfView: real)
      ensures this.aspectRatio == aspectRatio && this.fieldOfView == fieldOfView
    {
      this.aspectRatio := aspectRatio;
      this.fieldOfView := fieldOfView;
    }

    method SetAspectRatio(aspectRatio: real)
      modifies this
      ensures this.aspectRatio == aspectRatio && fieldOfView == old(fieldOfView)
    {
      this.aspectRatio := aspectRatio;
    }

    /**
     * `setAspectRatio(width, height)`: the ratio of the two. A zero height, which Java turns
     * into an infinity or NaN, is excluded.
     */
    method SetAspectRatioOf(width: real, height: real)
      requires height != 0.0
      modifies this
      ensures aspectRatio * height == width && fieldOfView == old(fieldOfView)
    {
      aspectRatio := width / height;
    }

    method SetFieldOfView(fieldOfView: real)
      modifies this
      ensures this.fieldOfView == fieldOfView && aspectRatio == old(aspectRatio)
    {
      this.fieldOfView := fieldOfView;
    }

    /**
     * The point on the image plane that `getRay` aims at for the horizontal coordinate `u`:
     * one unit ahead, with the offset `2u - 1` scaled by the half-height `tan(fov / 2)` on z
     * and by the half-width (half-height times the aspect ratio) on x.
     */
    function PlanePoint(m: Libm, u: real): (p: Vector)
      reads this
      ensures p.Dimensions() == 3 && p.data[1] == 1.0
      ensures p.data[0] == p.data[2] * aspectRatio
    {
      var planeHeight := m.tan(fieldOfView / 2.0);
      var planeWidth := planeHeight * aspectRatio;
      Vec3((2.0 * u - 1.0) * planeWidth, 1.0, (2.0 * u - 1.0) * planeHeight)
    }

    /**
     * `getRay`: the ray from the origin through the image-plane point of the texture
     * coordinates. Both plane offsets are taken from the first coordinate.
     */
    function GetRay(m: Libm, texcoords: Vector): (r: Ray)
      reads this
      requires SqrtLaw(m) && texcoords.Dimensions() >= 1
      ensures r.from == ZERO && r.Valid()
      ensures var p := PlanePoint(m, texcoords.data[0]);
        GetPoint(r, TargetDistance(m, ZERO, p)) == p && TargetDistance(m, ZERO, p) > 0.0
    {
      var target := PlanePoint(m, texcoords.data[0]);
      AheadHasLength(m, target);
      LookatReaches(m, ZERO, target);
      Lookat(m, ZERO, target)
    }
  }

  /** A point one unit ahead is away from the origin. */
  lemma AheadHasLength(m: Libm, p: Vector)
    requires SqrtLaw(m) && p.Dimensions() == 3 && p.data[1] == 1.0
    ensures HasLength(m, Subtract(p, ZERO))
  {
    var d := Subtract(p, ZERO);
    Dot3(d, d);
    SquarePositive(d.data[0]);
    SquarePositive(d.data[2]);
    assert SquaredLength(d) >= 1.0;
    if Length(m, d) == 0.0 {
      LengthNonNegative(m, d);
    }
  }

  /** The ray does not depend on the second texture coordinate. */
  lemma GetRayIgnoresV(m: Libm, camera: PerspectiveCamera, a: Vector, b: Vector)
    requires SqrtLaw(m) && a.Dimensions() >= 1 && b.Dimensions() >= 1 && a.data[0] == b.data[0]
    ensures camera.GetRay(m, a) == camera.GetRay(m, b)
  {
  }

  /** The middle of the screen looks straight ahead: `u = 0.5` gives `lookat(ZERO, FORWARD)`. */
  lemma CenterRay(m: Libm, camera: PerspectiveCamera, texcoords: Vector)
    requires SqrtLaw(m) && texcoords.Dimensions() >= 1 && texcoords.data[0] == 0.5
    ensures HasLength(m, Subtract(FORWARD, ZERO))
    ensures camera.GetRay(m, texcoords) == Lookat(m, ZERO, FORWARD)
  {
    AheadHasLength(m, FORWARD);
    assert camera.PlanePoint(m, 0.5).data == FORWARD.data;
  }
}
