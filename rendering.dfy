/**
 * Scenes, materials and the raytracer. They refer to one another (a material is evaluated in
 * a ray context that names the raytracer and the scene, and a scene holds a material), so they
 * share one module.
 */
module Rendering {
  import opened Natives
  import opened Vectors
  import opened Rays
  import opened Transforms
  import opened Shapes
  import opened Lights
  import opened Pigments
  import opened Cameras
  import opened Pixels
  import Colors
  import Matrices
  import MathUtils

  // Scenes

  /**
   * `raycastWithBias`: the ray moved by `bias`, with its direction passed through the ray
   * constructor again.
   */
  function BiasedRay(m: Libm, ray: Ray, bias: Vector): (r: Ray)
    requires bias.Dimensions() == ray.from.Dimensions() && HasLength(m, ray.direction)
    ensures r.from == Add(ray.from, bias)
    ensures r.direction.Dimensions() == ray.direction.Dimensions()
  {
    NewRay(m, Add(ray.from, bias), ray.direction)
  }

  /** A ray built by the ray constructor is already normalized, so the bias keeps its direction. */
  lemma BiasedRayKeepsDirection(m: Libm, from: Vector, direction: Vector, bias: Vector)
    requires SqrtLaw(m) && HasLength(m, direction) && bias.Dimensions() == from.Dimensions()
    ensures var ray := NewRay(m, from, direction);
      HasLength(m, ray.direction) && BiasedRay(m, ray, bias).direction == ray.direction
  {
    var ray := NewRay(m, from, direction);
    NewRayDirection(m, from, direction);
    NewRayDirection(m, ray.from, ray.direction);
  }

  /** With a zero bias the biased ray is the ray itself. */
  lemma ZeroBias(m: Libm, from: Vector, direction: Vector)
    requires SqrtLaw(m) && HasLength(m, direction)
    ensures var ray := NewRay(m, from, direction);
      var zero := Vector(seq(|from.data|, i => 0.0));
      HasLength(m, ray.direction) && BiasedRay(m, ray, zero) == ray
  {
    var ray := NewRay(m, from, direction);
    var zero := Vector(seq(|from.data|, i => 0.0));
    BiasedRayKeepsDirection(m, from, direction, zero);
    assert Add(ray.from, zero).data == ray.from.data;
  }

  /** A collection of shapes and lights, with a transform and the material of its background. */
  class SimpleScene {
    var transform: Transform
    var shapes: set<Shape>
    var lights: set<Light>
    var material: Material

    /** An empty scene with the identity transform and the default (red diffuse) material. */
    constructor ()
      ensures fresh(transform) && transform.Valid() && transform.Inverts()
      ensures transform.matrix == Matrices.IdentityMatrix(4)
      ensures shapes == {} && lights == {}
      ensures material.Diffuse? && fresh(material.diffuse) && material.diffuse.color == Colors.RED
    {
      transform := new Transform();
      shapes := {};
      lights := {};
      var diffuse := new DiffuseMaterial(Colors.RED);
      material := Diffuse(diffuse);
    }

    method SetTransform(transform: Transform)
      modifies this
      ensures this.transform == transform
      ensures shapes == old(shapes) && lights == old(lights) && material == old(material)
    {
      this.transform := transform;
    }

    method SetMaterial(material: Material)
      modifies this
      ensures this.material == material
      ensures shapes == old(shapes) && lights == old(lights) && transform == old(transform)
    {
      this.material := material;
    }

    /** `raycast`: this scene reports no hit for any ray. */
    function Raycast(ray: Ray): (r: RaycastResult)
      ensures !r.isHit && r == NO_HIT
    {
      NO_HIT
    }

    /** `raycastWithBias`: whatever `raycast` reports for the biased ray. */
    function RaycastWithBias(m: Libm, ray: Ray, bias: Vector): (r: RaycastResult)
      requires bias.Dimensions() == ray.from.Dimensions() && HasLength(m, ray.direction)
      ensures r == Raycast(BiasedRay(m, ray, bias))
    {
      Raycast(BiasedRay(m, ray, bias))
    }

    /** `addShape`: the shape becomes a member (again, if it was one); the lights stay. */
    method AddShape(shape: Shape) returns (scene: SimpleScene)
      modifies this
      ensures scene == this && shapes == old(shapes) + {shape}
      ensures lights == old(lights) && transform == old(transform) && material == old(material)
    {
      shapes := shapes + {shape};
      scene := this;
    }

    /** `removeShape`: the shape is no longer a member; an absent one changes nothing. */
    method RemoveShape(shape: Shape) returns (scene: SimpleScene)
      modifies this
      ensures scene == this && shapes == old(shapes) - {shape}
      ensures lights == old(lights) && transform == old(transform) && material == old(material)
    {
      shapes := shapes - {shape};
      scene := this;
    }

    /** `addLight`: the light becomes a member; the shapes stay. */
    method AddLight(light: Light) returns (scene: SimpleScene)
      modifies this
      ensures scene == this && lights == old(lights) + {light}
      ensures shapes == old(shapes) && transform == old(transform) && material == old(material)
    {
      lights := lights + {light};
      scene := this;
    }

    /** `removeLight`: the light is no longer a member; an absent one changes nothing. */
    method RemoveLight(light: Light) returns (scene: SimpleScene)
      modifies this
      ensures scene == this && lights == old(lights) - {light}
      ensures shapes == old(shapes) && transform == old(transform) && material == old(material)
    {
      lights := lights - {light};
      scene := this;
    }

    /** `getLights`: the current light set, as a value the caller cannot change. */
    function GetLights(): (r: set<Light>)
      reads this
      ensures r == lights
    {
      lights
    }
  }

  /** Adding a member twice leaves the same set as adding it once, and removing undoes adding. */
  lemma AddRemoveShape(shapes: set<Shape>, shape: Shape)
    ensures (shapes + {shape}) + {shape} == shapes + {shape}
    ensures shape !in shapes ==> (shapes + {shape}) - {shape} == shapes
    ensures shape !in shapes ==> shapes - {shape} == shapes
  {
  }

  // Ray contexts

  /** What a material is evaluated with: the raytracer, the ray, the scene, the hit, the depth. */
  datatype RayContext = RayContext(
    raytracer: Raytracer,
    ray: Ray,
    scene: SimpleScene,
    raycastResult: RaycastResult,
    depth: int)

  // The diffuse material

  /** The colour type, named for the signatures below. */
  type Color = Colors.Color

  /** The bias that lifts a shadow ray off the surface along the normal. */
  const SHADOW_BIAS: real := 0.005

  /** What adding nothing to a colour sum looks like: all channels, alpha included, zero. */
  const NO_LIGHT: Color := Colors.Color(0.0, 0.0, 0.0, 0.0)

  /**
   * A light, given by the value of its fields, can be evaluated at `point`: it has a colour
   * and aims a ray at itself whose direction has a length (under the square-root law every
   * light that reaches the point does, by `TowardsSourceHasLength`).
   */
  ghost predicate CanLight(m: Libm, light: LightState, point: Vector, normal: Vector) {
    light.Reaches(m, point) && HasLength(m, light.GetRayTowardsSource(m, point).direction) &&
    light.color.Some? && normal.Dimensions() == point.Dimensions()
  }

  /** The ray a light builds towards itself has a length to normalize by. */
  lemma TowardsSourceHasLength(m: Libm, light: LightState, at: Vector)
    requires SqrtLaw(m) && light.Reaches(m, at)
    ensures HasLength(m, light.GetRayTowardsSource(m, at).direction)
  {
    match light
    case PointState(_, _, position) =>
      NewRayDirection(m, at, Subtract(position.value, at));
    case DirectionalState(_, _, direction) =>
      NewRayDirection(m, at, Vectors.Scale(direction.value, -1.0));
  }

  /**
   * Lambert's cosine law, clamped: the light's colour times its intensity times the cosine
   * between the normal and the unit direction to the light, cut off at 0 and 1.
   */
  function Lambert(color: Color, intensity: real, normal: Vector, toLight: Vector): (c: Color)
    requires normal.Dimensions() == toLight.Dimensions()
  {
    Colors.Scale(color, intensity * MathUtils.Saturate(Dot(normal, toLight)))
  }

  /** The Lambert term is the colour scaled by the intensity times the clamped cosine `f`. */
  lemma LambertFactor(color: Color, k: real, normal: Vector, toLight: Vector, f: real)
    requires normal.Dimensions() == toLight.Dimensions() && f == MathUtils.Saturate(Dot(normal, toLight))
    ensures Lambert(color, k, normal, toLight) == Colors.Scale(color, k * f) && 0.0 <= f <= 1.0
  {
  }

  /**
   * A light with a non-negative colour and intensity adds, per channel, between nothing and
   * its full colour times its intensity; a light behind the surface adds nothing.
   */
  lemma LambertBounds(color: Color, k: real, normal: Vector, toLight: Vector)
    requires normal.Dimensions() == toLight.Dimensions()
    ensures var c := Lambert(color, k, normal, toLight);
      0.0 <= k && 0.0 <= color.red && 0.0 <= color.green && 0.0 <= color.blue ==>
        0.0 <= c.red <= color.red * k && 0.0 <= c.green <= color.green * k &&
        0.0 <= c.blue <= color.blue * k
    ensures Dot(normal, toLight) <= 0.0 ==> Lambert(color, k, normal, toLight) == NO_LIGHT
  {
    var f := MathUtils.Saturate(Dot(normal, toLight));
    var c := Lambert(color, k, normal, toLight);
    assert c == Colors.Scale(color, k * f);
    if 0.0 <= k && 0.0 <= color.red && 0.0 <= color.green && 0.0 <= color.blue {
      ScaledChannel(color.red, k, f);
      ScaledChannel(color.green, k, f);
      ScaledChannel(color.blue, k, f);
      assert c.red == color.red * (k * f) && c.green == color.green * (k * f) && c.blue == color.blue * (k * f);
    }
  }

  /** A non-negative channel times `k f`, with `k >= 0` and `f` in [0,1], is within [0, channel k]. */
  lemma ScaledChannel(x: real, k: real, f: real)
    requires 0.0 <= x && 0.0 <= k && 0.0 <= f <= 1.0
    ensures 0.0 <= x * (k * f) <= x * k
  {
    MulMonotonic(k, f, 1.0);
    MulMonotonic(x, k * f, k);
  }

  /**
   * What one light adds to the diffuse sum: nothing when the shadow ray, cast from the point
   * lifted along the normal, shows the point in shadow; otherwise its Lambert term along the
   * ray towards the light.
   */
  function Contribution(m: Libm, scene: SimpleScene, light: LightState, point: Vector, normal: Vector): (c: Color)
    requires CanLight(m, light, point, normal)
  {
    var toLight := light.GetRayTowardsSource(m, point);
    var shadow := scene.RaycastWithBias(m, toLight, Vectors.Scale(normal, SHADOW_BIAS));
    if light.IsInShadow(m, point, shadow) then NO_LIGHT
    else Lambert(light.color.value, light.intensity, normal, toLight.direction)
  }

  /** In a simple scene, whose raycasts never hit, no light is ever shadowed. */
  lemma SimpleSceneCastsNoShadows(m: Libm, scene: SimpleScene, light: LightState, point: Vector, normal: Vector)
    requires CanLight(m, light, point, normal)
    ensures var toLight := light.GetRayTowardsSource(m, point);
      !light.IsInShadow(m, point, scene.RaycastWithBias(m, toLight, Vectors.Scale(normal, SHADOW_BIAS))) &&
      Contribution(m, scene, light, point, normal) ==
        Lambert(light.color.value, light.intensity, normal, toLight.direction)
  {
  }

  /** The sum, from BLACK, of the terms of the lights in `order`, in that order. */
  function Sum(order: seq<Light>, terms: map<Light, Color>): (c: Color)
    requires forall l | l in order :: l in terms
  {
    if order == [] then Colors.BLACK
    else Colors.Add(Sum(order[..|order| - 1], terms), terms[order[|order| - 1]])
  }

  /** A shadowed light's term adds nothing. */
  lemma SumNothing(order: seq<Light>, terms: map<Light, Color>, light: Light)
    requires forall l | l in order :: l in terms
    requires light in terms && terms[light] == NO_LIGHT
    ensures Sum(order + [light], terms) == Sum(order, terms)
  {
    assert (order + [light])[..|order|] == order;
  }

  /** Taking any one light out of the order and adding it last gives the same sum. */
  lemma {:induction false} SumRemove(order: seq<Light>, terms: map<Light, Color>, j: int)
    requires 0 <= j < |order| && forall l | l in order :: l in terms
    ensures var rest := order[..j] + order[j + 1..];
      (forall l | l in rest :: l in terms) &&
      Sum(order, terms) == Colors.Add(Sum(rest, terms), terms[order[j]])
  {
    var n := |order|;
    var rest := order[..j] + order[j + 1..];
    assert forall l | l in rest :: l in order;
    if j == n - 1 {
      assert rest == order[..n - 1];
    } else {
      var init := order[..n - 1];
      SumRemove(init, terms, j);
      assert rest[..|rest| - 1] == init[..j] + init[j + 1..];
      assert rest[|rest| - 1] == order[n - 1];
      Colors.AddAssociative(Sum(init[..j] + init[j + 1..], terms), terms[order[j]], terms[order[n - 1]]);
      Colors.AddAssociative(Sum(init[..j] + init[j + 1..], terms), terms[order[n - 1]], terms[order[j]]);
      Colors.AddCommutative(terms[order[j]], terms[order[n - 1]]);
    }
  }

  /** The sum does not depend on the order the lights come in, only on which lights they are. */
  lemma {:induction false} SumOrderFree(a: seq<Light>, b: seq<Light>, terms: map<Light, Color>)
    requires multiset(a) == multiset(b) && forall l | l in a :: l in terms
    ensures forall l | l in b :: l in terms
    ensures Sum(a, terms) == Sum(b, terms)
  {
    assert forall l | l in b :: l in terms by {
      forall l | l in b ensures l in terms {
        assert l in multiset(b);
      }
    }
    if a == [] {
      assert |b| == |multiset(b)| == 0;
    } else {
      var n := |a|;
      var x := a[n - 1];
      assert x in multiset(b) by {
        assert x in multiset(a);
      }
      var j :| 0 <= j < |b| && b[j] == x;
      var rest := b[..j] + b[j + 1..];
      assert multiset(a[..n - 1]) == multiset(rest) by {
        WithoutOne(b, j);
        WithoutOne(a, n - 1);
        assert a[..n - 1] + a[n..] == a[..n - 1];
        CancelOne(multiset(rest), multiset(a[..n - 1]), x);
      }
      SumOrderFree(a[..n - 1], rest, terms);
      SumRemove(b, terms, j);
    }
  }

  /** A sequence is its `j`-th element and the others, as multisets. */
  lemma WithoutOne<T>(s: seq<T>, j: int)
    requires 0 <= j < |s|
    ensures multiset(s[..j] + s[j + 1..]) + multiset{s[j]} == multiset(s)
  {
    assert s == s[..j] + [s[j]] + s[j + 1..];
  }

  /** Taking the same element away from two equal multisets leaves equal multisets. */
  lemma CancelOne<T>(p: multiset<T>, q: multiset<T>, x: T)
    requires p + multiset{x} == q + multiset{x}
    ensures p == q
  {
    forall y ensures p[y] == q[y] {
      assert (p + multiset{x})[y] == (q + multiset{x})[y];
    }
  }

  /** Some order of the lights in a set, each exactly once. */
  ghost function Enumeration(lights: set<Light>): (order: seq<Light>)
    ensures multiset(order) == multiset(lights)
    decreases |lights|
  {
    if lights == {} then []
    else
      var l :| l in lights;
      TakeOne(lights, l);
      Enumeration(lights - {l}) + [l]
  }

  /** A set is its member and the rest, also as multisets. */
  lemma TakeOne<T>(s: set<T>, x: T)
    requires x in s
    ensures multiset(s - {x}) + multiset{x} == multiset(s)
  {
    assert s == (s - {x}) + {x};
  }

  /** The members of a sequence that enumerates a set are members of the set. */
  lemma EnumeratedIn(order: seq<Light>, lights: set<Light>)
    requires multiset(order) == multiset(lights)
    ensures forall l | l in order :: l in lights
  {
    forall l | l in order ensures l in lights {
      assert l in multiset(order);
    }
  }

  /** Every light of the scene can be evaluated at the hit point. */
  ghost predicate CanShade(m: Libm, ctx: RayContext)
    reads ctx.scene, set l | l in ctx.scene.lights :: l.Object()
  {
    forall l | l in ctx.scene.lights :: CanLight(m, l.State(), ctx.raycastResult.point, ctx.raycastResult.normal)
  }

  /** What every light of the scene contributes at the hit of `ctx`. */
  ghost function Contributions(m: Libm, ctx: RayContext): (terms: map<Light, Color>)
    reads ctx.scene, set l | l in ctx.scene.lights :: l.Object()
    requires CanShade(m, ctx)
    ensures forall l | l in ctx.scene.lights :: l in terms
  {
    map l | l in ctx.scene.lights :: Contribution(m, ctx.scene, l.State(), ctx.raycastResult.point, ctx.raycastResult.normal)
  }

  /** The lighting at the hit of `ctx`: the sum of the lights' contributions, in any order. */
  ghost function Lighting(m: Libm, ctx: RayContext): (c: Color)
    reads ctx.scene, set l | l in ctx.scene.lights :: l.Object()
    requires CanShade(m, ctx)
  {
    var order := Enumeration(ctx.scene.lights);
    EnumeratedIn(order, ctx.scene.lights);
    Sum(order, Contributions(m, ctx))
  }

  /** A scene without lights is lit by BLACK alone. */
  lemma LightingWithoutLights(m: Libm, ctx: RayContext)
    requires CanShade(m, ctx) && ctx.scene.lights == {}
    ensures Lighting(m, ctx) == Colors.BLACK
  {
    assert |Enumeration(ctx.scene.lights)| == |multiset(ctx.scene.lights)| == 0;
  }

  /** The lighting equals the sum of the contributions taken in any order of the scene's lights. */
  lemma LightingInAnyOrder(m: Libm, ctx: RayContext, order: seq<Light>)
    requires CanShade(m, ctx) && multiset(order) == multiset(ctx.scene.lights)
    ensures forall l | l in order :: l in Contributions(m, ctx)
    ensures Lighting(m, ctx) == Sum(order, Contributions(m, ctx))
  {
    var e := Enumeration(ctx.scene.lights);
    EnumeratedIn(e, ctx.scene.lights);
    SumOrderFree(e, order, Contributions(m, ctx));
  }

  /** A material reflecting the light of the scene's lights by Lambert's cosine law. */
  class DiffuseMaterial {
    var color: Color

    constructor (color: Color)
      ensures this.color == color
    {
      this.color := color;
    }

    method SetColor(color: Color)
      modifies this
      ensures this.color == color
    {
      this.color := color;
    }

    /**
     * `evaluate`: the material colour times the sum, from BLACK, of what every light of the
     * scene contributes at the hit. The lights are visited in whatever order the set yields.
     */
    method Evaluate(m: Libm, ctx: RayContext) returns (c: Color)
      requires CanShade(m, ctx)
      ensures c == Colors.Multiply(color, old(Lighting(m, ctx)))
    {
      ghost var terms := Contributions(m, ctx);
      ghost var lights := ctx.scene.lights;
      var contributions, visited := AddLights(m, ctx.scene, ctx.scene.GetLights(), ctx.raycastResult.point, ctx.raycastResult.normal, terms);
      ghost var order := Enumeration(lights);
      EnumeratedIn(order, lights);
      SumOrderFree(order, visited, terms);
      c := Colors.Multiply(color, contributions);
    }
  }

  /** `terms` holds the contribution of `light`, which can light the point. */
  ghost predicate Covers(m: Libm, scene: SimpleScene, terms: map<Light, Color>, light: Light, point: Vector, normal: Vector)
    reads light.Object()
  {
    light in terms && CanLight(m, light.State(), point, normal) &&
    terms[light] == Contribution(m, scene, light.State(), point, normal)
  }

  /**
   * The loop of `DiffuseMaterial.evaluate`: every light, in the order the set yields them, adds
   * its `Contribution`. A shadowed light's contribution is NO_LIGHT, which adds nothing
   * (`SumNothing`), as the source's `continue` does. The sum is that of the lights'
   * contributions `terms`, in the order `visited`.
   */
  method AddLights(m: Libm, scene: SimpleScene, lights: set<Light>, point: Vector, normal: Vector, ghost terms: map<Light, Color>)
    returns (contributions: Color, ghost visited: seq<Light>)
    requires forall l {:trigger Covers(m, scene, terms, l, point, normal)} | l in lights ::
      Covers(m, scene, terms, l, point, normal)
    ensures multiset(visited) == multiset(lights)
    ensures (forall l | l in visited :: l in terms) && contributions == Sum(visited, terms)
  {
    contributions := Colors.BLACK;
    var remaining := lights;
    visited := [];
    while remaining != {}
      invariant remaining <= lights
      invariant multiset(visited) + multiset(remaining) == multiset(lights)
      invariant forall l | l in visited :: l in lights && l in terms
      invariant contributions == Sum(visited, terms)
      decreases |remaining|
    {
      var light :| light in remaining;
      assert Covers(m, scene, terms, light, point, normal);
      // The shadow ray, the shadow test and the Lambert term of this light.
      var term := Contribution(m, scene, light.State(), point, normal);
      assert remaining == (remaining - {light}) + {light};
      remaining := remaining - {light};
      ghost var before := visited;
      visited := visited + [light];
      assert visited[..|visited| - 1] == before;
      assert term == terms[light];
      assert Sum(visited, terms) == Colors.Add(Sum(before, terms), term);
      contributions := Colors.Add(contributions, term);
    }
    assert multiset(remaining) == multiset{};
  }

  // The reflective material

  /** What `ReflectiveMaterial.evaluate` needs: matching dimensions and a direction with a length. */
  predicate CanReflect(m: Libm, ctx: RayContext) {
    var point, normal, incoming := ctx.raycastResult.point, ctx.raycastResult.normal, ctx.ray.direction;
    normal.Dimensions() == point.Dimensions() && incoming.Dimensions() == point.Dimensions() &&
    HasLength(m, Add(Add(normal, incoming), normal))
  }

  /**
   * The ray the reflective material traces: from the hit lifted along the normal, towards
   * `normal + incoming + normal`.
   */
  function ReflectedRay(m: Libm, ctx: RayContext): (r: Ray)
    requires CanReflect(m, ctx)
    ensures r.from == Add(ctx.raycastResult.point, Vectors.Scale(ctx.raycastResult.normal, SHADOW_BIAS))
    ensures r.Valid()
  {
    var point, normal, incoming := ctx.raycastResult.point, ctx.raycastResult.normal, ctx.ray.direction;
    NewRay(m, Add(point, Vectors.Scale(normal, SHADOW_BIAS)), Add(Add(normal, incoming), normal))
  }

  /**
   * The traced direction is the incoming direction plus twice the normal, normalized. Its
   * component along a unit normal is the incoming one plus 2, where a mirror reflection would
   * negate it.
   */
  lemma ReflectedDirection(m: Libm, ctx: RayContext)
    requires CanReflect(m, ctx)
    ensures var normal, incoming := ctx.raycastResult.normal, ctx.ray.direction;
      var to := Add(Add(normal, incoming), normal);
      to == Add(incoming, Vectors.Scale(normal, 2.0)) &&
      Dot(to, normal) == Dot(incoming, normal) + 2.0 * SquaredLength(normal) &&
      Dot(Reflect(incoming, normal), normal) == Dot(incoming, normal) * (1.0 - 2.0 * SquaredLength(normal))
  {
    var normal, incoming := ctx.raycastResult.normal, ctx.ray.direction;
    var to := Add(Add(normal, incoming), normal);
    assert to.data == Add(incoming, Vectors.Scale(normal, 2.0)).data;
    DotAdd(incoming, Vectors.Scale(normal, 2.0), normal);
    DotScale(normal, normal, 2.0);
    var k := 2.0 * Dot(incoming, normal);
    DotSubtract(incoming, Vectors.Scale(normal, k), normal);
    DotScale(normal, normal, k);
  }

  /**
   * For a ray coming down at (0.6, 0, -0.8) onto a floor with normal (0, 0, 1), the traced
   * direction is (0.6, 0, 1.2) before normalization, not the mirror direction (0.6, 0, 0.8).
   */
  lemma ReflectedDirectionExample()
    ensures var normal, incoming := Vec3(0.0, 0.0, 1.0), Vec3(0.6, 0.0, -0.8);
      Add(Add(normal, incoming), normal) == Vec3(0.6, 0.0, 1.2) &&
      Reflect(incoming, normal) == Vec3(0.6, 0.0, 0.8)
  {
    var normal, incoming := Vec3(0.0, 0.0, 1.0), Vec3(0.6, 0.0, -0.8);
    assert Add(Add(normal, incoming), normal).data == [0.6, 0.0, 1.2];
    Dot3(incoming, normal);
    assert Reflect(incoming, normal).data == [0.6, 0.0, 0.8];
  }

  /** A material that traces the reflected ray back into the raytracer. */
  class ReflectiveMaterial {
    constructor ()
    {
    }

    /**
     * `evaluate`: whatever the raytracer makes of the reflected ray, with the same context (the
     * depth is not increased). With the raytracer as it stands, that is BLACK.
     */
    function Evaluate(m: Libm, ctx: RayContext): (c: Color)
      requires CanReflect(m, ctx)
      ensures c == ctx.raytracer.EvaluateRay(ReflectedRay(m, ctx), ctx) && c == Colors.BLACK
    {
      ctx.raytracer.EvaluateRay(ReflectedRay(m, ctx), ctx)
    }
  }

  // The sky material

  /** A background material: its pigment evaluated at the ray's direction. */
  class SkyMaterial {
    var pigment: Pigment

    constructor (pigment: Pigment)
      ensures this.pigment == pigment
    {
      this.pigment := pigment;
    }

    /** `setPigment`: later evaluations use the new pigment. */
    method SetPigment(pigment: Pigment)
      modifies this
      ensures this.pigment == pigment
    {
      this.pigment := pigment;
    }

    /** `evaluate`: the pigment at the ray's direction, used as texture coordinates. */
    function Evaluate(m: Libm, ctx: RayContext): (c: Color)
      reads this, pigment.Object()
      requires pigment.Accepts(ctx.ray.direction)
      ensures c == pigment.Evaluate(m, ctx.ray.direction)
      ensures pigment.Plain? ==> c == pigment.plain.color
    {
      pigment.Evaluate(m, ctx.ray.direction)
    }
  }

  /** The sky depends on the ray's direction alone, not on the hit, the scene or the depth. */
  lemma SkyIgnoresHit(m: Libm, sky: SkyMaterial, a: RayContext, b: RayContext)
    requires a.ray.direction == b.ray.direction && sky.pigment.Accepts(a.ray.direction)
    ensures sky.Evaluate(m, a) == sky.Evaluate(m, b)
  {
  }

  // Materials

  /** The `Material` interface, over the three materials that implement it. */
  datatype Material = Diffuse(diffuse: DiffuseMaterial) | Reflective(reflective: ReflectiveMaterial) | Sky(sky: SkyMaterial) {
    function Object(): object {
      match this
      case Diffuse(d) => d
      case Reflective(r) => r
      case Sky(s) => s
    }

    /** What `evaluate` needs of the context, per material. */
    ghost predicate Ready(m: Libm, ctx: RayContext)
      reads Object(), ctx.scene, set l | l in ctx.scene.lights :: l.Object()
      reads if Sky? then {sky.pigment.Object()} else {}
    {
      match this
      case Diffuse(_) => CanShade(m, ctx)
      case Reflective(_) => CanReflect(m, ctx)
      case Sky(s) => s.pigment.Accepts(ctx.ray.direction)
    }

    /** The colour `evaluate` gives, per material. */
    ghost function Shade(m: Libm, ctx: RayContext): (c: Color)
      reads Object(), ctx.scene, set l | l in ctx.scene.lights :: l.Object()
      reads if Sky? then {sky.pigment.Object()} else {}
      requires Ready(m, ctx)
    {
      match this
      case Diffuse(d) => Colors.Multiply(d.color, Lighting(m, ctx))
      case Reflective(r) => r.Evaluate(m, ctx)
      case Sky(s) => s.Evaluate(m, ctx)
    }

    /** `evaluate`, dispatched to the implementation. */
    method Evaluate(m: Libm, ctx: RayContext) returns (c: Color)
      requires Ready(m, ctx)
      ensures c == old(Shade(m, ctx))
    {
      match this
      case Diffuse(d) => c := d.Evaluate(m, ctx);
      case Reflective(r) => c := r.Evaluate(m, ctx);
      case Sky(s) => c := s.Evaluate(m, ctx);
    }
  }

  // The raytracer

  /** The raytracer's settings. The display is not modelled: its size is passed where needed. */
  class Raytracer {
    var scene: SimpleScene?
    var camera: PerspectiveCamera?
    var rayDepthLimit: int

    /** Java's default constructor: no scene, no camera, depth limit 0. */
    constructor ()
      ensures scene == null && camera == null && rayDepthLimit == 0
    {
      scene := null;
      camera := null;
      rayDepthLimit := 0;
    }

    method SetScene(scene: SimpleScene)
      modifies this
      ensures this.scene == scene && camera == old(camera) && rayDepthLimit == old(rayDepthLimit)
    {
      this.scene := scene;
    }

    method SetCamera(camera: PerspectiveCamera)
      modifies this
      ensures this.camera == camera && scene == old(scene) && rayDepthLimit == old(rayDepthLimit)
    {
      this.camera := camera;
    }

    method SetRayDepthLimit(rayDepthLimit: int)
      modifies this
      ensures this.rayDepthLimit == rayDepthLimit && scene == old(scene) && camera == old(camera)
    {
      this.rayDepthLimit := rayDepthLimit;
    }

    /** `evaluateRay`: every ray is BLACK. */
    function EvaluateRay(ray: Ray, ctx: RayContext): (c: Color)
      ensures c == Colors.BLACK
    {
      Colors.BLACK
    }

    /** `getSkyColor`: the scene's material evaluated in the context. */
    method GetSkyColor(m: Libm, ctx: RayContext) returns (c: Color)
      requires scene != null && scene.material.Ready(m, ctx)
      ensures c == old(scene.material.Shade(m, ctx))
    {
      c := scene.material.Evaluate(m, ctx);
    }

    /** `getRayForPixel`: the camera's ray through the pixel's texture coordinates. */
    function GetRayForPixel(m: Libm, pixel: Pixel, width: int, height: int, camera: PerspectiveCamera): (r: Ray)
      reads camera
      requires SqrtLaw(m) && width != 0 && height != 0
      ensures r.from == ZERO && r.Valid()
      ensures r == camera.GetRay(m, PixelTexcoords(pixel, width, height))
    {
      camera.GetRay(m, PixelTexcoords(pixel, width, height))
    }
  }

  /**
   * The texture coordinates of a pixel: its position divided by the screen size, so a pixel
   * on the screen lands in [0,1) on both axes.
   */
  function PixelTexcoords(pixel: Pixel, width: int, height: int): (t: Vector)
    requires width != 0 && height != 0
    ensures t.Dimensions() == 2
    ensures t.data[0] * (width as real) == pixel.x as real && t.data[1] * (height as real) == pixel.y as real
    ensures 0 <= pixel.x < width ==> 0.0 <= t.data[0] < 1.0
    ensures 0 <= pixel.y < height ==> 0.0 <= t.data[1] < 1.0
  {
    FractionBelowOne(pixel.x, width);
    FractionBelowOne(pixel.y, height);
    Vec2(pixel.x as real / width as real, pixel.y as real / height as real)
  }

  /** `x / n` times `n` is `x`, and lies in [0,1) when `0 <= x < n`. */
  lemma FractionBelowOne(x: int, n: int)
    requires n != 0
    ensures (x as real / n as real) * (n as real) == x as real
    ensures 0 <= x < n ==> 0.0 <= x as real / n as real < 1.0
  {
    if 0 <= x < n {
      var q := x as real / n as real;
      assert q * (n as real) == x as real;
      if q >= 1.0 {
        MulMonotonic(n as real, 1.0, q);
      }
      if q < 0.0 {
        MulMonotonic(n as real, q, 0.0);
      }
    }
  }

  /** Pixels in the same column get the same ray: the camera reads only the horizontal coordinate. */
  lemma SameColumnSameRay(m: Libm, raytracer: Raytracer, camera: PerspectiveCamera, a: Pixel, b: Pixel, width: int, height: int)
    requires SqrtLaw(m) && width != 0 && height != 0 && a.x == b.x
    ensures raytracer.GetRayForPixel(m, a, width, height, camera) == raytracer.GetRayForPixel(m, b, width, height, camera)
  {
    GetRayIgnoresV(m, camera, PixelTexcoords(a, width, height), PixelTexcoords(b, width, height));
  }
}
