/**
 * The placement of an object in the scene: a position, a rotation in degrees about x, y and z,
 * and a per-axis scale, kept together with the 4x4 matrix that applies them and its inverse.
 * Changes go through an updater that collects them and commits them all at once.
 */
module Transforms {
  import opened Natives
  import opened Vectors
  import opened Matrices
  import opened Rays

  /** The three placement vectors are 3D, as the updater's setters insist. */
  predicate Placement(position: Vector, rotation: Vector, scale: Vector) {
    position.Dimensions() == 3 && rotation.Dimensions() == 3 && scale.Dimensions() == 3
  }

  // The factors of the two chains

  /**
   * One of the elementary matrices `updateMatrices` multiplies together: a rotation about an
   * axis by an angle in radians, a scaling, or a translation.
   */
  datatype Factor =
    | RotateX(angle: real)
    | RotateY(angle: real)
    | RotateZ(angle: real)
    | Scaling(scalars: Vector)
    | Translation(offset: Vector)

  /** Scalings and translations are by 3D vectors, so every factor is a 4x4 matrix. */
  predicate Spatial(f: Factor) {
    match f
    case Scaling(v) => v.Dimensions() == 3
    case Translation(v) => v.Dimensions() == 3
    case _ => true
  }

  /** A factor that can be undone: a scaling must not scale any axis by zero. */
  predicate Invertible(f: Factor) {
    Spatial(f) && (f.Scaling? ==> NoZeroComponent(f.scalars))
  }

  predicate AllSpatial(fs: seq<Factor>) {
    forall i :: 0 <= i < |fs| ==> Spatial(fs[i])
  }

  predicate AllInvertible(fs: seq<Factor>) {
    forall i :: 0 <= i < |fs| ==> Invertible(fs[i])
  }

  /** The factory call that builds the factor. */
  function FactorMatrix(m: Libm, f: Factor): (r: Matrix)
    requires Spatial(f)
    ensures IsSquare(r, 4)
  {
    match f
    case RotateX(a) => RotationX(m, a)
    case RotateY(a) => RotationY(m, a)
    case RotateZ(a) => RotationZ(m, a)
    case Scaling(v) => ScalingMatrix(v)
    case Translation(v) => TranslationMatrix(v)
  }

  /** The factors multiplied left to right, as chained `multiply` calls do; no factor at all is the identity. */
  function ChainMatrix(m: Libm, fs: seq<Factor>): (r: Matrix)
    requires AllSpatial(fs)
    ensures IsSquare(r, 4)
    decreases |fs|
  {
    if fs == [] then IdentityMatrix(4)
    else Product(ChainMatrix(m, fs[..|fs| - 1]), FactorMatrix(m, fs[|fs| - 1]))
  }

  /** The angle that turns the other way. */
  function Opposite(angle: real): real {
    -angle
  }

  /** The factor that undoes `f`: the opposite angle, the reciprocal scalars or the negated offset. */
  function Inverse(f: Factor): (g: Factor)
    requires Invertible(f)
    ensures Spatial(g) && g.RotateX? == f.RotateX? && g.RotateY? == f.RotateY? && g.RotateZ? == f.RotateZ?
  {
    match f
    case RotateX(a) => RotateX(Opposite(a))
    case RotateY(a) => RotateY(Opposite(a))
    case RotateZ(a) => RotateZ(Opposite(a))
    case Scaling(v) => Scaling(Vectors.Divide(ONE, v))
    case Translation(v) => Translation(Vectors.Scale(v, -1.0))
  }

  /** The chain that undoes `fs`: every factor undone, in the opposite order. */
  function Undo(fs: seq<Factor>): (gs: seq<Factor>)
    requires AllInvertible(fs)
    ensures |gs| == |fs| && AllSpatial(gs)
    ensures forall i :: 0 <= i < |fs| ==> gs[i] == Inverse(fs[|fs| - 1 - i])
    decreases |fs|
  {
    if fs == [] then [] else [Inverse(fs[|fs| - 1])] + Undo(fs[..|fs| - 1])
  }

  /** `rotX · rotY · rotZ · scaling · translation`, the forward chain of `updateMatrices`. */
  function ForwardFactors(position: Vector, rotation: Vector, scale: Vector): (fs: seq<Factor>)
    requires Placement(position, rotation, scale)
    ensures |fs| == 5 && AllSpatial(fs)
    ensures NoZeroComponent(scale) ==> AllInvertible(fs)
  {
    [RotateX(ToRadians(rotation.data[0])), RotateY(ToRadians(rotation.data[1])),
     RotateZ(ToRadians(rotation.data[2])), Scaling(scale), Translation(position)]
  }

  /**
   * `invTranslation · invScaling · invRotZ · invRotY · invRotX`, the inverse chain: the negated
   * offset, `ONE.divide(scale)` and the negated angles, in the opposite order.
   */
  function InverseFactors(position: Vector, rotation: Vector, scale: Vector): (fs: seq<Factor>)
    requires Placement(position, rotation, scale) && NoZeroComponent(scale)
    ensures |fs| == 5 && AllSpatial(fs)
  {
    [Translation(Vectors.Scale(position, -1.0)), Scaling(Vectors.Divide(ONE, scale)),
     RotateZ(Opposite(ToRadians(rotation.data[2]))), RotateY(Opposite(ToRadians(rotation.data[1]))),
     RotateX(Opposite(ToRadians(rotation.data[0])))]
  }

  /** The inverse chain is the forward chain undone factor by factor. */
  lemma InverseFactorsUndo(position: Vector, rotation: Vector, scale: Vector)
    requires Placement(position, rotation, scale) && NoZeroComponent(scale)
    ensures InverseFactors(position, rotation, scale) == Undo(ForwardFactors(position, rotation, scale))
  {
    var fs := ForwardFactors(position, rotation, scale);
    var gs := Undo(fs);
    assert gs[0] == Inverse(fs[4]) && gs[1] == Inverse(fs[3]) && gs[2] == Inverse(fs[2]);
    assert gs[3] == Inverse(fs[1]) && gs[4] == Inverse(fs[0]);
  }

  /** The matrix the transform stores. */
  function ForwardMatrix(m: Libm, position: Vector, rotation: Vector, scale: Vector): (r: Matrix)
    requires Placement(position, rotation, scale)
    ensures IsSquare(r, 4)
  {
    ChainMatrix(m, ForwardFactors(position, rotation, scale))
  }

  /** The inverse matrix the transform stores. */
  function InverseMatrix(m: Libm, position: Vector, rotation: Vector, scale: Vector): (r: Matrix)
    requires Placement(position, rotation, scale) && NoZeroComponent(scale)
    ensures IsSquare(r, 4)
  {
    ChainMatrix(m, InverseFactors(position, rotation, scale))
  }

  // An undone chain multiplies with the chain to the identity

  /** A factor next to its inverse drops out of a product. */
  lemma Cancel(p: Matrix, y: Matrix, x: Matrix, q: Matrix)
    requires IsSquare(p, 4) && IsSquare(y, 4) && IsSquare(x, 4) && IsSquare(q, 4)
    requires Product(y, x) == IdentityMatrix(4)
    ensures Product(Product(p, y), Product(x, q)) == Product(p, q)
  {
    ProductAssociative(p, y, Product(x, q));
    ProductAssociative(y, x, q);
    ProductIdentityLeft(q);
  }

  /** Rotating back by the negated angle undoes a rotation, on either side. */
  lemma PlaneRotationInverse(p: nat, q: nat, c: real, s: real, back: Matrix, forward: Matrix)
    requires p < 4 && q < 4 && p != q && s * s + c * c == 1.0
    requires back == PlaneRotation(p, q, c, -s) && forward == PlaneRotation(p, q, c, s)
    ensures Product(back, forward) == IdentityMatrix(4) && Product(forward, back) == IdentityMatrix(4)
  {
    RotationInverse(p, q, c, s);
    RotationInverseRight(p, q, c, s);
  }

  lemma DivideOneIsReciprocal(scale: Vector)
    requires scale.Dimensions() == 3 && NoZeroComponent(scale)
    ensures Vectors.Divide(ONE, scale) == Reciprocal(scale)
  {
    assert Vectors.Divide(ONE, scale).data == Reciprocal(scale).data;
  }

  lemma ScalingMatrixInverse(scale: Vector)
    requires scale.Dimensions() == 3 && NoZeroComponent(scale)
    ensures var back := ScalingMatrix(Vectors.Divide(ONE, scale));
      Product(back, ScalingMatrix(scale)) == IdentityMatrix(4) && Product(ScalingMatrix(scale), back) == IdentityMatrix(4)
  {
    DivideOneIsReciprocal(scale);
    ScalingInverse(scale);
    ScalingInverse(Reciprocal(scale));
    ReciprocalInvolutive(scale);
  }

  lemma TranslationMatrixInverse(position: Vector)
    requires position.Dimensions() == 3
    ensures var back := TranslationMatrix(Vectors.Scale(position, -1.0));
      Product(back, TranslationMatrix(position)) == IdentityMatrix(4) &&
      Product(TranslationMatrix(position), back) == IdentityMatrix(4)
  {
    var back := Vectors.Scale(position, -1.0);
    TranslationInverse(position);
    TranslationInverse(back);
    assert Vectors.Scale(back, -1.0) == position by {
      ScaleCompose(position, -1.0, -1.0);
    }
  }

  /** The cosine of the opposite angle is the same, its sine the negation. */
  lemma OppositeTrig(m: Libm, a: real)
    requires TrigLaws(m)
    ensures m.cos(Opposite(a)) == m.cos(a) && m.sin(Opposite(a)) == -m.sin(a)
    ensures m.sin(a) * m.sin(a) + m.cos(a) * m.cos(a) == 1.0
  {
  }

  lemma RotateXInverts(m: Libm, f: Factor)
    requires TrigLaws(m) && f.RotateX?
    ensures var back, forward := FactorMatrix(m, Inverse(f)), FactorMatrix(m, f);
      Product(back, forward) == IdentityMatrix(4) && Product(forward, back) == IdentityMatrix(4)
  {
    var a := f.angle;
    OppositeTrig(m, a);
    PlaneRotationInverse(1, 2, m.cos(a), m.sin(a), RotationX(m, Opposite(a)), RotationX(m, a));
  }

  lemma RotateYInverts(m: Libm, f: Factor)
    requires TrigLaws(m) && f.RotateY?
    ensures var back, forward := FactorMatrix(m, Inverse(f)), FactorMatrix(m, f);
      Product(back, forward) == IdentityMatrix(4) && Product(forward, back) == IdentityMatrix(4)
  {
    var a := f.angle;
    OppositeTrig(m, a);
    PlaneRotationInverse(2, 0, m.cos(a), m.sin(a), RotationY(m, Opposite(a)), RotationY(m, a));
  }

  lemma RotateZInverts(m: Libm, f: Factor)
    requires TrigLaws(m) && f.RotateZ?
    ensures var back, forward := FactorMatrix(m, Inverse(f)), FactorMatrix(m, f);
      Product(back, forward) == IdentityMatrix(4) && Product(forward, back) == IdentityMatrix(4)
  {
    var a := f.angle;
    OppositeTrig(m, a);
    PlaneRotationInverse(0, 1, m.cos(a), m.sin(a), RotationZ(m, Opposite(a)), RotationZ(m, a));
  }

  /** Under the trigonometric laws every invertible factor is undone by its inverse, on either side. */
  lemma FactorInverts(m: Libm, f: Factor)
    requires TrigLaws(m) && Invertible(f)
    ensures var back, forward := FactorMatrix(m, Inverse(f)), FactorMatrix(m, f);
      Product(back, forward) == IdentityMatrix(4) && Product(forward, back) == IdentityMatrix(4)
  {
    if f.RotateX? {
      RotateXInverts(m, f);
    } else if f.RotateY? {
      RotateYInverts(m, f);
    } else if f.RotateZ? {
      RotateZInverts(m, f);
    } else if f.Scaling? {
      ScalingMatrixInverse(f.scalars);
    } else {
      TranslationMatrixInverse(f.offset);
    }
  }

  /** A chain with a factor put in front is that factor times the rest of the chain. */
  lemma {:induction false} ChainPrepend(m: Libm, g: Factor, gs: seq<Factor>)
    requires Spatial(g) && AllSpatial(gs)
    ensures AllSpatial([g] + gs)
    ensures ChainMatrix(m, [g] + gs) == Product(FactorMatrix(m, g), ChainMatrix(m, gs))
    decreases |gs|
  {
    var hs := [g] + gs;
    SpatialPrepend(g, gs);
    if gs == [] {
      assert hs[..0] == [];
      ProductIdentityLeft(FactorMatrix(m, g));
      ProductIdentityRight(FactorMatrix(m, g));
    } else {
      var init, last := gs[..|gs| - 1], gs[|gs| - 1];
      SpatialInit(gs);
      SpatialPrepend(g, init);
      assert hs[..|hs| - 1] == [g] + init && hs[|hs| - 1] == last;
      var a, b, c := FactorMatrix(m, g), ChainMatrix(m, init), FactorMatrix(m, last);
      ChainPrepend(m, g, init);
      assert ChainMatrix(m, hs) == Product(ChainMatrix(m, [g] + init), c);
      assert ChainMatrix(m, gs) == Product(b, c);
      ProductAssociative(a, b, c);
    }
  }

  lemma SpatialPrepend(g: Factor, gs: seq<Factor>)
    requires Spatial(g) && AllSpatial(gs)
    ensures AllSpatial([g] + gs)
  {
    var hs := [g] + gs;
    forall i | 0 <= i < |hs|
      ensures Spatial(hs[i])
    {
      if i > 0 {
        assert hs[i] == gs[i - 1];
      }
    }
  }

  lemma SpatialInit(fs: seq<Factor>)
    requires fs != [] && AllSpatial(fs)
    ensures AllSpatial(fs[..|fs| - 1])
  {
  }

  lemma InvertibleInit(fs: seq<Factor>)
    requires fs != [] && AllInvertible(fs)
    ensures AllInvertible(fs[..|fs| - 1])
  {
  }

  /**
   * The undone chain times the chain, and the chain times the undone chain, are the identity:
   * the innermost factors cancel first, then the next pair outwards.
   */
  lemma {:induction false} UndoInverts(m: Libm, fs: seq<Factor>)
    requires TrigLaws(m) && AllInvertible(fs)
    ensures var back, forward := ChainMatrix(m, Undo(fs)), ChainMatrix(m, fs);
      Product(back, forward) == IdentityMatrix(4) && Product(forward, back) == IdentityMatrix(4)
    decreases |fs|
  {
    if fs == [] {
      ProductIdentityLeft(IdentityMatrix(4));
    } else {
      var init, f := fs[..|fs| - 1], fs[|fs| - 1];
      InvertibleInit(fs);
      UndoInverts(m, init);
      FactorInverts(m, f);
      assert Undo(fs) == [Inverse(f)] + Undo(init);
      ChainPrepend(m, Inverse(f), Undo(init));
      var back, forward := ChainMatrix(m, Undo(init)), ChainMatrix(m, init);
      var undo, factor := FactorMatrix(m, Inverse(f)), FactorMatrix(m, f);
      assert ChainMatrix(m, fs) == Product(forward, factor);
      assert ChainMatrix(m, Undo(fs)) == Product(undo, back);
      Cancel(undo, back, forward, factor);
      Cancel(forward, factor, undo, back);
    }
  }

  /**
   * The round trip the transform relies on: with a non-zero scale, the inverse chain and the
   * forward chain multiply to the identity in either order.
   */
  lemma ChainRoundTrip(m: Libm, position: Vector, rotation: Vector, scale: Vector)
    requires TrigLaws(m) && Placement(position, rotation, scale) && NoZeroComponent(scale)
    ensures var forward := ForwardMatrix(m, position, rotation, scale);
      var inverse := InverseMatrix(m, position, rotation, scale);
      Product(inverse, forward) == IdentityMatrix(4) && Product(forward, inverse) == IdentityMatrix(4)
  {
    InverseFactorsUndo(position, rotation, scale);
    UndoInverts(m, ForwardFactors(position, rotation, scale));
  }

  // Mapping points and rays

  /** The inverse of a product undoes it on every 4D vector. */
  lemma UndoTransform(a: Matrix, b: Matrix, x: Vector)
    requires IsSquare(a, 4) && IsSquare(b, 4) && x.Dimensions() == 4 && Product(a, b) == IdentityMatrix(4)
    ensures Matrices.Transform(b, Matrices.Transform(a, x)) == x
  {
    TransformProduct(a, b, x);
    TransformIdentity(x);
  }

  /** `a` leaves the w component of every 4D vector as it was, as affine maps do. */
  ghost predicate KeepsW(a: Matrix)
    requires IsSquare(a, 4)
  {
    forall x: Vector {:trigger Matrices.Transform(a, x)} :: x.Dimensions() == 4 ==> Matrices.Transform(a, x).data[3] == x.data[3]
  }

  lemma PlaneRotationKeepsW(p: nat, q: nat, c: real, s: real)
    requires p < 3 && q < 3 && p != q
    ensures KeepsW(PlaneRotation(p, q, c, s))
  {
    forall x: Vector | x.Dimensions() == 4
      ensures Matrices.Transform(PlaneRotation(p, q, c, s), x).data[3] == x.data[3]
    {
      TransformRotation(p, q, c, s, x);
    }
  }

  /** Every factor is affine. */
  lemma FactorKeepsW(m: Libm, f: Factor)
    requires Spatial(f)
    ensures KeepsW(FactorMatrix(m, f))
  {
    match f
    case RotateX(a) =>
      PlaneRotationKeepsW(1, 2, m.cos(a), m.sin(a));
    case RotateY(a) =>
      PlaneRotationKeepsW(2, 0, m.cos(a), m.sin(a));
    case RotateZ(a) =>
      PlaneRotationKeepsW(0, 1, m.cos(a), m.sin(a));
    case Scaling(v) =>
      forall x: Vector | x.Dimensions() == 4
        ensures Matrices.Transform(ScalingMatrix(v), x).data[3] == x.data[3]
      {
        TransformScaling(v, x);
      }
    case Translation(v) =>
      forall x: Vector | x.Dimensions() == 4
        ensures Matrices.Transform(TranslationMatrix(v), x).data[3] == x.data[3]
      {
        TransformTranslation(v, x);
      }
  }

  /** A product of affine factors is affine. */
  lemma ProductKeepsW(a: Matrix, b: Matrix)
    requires IsSquare(a, 4) && IsSquare(b, 4) && KeepsW(a) && KeepsW(b)
    ensures KeepsW(Product(a, b))
  {
    forall x: Vector | x.Dimensions() == 4
      ensures Matrices.Transform(Product(a, b), x).data[3] == x.data[3]
    {
      TransformProduct(a, b, x);
    }
  }

  /** So every chain is affine, and maps points (w = 1) to points. */
  lemma {:induction false} ChainKeepsW(m: Libm, fs: seq<Factor>)
    requires AllSpatial(fs)
    ensures KeepsW(ChainMatrix(m, fs))
    decreases |fs|
  {
    if fs == [] {
      forall x: Vector | x.Dimensions() == 4
        ensures Matrices.Transform(IdentityMatrix(4), x).data[3] == x.data[3]
      {
        TransformIdentity(x);
      }
    } else {
      var init := fs[..|fs| - 1];
      SpatialInit(fs);
      ChainKeepsW(m, init);
      FactorKeepsW(m, fs[|fs| - 1]);
      ProductKeepsW(ChainMatrix(m, init), FactorMatrix(m, fs[|fs| - 1]));
    }
  }

  /** What `transformRay` does to a point: lift it with w = 1, transform it and drop w again. */
  function MapPoint(a: Matrix, p: Vector): (q: Vector)
    requires IsSquare(a, 4)
    ensures q.Dimensions() == 3
  {
    AsHomogeneous(Matrices.Transform(a, AsHeterogeneous(p)))
  }

  /** A 4D vector with w = 1 is the lifted form of its first three components. */
  lemma LiftDrop(y: Vector)
    requires y.Dimensions() == 4 && y.data[3] == 1.0
    ensures AsHeterogeneous(AsHomogeneous(y)) == y
  {
    assert AsHeterogeneous(AsHomogeneous(y)).data == y.data;
  }

  /** An affine matrix and its inverse map a 3D point there and back. */
  lemma MapPointRoundTrip(a: Matrix, b: Matrix, p: Vector)
    requires IsSquare(a, 4) && IsSquare(b, 4) && KeepsW(a) && Product(a, b) == IdentityMatrix(4)
    requires p.Dimensions() == 3
    ensures MapPoint(b, MapPoint(a, p)) == p
  {
    var x := AsHeterogeneous(p);
    var y := Matrices.Transform(a, x);
    LiftDrop(y);
    UndoTransform(a, b, x);
    HeterogeneousRoundTrip(p);
  }

  /**
   * `a` carries the ray's origin and the point one direction length along it to two distinct
   * points, so the moved ray has a direction; when they coincide Java normalizes a zero vector
   * into NaNs.
   */
  predicate Movable(m: Libm, a: Matrix, ray: Ray) {
    IsSquare(a, 4) && ray.Valid() &&
    HasLength(m, Subtract(MapPoint(a, GetPoint(ray, 1.0)), MapPoint(a, ray.from)))
  }

  /**
   * `transformRay` and `inverseTransformRay`: the ray from the image of the origin towards the
   * image of the point one direction length along it.
   */
  function MoveRay(m: Libm, a: Matrix, ray: Ray): (r: Ray)
    requires Movable(m, a, ray)
    ensures r.from == MapPoint(a, ray.from) && r.Valid() && r.from.Dimensions() == 3
    ensures var from, to := MapPoint(a, ray.from), MapPoint(a, GetPoint(ray, 1.0));
      GetPoint(r, TargetDistance(m, from, to)) == to
  {
    var from, to := MapPoint(a, ray.from), MapPoint(a, GetPoint(ray, 1.0));
    LookatReaches(m, from, to);
    Lookat(m, from, to)
  }

  /** Moving a ray with the forward matrix and back with the inverse returns its origin. */
  lemma MoveRayRoundTrip(m: Libm, position: Vector, rotation: Vector, scale: Vector, ray: Ray)
    requires TrigLaws(m) && Placement(position, rotation, scale) && NoZeroComponent(scale)
    requires ray.from.Dimensions() == 3
    requires Movable(m, ForwardMatrix(m, position, rotation, scale), ray)
    requires Movable(m, InverseMatrix(m, position, rotation, scale), MoveRay(m, ForwardMatrix(m, position, rotation, scale), ray))
    ensures var forward, inverse := ForwardMatrix(m, position, rotation, scale), InverseMatrix(m, position, rotation, scale);
      MoveRay(m, inverse, MoveRay(m, forward, ray)).from == ray.from
  {
    var forward, inverse := ForwardMatrix(m, position, rotation, scale), InverseMatrix(m, position, rotation, scale);
    ChainRoundTrip(m, position, rotation, scale);
    ChainKeepsW(m, ForwardFactors(position, rotation, scale));
    MapPointRoundTrip(forward, inverse, ray.from);
  }

  // Building the chains with the matrix methods

  /** One more factor of a chain multiplies onto the chain so far. */
  lemma ChainStep(m: Libm, fs: seq<Factor>, k: nat)
    requires k < |fs| && AllSpatial(fs)
    ensures AllSpatial(fs[..k]) && AllSpatial(fs[..k + 1])
    ensures ChainMatrix(m, fs[..k + 1]) == Product(ChainMatrix(m, fs[..k]), FactorMatrix(m, fs[k]))
  {
    assert fs[..k + 1][..k] == fs[..k];
  }

  /** The factory call for one factor. */
  method BuildFactor(m: Libm, f: Factor) returns (r: Matrix)
    requires Spatial(f)
    ensures r == FactorMatrix(m, f)
  {
    match f
    case RotateX(a) => r := RotationX(m, a);
    case RotateY(a) => r := RotationY(m, a);
    case RotateZ(a) => r := RotationZ(m, a);
    case Scaling(v) => r := Matrices.Scale(v);
    case Translation(v) => r := Matrices.Translate(v);
  }

  /** The first factory call of a chain: the chain of the first factor alone. */
  method FirstFactor(m: Libm, fs: seq<Factor>) returns (r: Matrix)
    requires fs != [] && AllSpatial(fs)
    ensures AllSpatial(fs[..1]) && r == ChainMatrix(m, fs[..1])
  {
    r := BuildFactor(m, fs[0]);
    ChainStep(m, fs, 0);
    ProductIdentityLeft(r);
  }

  /** One factory call and one `multiply`: the chain so far times factor `k`. */
  method MultiplyFactor(m: Libm, fs: seq<Factor>, k: nat, r: Matrix) returns (r': Matrix)
    requires k < |fs| && AllSpatial(fs) && AllSpatial(fs[..k]) && r == ChainMatrix(m, fs[..k])
    ensures AllSpatial(fs[..k + 1]) && r' == ChainMatrix(m, fs[..k + 1])
  {
    var f := BuildFactor(m, fs[k]);
    r' := Matrices.Multiply(r, f);
    ChainStep(m, fs, k);
  }

  /** The last factory call and `multiply`, which complete the chain. */
  method LastFactor(m: Libm, fs: seq<Factor>, r: Matrix) returns (r': Matrix)
    requires fs != [] && AllSpatial(fs) && AllSpatial(fs[..|fs| - 1]) && r == ChainMatrix(m, fs[..|fs| - 1])
    ensures r' == ChainMatrix(m, fs)
  {
    var f := BuildFactor(m, fs[|fs| - 1]);
    r' := Matrices.Multiply(r, f);
  }

  /**
   * The five factory calls and the `multiply` chain of `updateMatrices`: the first factor
   * multiplied by the second, the product by the third, and so on.
   */
  method BuildChain(m: Libm, fs: seq<Factor>) returns (r: Matrix)
    requires |fs| == 5 && AllSpatial(fs)
    ensures r == ChainMatrix(m, fs)
  {
    r := FirstFactor(m, fs);
    r := MultiplyFactor(m, fs, 1, r);
    r := MultiplyFactor(m, fs, 2, r);
    r := MultiplyFactor(m, fs, 3, r);
    r := LastFactor(m, fs, r);
  }

  /** The first half of `updateMatrices`: the forward chain. */
  method ForwardChain(m: Libm, position: Vector, rotation: Vector, scale: Vector) returns (forward: Matrix)
    requires Placement(position, rotation, scale)
    ensures forward == ForwardMatrix(m, position, rotation, scale)
  {
    forward := BuildChain(m, ForwardFactors(position, rotation, scale));
  }

  /** The second half: the inverse chain, from the negated offset, reciprocal scale and negated angles. */
  method InverseChain(m: Libm, position: Vector, rotation: Vector, scale: Vector) returns (inverse: Matrix)
    requires Placement(position, rotation, scale) && NoZeroComponent(scale)
    ensures inverse == InverseMatrix(m, position, rotation, scale)
  {
    inverse := BuildChain(m, InverseFactors(position, rotation, scale));
  }

  /** The chains `updateMatrices` stores undo one another whenever the trigonometric laws hold. */
  lemma BuiltChainsInvert(m: Libm, position: Vector, rotation: Vector, scale: Vector, forward: Matrix, inverse: Matrix)
    requires Placement(position, rotation, scale) && NoZeroComponent(scale)
    requires forward == ForwardMatrix(m, position, rotation, scale)
    requires inverse == InverseMatrix(m, position, rotation, scale)
    ensures IsSquare(forward, 4) && IsSquare(inverse, 4)
    ensures TrigLaws(m) ==> Product(inverse, forward) == IdentityMatrix(4) && Product(forward, inverse) == IdentityMatrix(4)
  {
    if TrigLaws(m) {
      ChainRoundTrip(m, position, rotation, scale);
    }
  }

  // The rotation wrap of `done`

  /** Each rotation component as Java's `r % 360.0`, collected into a 3D vector. */
  function WrapRotation(rotation: Vector): (r: Vector)
    requires rotation.Dimensions() >= 3
    ensures r.Dimensions() == 3
  {
    Vec3(Remainder(rotation.data[0], 360.0), Remainder(rotation.data[1], 360.0),
         Remainder(rotation.data[2], 360.0))
  }

  /**
   * Every wrapped component is less than a full turn in size, keeps the sign of the angle it
   * came from and differs from it by whole turns.
   */
  lemma WrapRotationProperties(rotation: Vector)
    requires rotation.Dimensions() >= 3
    ensures forall i :: 0 <= i < 3 ==>
      var a, w := rotation.data[i], WrapRotation(rotation).data[i];
      Abs(w) < 360.0 && (a >= 0.0 ==> w >= 0.0) && (a <= 0.0 ==> w <= 0.0) &&
      a - w == (Quotient(a, 360.0) as real) * 360.0
  {
    RemainderProperties(rotation.data[0], 360.0);
    RemainderProperties(rotation.data[1], 360.0);
    RemainderProperties(rotation.data[2], 360.0);
  }

  /** Angles already within a turn are stored as they are. */
  lemma WrapRotationKeepsSmallAngles(rotation: Vector)
    requires rotation.Dimensions() == 3
    requires forall i :: 0 <= i < 3 ==> -360.0 < rotation.data[i] < 360.0
    ensures WrapRotation(rotation) == rotation
  {
    forall i | 0 <= i < 3
      ensures Truncate(rotation.data[i] / 360.0) == 0
    {
      var a := rotation.data[i];
      assert -1.0 < a / 360.0 < 1.0;
    }
    assert WrapRotation(rotation).data == rotation.data;
  }

  // The transform and its updater

  /** A shape's placement, kept together with the two matrices built from it. */
  class Transform {
    var position: Vector
    var scale: Vector
    var rotation: Vector
    var matrix: Matrix
    var inverseMatrix: Matrix

    /** The placement is 3D and both matrices are 4x4. */
    predicate Valid()
      reads this
    {
      Placement(position, rotation, scale) && IsSquare(matrix, 4) && IsSquare(inverseMatrix, 4)
    }

    /** The stored matrices undo one another, in either order. */
    predicate Inverts()
      reads this
      requires Valid()
    {
      Product(inverseMatrix, matrix) == IdentityMatrix(4) && Product(matrix, inverseMatrix) == IdentityMatrix(4)
    }

    /** The identity transform: nothing moves, rotates or scales. */
    constructor ()
      ensures position == ZERO && scale == ONE && rotation == ZERO
      ensures matrix == IdentityMatrix(4) && inverseMatrix == matrix
      ensures Valid() && Inverts()
    {
      position := ZERO;
      scale := ONE;
      rotation := ZERO;
      var identity := Identity(4);
      matrix := identity;
      inverseMatrix := identity;
      new;
      ProductIdentityLeft(identity);
    }

    /** A transform with the given placement and the matrices built from it. */
    constructor Placed(m: Libm, position: Vector, rotation: Vector, scale: Vector)
      requires Placement(position, rotation, scale) && NoZeroComponent(scale)
      ensures this.position == position && this.rotation == rotation && this.scale == scale
      ensures matrix == ForwardMatrix(m, position, rotation, scale)
      ensures inverseMatrix == InverseMatrix(m, position, rotation, scale)
      ensures Valid() && (TrigLaws(m) ==> Inverts())
    {
      this.position := position;
      this.rotation := rotation;
      this.scale := scale;
      matrix := IdentityMatrix(4);
      inverseMatrix := IdentityMatrix(4);
      new;
      UpdateMatrices(m);
    }

    /**
     * `updateMatrices`: rebuild both chains from the current placement. Under the
     * trigonometric laws the new matrices undo one another.
     */
    method UpdateMatrices(m: Libm)
      requires Placement(position, rotation, scale) && NoZeroComponent(scale)
      modifies this
      ensures position == old(position) && rotation == old(rotation) && scale == old(scale)
      ensures matrix == ForwardMatrix(m, position, rotation, scale)
      ensures inverseMatrix == InverseMatrix(m, position, rotation, scale)
      ensures Valid() && (TrigLaws(m) ==> Inverts())
    {
      var forward := ForwardChain(m, position, rotation, scale);
      var inverse := InverseChain(m, position, rotation, scale);
      BuiltChainsInvert(m, position, rotation, scale, forward, inverse);
      StoreMatrices(forward, inverse);
    }

    /** The two assignments that end `updateMatrices`. */
    method StoreMatrices(forward: Matrix, inverse: Matrix)
      modifies this
      ensures matrix == forward && inverseMatrix == inverse
      ensures position == old(position) && rotation == old(rotation) && scale == old(scale)
    {
      matrix := forward;
      inverseMatrix := inverse;
    }

    /** `update`: a fresh updater seeded with the current placement. */
    method Update() returns (u: TransformUpdater)
      requires Valid()
      ensures fresh(u) && u.transform == this && u.Valid()
      ensures u.position == position && u.scale == scale && u.rotation == rotation
    {
      u := new TransformUpdater(position, scale, rotation, this);
    }

    /** `transformRay`: an object-space ray carried into world space. */
    function TransformRay(m: Libm, ray: Ray): (r: Ray)
      reads this
      requires Valid() && Movable(m, matrix, ray)
      ensures r.from == MapPoint(matrix, ray.from) && r.Valid()
      ensures var from, to := MapPoint(matrix, ray.from), MapPoint(matrix, GetPoint(ray, 1.0));
        GetPoint(r, TargetDistance(m, from, to)) == to
    {
      MoveRay(m, matrix, ray)
    }

    /** `inverseTransformRay`: a world-space ray carried into object space. */
    function InverseTransformRay(m: Libm, ray: Ray): (r: Ray)
      reads this
      requires Valid() && Movable(m, inverseMatrix, ray)
      ensures r.from == MapPoint(inverseMatrix, ray.from) && r.Valid()
      ensures var from, to := MapPoint(inverseMatrix, ray.from), MapPoint(inverseMatrix, GetPoint(ray, 1.0));
        GetPoint(r, TargetDistance(m, from, to)) == to
    {
      MoveRay(m, inverseMatrix, ray)
    }
  }

  /**
   * Collects changes to a transform and commits them all at once in `Done`; until then the
   * transform keeps its old placement and matrices.
   */
  class TransformUpdater {
    var position: Vector
    var scale: Vector
    var rotation: Vector
    const transform: Transform

    /** The setters keep every collected vector 3D. */
    predicate Valid()
      reads this
    {
      Placement(position, rotation, scale)
    }

    constructor (position: Vector, scale: Vector, rotation: Vector, transform: Transform)
      requires Placement(position, rotation, scale)
      ensures this.position == position && this.scale == scale && this.rotation == rotation
      ensures this.transform == transform && Valid()
    {
      this.position := position;
      this.scale := scale;
      this.rotation := rotation;
      this.transform := transform;
    }

    /** `setPosition`, which asserts a 3D argument. */
    method SetPosition(position: Vector) returns (u: TransformUpdater)
      requires position.Dimensions() == 3
      modifies this
      ensures u == this && this.position == position
      ensures scale == old(scale) && rotation == old(rotation)
      ensures old(Valid()) ==> Valid()
    {
      this.position := position;
      u := this;
    }

    /** `setScale`, which asserts a 3D argument. */
    method SetScale(scale: Vector) returns (u: TransformUpdater)
      requires scale.Dimensions() == 3
      modifies this
      ensures u == this && this.scale == scale
      ensures position == old(position) && rotation == old(rotation)
      ensures old(Valid()) ==> Valid()
    {
      this.scale := scale;
      u := this;
    }

    /** `setRotation`, which asserts a 3D argument. */
    method SetRotation(rotation: Vector) returns (u: TransformUpdater)
      requires rotation.Dimensions() == 3
      modifies this
      ensures u == this && this.rotation == rotation
      ensures position == old(position) && scale == old(scale)
      ensures old(Valid()) ==> Valid()
    {
      this.rotation := rotation;
      u := this;
    }

    /** `translate`: the offset is added to the position. */
    method Translate(offset: Vector) returns (u: TransformUpdater)
      requires offset.Dimensions() == position.Dimensions()
      modifies this
      ensures u == this && position == Add(old(position), offset)
      ensures scale == old(scale) && rotation == old(rotation)
      ensures old(Valid()) ==> Valid()
    {
      position := Add(position, offset);
      u := this;
    }

    /** `scale(Vector)`: the scale is multiplied component by component. */
    method ScaleBy(scalars: Vector) returns (u: TransformUpdater)
      requires scalars.Dimensions() == scale.Dimensions()
      modifies this
      ensures u == this && scale == Vectors.Multiply(old(scale), scalars)
      ensures position == old(position) && rotation == old(rotation)
      ensures old(Valid()) ==> Valid()
    {
      scale := Vectors.Multiply(scale, scalars);
      u := this;
    }

    /** `scale(double)`: every scale component is multiplied by the same scalar. */
    method ScaleUniformly(scalar: real) returns (u: TransformUpdater)
      modifies this
      ensures u == this && scale == Vectors.Scale(old(scale), scalar)
      ensures position == old(position) && rotation == old(rotation)
      ensures old(Valid()) ==> Valid()
    {
      scale := Vectors.Scale(scale, scalar);
      u := this;
    }

    /** `rotate`: the angles are added to the rotation. */
    method Rotate(angles: Vector) returns (u: TransformUpdater)
      requires angles.Dimensions() == rotation.Dimensions()
      modifies this
      ensures u == this && rotation == Add(old(rotation), angles)
      ensures position == old(position) && scale == old(scale)
      ensures old(Valid()) ==> Valid()
    {
      rotation := Add(rotation, angles);
      u := this;
    }

    /**
     * `done`: the position and scale are copied, the rotation is wrapped into less than a turn
     * per axis, and both matrices are rebuilt from the new placement.
     */
    method Done(m: Libm)
      requires Valid() && NoZeroComponent(scale)
      modifies transform
      ensures transform.position == position && transform.scale == scale
      ensures transform.rotation == WrapRotation(rotation)
      ensures transform.matrix == ForwardMatrix(m, position, WrapRotation(rotation), scale)
      ensures transform.inverseMatrix == InverseMatrix(m, position, WrapRotation(rotation), scale)
      ensures transform.Valid() && (TrigLaws(m) ==> transform.Inverts())
    {
      transform.position := position;
      transform.scale := scale;
      transform.rotation := WrapRotation(rotation);
      transform.UpdateMatrices(m);
    }
  }
}
