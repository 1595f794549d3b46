/**
 * Pigments: what colour a surface has at given texture coordinates. A colour pigment is the
 * same everywhere; a gradient pigment blends two colours along a direction.
 */
module Pigments {
  import opened Natives
  import opened Vectors
  import opened Colors
  import opened Rays
  import Sums

  /** A pigment of a single colour. */
  class ColorPigment {
    var color: Color

    /** The default pigment is white. */
    constructor ()
      ensures color == WHITE
    {
      color := WHITE;
    }

    constructor Of(color: Color)
      ensures this.color == color
    {
      this.color := color;
    }

    /** `setColor`: later evaluations give the new colour. */
    method SetColor(color: Color)
      modifies this
      ensures this.color == color
    {
      this.color := color;
    }

    /** `evaluate`: the stored colour, whatever the texture coordinates. */
    function Evaluate(texcoords: Vector): (c: Color)
      reads this
      ensures c == color
    {
      color
    }
  }

  /**
   * The blend factor of a gradient: the length of the texture coordinates times the cosine of
   * their angle with the direction. For zero-length coordinates this is 0, the value the
   * gradient tests expect; the expression as written gives NaN there (`GradientFactorAsWritten`).
   */
  function GradientFactor(m: Libm, direction: Vector, texcoords: Vector): (f: real)
    requires direction.Dimensions() == texcoords.Dimensions()
    ensures !HasLength(m, texcoords) ==> f == 0.0
  {
    if HasLength(m, texcoords) then Length(m, texcoords) * Dot(direction, Normalized(m, texcoords)) else 0.0
  }

  /**
   * The factor is the projection `direction · texcoords`, except where normalizing kept the
   * coordinates as they were (their length is within the tolerance of 1): there it carries
   * one more factor of that length.
   */
  lemma GradientFactorIsProjection(m: Libm, direction: Vector, texcoords: Vector)
    requires direction.Dimensions() == texcoords.Dimensions()
    ensures SqrtLaw(m) ==> (GradientFactor(m, direction, texcoords) ==
      Dot(direction, texcoords) * (if IsNormalized(m, texcoords) then Length(m, texcoords) else 1.0))
  {
    if !SqrtLaw(m) {
    } else if !HasLength(m, texcoords) {
      PositiveSquaredLengthOrZero(m, texcoords);
      SquaredLengthZero(texcoords);
      assert Dot(direction, texcoords) == 0.0 by {
        assert texcoords == Vectors.Scale(texcoords, 0.0);
        DotScale(texcoords, direction, 0.0);
        DotSymmetric(direction, texcoords);
      }
      assert !IsNormalized(m, texcoords);
    } else if !IsNormalized(m, texcoords) {
      var l := Length(m, texcoords);
      DotScale(texcoords, direction, 1.0 / l);
      DotSymmetric(direction, texcoords);
      DotSymmetric(direction, Vectors.Scale(texcoords, 1.0 / l));
      assert l * (Dot(direction, texcoords) * (1.0 / l)) == Dot(direction, texcoords);
    }
  }

  /** Under the square-root law a vector without a length is the zero vector. */
  lemma PositiveSquaredLengthOrZero(m: Libm, v: Vector)
    requires SqrtLaw(m) && !HasLength(m, v)
    ensures SquaredLength(v) == 0.0
  {
    LengthNonNegative(m, v);
  }

  // The factor in double arithmetic

  /**
   * `texcoords.normalized()` on doubles: the components unchanged when the vector counts as
   * normalized, otherwise each multiplied by `1.0 / length`, which is infinite for a
   * zero-length vector.
   */
  function NormalizedAsWritten(m: Libm, v: Vector): (r: seq<ExtReal>)
    ensures |r| == v.Dimensions()
    ensures HasLength(m, v) ==> forall i :: 0 <= i < |r| ==> r[i] == Finite(Normalized(m, v).data[i])
  {
    var inverse := Natives.Divide(1.0, Length(m, v));
    seq(v.Dimensions(), i requires 0 <= i < v.Dimensions() =>
      if IsNormalized(m, v) then Finite(v.data[i]) else ExtMul(Finite(v.data[i]), inverse))
  }

  /** `dot` on doubles over the first `n` components; one NaN product makes the sum NaN. */
  function ExtDotTo(u: seq<real>, v: seq<ExtReal>, n: nat): (r: ExtReal)
    requires n <= |u| && n <= |v|
    ensures (exists i :: 0 <= i < n && v[i].NaN?) ==> r.NaN?
  {
    if n == 0 then Finite(0.0) else ExtAdd(ExtDotTo(u, v, n - 1), ExtMul(Finite(u[n - 1]), v[n - 1]))
  }

  /** With only finite components, the sum on doubles is the real dot product. */
  lemma {:induction false} ExtDotToFinite(u: seq<real>, v: seq<ExtReal>, w: seq<real>, n: nat)
    requires n <= |u| && n <= |v| && n <= |w|
    requires forall i :: 0 <= i < n ==> v[i] == Finite(w[i])
    ensures ExtDotTo(u, v, n) == Finite(Sums.DotTo(u, w, n))
  {
    if n > 0 {
      ExtDotToFinite(u, v, w, n - 1);
    }
  }

  /** `texcoords.length() * direction.dot(texcoords.normalized())` evaluated on doubles. */
  function GradientFactorAsWritten(m: Libm, direction: Vector, texcoords: Vector): ExtReal
    requires direction.Dimensions() == texcoords.Dimensions()
  {
    ExtMul(Finite(Length(m, texcoords)),
           ExtDotTo(direction.data, NormalizedAsWritten(m, texcoords), direction.Dimensions()))
  }

  /** Wherever the coordinates have a length, the expression as written is the model's factor. */
  lemma GradientFactorAsWrittenAgrees(m: Libm, direction: Vector, texcoords: Vector)
    requires direction.Dimensions() == texcoords.Dimensions() && HasLength(m, texcoords)
    ensures GradientFactorAsWritten(m, direction, texcoords) == Finite(GradientFactor(m, direction, texcoords))
  {
    ExtDotToFinite(direction.data, NormalizedAsWritten(m, texcoords), Normalized(m, texcoords).data,
                   direction.Dimensions());
  }

  /**
   * At the zero vector, such as the texture coordinates (0,0) of the gradient tests, the
   * expression as written is NaN: `normalized()` multiplies each zero by `1.0 / 0.0`.
   */
  lemma GradientFactorAsWrittenIsNaN(m: Libm, direction: Vector, texcoords: Vector)
    requires SqrtLaw(m) && direction.Dimensions() == texcoords.Dimensions() && texcoords.Dimensions() > 0
    requires forall i :: 0 <= i < texcoords.Dimensions() ==> texcoords.data[i] == 0.0
    ensures GradientFactorAsWritten(m, direction, texcoords).NaN?
    ensures GradientFactor(m, direction, texcoords) == 0.0
  {
    SquaredLengthZero(texcoords);
    assert Length(m, texcoords) == 0.0;
    assert !IsNormalized(m, texcoords);
    assert NormalizedAsWritten(m, texcoords)[0].NaN?;
  }

  /** A gradient from one colour to another along a direction of the texture plane. */
  class GradientPigment {
    var startColor: Color
    var endColor: Color
    var direction: Vector

    /** The default gradient: black to white, upwards along the second coordinate. */
    constructor ()
      ensures startColor == BLACK && endColor == WHITE && direction == Vec2(0.0, 1.0)
    {
      startColor := BLACK;
      endColor := WHITE;
      direction := Vec2(0.0, 1.0);
    }

    /** A gradient with the given colours, along the normalized direction. */
    constructor Of(m: Libm, startColor: Color, endColor: Color, direction: Vector)
      requires HasLength(m, direction)
      ensures this.startColor == startColor && this.endColor == endColor
      ensures this.direction == Normalized(m, direction)
      ensures SqrtLaw(m) ==> IsNormalized(m, this.direction)
    {
      this.startColor := startColor;
      this.endColor := endColor;
      this.direction := Normalized(m, direction);
      new;
      if SqrtLaw(m) {
        NormalizedIsNormalized(m, direction);
      }
    }

    method SetStartColor(color: Color)
      modifies this
      ensures startColor == color && endColor == old(endColor) && direction == old(direction)
    {
      startColor := color;
    }

    method SetEndColor(color: Color)
      modifies this
      ensures endColor == color && startColor == old(startColor) && direction == old(direction)
    {
      endColor := color;
    }

    /** `setDirection`: the direction is stored normalized. */
    method SetDirection(m: Libm, direction: Vector)
      requires HasLength(m, direction)
      modifies this
      ensures this.direction == Normalized(m, direction)
      ensures SqrtLaw(m) ==> IsNormalized(m, this.direction)
      ensures startColor == old(startColor) && endColor == old(endColor)
    {
      this.direction := Normalized(m, direction);
      if SqrtLaw(m) {
        NormalizedIsNormalized(m, direction);
      }
    }

    /**
     * `evaluate`: the start colour mixed towards the end colour by how far the texture
     * coordinates reach along the direction.
     */
    function Evaluate(m: Libm, texcoords: Vector): (c: Color)
      reads this
      requires texcoords.Dimensions() == direction.Dimensions()
      ensures SqrtLaw(m) && !IsNormalized(m, texcoords) ==>
        c == Mix(startColor, endColor, Dot(direction, texcoords))
      ensures SqrtLaw(m) && IsNormalized(m, texcoords) ==>
        c == Mix(startColor, endColor, Length(m, texcoords) * Dot(direction, texcoords))
    {
      GradientFactorIsProjection(m, direction, texcoords);
      Mix(startColor, endColor, GradientFactor(m, direction, texcoords))
    }
  }

  /** The `Pigment` interface, over the two pigments that implement it. */
  datatype Pigment = Plain(plain: ColorPigment) | Gradient(gradient: GradientPigment) {
    function Object(): object {
      if Plain? then plain else gradient
    }

    /** What `evaluate` needs: a gradient's direction has as many dimensions as the coordinates. */
    predicate Accepts(texcoords: Vector)
      reads Object()
    {
      Gradient? ==> texcoords.Dimensions() == gradient.direction.Dimensions()
    }

    /** `evaluate`, dispatched to the implementation. */
    function Evaluate(m: Libm, texcoords: Vector): (c: Color)
      reads Object()
      requires Accepts(texcoords)
      ensures Plain? ==> c == plain.color
      ensures Gradient? ==> c == gradient.Evaluate(m, texcoords)
    {
      if Plain? then plain.Evaluate(texcoords) else gradient.Evaluate(m, texcoords)
    }
  }

  /**
   * The gradient tests: along (0, 1), the coordinates (0, 1) give white, (0, 0.5) and
   * (1, 0.5) give gray and (0, 0) gives black; along (1, 0) the same with the axes swapped.
   */
  lemma GradientExamples(m: Libm)
    requires SqrtLaw(m)
    ensures var up, right := Vec2(0.0, 1.0), Vec2(1.0, 0.0);
      Mix(BLACK, WHITE, GradientFactor(m, up, Vec2(0.0, 1.0))) == WHITE &&
      Mix(BLACK, WHITE, GradientFactor(m, up, Vec2(0.0, 0.5))) == GRAY &&
      Mix(BLACK, WHITE, GradientFactor(m, up, Vec2(1.0, 0.5))) == GRAY &&
      Mix(BLACK, WHITE, GradientFactor(m, up, Vec2(0.0, 0.0))) == BLACK &&
      Mix(BLACK, WHITE, GradientFactor(m, right, Vec2(1.0, 0.0))) == WHITE &&
      Mix(BLACK, WHITE, GradientFactor(m, right, Vec2(0.5, 0.0))) == GRAY &&
      Mix(BLACK, WHITE, GradientFactor(m, right, Vec2(0.5, 1.0))) == GRAY &&
      Mix(BLACK, WHITE, GradientFactor(m, right, Vec2(0.0, 0.0))) == BLACK
  {
    var up, right := Vec2(0.0, 1.0), Vec2(1.0, 0.0);
    FactorExample(m, up, Vec2(0.0, 1.0), 1.0);
    FactorExample(m, up, Vec2(0.0, 0.5), 0.5);
    LongFactorExample(m, up, Vec2(1.0, 0.5));
    FactorExample(m, up, Vec2(0.0, 0.0), 0.0);
    FactorExample(m, right, Vec2(1.0, 0.0), 1.0);
    FactorExample(m, right, Vec2(0.5, 0.0), 0.5);
    LongFactorExample(m, right, Vec2(0.5, 1.0));
    FactorExample(m, right, Vec2(0.0, 0.0), 0.0);
  }

  /**
   * The factor of 2D coordinates of length `l`, for lengths of exactly 1 or at most 0.5: the
   * projection onto the direction (0 for the zero vector).
   */
  lemma FactorExample(m: Libm, direction: Vector, t: Vector, l: real)
    requires SqrtLaw(m) && direction.Dimensions() == t.Dimensions() == 2
    requires t.data[0] * t.data[0] + t.data[1] * t.data[1] == l * l
    requires l == 1.0 || 0.0 <= l <= 0.5
    ensures GradientFactor(m, direction, t) == direction.data[0] * t.data[0] + direction.data[1] * t.data[1]
  {
    Dot2(t, t);
    Dot2(direction, t);
    SqrtUnique(m, l * l, l);
    GradientFactorIsProjection(m, direction, t);
  }

  /** The same for coordinates of squared length 1.25, well past the tolerance around 1. */
  lemma LongFactorExample(m: Libm, direction: Vector, t: Vector)
    requires SqrtLaw(m) && direction.Dimensions() == t.Dimensions() == 2
    requires t.data[0] * t.data[0] + t.data[1] * t.data[1] == 1.25
    ensures GradientFactor(m, direction, t) == direction.data[0] * t.data[0] + direction.data[1] * t.data[1]
  {
    Dot2(t, t);
    Dot2(direction, t);
    LengthNonNegative(m, t);
    var l := Length(m, t);
    assert SquaredLength(t) == 1.25;
    assert l * l == 1.25;
    if l < 1.1 {
      SquareStrictlyMonotonic(l, 1.1);
      assert false;
    }
    GradientFactorIsProjection(m, direction, t);
  }
}
