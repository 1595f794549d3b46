/**
 * Colours: four channels (red, green, blue, alpha), the named constants, the channel-wise
 * arithmetic the renderer uses, and ColorUtils' clamping and ARGB packing.
 */
module Colors {
  import opened Natives
  import opened Wrappers
  import MathUtils

  /** The number of channels a colour array must have. */
  const COMPONENT_COUNT: nat := 4

  /** An RGBA colour; the Java class keeps the channels in a private array in this order. */
  datatype Color = Color(red: real, green: real, blue: real, alpha: real)

  /** The three-channel constructor: opaque. */
  function Rgb(r: real, g: real, b: real): (c: Color)
    ensures c.alpha == 1.0 && c.red == r && c.green == g && c.blue == b
  {
    Color(r, g, b, 1.0)
  }

  const WHITE: Color := Rgb(1.0, 1.0, 1.0)
  const RED: Color := Rgb(1.0, 0.0, 0.0)
  const GREEN: Color := Rgb(0.0, 1.0, 0.0)
  const BLUE: Color := Rgb(0.0, 0.0, 1.0)
  const BLACK: Color := Rgb(0.0, 0.0, 0.0)
  /** Half way between BLACK and WHITE. */
  const GRAY: Color := Rgb(0.5, 0.5, 0.5)

  /** The channels in array order. */
  function Channels(c: Color): (s: seq<real>)
    ensures |s| == COMPONENT_COUNT
  {
    [c.red, c.green, c.blue, c.alpha]
  }

  /**
   * The array constructor: it fails unless the array has exactly four elements, and it keeps
   * a copy, so later writes to the caller's array do not reach the colour.
   */
  method FromArray(data: array<real>) returns (r: Result<Color, string>)
    ensures data.Length != COMPONENT_COUNT <==> r.Failure?
    ensures r.Success? ==> Channels(r.value) == data[..]
  {
    if data.Length != COMPONENT_COUNT {
      return Failure("Colors must have 4 components");
    }
    r := Success(Color(data[0], data[1], data[2], data[3]));
  }

  /** Channel-wise sum, alpha included. */
  function Add(a: Color, b: Color): (r: Color)
  {
    Color(a.red + b.red, a.green + b.green, a.blue + b.blue, a.alpha + b.alpha)
  }

  /** Channel-wise product, alpha included. */
  function Multiply(a: Color, b: Color): (r: Color)
  {
    Color(a.red * b.red, a.green * b.green, a.blue * b.blue, a.alpha * b.alpha)
  }

  /** Every channel, alpha included, times `k`. */
  function Scale(c: Color, k: real): (r: Color)
  {
    Color(c.red * k, c.green * k, c.blue * k, c.alpha * k)
  }

  /** Linear interpolation from `x` (at f = 0) to `y` (at f = 1). */
  function Lerp(x: real, y: real, f: real): (z: real)
    ensures f == 0.0 ==> z == x
    ensures f == 1.0 ==> z == y
  {
    x + (y - x) * f
  }

  /** `mix`: linear interpolation from `a` (at f = 0) to `b` (at f = 1), channel by channel. */
  function Mix(a: Color, b: Color, f: real): (r: Color)
    ensures f == 0.0 ==> r == a
    ensures f == 1.0 ==> r == b
  {
    Color(Lerp(a.red, b.red, f), Lerp(a.green, b.green, f), Lerp(a.blue, b.blue, f),
          Lerp(a.alpha, b.alpha, f))
  }

  lemma AddCommutative(a: Color, b: Color)
    ensures Add(a, b) == Add(b, a)
  {
  }

  lemma AddAssociative(a: Color, b: Color, c: Color)
    ensures Add(Add(a, b), c) == Add(a, Add(b, c))
  {
  }

  lemma AddBlack(c: Color)
    ensures Add(c, Color(0.0, 0.0, 0.0, 0.0)) == c
    ensures Add(BLACK, c) == Color(c.red, c.green, c.blue, c.alpha + 1.0)
  {
  }

  lemma MultiplyWhite(c: Color)
    ensures Multiply(c, WHITE) == c && Multiply(WHITE, c) == c
    ensures Multiply(c, BLACK) == Color(0.0, 0.0, 0.0, c.alpha)
  {
  }

  /** A factor in [0,1] keeps the interpolated value between the two ends. */
  lemma LerpBetween(x: real, y: real, f: real)
    requires 0.0 <= f <= 1.0
    ensures Min(x, y) <= Lerp(x, y, f) <= Max(x, y)
  {
    if x <= y {
      MulBelow(y - x, f);
      assert Max(x, y) == y && Min(x, y) == x;
    } else {
      MulBelow(x - y, f);
      assert (y - x) * f == -((x - y) * f);
    }
  }

  lemma MulBelow(d: real, f: real)
    requires 0.0 <= d && 0.0 <= f <= 1.0
    ensures 0.0 <= d * f <= d
  {
    assert d - d * f == d * (1.0 - f);
  }

  /** Every channel of a mix with a factor in [0,1] lies between the two colours' channels. */
  lemma MixBetween(a: Color, b: Color, f: real)
    requires 0.0 <= f <= 1.0
    ensures var m := Mix(a, b, f);
      forall i :: 0 <= i < 4 ==>
        Min(Channels(a)[i], Channels(b)[i]) <= Channels(m)[i] <= Max(Channels(a)[i], Channels(b)[i])
  {
    LerpBetween(a.red, b.red, f);
    LerpBetween(a.green, b.green, f);
    LerpBetween(a.blue, b.blue, f);
    LerpBetween(a.alpha, b.alpha, f);
  }

  lemma MixHalfway()
    ensures Mix(BLACK, WHITE, 0.5) == GRAY
    ensures Mix(WHITE, BLACK, 0.5) == GRAY
  {
  }

  // ColorUtils

  /** ColorUtils.saturate on a value: the same clamp as MathUtils.saturate. */
  function SaturateValue(value: real): (r: real)
    ensures 0.0 <= r <= 1.0
    ensures 0.0 <= value <= 1.0 ==> r == value
  {
    MathUtils.Saturate(value)
  }

  /** ColorUtils.saturate on a colour: all four channels clamped, alpha included. */
  function Saturate(c: Color): (r: Color)
    ensures forall i :: 0 <= i < 4 ==> 0.0 <= Channels(r)[i] <= 1.0
    ensures forall i :: 0 <= i < 4 && 0.0 <= Channels(c)[i] <= 1.0 ==>
      Channels(r)[i] == Channels(c)[i]
  {
    Color(SaturateValue(c.red), SaturateValue(c.green), SaturateValue(c.blue),
          SaturateValue(c.alpha))
  }

  lemma SaturateIdempotent(c: Color)
    ensures Saturate(Saturate(c)) == Saturate(c)
  {
  }

  /** One clamped channel as the byte `(int) (x * 255.0)`. */
  function ChannelByte(x: real): (b: int)
    ensures 0 <= b <= 255
    ensures x >= 1.0 ==> b == 255
    ensures x <= 0.0 ==> b == 0
  {
    var s := SaturateValue(x);
    assert 0.0 <= s * 255.0 <= 255.0;
    Truncate(s * 255.0)
  }

  /** The ARGB pattern as an unsigned 32-bit number: alpha in the top byte, blue in the lowest. */
  function PackArgb(a: int, r: int, g: int, b: int): (p: int)
    requires 0 <= a <= 255 && 0 <= r <= 255 && 0 <= g <= 255 && 0 <= b <= 255
    ensures 0 <= p < 0x1_0000_0000
  {
    ((a * 256 + r) * 256 + g) * 256 + b
  }

  /** The two's-complement reading of a 32-bit pattern, as Java's `int` holds it. */
  function ToInt32(p: int): (i: int)
    requires 0 <= p < 0x1_0000_0000
    ensures -0x8000_0000 <= i < 0x8000_0000
    ensures (i - p) % 0x1_0000_0000 == 0
  {
    if p < 0x8000_0000 then p else p - 0x1_0000_0000
  }

  /** The pattern an `int` holds. */
  function FromInt32(i: int): (p: int)
    ensures 0 <= p < 0x1_0000_0000
  {
    i % 0x1_0000_0000
  }

  /** `asRGB`: the clamped channels, each truncated to a byte, packed as ARGB into an `int`. */
  function AsRGB(c: Color): (rgb: int)
    ensures -0x8000_0000 <= rgb < 0x8000_0000
  {
    ToInt32(PackArgb(ChannelByte(c.alpha), ChannelByte(c.red), ChannelByte(c.green),
                     ChannelByte(c.blue)))
  }

  /** Byte `k` (0 is the lowest) of the pattern an `int` holds: `(rgb >> 8k) & 0xFF`. */
  function ByteOf(rgb: int, k: nat): (b: int)
    requires k < 4
    ensures 0 <= b <= 255
  {
    (FromInt32(rgb) / Power256(k)) % 256
  }

  function Power256(k: nat): (p: nat)
    ensures p > 0
  {
    if k == 0 then 1 else 256 * Power256(k - 1)
  }

  /** `fromRGB`: the three low bytes as red, green and blue over 255; alpha is 1 whatever the top byte. */
  function FromRGB(rgb: int): (c: Color)
    ensures c.alpha == 1.0
    ensures 0.0 <= c.red <= 1.0 && 0.0 <= c.green <= 1.0 && 0.0 <= c.blue <= 1.0
  {
    Rgb((ByteOf(rgb, 2) as real) / 255.0, (ByteOf(rgb, 1) as real) / 255.0,
        (ByteOf(rgb, 0) as real) / 255.0)
  }

  /** Reading the bytes back from a packed pattern gives the bytes that were packed. */
  lemma {:induction false} UnpackArgb(a: int, r: int, g: int, b: int)
    requires 0 <= a <= 255 && 0 <= r <= 255 && 0 <= g <= 255 && 0 <= b <= 255
    ensures var rgb := ToInt32(PackArgb(a, r, g, b));
      ByteOf(rgb, 3) == a && ByteOf(rgb, 2) == r && ByteOf(rgb, 1) == g && ByteOf(rgb, 0) == b
  {
    var p := PackArgb(a, r, g, b);
    var rgb := ToInt32(p);
    assert FromInt32(rgb) == p;
    assert Power256(1) == 256 && Power256(2) == 65536 && Power256(3) == 16777216;
    DigitsOf(a, r, g, b);
  }

  lemma DigitsOf(a: int, r: int, g: int, b: int)
    requires 0 <= a <= 255 && 0 <= r <= 255 && 0 <= g <= 255 && 0 <= b <= 255
    ensures var p := ((a * 256 + r) * 256 + g) * 256 + b;
      p % 256 == b && (p / 256) % 256 == g && (p / 65536) % 256 == r && (p / 16777216) % 256 == a
  {
    var p := ((a * 256 + r) * 256 + g) * 256 + b;
    var q1 := (a * 256 + r) * 256 + g;
    var q2 := a * 256 + r;
    assert p == q1 * 256 + b;
    assert p / 256 == q1 && p % 256 == b;
    assert q1 / 256 == q2 && q1 % 256 == g;
    assert q2 / 256 == a && q2 % 256 == r;
    assert p / 65536 == q2 by {
      assert p == q2 * 65536 + (g * 256 + b);
    }
    assert p / 16777216 == a by {
      assert p == a * 16777216 + ((r * 256 + g) * 256 + b);
    }
  }

  /**
   * `fromRGB` undoes `asRGB` on the colour's clamped channels, to byte precision: each channel
   * comes back as its byte over 255, and alpha as 1.
   */
  lemma FromRGBAsRGB(c: Color)
    ensures FromRGB(AsRGB(c)) ==
      Rgb((ChannelByte(c.red) as real) / 255.0, (ChannelByte(c.green) as real) / 255.0,
          (ChannelByte(c.blue) as real) / 255.0)
  {
    UnpackArgb(ChannelByte(c.alpha), ChannelByte(c.red), ChannelByte(c.green), ChannelByte(c.blue));
  }

  /** An opaque colour whose channels are each 0 or 1 survives the round trip exactly. */
  lemma FromRGBAsRGBExact(c: Color)
    requires c.alpha == 1.0
    requires c.red in {0.0, 1.0} && c.green in {0.0, 1.0} && c.blue in {0.0, 1.0}
    ensures FromRGB(AsRGB(c)) == c
  {
    FromRGBAsRGB(c);
  }

  /** The expectations of the ColorUtils tests, including clamping of out-of-range channels. */
  lemma AsRGBExamples()
    ensures AsRGB(WHITE) == ToInt32(0xFF_FF_FF_FF) == -1
    ensures AsRGB(BLACK) == ToInt32(0xFF_00_00_00)
    ensures AsRGB(RED) == ToInt32(0xFF_FF_00_00)
    ensures AsRGB(GREEN) == ToInt32(0xFF_00_FF_00)
    ensures AsRGB(BLUE) == ToInt32(0xFF_00_00_FF)
    ensures AsRGB(Color(2.0, 0.0, 0.0, 1.0)) == ToInt32(0xFF_FF_00_00)
    ensures AsRGB(Color(0.0, 0.0, 0.0, 2.0)) == ToInt32(0xFF_00_00_00)
    ensures AsRGB(Color(-2.0, 0.0, 0.0, 1.0)) == ToInt32(0xFF_00_00_00)
    ensures AsRGB(Color(0.0, 0.0, 0.0, -2.0)) == 0
  {
  }
}
