/**
 * The order in which the raytracer visits the pixels of a `width` x `height` screen: the
 * `i`-th pixel is the one at linear index `(79 + 97 i) mod (width height)`, read row by row.
 * Because 97 is prime, the order is a permutation of the screen whenever the pixel count is not
 * a multiple of 97; the lemmas below prove that through a modular inverse of 97.
 */
module Pixels {
  import opened Arithmetic
  /** The largest Java `int`. */
  const INT_MAX: int := 0x7FFF_FFFF

  /** A screen position, as `java.awt.Point` holds it. */
  datatype Pixel = Pixel(x: int, y: int)

  // Division with remainder

  /** Adding a multiple of `n` does not change the remainder. */
  lemma ModShift(a: int, k: int, n: int)
    requires 0 < n
    ensures (a + n * k) % n == a % n
  {
    assert a + n * k == n * (a / n + k) + a % n by {
      assert a == n * (a / n) + a % n;
      assert n * (a / n + k) == n * (a / n) + n * k;
    }
    DivModUnique(a + n * k, n, a / n + k, a % n);
  }

  /** A remainder is its own remainder. */
  lemma ModOfMod(a: int, n: int)
    requires 0 < n
    ensures (a % n) % n == a % n
  {
    DivModUnique(a % n, n, 0, a % n);
  }

  /** Numbers with equal remainders keep them equal when the same number is added. */
  lemma CongruentAdd(a: int, b: int, c: int, n: int)
    requires 0 < n && a % n == b % n
    ensures (a + c) % n == (b + c) % n
  {
    assert a + c == a % n + c + n * (a / n);
    assert b + c == b % n + c + n * (b / n);
    ModShift(a % n + c, a / n, n);
    ModShift(b % n + c, b / n, n);
  }

  /** `a c` is `(a mod n) c` plus a multiple of `n`. */
  lemma MulSplit(a: int, c: int, n: int)
    requires 0 < n
    ensures a * c == (a % n) * c + n * ((a / n) * c)
  {
    var q, r := a / n, a % n;
    assert a == n * q + r;
    assert a * c == (n * q) * c + r * c;
  }

  /** Numbers with equal remainders keep them equal when multiplied by the same number. */
  lemma CongruentMul(a: int, b: int, c: int, n: int)
    requires 0 < n && a % n == b % n
    ensures (a * c) % n == (b * c) % n
  {
    MulSplit(a, c, n);
    MulSplit(b, c, n);
    ModShift((a % n) * c, (a / n) * c, n);
    ModShift((b % n) * c, (b / n) * c, n);
  }

  /** A sum of two multiples of `g` is a multiple of `g`. */
  lemma DivisibleCombination(b: int, k: int, c: int, g: int)
    requires 0 < g && b % g == 0 && c % g == 0
    ensures (b * k + c) % g == 0
  {
    CongruentMul(b, 0, k, g);
    CongruentAdd(b * k, 0, c, g);
  }

  /** A positive multiple of `g` is at least `g`. */
  lemma DivisorBelow(a: int, g: int)
    requires 0 < a && 0 < g && a % g == 0
    ensures g <= a
  {
    var q := a / g;
    assert a == g * q;
    if q <= 0 {
      MulNonNegative(g, -q);
      assert false;
    }
    MulNonNegative(g, q - 1);
    assert a == g * (q - 1) + g;
  }

  // The modular inverse of 97

  /**
   * The extended Euclidean algorithm: `r.0` is a common divisor of `a` and `b` (their greatest,
   * though only that it divides both is used) with `a r.1 + b r.2 == r.0`.
   */
  function Euclid(a: nat, b: nat): (r: (nat, int, int))
    ensures a * r.1 + b * r.2 == r.0
    ensures 0 < a || 0 < b ==> 0 < r.0 && a % r.0 == 0 && b % r.0 == 0
    decreases b
  {
    if b == 0 then (a, 1, 0)
    else
      var (g, x, y) := Euclid(b, a % b);
      EuclidStep(a, b, g, x, y);
      (g, y, x - (a / b) * y)
  }

  /** One step of `Euclid`: what holds of `b` and `a mod b` carries back to `a` and `b`. */
  lemma EuclidStep(a: nat, b: nat, g: int, x: int, y: int)
    requires 0 < b && b * x + (a % b) * y == g
    requires 0 < g && b % g == 0 && (a % b) % g == 0
    ensures a * y + b * (x - (a / b) * y) == g
    ensures a % g == 0
  {
    var q, r := a / b, a % b;
    assert a == b * q + r;
    assert b * (x - q * y) == b * x - (b * q) * y;
    assert a * y == (b * q) * y + r * y;
    DivisibleCombination(b, q, r, g);
  }

  /** 97 has no divisor strictly between 1 and itself. */
  lemma Prime97(g: int)
    requires 1 < g < 97
    ensures 97 % g != 0
  {
    if g < 49 {
      assert g == 2 || g == 3 || g == 4 || g == 5 || g == 6 || g == 7 || g == 8 || g == 9 ||
        g == 10 || g == 11 || g == 12 || g == 13 || g == 14 || g == 15 || g == 16 || g == 17 ||
        g == 18 || g == 19 || g == 20 || g == 21 || g == 22 || g == 23 || g == 24 || g == 25 ||
        g == 26 || g == 27 || g == 28 || g == 29 || g == 30 || g == 31 || g == 32 || g == 33 ||
        g == 34 || g == 35 || g == 36 || g == 37 || g == 38 || g == 39 || g == 40 || g == 41 ||
        g == 42 || g == 43 || g == 44 || g == 45 || g == 46 || g == 47 || g == 48;
    } else {
      assert 97 / g == 1;
    }
  }

  /** 1 is the only positive common divisor of 97 and a number 97 does not divide. */
  lemma OnlyCommonDivisor(n: int, g: int)
    requires 0 < g && 97 % g == 0 && n % g == 0 && n % 97 != 0
    ensures g == 1
  {
    DivisorBelow(97, g);
    if 1 < g < 97 {
      Prime97(g);
    }
  }

  /** The inverse of 97 modulo `n`, which exists when 97 does not divide `n`. */
  function Inverse97(n: int): (x: int)
    requires 0 < n && n % 97 != 0
    ensures (97 * x) % n == 1 % n
  {
    var (g, x, y) := Euclid(97, n);
    OnlyCommonDivisor(n, g);
    assert 97 * x == 1 + n * (-y);
    ModShift(1, -y, n);
    x
  }

  // The visiting order

  /** The linear index the stream visits `i`-th: `(79 + 97 i) mod n`. */
  function Scatter(n: int, i: int): (k: int)
    requires 0 < n
    ensures 0 <= k < n
  {
    (79 + i * 97) % n
  }

  /** The step at which the stream visits linear index `k`. */
  function Gather(n: int, k: int): (i: int)
    requires 0 < n && n % 97 != 0
    ensures 0 <= i < n
  {
    ((k - 79) * Inverse97(n)) % n
  }

  /** Multiplying by the inverse and then by 97 gives back the remainder. */
  lemma CancelInverse(n: int, a: int)
    requires 0 < n && n % 97 != 0
    ensures ((a * Inverse97(n)) * 97) % n == a % n
  {
    var x := Inverse97(n);
    assert (a * x) * 97 == (97 * x) * a;
    CongruentMul(97 * x, 1, a, n);
  }

  /** Gathering undoes scattering: no two steps visit the same index. */
  lemma GatherScatter(n: int, i: int)
    requires 0 < n && n % 97 != 0 && 0 <= i < n
    ensures Gather(n, Scatter(n, i)) == i
  {
    var x := Inverse97(n);
    var s := Scatter(n, i);
    ModOfMod(79 + i * 97, n);
    CongruentAdd(s, 79 + i * 97, -79, n);
    CongruentMul(s - 79, i * 97, x, n);
    assert (i * 97) * x == (i * x) * 97;
    CancelInverse(n, i);
    DivModUnique(i, n, 0, i);
  }

  /** Scattering undoes gathering: every index is visited. */
  lemma ScatterGather(n: int, k: int)
    requires 0 < n && n % 97 != 0 && 0 <= k < n
    ensures Scatter(n, Gather(n, k)) == k
  {
    var x := Inverse97(n);
    var g := Gather(n, k);
    ModOfMod((k - 79) * x, n);
    CongruentMul(g, (k - 79) * x, 97, n);
    CancelInverse(n, k - 79);
    CongruentAdd(g * 97, k - 79, 79, n);
    assert 79 + g * 97 == g * 97 + 79;
    DivModUnique(k, n, 0, k);
  }

  // The pixel stream

  /** The stream's arithmetic `79 + 97 i` stays within Java's `int` for every step. */
  predicate FitsInt(width: int, height: int) {
    0 <= width && 0 <= height && (width * height == 0 || 79 + (width * height - 1) * 97 <= INT_MAX)
  }

  /** An index below `width height` lies in one of the first `height` rows. */
  lemma RowBelow(width: int, height: int, k: int)
    requires 0 < width && 0 <= k < width * height
    ensures 0 <= k / width < height
  {
    assert k == width * (k / width) + k % width;
    if k / width >= height {
      MulMonotone(width, height, k / width);
    }
  }

  /** The pixel at linear index `k` of a row-major screen `width` pixels wide. */
  function PixelOf(width: int, height: int, k: int): (p: Pixel)
    requires 0 < width && 0 <= k < width * height
    ensures 0 <= p.x < width && 0 <= p.y < height
    ensures p.y * width + p.x == k
  {
    RowBelow(width, height, k);
    Pixel(k % width, k / width)
  }

  /** `pixelStream`: every pixel of the screen in the scattered order, one per step. */
  function PixelStream(width: int, height: int): (ps: seq<Pixel>)
    requires FitsInt(width, height)
    ensures |ps| == width * height
    ensures forall i :: 0 <= i < |ps| ==> 0 <= ps[i].x < width && 0 <= ps[i].y < height
  {
    var n := width * height;
    if n == 0 then []
    else
      seq(n, (i: int) requires 0 <= i < n => PixelOf(width, height, Scatter(n, i)))
  }

  /** The `i`-th step's pixel, read back: its row-major index is `(79 + 97 i) mod n`. */
  lemma PixelStreamOrder(width: int, height: int, i: int)
    requires FitsInt(width, height) && 0 <= i < width * height
    ensures var p := PixelStream(width, height)[i];
      p.y * width + p.x == (79 + 97 * i) % (width * height)
  {
  }

  /**
   * When the pixel count is not a multiple of 97, the stream is a permutation of the screen:
   * no pixel is visited twice, and every pixel is visited.
   */
  lemma PixelStreamVisitsEachOnce(width: int, height: int)
    requires FitsInt(width, height) && (width * height) % 97 != 0
    ensures var ps := PixelStream(width, height);
      forall i, j :: 0 <= i < |ps| && 0 <= j < |ps| && ps[i] == ps[j] ==> i == j
    ensures forall x, y :: 0 <= x < width && 0 <= y < height ==> Pixel(x, y) in PixelStream(width, height)
  {
    var n := width * height;
    var ps := PixelStream(width, height);
    forall i, j | 0 <= i < n && 0 <= j < n && ps[i] == ps[j]
      ensures i == j
    {
      GatherScatter(n, i);
      GatherScatter(n, j);
    }
    forall x, y | 0 <= x < width && 0 <= y < height
      ensures Pixel(x, y) in ps
    {
      var k := y * width + x;
      assert 0 <= k < n by {
        MulNonNegative(y, width);
        MulNonNegative(height - 1 - y, width);
        assert n == y * width + (height - 1 - y) * width + width;
      }
      var i := Gather(n, k);
      ScatterGather(n, k);
      DivModUnique(k, width, y, x);
      assert ps[i] == Pixel(x, y);
    }
  }

  /**
   * Without the condition on 97 the stream is no permutation: on a 97 x 1 screen every step
   * lands on the pixel (79, 0), and the other 96 pixels are never visited.
   */
  lemma PixelStreamRepeatsOnMultipleOf97()
    ensures var ps := PixelStream(97, 1);
      ps[0] == ps[1] == Pixel(79, 0) && Pixel(0, 0) !in ps
  {
    var ps := PixelStream(97, 1);
    forall i | 0 <= i < 97
      ensures ps[i] == Pixel(79, 0)
    {
      PixelStreamOrder(97, 1, i);
      ModShift(79, i, 97);
    }
  }

  /** A 2 x 2 screen is visited in the order (1, 1), (0, 0), (1, 0), (0, 1). */
  lemma PixelStreamExample()
    ensures PixelStream(2, 2) == [Pixel(1, 1), Pixel(0, 0), Pixel(1, 0), Pixel(0, 1)]
  {
    var ps := PixelStream(2, 2);
    assert ps[0] == Pixel(1, 1);
    assert ps[1] == Pixel(0, 0);
    assert ps[2] == Pixel(1, 0);
    assert ps[3] == Pixel(0, 1);
  }
}
