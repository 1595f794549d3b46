/**
 * Dot products of real sequences, the shape of every vector dot product, matrix product
 * element and matrix-vector transform in the renderer. The sum runs from the first component
 * to the last, as the source's index streams do.
 */
module Sums {

  /** u[0] * v[0] + u[1] * v[1] + ... + u[n-1] * v[n-1]: the first n products. */
  function DotTo(u: seq<real>, v: seq<real>, n: nat): real
    requires n <= |u| && n <= |v|
  {
    if n == 0 then 0.0 else DotTo(u, v, n - 1) + u[n - 1] * v[n - 1]
  }

  /** One more step of a partial sum, with the two factors named. */
  lemma DotToStep(u: seq<real>, v: seq<real>, x: real, y: real, n: nat)
    requires n < |u| && n < |v| && u[n] == x && v[n] == y
    ensures DotTo(u, v, n + 1) == DotTo(u, v, n) + x * y
  {
  }

  /** The dot product of two sequences of the same length. */
  function Dot(u: seq<real>, v: seq<real>): real
    requires |u| == |v|
  {
    DotTo(u, v, |u|)
  }

  /** Column k of a grid of rows: the k-th element of every row. */
  function Column(rows: seq<seq<real>>, k: nat): (c: seq<real>)
    requires forall j :: 0 <= j < |rows| ==> k < |rows[j]|
    ensures |c| == |rows| && forall j :: 0 <= j < |rows| ==> c[j] == rows[j][k]
  {
    seq(|rows|, j requires 0 <= j < |rows| => rows[j][k])
  }

  /** A partial sum only looks at the first n elements of either sequence. */
  lemma {:induction false} DotToAgree(u: seq<real>, v: seq<real>, u': seq<real>, v': seq<real>, n: nat)
    requires n <= |u| && n <= |v| && n <= |u'| && n <= |v'|
    requires forall i :: 0 <= i < n ==> u[i] == u'[i] && v[i] == v'[i]
    ensures DotTo(u, v, n) == DotTo(u', v', n)
  {
    if n > 0 {
      DotToAgree(u, v, u', v', n - 1);
    }
  }

  lemma {:induction false} DotToSymmetric(u: seq<real>, v: seq<real>, n: nat)
    requires n <= |u| && n <= |v|
    ensures DotTo(u, v, n) == DotTo(v, u, n)
  {
    if n > 0 {
      DotToSymmetric(u, v, n - 1);
    }
  }

  lemma DotSymmetric(u: seq<real>, v: seq<real>)
    requires |u| == |v|
    ensures Dot(u, v) == Dot(v, u)
  {
    DotToSymmetric(u, v, |u|);
  }

  /** When w is u scaled by s, the partial sums scale by s. */
  lemma {:induction false} DotToScale(u: seq<real>, w: seq<real>, v: seq<real>, s: real, n: nat)
    requires n <= |u| && n <= |v| && n <= |w|
    requires forall i :: 0 <= i < n ==> w[i] == s * u[i]
    ensures DotTo(w, v, n) == s * DotTo(u, v, n)
  {
    if n > 0 {
      DotToScale(u, w, v, s, n - 1);
    }
  }

  lemma DotScale(u: seq<real>, w: seq<real>, v: seq<real>, s: real)
    requires |u| == |v| == |w|
    requires forall i :: 0 <= i < |u| ==> w[i] == s * u[i]
    ensures Dot(w, v) == s * Dot(u, v)
  {
    DotToScale(u, w, v, s, |u|);
  }

  /** When w is the componentwise sum of u and x, the partial sums distribute. */
  lemma {:induction false} DotToAdd(u: seq<real>, x: seq<real>, w: seq<real>, v: seq<real>, n: nat)
    requires n <= |u| && n <= |x| && n <= |w| && n <= |v|
    requires forall i :: 0 <= i < n ==> w[i] == u[i] + x[i]
    ensures DotTo(w, v, n) == DotTo(u, v, n) + DotTo(x, v, n)
  {
    if n > 0 {
      DotToAdd(u, x, w, v, n - 1);
    }
  }

  lemma DotAdd(u: seq<real>, x: seq<real>, w: seq<real>, v: seq<real>)
    requires |u| == |x| == |w| == |v|
    requires forall i :: 0 <= i < |u| ==> w[i] == u[i] + x[i]
    ensures Dot(w, v) == Dot(u, v) + Dot(x, v)
  {
    DotToAdd(u, x, w, v, |u|);
  }

  /** A partial sum against an all-zero sequence is zero. */
  lemma {:induction false} DotToZero(u: seq<real>, v: seq<real>, n: nat)
    requires n <= |u| && n <= |v|
    requires forall i :: 0 <= i < n ==> u[i] == 0.0
    ensures DotTo(u, v, n) == 0.0 && DotTo(v, u, n) == 0.0
  {
    if n > 0 {
      DotToZero(u, v, n - 1);
    }
  }

  /** Past index k, a unit sequence adds nothing, so the partial sum stays at u[k]. */
  lemma {:induction false} DotToUnit(u: seq<real>, e: seq<real>, k: nat, n: nat)
    requires k < n <= |u| && n <= |e|
    requires forall i :: 0 <= i < n ==> e[i] == if i == k then 1.0 else 0.0
    ensures DotTo(u, e, n) == u[k] && DotTo(e, u, n) == u[k]
  {
    if n == k + 1 {
      DotToZero(e, u, k);
    } else {
      DotToUnit(u, e, k, n - 1);
    }
  }

  /** A dot product against the k-th unit sequence picks out element k. */
  lemma DotUnit(u: seq<real>, e: seq<real>, k: nat)
    requires |u| == |e| && k < |u|
    requires forall i :: 0 <= i < |e| ==> e[i] == if i == k then 1.0 else 0.0
    ensures Dot(u, e) == u[k] && Dot(e, u) == u[k]
  {
    DotToUnit(u, e, k, |u|);
  }

  /** A sequence that is zero outside indices p and q contributes only those two products. */
  lemma {:induction false} DotToPair(u: seq<real>, w: seq<real>, p: nat, q: nat, n: nat)
    requires n <= |u| && n <= |w|
    requires forall i :: 0 <= i < n && i != p && i != q ==> u[i] == 0.0
    ensures DotTo(u, w, n) ==
      (if p < n then u[p] * w[p] else 0.0) + (if q < n && q != p then u[q] * w[q] else 0.0)
  {
    if n > 0 {
      DotToPair(u, w, p, q, n - 1);
    }
  }

  /**
   * The dot product with a sequence that is zero outside indices p and q (which may coincide)
   * is the sum of the products at those indices.
   */
  lemma DotPair(u: seq<real>, w: seq<real>, p: nat, q: nat)
    requires |u| == |w| && p < |u| && q < |u|
    requires forall i :: 0 <= i < |u| && i != p && i != q ==> u[i] == 0.0
    ensures Dot(u, w) == u[p] * w[p] + (if q != p then u[q] * w[q] else 0.0)
    ensures Dot(w, u) == Dot(u, w)
  {
    DotToPair(u, w, p, q, |u|);
    DotToSymmetric(u, w, |u|);
  }

  /**
   * A square is never negative, and positive unless its root is zero. The two factors are
   * separate parameters: the solver handles a product of two names more reliably than a
   * syntactic square.
   */
  lemma Square(x: real, y: real)
    requires x <= y <= x
    ensures 0.0 <= x * y
    ensures x != 0.0 ==> 0.0 < x * y
  {
    if x < 0.0 {
      assert 0.0 < (-x) * (-y) == x * y;
    } else if 0.0 < x {
      assert 0.0 < x * y;
    }
  }

  /** A sum of squares is never negative; v is u, passed twice for the reason above. */
  lemma {:induction false} DotToSelfNonNegative(u: seq<real>, v: seq<real>, n: nat)
    requires n <= |u| && n <= |v| && forall k :: 0 <= k < n ==> u[k] == v[k]
    ensures 0.0 <= DotTo(u, v, n)
  {
    if n > 0 {
      DotToSelfNonNegative(u, v, n - 1);
      Square(u[n - 1], v[n - 1]);
    }
  }

  /** One nonzero element among the first n makes the sum of squares positive. */
  lemma {:induction false} DotToSelfPositive(u: seq<real>, v: seq<real>, i: nat, n: nat)
    requires n <= |u| && n <= |v| && forall k :: 0 <= k < n ==> u[k] == v[k]
    requires i < n && u[i] != 0.0
    ensures 0.0 < DotTo(u, v, n)
  {
    Square(u[n - 1], v[n - 1]);
    if i == n - 1 {
      DotToSelfNonNegative(u, v, n - 1);
    } else {
      DotToSelfPositive(u, v, i, n - 1);
    }
  }

  /** The dot product of a sequence with itself is never negative. */
  lemma DotSelfNonNegative(u: seq<real>)
    ensures 0.0 <= Dot(u, u)
  {
    DotToSelfNonNegative(u, u, |u|);
  }

  /** The sum of squares is zero exactly when every element is. */
  lemma DotSelfZero(u: seq<real>)
    ensures Dot(u, u) == 0.0 <==> forall i :: 0 <= i < |u| ==> u[i] == 0.0
  {
    if Dot(u, u) == 0.0 {
      forall i | 0 <= i < |u|
        ensures u[i] == 0.0
      {
        if u[i] != 0.0 {
          DotToSelfPositive(u, u, i, |u|);
        }
      }
    } else if forall i :: 0 <= i < |u| ==> u[i] == 0.0 {
      DotToZero(u, u, |u|);
    }
  }

  /** Row n - 1 of ys adds x[n - 1] times that row's dot product with z. */
  lemma PeelRow(x: seq<real>, ys: seq<seq<real>>, z: seq<real>, p: seq<real>, p': seq<real>, n: nat)
    requires 0 < n <= |x| == |ys| && |p| == |p'| == |z|
    requires forall j :: 0 <= j < |ys| ==> |ys[j]| == |z|
    requires forall k :: 0 <= k < |z| ==> p[k] == DotTo(x, Column(ys, k), n)
    requires forall k :: 0 <= k < |z| ==> p'[k] == DotTo(x, Column(ys, k), n - 1)
    ensures Dot(p, z) == Dot(p', z) + x[n - 1] * Dot(ys[n - 1], z)
  {
    var tail := seq(|z|, k requires 0 <= k < |z| => x[n - 1] * ys[n - 1][k]);
    forall k | 0 <= k < |z|
      ensures p[k] == p'[k] + tail[k]
    {
      assert Column(ys, k)[n - 1] == ys[n - 1][k];
    }
    DotToAdd(p', tail, p, z, |z|);
    DotToScale(ys[n - 1], tail, z, x[n - 1], |z|);
  }

  /**
   * The rearrangement behind associativity, over the first n rows of ys: with p[k] the partial
   * dot product of x with column k of ys, and q[j] the dot product of row j of ys with z,
   * p . z == x . q over those rows.
   */
  lemma {:induction false} DotToBilinear(x: seq<real>, ys: seq<seq<real>>, z: seq<real>, p: seq<real>, q: seq<real>, n: nat)
    requires n <= |x| == |ys| && n <= |q| && |p| == |z|
    requires forall j :: 0 <= j < |ys| ==> |ys[j]| == |z|
    requires forall k :: 0 <= k < |z| ==> p[k] == DotTo(x, Column(ys, k), n)
    requires forall j :: 0 <= j < n ==> q[j] == Dot(ys[j], z)
    ensures Dot(p, z) == DotTo(x, q, n)
    decreases n
  {
    if n == 0 {
      DotToZero(p, z, |z|);
    } else {
      var p' := seq(|z|, k requires 0 <= k < |z| => DotTo(x, Column(ys, k), n - 1));
      PeelRow(x, ys, z, p, p', n);
      DotToBilinear(x, ys, z, p', q, n - 1);
    }
  }

  /** p . z == x . q, where p combines the rows of ys by x and q applies each row to z. */
  lemma DotBilinear(x: seq<real>, ys: seq<seq<real>>, z: seq<real>, p: seq<real>, q: seq<real>)
    requires |x| == |ys| == |q| && |p| == |z|
    requires forall j :: 0 <= j < |ys| ==> |ys[j]| == |z|
    requires forall k :: 0 <= k < |z| ==> p[k] == Dot(x, Column(ys, k))
    requires forall j :: 0 <= j < |ys| ==> q[j] == Dot(ys[j], z)
    ensures Dot(p, z) == Dot(x, q)
  {
    DotToBilinear(x, ys, z, p, q, |x|);
  }
}
