/**
 * Immutable matrices over a flat array (Matrix.java).
 *
 * Element (row, column) lives at `data[column * rows + row]`. Every statement below about rows
 * and columns is about that reading, the one `get` gives; read row-major instead, the same
 * array holds the transpose (`RowMajorIsTranspose`). In that reading `transform(v)` is the row
 * vector v times the matrix, so `a.multiply(b)` applies a first and then b
 * (`TransformProduct`).
 */
module Matrices {
  import opened Natives
  import Sums
  import opened Arithmetic
  import opened Vectors

  datatype Matrix = Matrix(rows: nat, columns: nat, data: seq<real>)

  predicate WellFormed(m: Matrix) {
    |m.data| == m.rows * m.columns
  }

  predicate IsSquare(m: Matrix, n: nat) {
    m.rows == n && m.columns == n && WellFormed(m)
  }

  // Index arithmetic of the flat layout

  /** (row, column) maps into the array, and back through `/` and `%`. */
  lemma FlatIndex(row: nat, column: nat, rows: nat, columns: nat)
    requires row < rows && column < columns
    ensures column * rows + row < rows * columns
    ensures (column * rows + row) / rows == column && (column * rows + row) % rows == row
  {
    DivModUnique(column * rows + row, rows, column, row);
    MulNonNegative(columns - 1 - column, rows);
    assert rows * columns == (columns - 1 - column) * rows + column * rows + rows;
  }

  lemma FlatBound(row: nat, column: nat, rows: nat, columns: nat)
    requires row < rows && column < columns
    ensures column * rows + row < rows * columns
  {
    FlatIndex(row, column, rows, columns);
  }

  /** The array index of element (row, column). */
  function Flat(row: nat, column: nat, rows: nat, columns: nat): (k: nat)
    requires row < rows && column < columns
    ensures k < rows * columns && k / rows == column && k % rows == row
    ensures k == column * rows + row
  {
    FlatIndex(row, column, rows, columns);
    column * rows + row
  }

  /** Every array index is the image of a (row, column) pair. */
  lemma FlatIndexInverse(k: nat, rows: nat, columns: nat)
    requires k < rows * columns
    ensures 0 < rows && k % rows < rows && k / rows < columns
    ensures (k / rows) * rows + k % rows == k
  {
    assert 0 < rows;
    if k / rows >= columns {
      MulMonotone(rows, columns, k / rows);
      assert false;
    }
  }

  /** The element at (row, column); the source asserts both indices are in range. */
  function Get(m: Matrix, row: nat, column: nat): real
    requires WellFormed(m) && row < m.rows && column < m.columns
  {
    FlatBound(row, column, m.rows, m.columns);
    m.data[column * m.rows + row]
  }

  /** Array index k holds element (k % rows, k / rows). */
  lemma DataAt(m: Matrix, k: nat)
    requires WellFormed(m) && k < |m.data|
    ensures 0 < m.rows && k % m.rows < m.rows && k / m.rows < m.columns
    ensures m.data[k] == Get(m, k % m.rows, k / m.rows)
  {
    FlatIndexInverse(k, m.rows, m.columns);
  }

  // Grids: a matrix as a sequence of rows

  /** A sequence of `rows` rows of `columns` elements each. */
  predicate IsGrid(g: seq<seq<real>>, rows: nat, columns: nat) {
    |g| == rows && forall r :: 0 <= r < rows ==> |g[r]| == columns
  }

  /** The rows of a matrix: element (r, c) at g[r][c]. */
  function View(m: Matrix): (g: seq<seq<real>>)
    requires WellFormed(m)
    ensures IsGrid(g, m.rows, m.columns)
    ensures forall r, c :: 0 <= r < m.rows && 0 <= c < m.columns ==> g[r][c] == Get(m, r, c)
  {
    seq(m.rows, r requires 0 <= r < m.rows =>
      seq(m.columns, c requires 0 <= c < m.columns => Get(m, r, c)))
  }

  /** The first n columns of the grid, one after another: the layout `get` reads. */
  function Columns(g: seq<seq<real>>, rows: nat, columns: nat, n: nat): (data: seq<real>)
    requires IsGrid(g, rows, columns) && n <= columns
    ensures |data| == n * rows
  {
    if n == 0 then [] else Columns(g, rows, columns, n - 1) + Sums.Column(g, n - 1)
  }

  /** Element (r, c) of the grid sits at index c * rows + r of its columns. */
  lemma {:induction false} ColumnsAt(g: seq<seq<real>>, rows: nat, columns: nat, n: nat, r: nat, c: nat)
    requires IsGrid(g, rows, columns) && n <= columns && r < rows && c < n
    ensures c * rows + r < n * rows && Columns(g, rows, columns, n)[c * rows + r] == g[r][c]
  {
    FlatIndex(r, c, rows, n);
    if c < n - 1 {
      FlatIndex(r, c, rows, n - 1);
      ColumnsAt(g, rows, columns, n - 1, r, c);
    }
  }

  /** The matrix whose rows are those of the grid. */
  function FromGrid(g: seq<seq<real>>, rows: nat, columns: nat): (m: Matrix)
    requires IsGrid(g, rows, columns)
    ensures WellFormed(m) && m.rows == rows && m.columns == columns
  {
    Matrix(rows, columns, Columns(g, rows, columns, columns))
  }

  /** Reading back the rows of a matrix built from a grid gives the grid. */
  lemma ViewFromGrid(g: seq<seq<real>>, rows: nat, columns: nat)
    requires IsGrid(g, rows, columns)
    ensures View(FromGrid(g, rows, columns)) == g
  {
    var v := View(FromGrid(g, rows, columns));
    forall r | 0 <= r < rows
      ensures v[r] == g[r]
    {
      forall c | 0 <= c < columns
        ensures v[r][c] == g[r][c]
      {
        ColumnsAt(g, rows, columns, columns, r, c);
      }
    }
  }

  /** Building a matrix from its own rows gives it back. */
  lemma FromGridView(m: Matrix)
    requires WellFormed(m)
    ensures FromGrid(View(m), m.rows, m.columns) == m
  {
    ViewLayout(m);
    FlatIsGrid(View(m), m.rows, m.columns, m.data);
  }

  /** Every array index of a matrix holds the element its rows show at (k % rows, k / rows). */
  lemma ViewLayout(m: Matrix)
    requires WellFormed(m)
    ensures LaidOut(View(m), m.rows, m.columns, m.data)
  {
    forall k | 0 <= k < |m.data|
      ensures 0 < m.rows && k / m.rows < m.columns && m.data[k] == View(m)[k % m.rows][k / m.rows]
    {
      DataAt(m, k);
    }
  }

  /** Element (r, c) of a matrix built from a grid. */
  lemma GetFromGrid(g: seq<seq<real>>, rows: nat, columns: nat, r: nat, c: nat)
    requires IsGrid(g, rows, columns) && r < rows && c < columns
    ensures Get(FromGrid(g, rows, columns), r, c) == g[r][c]
  {
    ColumnsAt(g, rows, columns, columns, r, c);
  }

  /** The array holds element (k % rows, k / rows) of the grid at every index k. */
  predicate LaidOut(g: seq<seq<real>>, rows: nat, columns: nat, s: seq<real>)
    requires IsGrid(g, rows, columns)
  {
    |s| == rows * columns &&
    forall k :: 0 <= k < |s| ==> 0 < rows && k / rows < columns && s[k] == g[k % rows][k / rows]
  }

  /** An array laid out from a grid is the data of the matrix built from it. */
  lemma FlatIsGrid(g: seq<seq<real>>, rows: nat, columns: nat, s: seq<real>)
    requires IsGrid(g, rows, columns) && LaidOut(g, rows, columns, s)
    ensures FromGrid(g, rows, columns).data == s
  {
    var m := FromGrid(g, rows, columns);
    forall k | 0 <= k < |s|
      ensures m.data[k] == s[k]
    {
      DataAt(m, k);
      GetFromGrid(g, rows, columns, k % rows, k / rows);
    }
  }

  // The grids of the factories

  function IdentityGrid(n: nat): (g: seq<seq<real>>)
    ensures IsGrid(g, n, n)
  {
    seq(n, r requires 0 <= r < n => seq(n, c requires 0 <= c < n => if r == c then 1.0 else 0.0))
  }

  /** The identity of size d+1 with the d offsets in the last row. */
  function TranslationGrid(v: Vector): (g: seq<seq<real>>)
    ensures IsGrid(g, v.Dimensions() + 1, v.Dimensions() + 1)
  {
    var d := v.Dimensions();
    seq(d + 1, r requires 0 <= r <= d => seq(d + 1, c requires 0 <= c <= d =>
      if r == c then 1.0 else if r == d then v.data[c] else 0.0))
  }

  /** The diagonal of size d+1 holding the d scalars and then 1. */
  function ScalingGrid(v: Vector): (g: seq<seq<real>>)
    ensures IsGrid(g, v.Dimensions() + 1, v.Dimensions() + 1)
  {
    var d := v.Dimensions();
    seq(d + 1, r requires 0 <= r <= d => seq(d + 1, c requires 0 <= c <= d =>
      if r != c then 0.0 else if r < d then v.data[r] else 1.0))
  }

  /** The diagonal of size d+1 holding `s` d times and then 1. */
  function UniformScalingGrid(s: real, d: nat): (g: seq<seq<real>>)
    ensures IsGrid(g, d + 1, d + 1)
  {
    seq(d + 1, r requires 0 <= r <= d => seq(d + 1, c requires 0 <= c <= d =>
      if r != c then 0.0 else if r < d then s else 1.0))
  }

  /**
   * The 4x4 homogeneous rotation in the plane of axes p and q by the angle with cosine `c` and
   * sine `s`.
   */
  function RotationGrid(p: nat, q: nat, c: real, s: real): (g: seq<seq<real>>)
    ensures IsGrid(g, 4, 4)
  {
    seq(4, r requires 0 <= r < 4 => seq(4, k requires 0 <= k < 4 =>
      if r == k then (if r == p || r == q then c else 1.0)
      else if r == p && k == q then s
      else if r == q && k == p then -s
      else 0.0))
  }

  // Product and transform on grids

  /** Element (r, c) is row r of x against column c of y. */
  function GridProduct(x: seq<seq<real>>, y: seq<seq<real>>, columns: nat): (p: seq<seq<real>>)
    requires IsGrid(x, |x|, |y|) && IsGrid(y, |y|, columns)
    ensures IsGrid(p, |x|, columns)
  {
    seq(|x|, r requires 0 <= r < |x| =>
      seq(columns, c requires 0 <= c < columns => Sums.Dot(x[r], Sums.Column(y, c))))
  }

  /** Element (j, i) for every j below n: the weights of result component i of a transform. */
  function Lane(g: seq<seq<real>>, n: nat, i: nat): (l: seq<real>)
    requires n <= |g| && forall j :: 0 <= j < |g| ==> i < |g[j]|
    ensures |l| == n && forall j :: 0 <= j < n ==> l[j] == g[j][i]
  {
    seq(n, j requires 0 <= j < n => g[j][i])
  }

  /** Component i is the sum over j of g[j][i] * v[j]: the row vector v times the grid. */
  function GridTransform(g: seq<seq<real>>, v: seq<real>): (w: seq<real>)
    requires IsGrid(g, |g|, |v|) && |v| <= |g|
    ensures |w| == |v|
  {
    seq(|v|, i requires 0 <= i < |v| => Sums.Dot(Lane(g, |v|, i), v))
  }

  lemma GridIdentityLeft(g: seq<seq<real>>, rows: nat, columns: nat)
    requires IsGrid(g, rows, columns)
    ensures GridProduct(IdentityGrid(rows), g, columns) == g
  {
    var p := GridProduct(IdentityGrid(rows), g, columns);
    forall r | 0 <= r < rows
      ensures p[r] == g[r]
    {
      forall c | 0 <= c < columns
        ensures p[r][c] == g[r][c]
      {
        Sums.DotUnit(Sums.Column(g, c), IdentityGrid(rows)[r], r);
      }
    }
  }

  lemma GridIdentityRight(g: seq<seq<real>>, rows: nat, columns: nat)
    requires IsGrid(g, rows, columns)
    ensures GridProduct(g, IdentityGrid(columns), columns) == g
  {
    var p := GridProduct(g, IdentityGrid(columns), columns);
    forall r | 0 <= r < rows
      ensures p[r] == g[r]
    {
      forall c | 0 <= c < columns
        ensures p[r][c] == g[r][c]
      {
        Sums.DotUnit(g[r], Sums.Column(IdentityGrid(columns), c), c);
      }
    }
  }

  lemma GridAssociative(x: seq<seq<real>>, y: seq<seq<real>>, z: seq<seq<real>>, m: nat, n: nat)
    requires IsGrid(x, |x|, |y|) && IsGrid(y, |y|, m) && IsGrid(z, m, n)
    ensures GridProduct(GridProduct(x, y, m), z, n) == GridProduct(x, GridProduct(y, z, n), n)
  {
    var xy, yz := GridProduct(x, y, m), GridProduct(y, z, n);
    var left, right := GridProduct(xy, z, n), GridProduct(x, yz, n);
    forall r | 0 <= r < |x|
      ensures left[r] == right[r]
    {
      forall c | 0 <= c < n
        ensures left[r][c] == right[r][c]
      {
        Sums.DotBilinear(x[r], y, Sums.Column(z, c), xy[r], Sums.Column(yz, c));
      }
    }
  }

  lemma GridTransformIdentity(v: seq<real>)
    ensures GridTransform(IdentityGrid(|v|), v) == v
  {
    var w := GridTransform(IdentityGrid(|v|), v);
    forall i | 0 <= i < |v|
      ensures w[i] == v[i]
    {
      Sums.DotUnit(v, Lane(IdentityGrid(|v|), |v|, i), i);
    }
  }

  /** One component of `GridTransformProduct`. */
  lemma GridTransformProductAt(x: seq<seq<real>>, y: seq<seq<real>>, v: seq<real>, i: nat)
    requires IsGrid(x, |v|, |v|) && IsGrid(y, |v|, |v|) && i < |v|
    ensures GridTransform(GridProduct(x, y, |v|), v)[i] == GridTransform(y, GridTransform(x, v))[i]
  {
    var n := |v|;
    var xy := GridProduct(x, y, n);
    var w := GridTransform(x, v);
    var z := Sums.Column(y, i);
    forall k | 0 <= k < n
      ensures w[k] == Sums.Dot(v, Sums.Column(x, k))
    {
      assert Lane(x, n, k) == Sums.Column(x, k);
      Sums.DotSymmetric(v, Sums.Column(x, k));
    }
    Sums.DotBilinear(v, x, z, w, Lane(xy, n, i));
    assert Lane(y, n, i) == z;
    Sums.DotSymmetric(z, w);
    Sums.DotSymmetric(Lane(xy, n, i), v);
  }

  lemma GridTransformProduct(x: seq<seq<real>>, y: seq<seq<real>>, v: seq<real>)
    requires IsGrid(x, |v|, |v|) && IsGrid(y, |v|, |v|)
    ensures GridTransform(GridProduct(x, y, |v|), v) == GridTransform(y, GridTransform(x, v))
  {
    forall i | 0 <= i < |v|
      ensures GridTransform(GridProduct(x, y, |v|), v)[i] == GridTransform(y, GridTransform(x, v))[i]
    {
      GridTransformProductAt(x, y, v, i);
    }
  }

  // Inverses of the factory grids

  /** One element of `RotationGridInverse`. */
  lemma RotationGridInverseAt(p: nat, q: nat, c: real, s: real, r: nat, k: nat)
    requires p < 4 && q < 4 && p != q && c * c + s * s == 1.0 && r < 4 && k < 4
    ensures GridProduct(RotationGrid(p, q, c, -s), RotationGrid(p, q, c, s), 4)[r][k] ==
      IdentityGrid(4)[r][k]
  {
    if r == p || r == q {
      RotationInversePlane(p, q, c, s, r, k);
    } else {
      var row, column := RotationGrid(p, q, c, -s)[r], Sums.Column(RotationGrid(p, q, c, s), k);
      Sums.DotPair(row, column, r, r);
    }
  }

  /** Rows p and q of the inverse rotation against the columns of the rotation. */
  lemma RotationInversePlane(p: nat, q: nat, c: real, s: real, r: nat, k: nat)
    requires p < 4 && q < 4 && p != q && c * c + s * s == 1.0 && k < 4 && (r == p || r == q)
    ensures Sums.Dot(RotationGrid(p, q, c, -s)[r], Sums.Column(RotationGrid(p, q, c, s), k)) ==
      if r == k then 1.0 else 0.0
  {
    var row, column := RotationGrid(p, q, c, -s)[r], Sums.Column(RotationGrid(p, q, c, s), k);
    Sums.DotPair(row, column, p, q);
    RotationPairs(c, s);
  }

  /** The four dot products of a plane rotation's rows and its inverse's columns. */
  lemma RotationPairs(c: real, s: real)
    requires c * c + s * s == 1.0
    ensures c * c + (-s) * (-s) == 1.0 && c * s + (-s) * c == 0.0
    ensures (-(-s)) * c + c * (-s) == 0.0 && (-(-s)) * s + c * c == 1.0
  {
    assert (-s) * (-s) == s * s;
    assert c * s == s * c;
  }

  lemma RotationGridInverse(p: nat, q: nat, c: real, s: real)
    requires p < 4 && q < 4 && p != q && c * c + s * s == 1.0
    ensures GridProduct(RotationGrid(p, q, c, -s), RotationGrid(p, q, c, s), 4) == IdentityGrid(4)
  {
    var product := GridProduct(RotationGrid(p, q, c, -s), RotationGrid(p, q, c, s), 4);
    forall r | 0 <= r < 4
      ensures product[r] == IdentityGrid(4)[r]
    {
      forall k | 0 <= k < 4
        ensures product[r][k] == IdentityGrid(4)[r][k]
      {
        RotationGridInverseAt(p, q, c, s, r, k);
      }
    }
  }

  /** One element of `ScalingGridInverse`. */
  lemma ScalingGridInverseAt(v: Vector, r: nat, k: nat)
    requires NoZeroComponent(v) && r <= v.Dimensions() && k <= v.Dimensions()
    ensures GridProduct(ScalingGrid(Reciprocal(v)), ScalingGrid(v), v.Dimensions() + 1)[r][k] ==
      IdentityGrid(v.Dimensions() + 1)[r][k]
  {
    var row, column := ScalingGrid(Reciprocal(v))[r], Sums.Column(ScalingGrid(v), k);
    Sums.DotPair(row, column, r, r);
    if r == k && r < v.Dimensions() {
      assert (1.0 / v.data[r]) * v.data[r] == 1.0;
    }
  }

  lemma ScalingGridInverse(v: Vector)
    requires NoZeroComponent(v)
    ensures GridProduct(ScalingGrid(Reciprocal(v)), ScalingGrid(v), v.Dimensions() + 1) ==
      IdentityGrid(v.Dimensions() + 1)
  {
    var n := v.Dimensions() + 1;
    var product := GridProduct(ScalingGrid(Reciprocal(v)), ScalingGrid(v), n);
    forall r | 0 <= r < n
      ensures product[r] == IdentityGrid(n)[r]
    {
      forall k | 0 <= k < n
        ensures product[r][k] == IdentityGrid(n)[r][k]
      {
        ScalingGridInverseAt(v, r, k);
      }
    }
  }

  /** One element of `TranslationGridInverse`. */
  lemma TranslationGridInverseAt(v: Vector, r: nat, k: nat)
    requires r <= v.Dimensions() && k <= v.Dimensions()
    ensures GridProduct(TranslationGrid(Vectors.Scale(v, -1.0)), TranslationGrid(v), v.Dimensions() + 1)[r][k] ==
      IdentityGrid(v.Dimensions() + 1)[r][k]
  {
    var d := v.Dimensions();
    var row := TranslationGrid(Vectors.Scale(v, -1.0))[r];
    var column := Sums.Column(TranslationGrid(v), k);
    if r < d {
      Sums.DotPair(row, column, r, r);
    } else {
      TranslationInverseLastRow(v, k);
    }
  }

  /** The last row of the inverse translation cancels every offset of the translation. */
  lemma TranslationInverseLastRow(v: Vector, k: nat)
    requires k <= v.Dimensions()
    ensures var d := v.Dimensions();
      Sums.Dot(TranslationGrid(Vectors.Scale(v, -1.0))[d], Sums.Column(TranslationGrid(v), k)) ==
        if k == d then 1.0 else 0.0
  {
    var d := v.Dimensions();
    var row := TranslationGrid(Vectors.Scale(v, -1.0))[d];
    var column := Sums.Column(TranslationGrid(v), k);
    Sums.DotPair(column, row, k, d);
    if k < d {
      assert row[k] == v.data[k] * -1.0 && column[k] == 1.0 && column[d] == v.data[k];
    }
  }

  lemma TranslationGridInverse(v: Vector)
    ensures GridProduct(TranslationGrid(Vectors.Scale(v, -1.0)), TranslationGrid(v), v.Dimensions() + 1) ==
      IdentityGrid(v.Dimensions() + 1)
  {
    var n := v.Dimensions() + 1;
    var product := GridProduct(TranslationGrid(Vectors.Scale(v, -1.0)), TranslationGrid(v), n);
    forall r | 0 <= r < n
      ensures product[r] == IdentityGrid(n)[r]
    {
      forall k | 0 <= k < n
        ensures product[r][k] == IdentityGrid(n)[r][k]
      {
        TranslationGridInverseAt(v, r, k);
      }
    }
  }

  // Matrices: the factories, the product and the transform

  /** The n x n identity. */
  function IdentityMatrix(n: nat): (m: Matrix)
    ensures IsSquare(m, n)
  {
    FromGrid(IdentityGrid(n), n, n)
  }

  function TranslationMatrix(v: Vector): (m: Matrix)
    ensures IsSquare(m, v.Dimensions() + 1)
  {
    FromGrid(TranslationGrid(v), v.Dimensions() + 1, v.Dimensions() + 1)
  }

  function ScalingMatrix(v: Vector): (m: Matrix)
    ensures IsSquare(m, v.Dimensions() + 1)
  {
    FromGrid(ScalingGrid(v), v.Dimensions() + 1, v.Dimensions() + 1)
  }

  function UniformScalingMatrix(s: real, d: nat): (m: Matrix)
    ensures IsSquare(m, d + 1)
  {
    FromGrid(UniformScalingGrid(s, d), d + 1, d + 1)
  }

  function PlaneRotation(p: nat, q: nat, c: real, s: real): (m: Matrix)
    ensures IsSquare(m, 4)
  {
    FromGrid(RotationGrid(p, q, c, s), 4, 4)
  }

  /** Rotation about the x axis by `angle` radians. */
  function RotationX(m: Libm, angle: real): (r: Matrix)
    ensures IsSquare(r, 4)
  {
    PlaneRotation(1, 2, m.cos(angle), m.sin(angle))
  }

  /** Rotation about the y axis by `angle` radians. */
  function RotationY(m: Libm, angle: real): (r: Matrix)
    ensures IsSquare(r, 4)
  {
    PlaneRotation(2, 0, m.cos(angle), m.sin(angle))
  }

  /** Rotation about the z axis by `angle` radians. */
  function RotationZ(m: Libm, angle: real): (r: Matrix)
    ensures IsSquare(r, 4)
  {
    PlaneRotation(0, 1, m.cos(angle), m.sin(angle))
  }

  /** The matrix product in the `get` reading. */
  function Product(a: Matrix, b: Matrix): (p: Matrix)
    requires WellFormed(a) && WellFormed(b) && a.columns == b.rows
    ensures WellFormed(p) && p.rows == a.rows && p.columns == b.columns
  {
    FromGrid(GridProduct(View(a), View(b), b.columns), a.rows, b.columns)
  }

  /** Element (r, c) of the product: row r of `a` against column c of `b`. */
  function ProductElement(a: Matrix, b: Matrix, r: nat, c: nat): real
    requires WellFormed(a) && WellFormed(b) && a.columns == b.rows && r < a.rows && c < b.columns
  {
    Sums.Dot(View(a)[r], Sums.Column(View(b), c))
  }

  lemma GetProduct(a: Matrix, b: Matrix, r: nat, c: nat)
    requires WellFormed(a) && WellFormed(b) && a.columns == b.rows && r < a.rows && c < b.columns
    ensures Get(Product(a, b), r, c) == ProductElement(a, b, r, c)
  {
    GetFromGrid(GridProduct(View(a), View(b), b.columns), a.rows, b.columns, r, c);
  }

  /**
   * `transform`: component i of the result is the sum over j of get(j, i) * v[j]. The source's
   * own index checks need `columns <= rows`.
   */
  function Transform(m: Matrix, v: Vector): (r: Vector)
    requires WellFormed(m) && m.columns == v.Dimensions() && m.columns <= m.rows
    ensures r.Dimensions() == v.Dimensions()
  {
    Vector(GridTransform(View(m), v.data))
  }

  lemma ProductIdentityLeft(m: Matrix)
    requires WellFormed(m)
    ensures Product(IdentityMatrix(m.rows), m) == m
  {
    ViewFromGrid(IdentityGrid(m.rows), m.rows, m.rows);
    GridIdentityLeft(View(m), m.rows, m.columns);
    FromGridView(m);
  }

  lemma ProductIdentityRight(m: Matrix)
    requires WellFormed(m)
    ensures Product(m, IdentityMatrix(m.columns)) == m
  {
    ViewFromGrid(IdentityGrid(m.columns), m.columns, m.columns);
    GridIdentityRight(View(m), m.rows, m.columns);
    FromGridView(m);
  }

  lemma ProductAssociative(a: Matrix, b: Matrix, c: Matrix)
    requires WellFormed(a) && WellFormed(b) && WellFormed(c)
    requires a.columns == b.rows && b.columns == c.rows
    ensures Product(Product(a, b), c) == Product(a, Product(b, c))
  {
    ViewFromGrid(GridProduct(View(a), View(b), b.columns), a.rows, b.columns);
    ViewFromGrid(GridProduct(View(b), View(c), c.columns), b.rows, c.columns);
    GridAssociative(View(a), View(b), View(c), b.columns, c.columns);
  }

  lemma TransformIdentity(v: Vector)
    ensures Transform(IdentityMatrix(v.Dimensions()), v) == v
  {
    ViewFromGrid(IdentityGrid(v.Dimensions()), v.Dimensions(), v.Dimensions());
    GridTransformIdentity(v.data);
  }

  /** Transforming by a product applies the left factor first. */
  lemma TransformProduct(a: Matrix, b: Matrix, v: Vector)
    requires IsSquare(a, v.Dimensions()) && IsSquare(b, v.Dimensions())
    ensures Transform(Product(a, b), v) == Transform(b, Transform(a, v))
  {
    ViewFromGrid(GridProduct(View(a), View(b), b.columns), a.rows, b.columns);
    GridTransformProduct(View(a), View(b), v.data);
  }

  /** Transforming by a matrix built from a grid is transforming by the grid. */
  lemma TransformFromGrid(g: seq<seq<real>>, n: nat, v: Vector)
    requires IsGrid(g, n, n) && v.Dimensions() == n
    ensures Transform(FromGrid(g, n, n), v).data == GridTransform(g, v.data)
  {
    ViewFromGrid(g, n, n);
  }

  /**
   * `r` is `p` translated by `v`: component c gains offset c times the last component of `p`,
   * and the last component is kept. A point (last component 1) moves by the offset, a direction
   * (last component 0) does not move.
   */
  predicate Translated(v: Vector, p: seq<real>, r: seq<real>)
    requires |p| == |r| == v.Dimensions() + 1
  {
    var d := v.Dimensions();
    (forall c :: 0 <= c < d ==> r[c] == p[c] + v.data[c] * p[d]) && r[d] == p[d]
  }

  lemma TransformTranslation(v: Vector, p: Vector)
    requires p.Dimensions() == v.Dimensions() + 1
    ensures Translated(v, p.data, Transform(TranslationMatrix(v), p).data)
  {
    TransformFromGrid(TranslationGrid(v), v.Dimensions() + 1, p);
    GridTransformTranslation(v, p.data);
  }

  lemma GridTransformTranslation(v: Vector, p: seq<real>)
    requires |p| == v.Dimensions() + 1
    ensures Translated(v, p, GridTransform(TranslationGrid(v), p))
  {
    var d := v.Dimensions();
    var g := TranslationGrid(v);
    forall c | 0 <= c <= d
      ensures GridTransform(g, p)[c] == if c < d then p[c] + v.data[c] * p[d] else p[d]
    {
      Sums.DotPair(Lane(g, d + 1, c), p, c, d);
    }
  }

  /** `r` is `p` with component c multiplied by scalar c and the last component kept. */
  predicate Scaled(v: Vector, p: seq<real>, r: seq<real>)
    requires |p| == |r| == v.Dimensions() + 1
  {
    var d := v.Dimensions();
    (forall c :: 0 <= c < d ==> r[c] == v.data[c] * p[c]) && r[d] == p[d]
  }

  lemma TransformScaling(v: Vector, p: Vector)
    requires p.Dimensions() == v.Dimensions() + 1
    ensures Scaled(v, p.data, Transform(ScalingMatrix(v), p).data)
  {
    TransformFromGrid(ScalingGrid(v), v.Dimensions() + 1, p);
    GridTransformScaling(v, p.data);
  }

  lemma GridTransformScaling(v: Vector, p: seq<real>)
    requires |p| == v.Dimensions() + 1
    ensures Scaled(v, p, GridTransform(ScalingGrid(v), p))
  {
    var d := v.Dimensions();
    var g := ScalingGrid(v);
    forall c | 0 <= c <= d
      ensures GridTransform(g, p)[c] == if c < d then v.data[c] * p[c] else p[d]
    {
      Sums.DotPair(Lane(g, d + 1, c), p, c, c);
    }
  }

  /** `scale(s, d)` is `scale` with d copies of s. */
  lemma UniformScalingIsScaling(s: real, d: nat)
    ensures UniformScalingMatrix(s, d) == ScalingMatrix(Vector(seq(d, i => s)))
  {
    assert UniformScalingGrid(s, d) == ScalingGrid(Vector(seq(d, i => s)));
  }

  /**
   * `r` is `x` turned in the plane of axes p and q: component p becomes c * x[p] - s * x[q],
   * component q becomes s * x[p] + c * x[q], and the others are kept.
   */
  predicate Rotated(p: nat, q: nat, c: real, s: real, x: seq<real>, r: seq<real>)
    requires p < 4 && q < 4 && |x| == |r| == 4
  {
    r[p] == c * x[p] - s * x[q] &&
    r[q] == s * x[p] + c * x[q] &&
    forall i :: 0 <= i < 4 && i != p && i != q ==> r[i] == x[i]
  }

  lemma TransformRotation(p: nat, q: nat, c: real, s: real, x: Vector)
    requires p < 4 && q < 4 && p != q && x.Dimensions() == 4
    ensures Rotated(p, q, c, s, x.data, Transform(PlaneRotation(p, q, c, s), x).data)
  {
    TransformFromGrid(RotationGrid(p, q, c, s), 4, x);
    GridTransformRotation(p, q, c, s, x.data);
  }

  lemma GridTransformRotation(p: nat, q: nat, c: real, s: real, x: seq<real>)
    requires p < 4 && q < 4 && p != q && |x| == 4
    ensures Rotated(p, q, c, s, x, GridTransform(RotationGrid(p, q, c, s), x))
  {
    var g := RotationGrid(p, q, c, s);
    Sums.DotPair(Lane(g, 4, p), x, p, q);
    Sums.DotPair(Lane(g, 4, q), x, p, q);
    GridTransformRotationKeeps(p, q, c, s, x);
  }

  /** The components outside the plane of rotation are kept. */
  lemma GridTransformRotationKeeps(p: nat, q: nat, c: real, s: real, x: seq<real>)
    requires p < 4 && q < 4 && p != q && |x| == 4
    ensures forall i :: 0 <= i < 4 && i != p && i != q ==>
      GridTransform(RotationGrid(p, q, c, s), x)[i] == x[i]
  {
    var g := RotationGrid(p, q, c, s);
    forall i | 0 <= i < 4 && i != p && i != q
      ensures GridTransform(g, x)[i] == x[i]
    {
      Sums.DotPair(Lane(g, 4, i), x, i, i);
    }
  }

  /** Rotating back by the opposite angle undoes a plane rotation. */
  lemma RotationInverse(p: nat, q: nat, c: real, s: real)
    requires p < 4 && q < 4 && p != q && c * c + s * s == 1.0
    ensures Product(PlaneRotation(p, q, c, -s), PlaneRotation(p, q, c, s)) == IdentityMatrix(4)
  {
    ViewFromGrid(RotationGrid(p, q, c, -s), 4, 4);
    ViewFromGrid(RotationGrid(p, q, c, s), 4, 4);
    RotationGridInverse(p, q, c, s);
  }

  /** The same on the other side: rotating and then rotating back gives the identity. */
  lemma RotationInverseRight(p: nat, q: nat, c: real, s: real)
    requires p < 4 && q < 4 && p != q && c * c + s * s == 1.0
    ensures Product(PlaneRotation(p, q, c, s), PlaneRotation(p, q, c, -s)) == IdentityMatrix(4)
  {
    var t := -s;
    assert c * c + t * t == 1.0 by {
      assert t * t == s * s;
    }
    assert -t == s;
    RotationInverse(p, q, c, t);
  }

  /** Scaling by the reciprocals undoes a scaling with no zero scalar. */
  lemma ScalingInverse(v: Vector)
    requires NoZeroComponent(v)
    ensures Product(ScalingMatrix(Reciprocal(v)), ScalingMatrix(v)) == IdentityMatrix(v.Dimensions() + 1)
  {
    var n := v.Dimensions() + 1;
    ViewFromGrid(ScalingGrid(Reciprocal(v)), n, n);
    ViewFromGrid(ScalingGrid(v), n, n);
    ScalingGridInverse(v);
  }

  /** Translating by the negated offset undoes a translation. */
  lemma TranslationInverse(v: Vector)
    ensures Product(TranslationMatrix(Vectors.Scale(v, -1.0)), TranslationMatrix(v)) ==
      IdentityMatrix(v.Dimensions() + 1)
  {
    var n := v.Dimensions() + 1;
    ViewFromGrid(TranslationGrid(Vectors.Scale(v, -1.0)), n, n);
    ViewFromGrid(TranslationGrid(v), n, n);
    TranslationGridInverse(v);
  }

  // The row-major reading

  /** Read row-major, the array of a square matrix holds the transpose of the `get` reading. */
  lemma RowMajorIsTranspose(m: Matrix, i: nat, j: nat)
    requires WellFormed(m) && m.rows == m.columns && i < m.rows && j < m.rows
    ensures i * m.rows + j < |m.data| && m.data[i * m.rows + j] == Get(m, j, i)
  {
    FlatIndex(j, i, m.rows, m.columns);
  }

  /**
   * Read row-major, lane i of a square matrix is row i of the array, so `transform` is the
   * ordinary product of the row-major matrix with a column vector.
   */
  lemma RowMajorLane(m: Matrix, i: nat, j: nat)
    requires WellFormed(m) && m.rows == m.columns && i < m.rows && j < m.rows
    ensures i * m.rows + j < |m.data| && Lane(View(m), m.rows, i)[j] == m.data[i * m.rows + j]
  {
    RowMajorIsTranspose(m, i, j);
  }

  // The factories as the source fills their arrays

  /** The array index of diagonal element i is the only one with row and column i. */
  lemma DiagonalIndex(k: nat, i: nat, size: nat)
    requires k < size * size && i < size
    ensures k == i * size + i <==> k % size == i && k / size == i
  {
    FlatIndexInverse(k, size, size);
    FlatIndex(i, i, size, size);
  }

  /**
   * The array of a size x size matrix that is zero except on the first i diagonal slots, where
   * slot j holds f(j).
   */
  predicate DiagonalUpTo(s: seq<real>, size: nat, i: nat, f: nat -> real) {
    |s| == size * size &&
    forall k :: 0 <= k < |s| ==>
      s[k] == (if k % size == k / size && k / size < i then f(k / size) else 0.0)
  }

  /** The diagonal values of the identity, of `scale(Vector)` and of `scale(double, int)`. */
  function IdentityDiagonal(): nat -> real {
    (j: nat) => 1.0
  }

  function ScalingDiagonal(v: Vector): nat -> real {
    (j: nat) => if j < v.Dimensions() then Component(v, j) else 1.0
  }

  function UniformDiagonal(scalar: real, dimensions: nat): nat -> real {
    (j: nat) => if j < dimensions then scalar else 1.0
  }

  /** An all-zero array (after `Arrays.fill(data, 0.0)`) has no diagonal slot written yet. */
  lemma DiagonalNone(s: seq<real>, size: nat, f: nat -> real)
    requires |s| == size * size && forall k :: 0 <= k < |s| ==> s[k] == 0.0
    ensures DiagonalUpTo(s, size, 0, f)
  {
  }

  /** Writing f(i) at index i * size + i writes diagonal slot i and nothing else. */
  lemma DiagonalStep(s: seq<real>, size: nat, i: nat, f: nat -> real)
    requires DiagonalUpTo(s, size, i, f) && i < size
    ensures i * size + i < |s| && DiagonalUpTo(s[i * size + i := f(i)], size, i + 1, f)
  {
    FlatIndex(i, i, size, size);
    var t := s[i * size + i := f(i)];
    forall k | 0 <= k < |t|
      ensures t[k] == (if k % size == k / size && k / size < i + 1 then f(k / size) else 0.0)
    {
      DiagonalIndex(k, i, size);
    }
  }

  /** Every index of a diagonal array, read back as (row, column), holds the grid's element. */
  lemma DiagonalLayoutAt(g: seq<seq<real>>, size: nat, s: seq<real>, f: nat -> real)
    requires IsGrid(g, size, size) && DiagonalUpTo(s, size, size, f)
    requires forall r, c :: 0 <= r < size && 0 <= c < size ==> g[r][c] == if r == c then f(r) else 0.0
    ensures LaidOut(g, size, size, s)
  {
    forall k | 0 <= k < |s|
      ensures 0 < size && k / size < size && s[k] == g[k % size][k / size]
    {
      FlatIndexInverse(k, size, size);
    }
  }

  /** A fully written diagonal array is the layout of the diagonal grid with the same values. */
  lemma DiagonalLayout(g: seq<seq<real>>, size: nat, s: seq<real>, f: nat -> real)
    requires IsGrid(g, size, size) && DiagonalUpTo(s, size, size, f)
    requires forall r, c :: 0 <= r < size && 0 <= c < size ==> g[r][c] == if r == c then f(r) else 0.0
    ensures FromGrid(g, size, size).data == s
  {
    DiagonalLayoutAt(g, size, s, f);
    FlatIsGrid(g, size, size, s);
  }

  lemma IdentityLayout(size: nat, s: seq<real>)
    requires DiagonalUpTo(s, size, size, IdentityDiagonal())
    ensures IdentityMatrix(size).data == s
  {
    DiagonalLayout(IdentityGrid(size), size, s, IdentityDiagonal());
  }

  lemma ScalingLayout(v: Vector, s: seq<real>)
    requires DiagonalUpTo(s, v.Dimensions() + 1, v.Dimensions() + 1, ScalingDiagonal(v))
    ensures ScalingMatrix(v).data == s
  {
    DiagonalLayout(ScalingGrid(v), v.Dimensions() + 1, s, ScalingDiagonal(v));
  }

  lemma UniformScalingLayout(scalar: real, dimensions: nat, s: seq<real>)
    requires DiagonalUpTo(s, dimensions + 1, dimensions + 1, UniformDiagonal(scalar, dimensions))
    ensures UniformScalingMatrix(scalar, dimensions).data == s
  {
    DiagonalLayout(UniformScalingGrid(scalar, dimensions), dimensions + 1, s,
      UniformDiagonal(scalar, dimensions));
  }

  /** `Arrays.fill(data, 0.0)` on a fresh array of `size` elements. */
  method Zeros(size: nat) returns (data: array<real>)
    ensures fresh(data) && data.Length == size && forall k :: 0 <= k < size ==> data[k] == 0.0
  {
    data := new real[size];
    for k := 0 to size
      invariant forall j :: 0 <= j < k ==> data[j] == 0.0
    {
      data[k] := 0.0;
    }
  }

  /** `identityData`: a fresh size x size array of zeros with ones on the diagonal. */
  method IdentityData(size: nat) returns (data: array<real>)
    ensures fresh(data) && DiagonalUpTo(data[..], size, size, IdentityDiagonal())
    ensures data[..] == IdentityMatrix(size).data
  {
    MulNonNegative(size, size);
    data := Zeros(size * size);
    DiagonalNone(data[..], size, IdentityDiagonal());
    for i := 0 to size
      invariant DiagonalUpTo(data[..], size, i, IdentityDiagonal())
    {
      DiagonalStep(data[..], size, i, IdentityDiagonal());
      data[i * size + i] := 1.0;
    }
    IdentityLayout(size, data[..]);
  }

  /** `identity`. */
  method Identity(size: nat) returns (m: Matrix)
    ensures m == IdentityMatrix(size)
  {
    var data := IdentityData(size);
    m := Matrix(size, size, data[..]);
  }

  /** Element k of the array `translate` is filling, once the first i offsets are written. */
  function TranslationAfter(v: Vector, i: nat, k: nat): real {
    var size := v.Dimensions() + 1;
    var r, c := k % size, k / size;
    if r == c then 1.0 else if r == size - 1 && c < i then Component(v, c) else 0.0
  }

  /** The identity array is the translation array before any offset is written. */
  lemma TranslationStart(v: Vector, s: seq<real>)
    requires DiagonalUpTo(s, v.Dimensions() + 1, v.Dimensions() + 1, IdentityDiagonal())
    ensures forall k :: 0 <= k < |s| ==> s[k] == TranslationAfter(v, 0, k)
  {
    var size := v.Dimensions() + 1;
    forall k | 0 <= k < |s|
      ensures s[k] == TranslationAfter(v, 0, k)
    {
      FlatIndexInverse(k, size, size);
    }
  }

  /** Writing offset i at row d of column i takes the array from i offsets to i + 1. */
  lemma TranslationStepAt(v: Vector, i: nat, k: nat)
    requires i < v.Dimensions() && k < (v.Dimensions() + 1) * (v.Dimensions() + 1)
    ensures var size := v.Dimensions() + 1;
      TranslationAfter(v, i + 1, k) ==
        if k == (i + 1) * size - 1 then Component(v, i) else TranslationAfter(v, i, k)
  {
    var size := v.Dimensions() + 1;
    assert (i + 1) * size - 1 == i * size + (size - 1);
    FlatIndexInverse(k, size, size);
    if k == (i + 1) * size - 1 {
      DivModUnique(k, size, i, size - 1);
    }
  }

  /** Offset i goes to index (i + 1) * size - 1, row d of column i. */
  lemma TranslationIndex(v: Vector, i: nat)
    requires i < v.Dimensions()
    ensures var size := v.Dimensions() + 1;
      0 <= (i + 1) * size - 1 < size * size && (i + 1) * size - 1 == Flat(size - 1, i, size, size)
  {
    var size := v.Dimensions() + 1;
    assert (i + 1) * size - 1 == i * size + (size - 1);
    FlatIndex(size - 1, i, size, size);
  }

  lemma TranslationStep(v: Vector, s: seq<real>, t: seq<real>, i: nat)
    requires i < v.Dimensions() && |s| == (v.Dimensions() + 1) * (v.Dimensions() + 1)
    requires forall k :: 0 <= k < |s| ==> s[k] == TranslationAfter(v, i, k)
    requires 0 <= (i + 1) * (v.Dimensions() + 1) - 1 < |s|
    requires t == s[(i + 1) * (v.Dimensions() + 1) - 1 := Component(v, i)]
    ensures forall k :: 0 <= k < |t| ==> t[k] == TranslationAfter(v, i + 1, k)
  {
    forall k | 0 <= k < |t|
      ensures t[k] == TranslationAfter(v, i + 1, k)
    {
      TranslationStepAt(v, i, k);
    }
  }

  /** With every offset written, and 1 at the last index, the array is the translation matrix. */
  lemma TranslationEnd(v: Vector, s: seq<real>)
    requires |s| == (v.Dimensions() + 1) * (v.Dimensions() + 1)
    requires forall k :: 0 <= k < |s| ==> s[k] == TranslationAfter(v, v.Dimensions(), k)
    ensures |s| > 0 && TranslationMatrix(v).data == s[|s| - 1 := 1.0]
  {
    var size := v.Dimensions() + 1;
    FlatIndex(size - 1, size - 1, size, size);
    var t := s[|s| - 1 := 1.0];
    forall k | 0 <= k < |t|
      ensures t[k] == TranslationElement(v, k)
    {
      FlatIndexInverse(k, size, size);
    }
    TranslationLayout(v, t);
  }

  /** Element k of the translation array: 1 on the diagonal, offset c in row d of column c. */
  function TranslationElement(v: Vector, k: nat): real {
    var size := v.Dimensions() + 1;
    if k % size == k / size then 1.0
    else if k % size == size - 1 && k / size < size - 1 then v.data[k / size]
    else 0.0
  }

  lemma TranslationGridAt(v: Vector, size: nat, x: real, r: nat, c: nat)
    requires size == v.Dimensions() + 1 && r < size && c < size
    requires x == if r == c then 1.0 else if r == size - 1 && c < size - 1 then v.data[c] else 0.0
    ensures TranslationGrid(v)[r][c] == x
  {
  }

  lemma TranslationPoint(v: Vector, x: real, k: nat)
    requires k < (v.Dimensions() + 1) * (v.Dimensions() + 1) && x == TranslationElement(v, k)
    ensures var size := v.Dimensions() + 1;
      0 < size && k / size < size && x == TranslationGrid(v)[k % size][k / size]
  {
    var size := v.Dimensions() + 1;
    FlatIndexInverse(k, size, size);
    TranslationGridAt(v, size, x, k % size, k / size);
  }

  lemma TranslationLayoutAt(v: Vector, s: seq<real>)
    requires |s| == (v.Dimensions() + 1) * (v.Dimensions() + 1)
    requires forall k :: 0 <= k < |s| ==> s[k] == TranslationElement(v, k)
    ensures LaidOut(TranslationGrid(v), v.Dimensions() + 1, v.Dimensions() + 1, s)
  {
    var size := v.Dimensions() + 1;
    forall k | 0 <= k < |s|
      ensures 0 < size && k / size < size && s[k] == TranslationGrid(v)[k % size][k / size]
    {
      TranslationPoint(v, s[k], k);
    }
  }

  lemma TranslationLayout(v: Vector, s: seq<real>)
    requires |s| == (v.Dimensions() + 1) * (v.Dimensions() + 1)
    requires forall k :: 0 <= k < |s| ==> s[k] == TranslationElement(v, k)
    ensures TranslationMatrix(v).data == s
  {
    TranslationLayoutAt(v, s);
    FlatIsGrid(TranslationGrid(v), v.Dimensions() + 1, v.Dimensions() + 1, s);
  }


  /**
   * `translate`: the identity of size d+1, then offset i written at array index
   * (i+1) * size - 1, which is row d of column i, and 1 again at the last index.
   */
  method Translate(v: Vector) returns (m: Matrix)
    ensures m == TranslationMatrix(v)
  {
    var size := v.Dimensions() + 1;
    var data := IdentityData(size);
    TranslationStart(v, data[..]);
    for i := 0 to size - 1
      invariant forall k :: 0 <= k < data.Length ==> data[k] == TranslationAfter(v, i, k)
    {
      TranslationIndex(v, i);
      var index := (i + 1) * size - 1;
      ghost var before := data[..];
      data[index] := Vectors.Get(v, index / size);
      TranslationStep(v, before, data[..], i);
    }
    TranslationEnd(v, data[..]);
    data[size * size - 1] := 1.0;
    m := Matrix(size, size, data[..]);
  }

  /** `scale(Vector)`: a zero array with the scalars, then 1, on the diagonal. */
  method Scale(v: Vector) returns (m: Matrix)
    ensures m == ScalingMatrix(v)
  {
    var size := v.Dimensions() + 1;
    var data := Zeros(size * size);
    DiagonalNone(data[..], size, ScalingDiagonal(v));
    for i := 0 to size
      invariant DiagonalUpTo(data[..], size, i, ScalingDiagonal(v))
    {
      DiagonalStep(data[..], size, i, ScalingDiagonal(v));
      data[i * size + i] := if i < v.Dimensions() then Vectors.Get(v, i) else 1.0;
    }
    ScalingLayout(v, data[..]);
    m := Matrix(size, size, data[..]);
  }

  /** `scale(double, int)`: `scalar` on the first d diagonal slots and 1 on the last. */
  method ScaleUniformly(scalar: real, dimensions: nat) returns (m: Matrix)
    ensures m == UniformScalingMatrix(scalar, dimensions)
  {
    var size := dimensions + 1;
    var data := Zeros(size * size);
    DiagonalNone(data[..], size, UniformDiagonal(scalar, dimensions));
    for i := 0 to size - 1
      invariant DiagonalUpTo(data[..], size, i, UniformDiagonal(scalar, dimensions))
    {
      DiagonalStep(data[..], size, i, UniformDiagonal(scalar, dimensions));
      data[i * size + i] := scalar;
    }
    DiagonalStep(data[..], size, size - 1, UniformDiagonal(scalar, dimensions));
    assert (size - 1) * size + (size - 1) == size * size - 1;
    data[size * size - 1] := 1.0;
    UniformScalingLayout(scalar, dimensions, data[..]);
    m := Matrix(size, size, data[..]);
  }

  /** `fromArray`: a matrix holding a copy of the array's current contents. */
  method FromArray(rows: nat, columns: nat, data: array<real>) returns (m: Matrix)
    requires rows * columns == data.Length
    ensures WellFormed(m) && m.rows == rows && m.columns == columns && m.data == data[..]
  {
    var copy := new real[data.Length];
    for i := 0 to data.Length
      invariant copy[..i] == data[..i]
    {
      copy[i] := data[i];
    }
    assert copy[..] == copy[..data.Length];
    m := Matrix(rows, columns, copy[..]);
  }

  /** The product element that belongs at array index k. */
  function FlatProduct(a: Matrix, b: Matrix, k: nat): real
    requires WellFormed(a) && WellFormed(b) && a.columns == b.rows && k < a.rows * b.columns
  {
    FlatIndexInverse(k, a.rows, b.columns);
    ProductElement(a, b, k % a.rows, k / a.rows)
  }

  /** An array holding every product element at its index is the product. */
  lemma ProductFromElements(a: Matrix, b: Matrix, s: seq<real>)
    requires WellFormed(a) && WellFormed(b) && a.columns == b.rows
    requires |s| == a.rows * b.columns
    requires forall k :: 0 <= k < |s| ==> s[k] == FlatProduct(a, b, k)
    ensures Matrix(a.rows, b.columns, s) == Product(a, b)
  {
    var g := GridProduct(View(a), View(b), b.columns);
    ProductLayout(a, b, s);
    FlatIsGrid(g, a.rows, b.columns, s);
  }

  lemma ProductLayout(a: Matrix, b: Matrix, s: seq<real>)
    requires WellFormed(a) && WellFormed(b) && a.columns == b.rows
    requires |s| == a.rows * b.columns
    requires forall k :: 0 <= k < |s| ==> s[k] == FlatProduct(a, b, k)
    ensures LaidOut(GridProduct(View(a), View(b), b.columns), a.rows, b.columns, s)
  {
    var g := GridProduct(View(a), View(b), b.columns);
    forall k | 0 <= k < |s|
      ensures 0 < a.rows && k / a.rows < b.columns && s[k] == g[k % a.rows][k / a.rows]
    {
      ProductPoint(a, b, s[k], k);
    }
  }

  lemma ProductPoint(a: Matrix, b: Matrix, x: real, k: nat)
    requires WellFormed(a) && WellFormed(b) && a.columns == b.rows && k < a.rows * b.columns
    requires x == FlatProduct(a, b, k)
    ensures 0 < a.rows && k / a.rows < b.columns &&
      x == GridProduct(View(a), View(b), b.columns)[k % a.rows][k / a.rows]
  {
    FlatIndexInverse(k, a.rows, b.columns);
  }

  /** Summand i of product element (row, column), as the two `get` calls read it. */
  lemma Operands(a: Matrix, b: Matrix, row: nat, column: nat, i: nat)
    requires WellFormed(a) && WellFormed(b) && a.columns == b.rows
    requires row < a.rows && column < b.columns && i < a.columns
    ensures View(a)[row][i] == Get(a, row, i) && Sums.Column(View(b), column)[i] == Get(b, i, column)
  {
  }

  /** The innermost loop of `multiply`: element (row, column) summed in place at `index`. */
  method AccumulateElement(a: Matrix, b: Matrix, result: array<real>, row: nat, column: nat, index: nat)
    requires WellFormed(a) && WellFormed(b) && a.columns == b.rows
    requires row < a.rows && column < b.columns && index < result.Length
    modifies result
    ensures result[index] == ProductElement(a, b, row, column)
    ensures forall k :: 0 <= k < result.Length && k != index ==> result[k] == old(result[k])
  {
    ghost var x, y := View(a)[row], Sums.Column(View(b), column);
    result[index] := 0.0;
    for i := 0 to a.columns
      invariant result[index] == Sums.DotTo(x, y, i)
      invariant forall k :: 0 <= k < result.Length && k != index ==> result[k] == old(result[k])
    {
      var u, w := Get(a, row, i), Get(b, i, column);
      Operands(a, b, row, column, i);
      Sums.DotToStep(x, y, u, w, i);
      result[index] := result[index] + u * w;
    }
  }

  /** The two inner loops of `multiply` for one row of the result. */
  method FillRow(a: Matrix, b: Matrix, result: array<real>, row: nat)
    requires WellFormed(a) && WellFormed(b) && a.columns == b.rows
    requires row < a.rows && result.Length == a.rows * b.columns
    modifies result
    ensures forall c :: 0 <= c < b.columns ==>
      result[Flat(row, c, a.rows, b.columns)] == ProductElement(a, b, row, c)
    ensures forall k :: 0 <= k < result.Length && k % a.rows != row ==> result[k] == old(result[k])
  {
    for column := 0 to b.columns
      invariant forall c :: 0 <= c < column ==>
        result[Flat(row, c, a.rows, b.columns)] == ProductElement(a, b, row, c)
      invariant forall k :: 0 <= k < result.Length && k % a.rows != row ==> result[k] == old(result[k])
    {
      var index := Flat(row, column, a.rows, b.columns);
      AccumulateElement(a, b, result, row, column, index);
    }
  }

  /** Once row `row` is filled in, every row up to and including it holds the product. */
  lemma RowFilled(a: Matrix, b: Matrix, s: seq<real>, row: nat)
    requires WellFormed(a) && WellFormed(b) && a.columns == b.rows
    requires row < a.rows && |s| == a.rows * b.columns
    requires forall k :: 0 <= k < |s| && k % a.rows < row ==> s[k] == FlatProduct(a, b, k)
    requires forall c :: 0 <= c < b.columns ==>
      s[Flat(row, c, a.rows, b.columns)] == ProductElement(a, b, row, c)
    ensures forall k :: 0 <= k < |s| && k % a.rows < row + 1 ==> s[k] == FlatProduct(a, b, k)
  {
    forall k | 0 <= k < |s| && k % a.rows < row + 1
      ensures s[k] == FlatProduct(a, b, k)
    {
      FlatIndexInverse(k, a.rows, b.columns);
      if k % a.rows == row {
        assert k == Flat(row, k / a.rows, a.rows, b.columns);
      }
    }
  }

  /**
   * `multiply` with the intended result shape: a.rows x b.columns, each element accumulated
   * in place over the shared dimension.
   */
  method Multiply(a: Matrix, b: Matrix) returns (p: Matrix)
    requires WellFormed(a) && WellFormed(b) && a.columns == b.rows
    ensures p == Product(a, b)
  {
    var resultRows := a.rows;
    var resultColumns := b.columns;
    MulNonNegative(resultRows, resultColumns);
    var result := new real[resultRows * resultColumns];
    for row := 0 to resultRows
      invariant forall k :: 0 <= k < result.Length && k % resultRows < row ==>
        result[k] == FlatProduct(a, b, k)
    {
      FillRow(a, b, result, row);
      RowFilled(a, b, result[..], row);
    }
    ProductFromElements(a, b, result[..]);
    p := Matrix(resultRows, resultColumns, result[..]);
  }

  // `multiply` as written

  /**
   * One step of `multiply` as written, for result element (row, column) and summand i: the
   * write into the result array and both `get` reads stay inside their arrays. As written the
   * result has `that.rows` columns and `this.columns * that.columns` slots.
   */
  predicate AsWrittenStepInBounds(a: Matrix, b: Matrix, row: nat, column: nat, i: nat) {
    column * a.rows + row < a.columns * b.columns &&
    i * a.rows + row < |a.data| &&
    column * b.rows + i < |b.data|
  }

  /** Every step the as-written loops take (row < this.rows, column < that.rows, i < this.columns). */
  predicate MultiplyAsWrittenInBounds(a: Matrix, b: Matrix) {
    forall row: nat, column: nat, i: nat :: row < a.rows && column < b.rows && i < a.columns ==>
      AsWrittenStepInBounds(a, b, row, column, i)
  }

  /**
   * The sizes `multiply` checks are compatible for a 1x2 times a 2x1 matrix, yet the loop
   * reads `that.get(0, 1)`, array index 2 of a 2-element array.
   */
  lemma MultiplyAsWrittenOutOfBounds()
    ensures var a, b := Matrix(1, 2, [1.0, 2.0]), Matrix(2, 1, [3.0, 4.0]);
      WellFormed(a) && WellFormed(b) && a.columns == b.rows &&
      !MultiplyAsWrittenInBounds(a, b)
  {
    var a, b := Matrix(1, 2, [1.0, 2.0]), Matrix(2, 1, [3.0, 4.0]);
    assert !AsWrittenStepInBounds(a, b, 0, 1, 0);
  }

  /**
   * For square matrices of one size, the shape the source gives the result is the product's
   * and every access is in range, so `Multiply` is what the source computes there.
   */
  lemma MultiplyAsWrittenSquare(a: Matrix, b: Matrix, n: nat)
    requires IsSquare(a, n) && IsSquare(b, n)
    ensures MultiplyAsWrittenInBounds(a, b)
    ensures b.rows == Product(a, b).columns && a.columns * b.columns == |Product(a, b).data|
  {
    forall row: nat, column: nat, i: nat | row < n && column < n && i < n
      ensures AsWrittenStepInBounds(a, b, row, column, i)
    {
      FlatIndex(row, column, n, n);
      FlatIndex(row, i, n, n);
      FlatIndex(i, column, n, n);
    }
  }
}
