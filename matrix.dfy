/**
 * Square matrices over exact reals. The C++ `Matrix<_T, _rows, _cols>` keeps
 * `_rows * _cols` items in one flat array and addresses `(row, col)` at slot
 * `row + col * _cols`; rows and columns are copied out into vectors and
 * combined with the vector `Dot`. The model fixes `_rows == _cols == n`, the
 * only shape for which `matrix_mul` fits the signature `operator*` calls it
 * with; for square (and single-column) shapes the addressing is a bijection
 * (see `Index` below).
 *
 * `simd` is the build flag the vectors the matrix hands out are built with.
 */
module Matrices {
  import opened Vectors

  // ---------------------------------------------------------------------
  // Addressing.
  // ---------------------------------------------------------------------

  lemma MulMonotone(a: nat, b: nat, n: nat)
    requires a <= b
    ensures a * n <= b * n
  {
  }

  lemma IndexBound(row: nat, col: nat, n: nat)
    ensures row < n && col < n ==> row + col * n < n * n
  {
    if row < n && col < n {
      MulMonotone(col + 1, n, n);
    }
  }

  /** The flat slot `operator()(row, col)` refers to when the matrix has `cols` columns. */
  function Index(row: nat, col: nat, cols: nat): (k: nat)
    ensures row < cols && col < cols ==> k < cols * cols
  {
    IndexBound(row, col, cols);
    row + col * cols
  }

  /** Within one column block the slots grow with the column: a later column always lies further on. */
  lemma SlotOrder(n: nat, r1: nat, c1: nat, r2: nat, c2: nat)
    requires r1 < n && c1 < c2
    ensures Index(r1, c1, n) < Index(r2, c2, n)
  {
    MulMonotone(c1 + 1, c2, n);
    assert (c1 + 1) * n == c1 * n + n;
  }

  /** In a square matrix two in-range cells never share a slot. */
  lemma IndexInjective(n: nat, r1: nat, c1: nat, r2: nat, c2: nat)
    requires r1 < n && r2 < n && c1 < n && c2 < n
    requires Index(r1, c1, n) == Index(r2, c2, n)
    ensures r1 == r2 && c1 == c2
  {
    if c1 < c2 {
      SlotOrder(n, r1, c1, r2, c2);
    } else if c2 < c1 {
      SlotOrder(n, r2, c2, r1, c1);
    }
  }

  /** In a square matrix every slot is the address of exactly one in-range cell. */
  lemma IndexSurjective(n: nat, k: nat)
    requires k < n * n
    ensures k % n < n && k / n < n
    ensures Index(k % n, k / n, n) == k
  {
    if k / n >= n {
      MulMonotone(n, k / n, n);
    }
  }

  /**
   * With more than one column and `_rows != _cols` the addressing breaks: in
   * a 3-by-2 matrix the in-range cells (2, 0) and (0, 1) both land on slot 2,
   * and in a 1-by-3 matrix the in-range cell (0, 2) lands past the three-item
   * storage. (A single-column shape has `col == 0` throughout, so there
   * `row + col * _cols` is just `row`.)
   */
  lemma NonSquareIndexAliases()
    ensures Index(2, 0, 2) == Index(0, 1, 2)
    ensures Index(0, 2, 3) >= 1 * 3
  {
  }

  // ---------------------------------------------------------------------
  // Specification functions on the flat item sequence.
  // ---------------------------------------------------------------------

  /** What `GetRow(k)` copies: slot `i` holds cell `(i, k)`. */
  function RowOf(m: seq<real>, n: nat, k: nat): (r: seq<real>)
    requires |m| == n * n && k < n
    ensures |r| == n
  {
    seq(n, i requires 0 <= i < n => m[Index(i, k, n)])
  }

  /** What `GetCol(k)` copies: slot `i` holds cell `(k, i)`. */
  function ColOf(m: seq<real>, n: nat, k: nat): (r: seq<real>)
    requires |m| == n * n && k < n
    ensures |r| == n
  {
    seq(n, i requires 0 <= i < n => m[Index(k, i, n)])
  }

  /** Cell `(r, c)` of `matrix_mul(a, b)` when `Dot` sees `terms` components. */
  function ProductEntry(a: seq<real>, b: seq<real>, n: nat, r: nat, c: nat, terms: nat): (x: real)
    requires |a| == n * n && |b| == n * n && r < n && c < n && terms <= n
  {
    DotSum(RowOf(a, n, r), ColOf(b, n, c), terms)
  }

  /** `vec_transform(m, v)` when `Dot` sees `terms` components. */
  function TransformOf(m: seq<real>, n: nat, v: seq<real>, terms: nat): (t: seq<real>)
    requires |m| == n * n && |v| >= n && terms <= n
    ensures |t| == n
  {
    seq(n, i requires 0 <= i < n => DotSum(RowOf(m, n, i), v, terms))
  }

  ghost predicate IsIdentity(m: seq<real>, n: nat)
  {
    |m| == n * n &&
    forall r, c | 0 <= r < n && 0 <= c < n :: m[Index(r, c, n)] == if r == c then 1.0 else 0.0
  }

  ghost predicate IsDiagonal(m: seq<real>, n: nat, d: seq<real>)
  {
    |m| == n * n && |d| >= n &&
    forall r, c | 0 <= r < n && 0 <= c < n :: m[Index(r, c, n)] == if r == c then d[r] else 0.0
  }

  /** The identity with `b[c]` written into cell `(n - 1, c)` for every `c < n - 1`. */
  ghost predicate IsTranslation(m: seq<real>, n: nat, b: seq<real>)
  {
    n >= 1 && |m| == n * n && |b| >= n - 1 &&
    forall r, c | 0 <= r < n && 0 <= c < n ::
      m[Index(r, c, n)] == if r == n - 1 && c < n - 1 then b[c] else if r == c then 1.0 else 0.0
  }

  ghost predicate IsSymmetric(m: seq<real>, n: nat)
  {
    |m| == n * n &&
    forall r, c | 0 <= r < n && 0 <= c < n :: m[Index(r, c, n)] == m[Index(c, r, n)]
  }

  // ---------------------------------------------------------------------
  // Properties of the specification functions.
  // ---------------------------------------------------------------------

  /**
   * Transforming by the identity returns the vector, except that components
   * `Dot` does not see (`i >= terms`) come out zero.
   */
  lemma IdentityTransform(m: seq<real>, n: nat, v: seq<real>, terms: nat)
    requires IsIdentity(m, n) && |v| >= n && terms <= n
    ensures forall i | 0 <= i < n :: TransformOf(m, n, v, terms)[i] == if i < terms then v[i] else 0.0
  {
    forall i | 0 <= i < n
      ensures TransformOf(m, n, v, terms)[i] == if i < terms then v[i] else 0.0
    {
      var row := RowOf(m, n, i);
      assert row[i] == 1.0;
      DotSumSingle(row, v, terms, i);
    }
  }

  /**
   * Transforming by `Translation(b)` when `Dot` sees `terms` components.
   * With every component seen (`terms == n`) it adds `b[i]` times the last
   * component to component `i` and keeps the last component, so a point
   * `(p, 1)` moves to `(p + b, 1)`. When the last component is not seen
   * (`n > 4` in a SIMD build) the offset is lost.
   */
  lemma TranslationTransform(m: seq<real>, n: nat, b: seq<real>, v: seq<real>, terms: nat)
    requires IsTranslation(m, n, b) && |v| >= n && terms <= n
    ensures forall i | 0 <= i < n - 1 ::
              TransformOf(m, n, v, terms)[i] == (if i < terms then v[i] else 0.0) + (if n - 1 < terms then b[i] * v[n - 1] else 0.0)
    ensures TransformOf(m, n, v, terms)[n - 1] == if n - 1 < terms then v[n - 1] else 0.0
    ensures terms == n ==> forall i | 0 <= i < n - 1 :: TransformOf(m, n, v, terms)[i] == v[i] + b[i] * v[n - 1]
    ensures terms == n ==> TransformOf(m, n, v, terms)[n - 1] == v[n - 1]
  {
    forall i | 0 <= i < n - 1
      ensures TransformOf(m, n, v, terms)[i] ==
        (if i < terms then v[i] else 0.0) + (if n - 1 < terms then b[i] * v[n - 1] else 0.0)
    {
      var row := RowOf(m, n, i);
      assert row[i] == 1.0 && row[n - 1] == b[i];
      DotSumPair(row, v, terms, i, n - 1);
    }
    var last := RowOf(m, n, n - 1);
    assert last[n - 1] == 1.0;
    DotSumSingle(last, v, terms, n - 1);
  }

  /** A scalar matrix is the identity exactly when its base is all ones. */
  lemma ScalarIsIdentityIff(m: seq<real>, n: nat, d: seq<real>)
    requires IsDiagonal(m, n, d)
    ensures IsIdentity(m, n) <==> forall i | 0 <= i < n :: d[i] == 1.0
  {
    if IsIdentity(m, n) {
      forall i | 0 <= i < n
        ensures d[i] == 1.0
      {
        assert m[Index(i, i, n)] == d[i];
      }
    }
  }

  /**
   * `matrix_mul(Identity(), B)` is the transpose of `B` on the rows `Dot`
   * sees, and zero on the others: the row copied out of the identity picks
   * cell `(c, r)` out of column `c` of `B`.
   */
  lemma IdentityProductIsTranspose(a: seq<real>, b: seq<real>, n: nat, terms: nat)
    requires IsIdentity(a, n) && |b| == n * n && terms <= n
    ensures forall r, c | 0 <= r < n && 0 <= c < n ::
      ProductEntry(a, b, n, r, c, terms) == if r < terms then b[Index(c, r, n)] else 0.0
  {
    forall r, c | 0 <= r < n && 0 <= c < n
      ensures ProductEntry(a, b, n, r, c, terms) == if r < terms then b[Index(c, r, n)] else 0.0
    {
      var row := RowOf(a, n, r);
      assert row[r] == 1.0;
      DotSumSingle(row, ColOf(b, n, c), terms, r);
    }
  }

  /** `matrix_mul(A, Identity())` is the transpose of `A` on the columns `Dot` sees, and zero on the others. */
  lemma ProductIdentityIsTranspose(a: seq<real>, b: seq<real>, n: nat, terms: nat)
    requires IsIdentity(b, n) && |a| == n * n && terms <= n
    ensures forall r, c | 0 <= r < n && 0 <= c < n ::
      ProductEntry(a, b, n, r, c, terms) == if c < terms then a[Index(c, r, n)] else 0.0
  {
    forall r, c | 0 <= r < n && 0 <= c < n
      ensures ProductEntry(a, b, n, r, c, terms) == if c < terms then a[Index(c, r, n)] else 0.0
    {
      var row, col := RowOf(a, n, r), ColOf(b, n, c);
      assert col[c] == 1.0;
      DotSumCommutes(row, col, terms);
      DotSumSingle(col, row, terms, c);
    }
  }

  /**
   * When multiplying by the identity on the left gives `B` back. With every
   * component seen (`terms == n`) that is exactly when `B` is symmetric.
   */
  lemma IdentityProductIsBIff(a: seq<real>, b: seq<real>, n: nat, terms: nat)
    requires IsIdentity(a, n) && |b| == n * n && terms <= n
    ensures (forall r, c | 0 <= r < n && 0 <= c < n :: ProductEntry(a, b, n, r, c, terms) == b[Index(r, c, n)])
        <==> (forall r, c | 0 <= r < n && 0 <= c < n :: b[Index(r, c, n)] == if r < terms then b[Index(c, r, n)] else 0.0)
    ensures terms == n ==>
      ((forall r, c | 0 <= r < n && 0 <= c < n :: ProductEntry(a, b, n, r, c, terms) == b[Index(r, c, n)])
        <==> IsSymmetric(b, n))
  {
    IdentityProductIsTranspose(a, b, n, terms);
  }

  /** The copy a vector holds agrees with a specification row on every slot `Dot` reads. */
  lemma DotOfCopies(x: seq<real>, y: seq<real>, a: seq<real>, b: seq<real>, n: nat, k: nat)
    requires k <= n && n <= |x| && n <= |y| && n <= |a| && n <= |b|
    requires x[..n] == a[..n] && y[..n] == b[..n]
    ensures DotSum(x, y, k) == DotSum(a, b, k)
  {
    assert x[..k] == x[..n][..k] && a[..k] == a[..n][..k];
    assert y[..k] == y[..n][..k] && b[..k] == b[..n][..k];
    DotSumPrefixes(x, y, a, b, k);
  }

  // ---------------------------------------------------------------------
  // The matrix.
  // ---------------------------------------------------------------------

  class Matrix {
    const n: nat
    const simd: bool
    const items: array<real>

    ghost predicate Valid()
    {
      items.Length == n * n
    }

    /** `operator()(row, col)` used for reading. */
    function At(row: nat, col: nat): (x: real)
      reads items
      requires Valid() && row < n && col < n
      ensures x == RowOf(items[..], n, col)[row]
      ensures x == ColOf(items[..], n, row)[col]
    {
      items[Index(row, col, n)]
    }

    /** The default constructor zero-fills every item. */
    constructor (n: nat, simd: bool)
      ensures this.n == n && this.simd == simd && Valid() && fresh(items)
      ensures forall k | 0 <= k < items.Length :: items[k] == 0.0
    {
      this.n, this.simd := n, simd;
      var a := new real[n * n];
      for k := 0 to n * n
        invariant forall j | 0 <= j < k :: a[j] == 0.0
      {
        a[k] := 0.0;
      }
      items := a;
    }

    /** The initializer-list constructor: the values in storage order, then zeros. */
    constructor FromList(n: nat, simd: bool, values: seq<real>)
      requires |values| <= n * n
      ensures this.n == n && this.simd == simd && Valid() && fresh(items)
      ensures items[..|values|] == values
      ensures forall k | |values| <= k < items.Length :: items[k] == 0.0
    {
      this.n, this.simd := n, simd;
      var a := new real[n * n];
      var k := 0;
      while k < |values|
        invariant k <= |values|
        invariant a[..k] == values[..k]
      {
        a[k] := values[k];
        k := k + 1;
      }
      while k < n * n
        invariant |values| <= k <= n * n
        invariant a[..|values|] == values
        invariant forall j | |values| <= j < k :: a[j] == 0.0
      {
        a[k] := 0.0;
        k := k + 1;
      }
      items := a;
    }

    /** `operator()(row, col) = x`: one cell changes, every other cell keeps its value. */
    method Set(row: nat, col: nat, x: real)
      requires Valid() && row < n && col < n
      modifies items
      ensures items[..] == old(items[..])[Index(row, col, n) := x]
      ensures At(row, col) == x
      ensures forall r, c | 0 <= r < n && 0 <= c < n && (r != row || c != col) :: At(r, c) == old(At(r, c))
    {
      items[Index(row, col, n)] := x;
      forall r, c | 0 <= r < n && 0 <= c < n && (r != row || c != col)
        ensures Index(r, c, n) != Index(row, col, n)
      {
        if Index(r, c, n) == Index(row, col, n) {
          IndexInjective(n, r, c, row, col);
        }
      }
    }

    /** `GetRow(k)`: a fresh vector holding cells `(0, k) .. (n - 1, k)`, padding zero. */
    method GetRow(k: nat) returns (ret: Vector)
      requires Valid() && k < n
      ensures fresh(ret) && fresh(ret.items) && ret.Valid() && ret.size == n && ret.simd == simd
      ensures ret.items[..n] == RowOf(items[..], n, k)
      ensures forall i | 0 <= i < n :: ret.items[i] == At(i, k)
      ensures ret.PaddingZero()
    {
      ret := new Vector.Zero(n, simd);
      for i := 0 to n
        invariant forall j | 0 <= j < i :: ret.items[j] == At(j, k)
        invariant forall j | i <= j < ret.items.Length :: ret.items[j] == 0.0
      {
        ret.items[i] := items[Index(i, k, n)];
      }
    }

    /** `GetCol(k)`: a fresh vector holding cells `(k, 0) .. (k, n - 1)`, padding zero. */
    method GetCol(k: nat) returns (ret: Vector)
      requires Valid() && k < n
      ensures fresh(ret) && fresh(ret.items) && ret.Valid() && ret.size == n && ret.simd == simd
      ensures ret.items[..n] == ColOf(items[..], n, k)
      ensures forall i | 0 <= i < n :: ret.items[i] == At(k, i)
      ensures ret.PaddingZero()
    {
      ret := new Vector.Zero(n, simd);
      for i := 0 to n
        invariant forall j | 0 <= j < i :: ret.items[j] == At(k, j)
        invariant forall j | i <= j < ret.items.Length :: ret.items[j] == 0.0
      {
        ret.items[i] := items[Index(k, i, n)];
      }
    }

    /** `Identity()`: ones on the diagonal, zeros elsewhere. */
    static method Identity(n: nat, simd: bool) returns (ret: Matrix)
      ensures fresh(ret) && fresh(ret.items) && ret.Valid() && ret.n == n && ret.simd == simd
      ensures IsIdentity(ret.items[..], n)
    {
      ret := new Matrix(n, simd);
      for i := 0 to n
        invariant forall r, c | 0 <= r < n && 0 <= c < n :: ret.At(r, c) == if r == c && r < i then 1.0 else 0.0
      {
        ret.Set(i, i, 1.0);
      }
      assert forall r, c | 0 <= r < n && 0 <= c < n :: ret.items[..][Index(r, c, n)] == ret.At(r, c);
    }

    /** `Scalar(base)`: `base` on the diagonal, zeros elsewhere. */
    static method Scalar(n: nat, simd: bool, base: Vector) returns (ret: Matrix)
      requires base.Valid() && base.size == n
      ensures fresh(ret) && fresh(ret.items) && ret.Valid() && ret.n == n && ret.simd == simd
      ensures IsDiagonal(ret.items[..], n, base.items[..])
    {
      ret := new Matrix(n, simd);
      for i := 0 to n
        invariant forall r, c | 0 <= r < n && 0 <= c < n :: ret.At(r, c) == if r == c && r < i then base.items[r] else 0.0
      {
        ret.Set(i, i, base.items[i]);
      }
      assert forall r, c | 0 <= r < n && 0 <= c < n :: ret.items[..][Index(r, c, n)] == ret.At(r, c);
    }

    /** `Translation(base)`: the identity with `base` written along row index `n - 1`. */
    static method Translation(n: nat, simd: bool, base: Vector) returns (ret: Matrix)
      requires n >= 1 && base.Valid() && base.size == n - 1
      ensures fresh(ret) && fresh(ret.items) && ret.Valid() && ret.n == n && ret.simd == simd
      ensures IsTranslation(ret.items[..], n, base.items[..])
    {
      ret := Identity(n, simd);
      for i := 0 to n - 1
        invariant forall r, c | 0 <= r < n && 0 <= c < n ::
          ret.At(r, c) == if r == n - 1 && c < i then base.items[c] else if r == c then 1.0 else 0.0
      {
        ret.Set(n - 1, i, base.items[i]);
      }
      assert forall r, c | 0 <= r < n && 0 <= c < n :: ret.items[..][Index(r, c, n)] == ret.At(r, c);
    }
  }

  // ---------------------------------------------------------------------
  // Products.
  // ---------------------------------------------------------------------

  /**
   * `matrix_mul(A, B, ret)`: cell `(r, c)` of `ret` becomes `Dot` of row
   * copy `r` of `A` with column copy `c` of `B`, so it sees `Reach(n, simd)`
   * components.
   */
  method MatrixMul(a: Matrix, b: Matrix, ret: Matrix)
    requires a.Valid() && b.Valid() && ret.Valid()
    requires b.n == a.n && ret.n == a.n && b.simd == a.simd
    requires ret.items != a.items && ret.items != b.items
    modifies ret.items
    ensures forall r, c | 0 <= r < a.n && 0 <= c < a.n ::
      ret.At(r, c) == ProductEntry(a.items[..], b.items[..], a.n, r, c, Reach(a.n, a.simd))
  {
    var n, reach := a.n, Reach(a.n, a.simd);
    ReachIsSize(n, a.simd);
    for row := 0 to n
      invariant forall r, c | 0 <= r < row && 0 <= c < n ::
        ret.At(r, c) == ProductEntry(a.items[..], b.items[..], n, r, c, reach)
    {
      var cRow := a.GetRow(row);
      for col := 0 to n
        invariant forall r, c | 0 <= r < row && 0 <= c < n ::
          ret.At(r, c) == ProductEntry(a.items[..], b.items[..], n, r, c, reach)
        invariant cRow.items[..n] == RowOf(a.items[..], n, row)
        invariant forall c | 0 <= c < col ::
          ret.At(row, c) == ProductEntry(a.items[..], b.items[..], n, row, c, reach)
      {
        var cCol := b.GetCol(col);
        var d := Dot(cRow, cCol);
        var rowSpec, colSpec := RowOf(a.items[..], n, row), ColOf(b.items[..], n, col);
        assert rowSpec[..n] == rowSpec && colSpec[..n] == colSpec;
        DotOfCopies(cRow.items[..], cCol.items[..], rowSpec, colSpec, n, reach);
        ret.Set(row, col, d);
      }
    }
  }

  /** `A * B`: a fresh zero matrix filled by `matrix_mul`. */
  method Mul(a: Matrix, b: Matrix) returns (ret: Matrix)
    requires a.Valid() && b.Valid() && b.n == a.n && b.simd == a.simd
    ensures fresh(ret) && fresh(ret.items) && ret.Valid() && ret.n == a.n && ret.simd == a.simd
    ensures forall r, c | 0 <= r < a.n && 0 <= c < a.n ::
      ret.At(r, c) == ProductEntry(a.items[..], b.items[..], a.n, r, c, Reach(a.n, a.simd))
  {
    ret := new Matrix(a.n, a.simd);
    MatrixMul(a, b, ret);
  }

  /** `vec_transform(mat, vec, ret)`: component `i` of `ret` becomes `Dot(mat.GetRow(i), vec)`. */
  method VecTransform(mat: Matrix, vec: Vector, ret: Vector)
    requires mat.Valid() && vec.Valid() && ret.Valid()
    requires vec.size == mat.n && ret.size == mat.n && vec.simd == mat.simd
    requires ret.items != mat.items && ret.items != vec.items
    modifies ret.items
    ensures ret.items[..mat.n] == TransformOf(mat.items[..], mat.n, vec.items[..], Reach(mat.n, mat.simd))
    ensures ret.items[mat.n..] == old(ret.items[mat.n..])
  {
    var n, reach := mat.n, Reach(mat.n, mat.simd);
    ReachIsSize(n, mat.simd);
    for i := 0 to n
      invariant forall j | 0 <= j < i :: ret.items[j] == DotSum(RowOf(mat.items[..], n, j), vec.items[..], reach)
      invariant ret.items[n..] == old(ret.items[n..])
    {
      var row := mat.GetRow(i);
      var d := Dot(row, vec);
      DotOfCopies(row.items[..], vec.items[..], RowOf(mat.items[..], n, i), vec.items[..], n, reach);
      ret.items[i] := d;
    }
  }

  /** `mat * vec`: a fresh zero vector filled by `vec_transform`. */
  method Transform(mat: Matrix, vec: Vector) returns (ret: Vector)
    requires mat.Valid() && vec.Valid() && vec.size == mat.n && vec.simd == mat.simd
    ensures fresh(ret) && fresh(ret.items) && ret.Valid() && ret.size == mat.n && ret.simd == mat.simd
    ensures ret.items[..mat.n] == TransformOf(mat.items[..], mat.n, vec.items[..], Reach(mat.n, mat.simd))
    ensures ret.PaddingZero()
  {
    ret := new Vector.Zero(mat.n, mat.simd);
    VecTransform(mat, vec, ret);
    assert forall i | mat.n <= i < ret.items.Length :: ret.items[i] == ret.items[mat.n..][i - mat.n];
  }
}
