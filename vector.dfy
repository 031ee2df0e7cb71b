/**
 * The fixed-size vector `Vector<_T,_l>` over exact numbers.
 *
 * A vector is a class whose `items` array is the C++ member array. `size` is
 * the template length `_l`; `simd` records whether the build that owns the
 * vector has ARGON_SIMD_ENABLED defined. That flag decides both the storage
 * length and which branch of every operator runs. The SIMD helpers
 * (`vec_*_simd`) are separate methods: each works on one 4-lane register.
 */
module Vectors {
  import opened Simd

  function Min(a: nat, b: nat): (m: nat)
  {
    if a < b then a else b
  }

  /**
   * Physical slot count of `items`: `SIMDPadding`, i.e. `max(4, _l)`, in a
   * SIMD build, and exactly `_l` otherwise.
   */
  function PaddedLength(size: nat, simd: bool): (n: nat)
    ensures n >= size
    ensures simd ==> n >= RegisterLanes
    ensures n > size ==> simd && size < RegisterLanes && n == RegisterLanes
    ensures !simd ==> n == size
  {
    if simd then (if size < RegisterLanes then RegisterLanes else size) else size
  }

  /** The physical slots an element-wise operator writes: one register, or the `_l` slots of the loop. */
  function WrittenSlots(size: nat, simd: bool): (n: nat)
  {
    if simd then RegisterLanes else size
  }

  /** How many logical components an operation actually sees: all `size` of them, or one register's worth. */
  function Reach(size: nat, simd: bool): (n: nat)
  {
    Min(size, WrittenSlots(size, simd))
  }

  /** The SIMD path sees every component exactly when the vector fits in one register. */
  lemma ReachIsSize(size: nat, simd: bool)
    ensures Reach(size, simd) <= size
    ensures Reach(size, simd) == size <==> (!simd || size <= RegisterLanes)
  {
  }

  /** `_mm_load_ps`: the first four slots of an array as a register. */
  function Load(s: seq<real>): (r: Reg)
    requires |s| >= RegisterLanes
    ensures forall i | 0 <= i < RegisterLanes :: r[i] == s[i]
  {
    s[..RegisterLanes]
  }

  /** The contents of an array after `_mm_store_ps` wrote register `r` over its first four slots. */
  function Stored(r: Reg, s: seq<real>): (t: seq<real>)
    requires |s| >= RegisterLanes
    ensures |t| == |s|
    ensures forall i | 0 <= i < |s| :: t[i] == if i < RegisterLanes then r[i] else s[i]
  {
    r + s[RegisterLanes..]
  }

  /** Loading what was just stored gives the register back; storing what was just loaded changes nothing. */
  lemma LoadStoreRoundTrip(r: Reg, s: seq<real>)
    requires |s| >= RegisterLanes
    ensures |Stored(r, s)| == |s|
    ensures Load(Stored(r, s)) == r
    ensures Stored(Load(s), s) == s
  {
    assert Stored(r, s)[..RegisterLanes] == r;
    assert s[..RegisterLanes] + s[RegisterLanes..] == s;
  }

  // ---------------------------------------------------------------------
  // Reference sums of the scalar loops, accumulated from index 0 upwards.
  // ---------------------------------------------------------------------

  /** The loop of `Dot`: the sum of `a[i] * b[i]` for `i < n`. */
  function DotSum(a: seq<real>, b: seq<real>, n: nat): (r: real)
    requires n <= |a| && n <= |b|
  {
    if n == 0 then 0.0 else DotSum(a, b, n - 1) + a[n - 1] * b[n - 1]
  }

  /** The loop of `lengthSquared`: the sum of `a[i] * a[i]` for `i < n`. */
  function SquareSum(a: seq<real>, n: nat): (r: real)
    requires n <= |a|
  {
    if n == 0 then 0.0 else SquareSum(a, n - 1) + a[n - 1] * a[n - 1]
  }

  /** The loop of `DistanceSquared`: the sum of `(a[i] - b[i])^2` for `i < n`. */
  function DistSum(a: seq<real>, b: seq<real>, n: nat): (r: real)
    requires n <= |a| && n <= |b|
  {
    if n == 0 then 0.0 else DistSum(a, b, n - 1) + (a[n - 1] - b[n - 1]) * (a[n - 1] - b[n - 1])
  }

  lemma {:induction false} DotSumCommutes(a: seq<real>, b: seq<real>, n: nat)
    requires n <= |a| && n <= |b|
    ensures DotSum(a, b, n) == DotSum(b, a, n)
  {
    if n > 0 {
      DotSumCommutes(a, b, n - 1);
    }
  }

  /** Slots of `a` that hold zero add nothing to the dot product. */
  lemma {:induction false} DotSumZeroTail(a: seq<real>, b: seq<real>, n: nat, m: nat)
    requires n <= m <= |a| && m <= |b|
    requires forall i | n <= i < m :: a[i] == 0.0
    ensures DotSum(a, b, m) == DotSum(a, b, n)
  {
    if m > n {
      DotSumZeroTail(a, b, n, m - 1);
    }
  }

  /** The dot product over `n` slots depends only on the first `n` slots of each operand. */
  lemma {:induction false} DotSumPrefixes(a: seq<real>, b: seq<real>, a': seq<real>, b': seq<real>, n: nat)
    requires n <= |a| && n <= |b| && n <= |a'| && n <= |b'|
    requires a[..n] == a'[..n] && b[..n] == b'[..n]
    ensures DotSum(a, b, n) == DotSum(a', b', n)
  {
    if n > 0 {
      assert a[..n - 1] == a[..n][..n - 1] && a'[..n - 1] == a'[..n][..n - 1];
      assert b[..n - 1] == b[..n][..n - 1] && b'[..n - 1] == b'[..n][..n - 1];
      assert a[n - 1] == a[..n][n - 1] && a'[n - 1] == a'[..n][n - 1];
      assert b[n - 1] == b[..n][n - 1] && b'[n - 1] == b'[..n][n - 1];
      DotSumPrefixes(a, b, a', b', n - 1);
    }
  }

  /** If `a` is zero everywhere below `n` except at `p`, the dot product is the one term at `p`. */
  lemma {:induction false} DotSumSingle(a: seq<real>, b: seq<real>, n: nat, p: nat)
    requires n <= |a| && n <= |b|
    requires forall j | 0 <= j < n && j != p :: a[j] == 0.0
    ensures DotSum(a, b, n) == if p < n then a[p] * b[p] else 0.0
  {
    if n > 0 {
      DotSumSingle(a, b, n - 1, p);
    }
  }

  /** If `a` is zero everywhere below `n` except at `p` and `q`, the dot product has those two terms. */
  lemma {:induction false} DotSumPair(a: seq<real>, b: seq<real>, n: nat, p: nat, q: nat)
    requires n <= |a| && n <= |b| && p != q
    requires forall j | 0 <= j < n && j != p && j != q :: a[j] == 0.0
    ensures DotSum(a, b, n) == (if p < n then a[p] * b[p] else 0.0) + (if q < n then a[q] * b[q] else 0.0)
  {
    if n > 0 {
      DotSumPair(a, b, n - 1, p, q);
    }
  }

  /** `lengthSquared` is `Dot(v, v)`. */
  lemma {:induction false} SquareSumIsDotSum(a: seq<real>, n: nat)
    requires n <= |a|
    ensures SquareSum(a, n) == DotSum(a, a, n)
  {
    if n > 0 {
      SquareSumIsDotSum(a, n - 1);
    }
  }

  /** Dividing every component by `c` divides the sum of squares by `q == c * c`. */
  lemma {:induction false} SquareSumScaled(a: seq<real>, b: seq<real>, k: nat, c: real, q: real)
    requires k <= |a| && k <= |b| && c != 0.0 && q == c * c
    requires forall i | 0 <= i < k :: b[i] == a[i] / c
    ensures Times(SquareSum(b, k), q) == SquareSum(a, k)
  {
    if k > 0 {
      SquareSumScaled(a, b, k - 1, c, q);
      var x, y := b[k - 1], a[k - 1];
      assert x * c == y;
      assert (x * x) * q == (x * c) * (x * c);
      assert SquareSum(b, k) * q == SquareSum(b, k - 1) * q + (x * x) * q;
    }
  }

  /*
   * The cancellation below goes through `Times` and `NonZero` so that the
   * steps between the lemmas are plain rewriting of equal terms.
   */

  function Times(x: real, y: real): (r: real)
  {
    x * y
  }

  predicate NonZero(x: real)
  {
    x != 0.0
  }

  lemma SquareNonzero(x: real)
    requires x != 0.0
    ensures NonZero(x * x)
  {
    if x < 0.0 {
      assert (-x) * (-x) > 0.0;
    }
  }

  lemma CancelFactor(s: real, q: real)
    requires NonZero(q) && Times(s, q) == q
    ensures s == 1.0
  {
    assert q != 0.0 && s * q == q;
    assert (s - 1.0) * q == 0.0;
  }

  /**
   * Dividing by a magnitude `len` whose square is the sum of squares over the
   * first `k` components leaves a vector whose sum of squares over those
   * components is one: the squared form of "normalize yields length 1".
   */
  lemma UnitAfterDivision(a: seq<real>, b: seq<real>, k: nat, len: real)
    requires k <= |a| && k <= |b| && len != 0.0
    requires len * len == SquareSum(a, k)
    requires forall i | 0 <= i < k :: b[i] == a[i] / len
    ensures SquareSum(b, k) == 1.0
  {
    SquareSumScaled(a, b, k, len, SquareSum(a, k));
    SquareNonzero(len);
    CancelFactor(SquareSum(b, k), SquareSum(a, k));
  }

  lemma {:induction false} DistSumSelf(a: seq<real>, n: nat)
    requires n <= |a|
    ensures DistSum(a, a, n) == 0.0
  {
    if n > 0 {
      DistSumSelf(a, n - 1);
    }
  }

  lemma {:induction false} DistSumSymmetric(a: seq<real>, b: seq<real>, n: nat)
    requires n <= |a| && n <= |b|
    ensures DistSum(a, b, n) == DistSum(b, a, n)
  {
    if n > 0 {
      DistSumSymmetric(a, b, n - 1);
    }
  }

  /** Slots where `a` and `b` agree add nothing to the squared distance. */
  lemma {:induction false} DistSumEqualTail(a: seq<real>, b: seq<real>, n: nat, m: nat)
    requires n <= m <= |a| && m <= |b|
    requires forall i | n <= i < m :: a[i] == b[i]
    ensures DistSum(a, b, m) == DistSum(a, b, n)
  {
    if m > n {
      DistSumEqualTail(a, b, n, m - 1);
    }
  }

  lemma DotSumThree(a: seq<real>, b: seq<real>)
    requires |a| >= 3 && |b| >= 3
    ensures DotSum(a, b, 3) == a[0] * b[0] + a[1] * b[1] + a[2] * b[2]
  {
    assert DotSum(a, b, 1) == a[0] * b[0];
    assert DotSum(a, b, 2) == a[0] * b[0] + a[1] * b[1];
  }

  lemma FourSlotDot(a: seq<real>, b: seq<real>)
    requires |a| >= RegisterLanes && |b| >= RegisterLanes
    ensures DotSum(a, b, RegisterLanes) == a[0] * b[0] + a[1] * b[1] + a[2] * b[2] + a[3] * b[3]
  {
    DotSumThree(a, b);
  }

  lemma FourSlotSquare(a: seq<real>)
    requires |a| >= RegisterLanes
    ensures SquareSum(a, RegisterLanes) == a[0] * a[0] + a[1] * a[1] + a[2] * a[2] + a[3] * a[3]
  {
    assert SquareSum(a, 1) == a[0] * a[0];
    assert SquareSum(a, 2) == a[0] * a[0] + a[1] * a[1];
    assert SquareSum(a, 3) == a[0] * a[0] + a[1] * a[1] + a[2] * a[2];
  }

  lemma FourSlotDist(a: seq<real>, b: seq<real>)
    requires |a| >= RegisterLanes && |b| >= RegisterLanes
    ensures DistSum(a, b, RegisterLanes) ==
      (a[0] - b[0]) * (a[0] - b[0]) + (a[1] - b[1]) * (a[1] - b[1]) + (a[2] - b[2]) * (a[2] - b[2]) + (a[3] - b[3]) * (a[3] - b[3])
  {
    assert DistSum(a, b, 1) == (a[0] - b[0]) * (a[0] - b[0]);
    assert DistSum(a, b, 2) == (a[0] - b[0]) * (a[0] - b[0]) + (a[1] - b[1]) * (a[1] - b[1]);
    assert DistSum(a, b, 3) == (a[0] - b[0]) * (a[0] - b[0]) + (a[1] - b[1]) * (a[1] - b[1]) + (a[2] - b[2]) * (a[2] - b[2]);
  }

  /** The four-slot sums written out term by term, as a register reduction produces them. */
  lemma FourSlotSums(a: seq<real>, b: seq<real>)
    requires |a| >= RegisterLanes && |b| >= RegisterLanes
    ensures DotSum(a, b, RegisterLanes) == a[0] * b[0] + a[1] * b[1] + a[2] * b[2] + a[3] * b[3]
    ensures SquareSum(a, RegisterLanes) == a[0] * a[0] + a[1] * a[1] + a[2] * a[2] + a[3] * a[3]
    ensures DistSum(a, b, RegisterLanes) ==
      (a[0] - b[0]) * (a[0] - b[0]) + (a[1] - b[1]) * (a[1] - b[1]) + (a[2] - b[2]) * (a[2] - b[2]) + (a[3] - b[3]) * (a[3] - b[3])
  {
    FourSlotDot(a, b);
    FourSlotSquare(a);
    FourSlotDist(a, b);
  }

  /** A 5-component vector whose dot product with itself differs between the first four slots and all five. */
  lemma FifthComponentCounts()
    ensures var a := [0.0, 0.0, 0.0, 0.0, 1.0]; DotSum(a, a, RegisterLanes) == 0.0 && DotSum(a, a, 5) == 1.0
  {
    var a := [0.0, 0.0, 0.0, 0.0, 1.0];
    assert DotSum(a, a, 1) == 0.0;
    assert DotSum(a, a, 4) == 0.0;
  }

  /**
   * For `_l = 5` in a SIMD build, `(1, 0, 0, 0, 1)` already has the four-slot
   * sum of squares 1, so dividing by `len = 1` satisfies the unit-length
   * condition, while its five-component sum of squares is 2.
   */
  lemma NormalizeIgnoresFifthComponent()
    ensures var a := [1.0, 0.0, 0.0, 0.0, 1.0];
      SquareSum(a, RegisterLanes) == 1.0 * 1.0 && SquareSum(a, 5) == 2.0
  {
    var a := [1.0, 0.0, 0.0, 0.0, 1.0];
    assert SquareSum(a, 1) == 1.0;
    assert SquareSum(a, 4) == 1.0;
  }

  // ---------------------------------------------------------------------
  // Per-component formulas of Lerp, Reflect and Cross.
  // ---------------------------------------------------------------------

  /** One component of the scalar `Lerp`: `A[i] + (B[i] - A[i]) * t`. */
  function LerpScalar(a: real, b: real, t: real): (r: real)
  {
    a + (b - a) * t
  }

  /** One lane of `vec_lerp_simd`: `((B - A) + A) * t`. */
  function LerpLane(a: real, b: real, t: real): (r: real)
  {
    ((b - a) + a) * t
  }

  lemma LerpScalarEndpoints(a: real, b: real)
    ensures LerpScalar(a, b, 0.0) == a
    ensures LerpScalar(a, b, 1.0) == b
  {
  }

  /** The SIMD lane ignores `A` altogether: it is `B * t`. */
  lemma LerpLaneIsScaledEnd(a: real, b: real, t: real)
    ensures LerpLane(a, b, t) == b * t
  {
  }

  /** The two `Lerp` paths agree on a component exactly when `t == 1` or that component of `A` is zero. */
  lemma LerpPathsAgreeIff(a: real, b: real, t: real)
    ensures LerpLane(a, b, t) == LerpScalar(a, b, t) <==> (t == 1.0 || a == 0.0)
  {
    assert LerpScalar(a, b, t) - LerpLane(a, b, t) == a * (1.0 - t);
    if a != 0.0 && t != 1.0 {
      assert 1.0 - t != 0.0;
      assert a * (1.0 - t) != 0.0;
    }
  }

  /** One component of `Reflect` as both paths compute it: `v - 2 * (v * n) * n`. */
  function ReflectAt(v: real, n: real): (r: real)
  {
    v - 2.0 * (v * n) * n
  }

  /** The textbook reflection `V - 2 * Dot(V, N) * N` over the first `size` components. */
  function Mirror(v: seq<real>, n: seq<real>, size: nat): (r: seq<real>)
    requires size <= |v| && size <= |n|
    ensures |r| == size
  {
    seq(size, i requires 0 <= i < size => v[i] - 2.0 * DotSum(v, n, size) * n[i])
  }

  /** When the normal lies along one axis `p`, the per-component formula is the textbook reflection. */
  lemma ReflectIsMirrorOnAxisNormal(v: seq<real>, n: seq<real>, size: nat, p: nat)
    requires size <= |v| && size <= |n| && p < size
    requires forall j | 0 <= j < size && j != p :: n[j] == 0.0
    ensures forall i | 0 <= i < size :: ReflectAt(v[i], n[i]) == Mirror(v, n, size)[i]
  {
    DotSumCommutes(v, n, size);
    DotSumSingle(n, v, size, p);
  }

  /**
   * The exact condition: the per-component formula is the textbook reflection
   * precisely when `v[i] * n[i] * n[i] == Dot(v, n) * n[i]` in every component.
   */
  lemma ReflectIsMirrorIff(v: seq<real>, n: seq<real>, size: nat)
    requires size <= |v| && size <= |n|
    ensures (forall i | 0 <= i < size :: ReflectAt(v[i], n[i]) == Mirror(v, n, size)[i])
        <==> (forall i | 0 <= i < size :: v[i] * n[i] * n[i] == DotSum(v, n, size) * n[i])
  {
    var d := DotSum(v, n, size);
    forall i | 0 <= i < size
      ensures ReflectAt(v[i], n[i]) == Mirror(v, n, size)[i] <==> v[i] * n[i] * n[i] == d * n[i]
    {
      assert Mirror(v, n, size)[i] == v[i] - 2.0 * d * n[i];
      assert ReflectAt(v[i], n[i]) == v[i] - 2.0 * (v[i] * n[i] * n[i]);
    }
  }

  /** For the unit normal (0.6, 0.8) the per-component formula is not the textbook reflection. */
  lemma ReflectIsNotMirror()
    ensures var v, n := [1.0, 0.0], [0.6, 0.8];
      ReflectAt(v[1], n[1]) == 0.0 && Mirror(v, n, 2)[1] == -0.96
  {
    var v, n := [1.0, 0.0], [0.6, 0.8];
    assert DotSum(v, n, 2) == 0.6;
  }

  /** The formula of `Cross` on the first three components. */
  function CrossOf(a: seq<real>, b: seq<real>): (r: seq<real>)
    requires |a| >= 3 && |b| >= 3
    ensures |r| == 3
  {
    [a[1] * b[2] - a[2] * b[1], a[2] * b[0] - a[0] * b[2], a[0] * b[1] - a[1] * b[0]]
  }

  lemma CrossOfComponents(a: seq<real>, b: seq<real>)
    requires |a| >= 3 && |b| >= 3
    ensures CrossOf(a, b) == [a[1] * b[2] - a[2] * b[1], a[2] * b[0] - a[0] * b[2], a[0] * b[1] - a[1] * b[0]]
  {
  }

  lemma CrossAnticommutes(a: seq<real>, b: seq<real>)
    requires |a| >= 3 && |b| >= 3
    ensures forall i | 0 <= i < 3 :: CrossOf(a, b)[i] == -CrossOf(b, a)[i]
  {
  }

  lemma CrossOfUnitAxes()
    ensures CrossOf([1.0, 0.0, 0.0], [0.0, 1.0, 0.0]) == [0.0, 0.0, 1.0]
  {
  }

  // ---------------------------------------------------------------------
  // The vector itself.
  // ---------------------------------------------------------------------

  class Vector {
    const size: nat
    const simd: bool
    const items: array<real>

    /** The storage length matches the build's layout. */
    ghost predicate Valid()
    {
      items.Length == PaddedLength(size, simd)
    }

    /** Every slot past the `size` logical components holds zero. */
    ghost predicate PaddingZero()
      reads items
    {
      forall i | size <= i < items.Length :: items[i] == 0.0
    }

    /** The default constructor zero-fills every physical slot, padding included. */
    constructor Zero(size: nat, simd: bool)
      ensures this.size == size && this.simd == simd && Valid() && fresh(items)
      ensures forall i | 0 <= i < items.Length :: items[i] == 0.0
    {
      var n := PaddedLength(size, simd);
      var a := new real[n];
      for i := 0 to n
        invariant forall k | 0 <= k < i :: a[k] == 0.0
      {
        a[i] := 0.0;
      }
      this.size := size;
      this.simd := simd;
      this.items := a;
    }

    /**
     * The initializer-list constructor. `prior` is what the storage held
     * before construction. The first `min(|values|, size)` values are stored
     * in order and extra values are ignored. A SIMD build zero-fills the rest
     * of the storage; a non-SIMD build never writes it, so it keeps `prior`.
     */
    constructor FromList(size: nat, simd: bool, values: seq<real>, prior: seq<real>)
      requires |prior| == PaddedLength(size, simd)
      ensures this.size == size && this.simd == simd && Valid() && fresh(items)
      ensures forall i | 0 <= i < Min(|values|, size) :: items[i] == values[i]
      ensures simd ==> forall i | Min(|values|, size) <= i < items.Length :: items[i] == 0.0
      ensures !simd ==> items[Min(|values|, size)..] == prior[Min(|values|, size)..]
    {
      var n := PaddedLength(size, simd);
      var a := new real[n](k requires 0 <= k < n => prior[k]);
      var i := 0;
      for j := 0 to |values|
        invariant i == Min(j, size)
        invariant forall k | 0 <= k < i :: a[k] == values[k]
        invariant forall k | i <= k < n :: a[k] == prior[k]
      {
        if i < size {
          a[i] := values[j];
          i := i + 1;
        }
      }
      if simd {
        while i < n
          invariant Min(|values|, size) <= i <= n
          invariant forall k | 0 <= k < Min(|values|, size) :: a[k] == values[k]
          invariant forall k | Min(|values|, size) <= k < i :: a[k] == 0.0
        {
          a[i] := 0.0;
          i := i + 1;
        }
      }
      this.size := size;
      this.simd := simd;
      this.items := a;
    }

    /** The implicit member-wise copy `Vector<_T,_l> ret = *this`. */
    constructor Copy(v: Vector)
      ensures size == v.size && simd == v.simd && fresh(items)
      ensures items[..] == v.items[..]
    {
      var a := new real[v.items.Length];
      for i := 0 to v.items.Length
        invariant forall k | 0 <= k < i :: a[k] == v.items[k]
      {
        a[i] := v.items[i];
      }
      size := v.size;
      simd := v.simd;
      items := a;
    }

    /**
     * `operator+`. A SIMD build computes one register and leaves every slot
     * from 4 on at the zero of the default-constructed result; a non-SIMD
     * build loops over the `size` components.
     */
    method Add(other: Vector) returns (ret: Vector)
      requires Valid() && other.Valid() && other.size == size && other.simd == simd
      ensures fresh(ret) && fresh(ret.items) && ret.Valid() && ret.size == size && ret.simd == simd
      ensures forall i | 0 <= i < ret.items.Length ::
        ret.items[i] == if i < WrittenSlots(size, simd) then items[i] + other.items[i] else 0.0
      ensures (!simd || size <= RegisterLanes) ==> forall i | 0 <= i < size :: ret.items[i] == items[i] + other.items[i]
      ensures PaddingZero() && other.PaddingZero() ==> ret.PaddingZero()
    {
      ret := new Vector.Zero(size, simd);
      if simd {
        VecAddSimd(this, other, ret);
      } else {
        for i := 0 to size
          invariant forall k | 0 <= k < i :: ret.items[k] == items[k] + other.items[k]
        {
          ret.items[i] := items[i] + other.items[i];
        }
      }
    }

    /** `operator-`, shaped like `Add`. */
    method Sub(other: Vector) returns (ret: Vector)
      requires Valid() && other.Valid() && other.size == size && other.simd == simd
      ensures fresh(ret) && fresh(ret.items) && ret.Valid() && ret.size == size && ret.simd == simd
      ensures forall i | 0 <= i < ret.items.Length ::
        ret.items[i] == if i < WrittenSlots(size, simd) then items[i] - other.items[i] else 0.0
      ensures (!simd || size <= RegisterLanes) ==> forall i | 0 <= i < size :: ret.items[i] == items[i] - other.items[i]
      ensures PaddingZero() && other.PaddingZero() ==> ret.PaddingZero()
    {
      ret := new Vector.Zero(size, simd);
      if simd {
        VecSubSimd(this, other, ret);
      } else {
        for i := 0 to size
          invariant forall k | 0 <= k < i :: ret.items[k] == items[k] - other.items[k]
        {
          ret.items[i] := items[i] - other.items[i];
        }
      }
    }

    /** `operator*` (component-wise), shaped like `Add`. */
    method Mul(other: Vector) returns (ret: Vector)
      requires Valid() && other.Valid() && other.size == size && other.simd == simd
      ensures fresh(ret) && fresh(ret.items) && ret.Valid() && ret.size == size && ret.simd == simd
      ensures forall i | 0 <= i < ret.items.Length ::
        ret.items[i] == if i < WrittenSlots(size, simd) then items[i] * other.items[i] else 0.0
      ensures (!simd || size <= RegisterLanes) ==> forall i | 0 <= i < size :: ret.items[i] == items[i] * other.items[i]
      ensures PaddingZero() ==> ret.PaddingZero()
      ensures other.PaddingZero() ==> ret.PaddingZero()
    {
      ret := new Vector.Zero(size, simd);
      if simd {
        VecMulSimd(this, other, ret);
      } else {
        for i := 0 to size
          invariant forall k | 0 <= k < i :: ret.items[k] == items[k] * other.items[k]
        {
          var x, y := items[i], other.items[i];
          ret.items[i] := x * y;
        }
      }
    }

    /** `operator/` on the scalar path: the loop divides component by component. */
    method Div(other: Vector) returns (ret: Vector)
      requires Valid() && other.Valid() && other.size == size && other.simd == simd
      requires !simd
      requires forall i | 0 <= i < size :: other.items[i] != 0.0
      ensures fresh(ret) && fresh(ret.items) && ret.Valid() && ret.size == size && ret.simd == simd
      ensures forall i | 0 <= i < size :: ret.items[i] == items[i] / other.items[i]
    {
      ret := new Vector.Zero(size, simd);
      for i := 0 to size
        invariant forall k | 0 <= k < i :: ret.items[k] == items[k] / other.items[k]
      {
        ret.items[i] := items[i] / other.items[i];
      }
    }

    /**
     * `lengthSquared`. The SIMD path sums the squares of the four register
     * slots; it is `Dot(v, v)` whenever it sees every component.
     */
    method LengthSquared() returns (sum: real)
      requires Valid()
      ensures simd ==> sum == SquareSum(items[..], RegisterLanes)
      ensures !simd ==> sum == SquareSum(items[..], size)
      ensures (!simd || (size <= RegisterLanes && PaddingZero())) ==> sum == DotSum(items[..], items[..], size)
    {
      if simd {
        sum := VecLengthSimd(this);
        if size <= RegisterLanes && PaddingZero() {
          SquareSumIsDotSum(items[..], RegisterLanes);
          DotSumZeroTail(items[..], items[..], size, RegisterLanes);
        }
      } else {
        sum := 0.0;
        for i := 0 to size
          invariant sum == SquareSum(items[..], i)
        {
          sum := sum + items[i] * items[i];
        }
        SquareSumIsDotSum(items[..], size);
      }
    }

    /**
     * `Normalized`, with the magnitude `len` supplied by the caller. The copy
     * is divided by `len` on the slots the path writes; the source vector is
     * not modified.
     */
    method Normalized(len: real) returns (ret: Vector)
      requires Valid() && len != 0.0
      ensures fresh(ret) && fresh(ret.items) && ret.Valid() && ret.size == size && ret.simd == simd
      ensures forall i | 0 <= i < ret.items.Length ::
        ret.items[i] == if i < WrittenSlots(size, simd) then items[i] / len else items[i]
      ensures (!simd || size <= RegisterLanes) ==> forall i | 0 <= i < size :: ret.items[i] == items[i] / len
      ensures PaddingZero() ==> ret.PaddingZero()
      ensures len * len == SquareSum(items[..], WrittenSlots(size, simd)) ==>
                SquareSum(ret.items[..], WrittenSlots(size, simd)) == 1.0
    {
      ret := new Vector.Copy(this);
      if simd {
        VecNormalizeSimd(ret, len);
      } else {
        for i := 0 to size
          invariant forall k | 0 <= k < i :: ret.items[k] == items[k] / len
          invariant forall k | i <= k < ret.items.Length :: ret.items[k] == items[k]
        {
          ret.items[i] := ret.items[i] / len;
        }
      }
      if len * len == SquareSum(items[..], WrittenSlots(size, simd)) {
        UnitAfterDivision(items[..], ret.items[..], WrittenSlots(size, simd), len);
      }
    }

    /** `Normalize`: the same division, done in place on `items`. */
    method Normalize(len: real)
      requires Valid() && len != 0.0
      modifies items
      ensures forall i | 0 <= i < items.Length ::
        items[i] == if i < WrittenSlots(size, simd) then old(items[i]) / len else old(items[i])
      ensures old(PaddingZero()) ==> PaddingZero()
      ensures len * len == SquareSum(old(items[..]), WrittenSlots(size, simd)) ==>
                SquareSum(items[..], WrittenSlots(size, simd)) == 1.0
    {
      if simd {
        VecNormalizeSimd(this, len);
        if len * len == SquareSum(old(items[..]), RegisterLanes) {
          UnitAfterDivision(old(items[..]), items[..], RegisterLanes, len);
        }
      } else {
        for i := 0 to size
          invariant forall k | 0 <= k < i :: items[k] == old(items[k]) / len
          invariant forall k | i <= k < items.Length :: items[k] == old(items[k])
        {
          items[i] := items[i] / len;
        }
        if len * len == SquareSum(old(items[..]), size) {
          UnitAfterDivision(old(items[..]), items[..], size, len);
        }
      }
    }
  }

  // ---------------------------------------------------------------------
  // Free operations.
  // ---------------------------------------------------------------------

  /**
   * `Dot(right, left)`. The SIMD path sums the products of the four register
   * slots; it equals the scalar sum whenever it sees every component.
   */
  method Dot(right: Vector, left: Vector) returns (res: real)
    requires right.Valid() && left.Valid() && right.size == left.size && right.simd == left.simd
    ensures right.simd ==> res == DotSum(right.items[..], left.items[..], RegisterLanes)
    ensures !right.simd ==> res == DotSum(right.items[..], left.items[..], right.size)
    ensures (!right.simd || right.PaddingZero() || left.PaddingZero()) ==>
      res == DotSum(right.items[..], left.items[..], Reach(right.size, right.simd))
    ensures (!right.simd || (right.size <= RegisterLanes && (right.PaddingZero() || left.PaddingZero()))) ==>
      res == DotSum(right.items[..], left.items[..], right.size)
  {
    if right.simd {
      res := VecDotSimd(right, left);
      var a, b := right.items[..], left.items[..];
      if right.size <= RegisterLanes && right.PaddingZero() {
        DotSumZeroTail(a, b, right.size, RegisterLanes);
      } else if right.size <= RegisterLanes && left.PaddingZero() {
        DotSumCommutes(a, b, RegisterLanes);
        DotSumZeroTail(b, a, right.size, RegisterLanes);
        DotSumCommutes(a, b, right.size);
      }
    } else {
      res := 0.0;
      for i := 0 to right.size
        invariant res == DotSum(right.items[..], left.items[..], i)
      {
        res := res + right.items[i] * left.items[i];
      }
    }
  }

  /** `Cross` on 3-component vectors: three straight-line assignments into a default-constructed result. */
  method Cross(a: Vector, b: Vector) returns (ret: Vector)
    requires a.Valid() && b.Valid() && a.size == 3 && b.size == 3 && a.simd == b.simd
    ensures fresh(ret) && fresh(ret.items) && ret.Valid() && ret.size == 3 && ret.simd == a.simd
    ensures ret.items[..3] == CrossOf(a.items[..], b.items[..])
    ensures ret.PaddingZero()
  {
    ret := new Vector.Zero(3, a.simd);
    ghost var x, y := a.items[..], b.items[..];
    ret.items[0] := a.items[1] * b.items[2] - a.items[2] * b.items[1];
    ret.items[1] := a.items[2] * b.items[0] - a.items[0] * b.items[2];
    ret.items[2] := a.items[0] * b.items[1] - a.items[1] * b.items[0];
    assert ret.items[..3] == [ret.items[0], ret.items[1], ret.items[2]];
    CrossOfComponents(x, y);
    assert x[1] == a.items[1] && x[2] == a.items[2] && y[1] == b.items[1] && y[2] == b.items[2];
    assert ret.items[0] == x[1] * y[2] - x[2] * y[1];
    assert ret.items[1] == x[2] * y[0] - x[0] * y[2];
    assert ret.items[2] == x[0] * y[1] - x[1] * y[0];
    assert a.items[..] == x;
  }

  /** `DistanceSquared`: the scalar loop, or one register of squared differences. */
  method DistanceSquared(a: Vector, b: Vector) returns (res: real)
    requires a.Valid() && b.Valid() && a.size == b.size && a.simd == b.simd
    ensures a.simd ==> res == DistSum(a.items[..], b.items[..], RegisterLanes)
    ensures !a.simd ==> res == DistSum(a.items[..], b.items[..], a.size)
    ensures (!a.simd || (a.size <= RegisterLanes && a.PaddingZero() && b.PaddingZero())) ==>
      res == DistSum(a.items[..], b.items[..], a.size)
  {
    if a.simd {
      res := VecDistanceSimd(a, b);
      if a.size <= RegisterLanes && a.PaddingZero() && b.PaddingZero() {
        DistSumEqualTail(a.items[..], b.items[..], a.size, RegisterLanes);
      }
    } else {
      res := 0.0;
      for i := 0 to a.size
        invariant res == DistSum(a.items[..], b.items[..], i)
      {
        res := res + (a.items[i] - b.items[i]) * (a.items[i] - b.items[i]);
      }
    }
  }

  /** `Lerp`: the scalar loop computes `LerpScalar`, the SIMD helper `LerpLane` on one register. */
  method Lerp(a: Vector, b: Vector, t: real) returns (ret: Vector)
    requires a.Valid() && b.Valid() && a.size == b.size && a.simd == b.simd
    ensures fresh(ret) && fresh(ret.items) && ret.Valid() && ret.size == a.size && ret.simd == a.simd
    ensures !a.simd ==> forall i | 0 <= i < a.size :: ret.items[i] == LerpScalar(a.items[i], b.items[i], t)
    ensures a.simd ==> forall i | 0 <= i < ret.items.Length ::
      ret.items[i] == if i < RegisterLanes then LerpLane(a.items[i], b.items[i], t) else 0.0
    ensures a.simd && b.PaddingZero() ==> ret.PaddingZero()
  {
    ret := new Vector.Zero(a.size, a.simd);
    if a.simd {
      VecLerpSimd(a, b, t, ret);
    } else {
      for i := 0 to a.size
        invariant forall k | 0 <= k < i :: ret.items[k] == LerpScalar(a.items[k], b.items[k], t)
      {
        var x, y := a.items[i], b.items[i];
        ret.items[i] := x + (y - x) * t;
      }
    }
  }

  /** `Reflect`: both paths apply `ReflectAt` to each slot they write. */
  method Reflect(v: Vector, normal: Vector) returns (ret: Vector)
    requires v.Valid() && normal.Valid() && v.size == normal.size && v.simd == normal.simd
    ensures fresh(ret) && fresh(ret.items) && ret.Valid() && ret.size == v.size && ret.simd == v.simd
    ensures forall i | 0 <= i < ret.items.Length ::
      ret.items[i] == if i < WrittenSlots(v.size, v.simd) then ReflectAt(v.items[i], normal.items[i]) else 0.0
    ensures v.PaddingZero() ==> ret.PaddingZero()
  {
    ret := new Vector.Zero(v.size, v.simd);
    if v.simd {
      VecReflectSimd(v, normal, ret);
    } else {
      for i := 0 to v.size
        invariant forall k | 0 <= k < i :: ret.items[k] == ReflectAt(v.items[k], normal.items[k])
      {
        var x, n := v.items[i], normal.items[i];
        ret.items[i] := x - 2.0 * (x * n) * n;
      }
    }
  }

  // ---------------------------------------------------------------------
  // The SIMD helpers: load one register per operand, compute, store or reduce.
  // They exist only in a SIMD build, where every vector has at least 4 slots.
  // ---------------------------------------------------------------------

  /** `_mm_store_ps`: write a register over the first four slots of `dst`. */
  method StorePs(dst: array<real>, r: Reg)
    requires dst.Length >= RegisterLanes
    modifies dst
    ensures dst[..] == Stored(r, old(dst[..]))
  {
    dst[0] := r[0];
    dst[1] := r[1];
    dst[2] := r[2];
    dst[3] := r[3];
  }

  method VecReflectSimd(v: Vector, normal: Vector, ret: Vector)
    requires v.simd && v.Valid() && normal.simd && normal.Valid() && ret.simd && ret.Valid()
    modifies ret.items
    ensures ret.items[..] == Stored(
      SubPs(Load(old(v.items[..])), MulPs(MulPs(MulPs(Load(old(v.items[..])), Load(old(normal.items[..]))), Load(old(normal.items[..]))), Set1Ps(2.0))),
      old(ret.items[..]))
  {
    var vec, nor, two := Load(v.items[..]), Load(normal.items[..]), Set1Ps(2.0);
    var res := MulPs(vec, nor);
    res := MulPs(res, nor);
    res := MulPs(res, two);
    res := SubPs(vec, res);
    StorePs(ret.items, res);
  }

  method VecLerpSimd(a: Vector, b: Vector, t: real, ret: Vector)
    requires a.simd && a.Valid() && b.simd && b.Valid() && ret.simd && ret.Valid()
    modifies ret.items
    ensures ret.items[..] == Stored(
      MulPs(AddPs(SubPs(Load(old(b.items[..])), Load(old(a.items[..]))), Load(old(a.items[..]))), Set1Ps(t)),
      old(ret.items[..]))
  {
    var x, y, tt := Load(a.items[..]), Load(b.items[..]), Set1Ps(t);
    var res := SubPs(y, x);
    res := AddPs(res, x);
    res := MulPs(res, tt);
    StorePs(ret.items, res);
  }

  /** The squared distance a register sees: the scalar sum over the first four slots. */
  method VecDistanceSimd(a: Vector, b: Vector) returns (res: real)
    requires a.simd && a.Valid() && b.simd && b.Valid()
    ensures res == DistSum(a.items[..], b.items[..], RegisterLanes)
  {
    var x, y := Load(a.items[..]), Load(b.items[..]);
    var r := SubPs(x, y);
    r := MulPs(r, r);
    HorizontalSumAddsAllLanes(r);
    FourSlotSums(a.items[..], b.items[..]);
    r := HaddPs(r, r);
    r := HaddPs(r, r);
    res := FirstPs(r);
  }

  /** In-place division of the first four slots by `len`. */
  method VecNormalizeSimd(v: Vector, len: real)
    requires v.simd && v.Valid() && len != 0.0
    modifies v.items
    ensures v.items[..] == Stored(DivPs(Load(old(v.items[..])), Set1Ps(len)), old(v.items[..]))
  {
    var x, l := Load(v.items[..]), Set1Ps(len);
    x := DivPs(x, l);
    StorePs(v.items, x);
  }

  /** The dot product a register sees: the scalar sum over the first four slots. */
  method VecDotSimd(left: Vector, right: Vector) returns (ret: real)
    requires left.simd && left.Valid() && right.simd && right.Valid()
    ensures ret == DotSum(left.items[..], right.items[..], RegisterLanes)
  {
    var a, b := Load(left.items[..]), Load(right.items[..]);
    var r := MulPs(a, b);
    HorizontalSumAddsAllLanes(r);
    FourSlotSums(left.items[..], right.items[..]);
    r := HaddPs(r, r);
    r := HaddPs(r, r);
    ret := FirstPs(r);
  }

  method VecAddSimd(left: Vector, right: Vector, ret: Vector)
    requires left.simd && left.Valid() && right.simd && right.Valid() && ret.simd && ret.Valid()
    modifies ret.items
    ensures ret.items[..] == Stored(AddPs(Load(old(left.items[..])), Load(old(right.items[..]))), old(ret.items[..]))
  {
    var a, b := Load(left.items[..]), Load(right.items[..]);
    var res := AddPs(a, b);
    StorePs(ret.items, res);
  }

  method VecSubSimd(left: Vector, right: Vector, ret: Vector)
    requires left.simd && left.Valid() && right.simd && right.Valid() && ret.simd && ret.Valid()
    modifies ret.items
    ensures ret.items[..] == Stored(SubPs(Load(old(left.items[..])), Load(old(right.items[..]))), old(ret.items[..]))
  {
    var a, b := Load(left.items[..]), Load(right.items[..]);
    var res := SubPs(a, b);
    StorePs(ret.items, res);
  }

  method VecMulSimd(left: Vector, right: Vector, ret: Vector)
    requires left.simd && left.Valid() && right.simd && right.Valid() && ret.simd && ret.Valid()
    modifies ret.items
    ensures ret.items[..] == Stored(MulPs(Load(old(left.items[..])), Load(old(right.items[..]))), old(ret.items[..]))
  {
    var a, b := Load(left.items[..]), Load(right.items[..]);
    var res := MulPs(a, b);
    StorePs(ret.items, res);
  }

  /** The squared length a register sees: the scalar sum over the first four slots. */
  method VecLengthSimd(v: Vector) returns (ret: real)
    requires v.simd && v.Valid()
    ensures ret == SquareSum(v.items[..], RegisterLanes)
  {
    var a := Load(v.items[..]);
    a := MulPs(a, a);
    HorizontalSumAddsAllLanes(a);
    FourSlotSums(v.items[..], v.items[..]);
    a := HaddPs(a, a);
    a := HaddPs(a, a);
    ret := FirstPs(a);
  }
}
