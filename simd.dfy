/**
 * Compile-time SIMD capability selection, lane counts, alignment policy and
 * the 4-lane single-precision register the vector helpers work on.
 *
 * Everything here is decided by the preprocessor in the original library;
 * the model states each decision as a pure function of its inputs.
 */
module Simd {

  datatype Option<T> = None | Some(value: T)

  /** The compiler-provided feature macros the detection chain tests. */
  datatype Features = Features(avx512f: bool, avx2: bool, avx: bool, sse2: bool, sse: bool)

  /**
   * The macros the header leaves defined: whether ARGON_SIMD_ENABLED and
   * ARGON_SIMD_DISABLED are defined, and the value of ARGON_SIMD_SIZE.
   */
  datatype Macros = Macros(enabled: bool, disabled: bool, size: nat)

  /** The detection chain: the widest instruction set present wins. */
  function Detect(f: Features): (m: Macros)
    ensures m.enabled != m.disabled
    ensures m.size == 512 <==> f.avx512f
    ensures m.size == 256 <==> !f.avx512f && (f.avx2 || f.avx)
    ensures m.size == 128 <==> !f.avx512f && !f.avx2 && !f.avx && (f.sse2 || f.sse)
    ensures m.disabled <==> !(f.avx512f || f.avx2 || f.avx || f.sse2 || f.sse)
    ensures m.disabled <==> m.size == 0
  {
    if f.avx512f then Macros(true, false, 512)
    else if f.avx2 then Macros(true, false, 256)
    else if f.avx then Macros(true, false, 256)
    else if f.sse2 || f.sse then Macros(true, false, 128)
    else Macros(false, true, 0)
  }

  /**
   * The debug block that follows the chain: it defines ARGON_SIMD_ENABLED and
   * redefines ARGON_SIMD_SIZE to 256, but never undefines ARGON_SIMD_DISABLED.
   */
  function DebugOverride(m: Macros): (r: Macros)
    ensures r.enabled && r.size == 256
    ensures r.disabled == m.disabled
  {
    m.(enabled := true, size := 256)
  }

  /**
   * The configuration every translation unit of the library actually sees:
   * SIMD on at width 256, with ARGON_SIMD_DISABLED still defined exactly when
   * no feature macro was present.
   */
  function Configured(f: Features): (m: Macros)
    ensures m.enabled && m.size == 256
    ensures m.disabled <==> !(f.avx512f || f.avx2 || f.avx || f.sse2 || f.sse)
  {
    DebugOverride(Detect(f))
  }

  /** Whatever the hardware offers, the library is built with SIMD on at width 256. */
  lemma ConfiguredIgnoresDetection(f: Features, g: Features)
    ensures Configured(f).enabled && Configured(f).size == 256
    ensures Configured(f).enabled == Configured(g).enabled && Configured(f).size == Configured(g).size
  {
  }

  /** With no feature at all, both ARGON_SIMD_ENABLED and ARGON_SIMD_DISABLED end up defined. */
  lemma NoFeaturesLeavesBothMacros()
    ensures var m := Configured(Features(false, false, false, false, false)); m.enabled && m.disabled
  {
  }

  /**
   * What the `#if ARGON_SIMD_SIZE >= 256 / #elif >= 128` block declares:
   * the float and double lane counts and the bit widths of the register
   * types `__m_float` and `__m_double` it aliases.
   */
  datatype LaneCounts = LaneCounts(floatSteps: nat, doubleSteps: nat, floatRegisterBits: nat, doubleRegisterBits: nat)

  /** The lane-count table; below 128 bits neither branch of the block is compiled. */
  function Lanes(size: nat): (r: Option<LaneCounts>)
    ensures r.Some? <==> size >= 128
    ensures r.Some? ==> r.value.floatSteps == 4 && r.value.floatRegisterBits == 128
    ensures size >= 256 ==> r.Some? && r.value.doubleSteps == 4 && r.value.doubleRegisterBits == 256
    ensures 128 <= size < 256 ==> r.Some? && r.value.doubleSteps == 2 && r.value.doubleRegisterBits == 128
  {
    if size >= 256 then Some(LaneCounts(4, 4, 128, 256))
    else if size >= 128 then Some(LaneCounts(4, 2, 128, 128))
    else None
  }

  /** Each lane count fills its register exactly: 32-bit floats, 64-bit doubles. */
  lemma LanesFillRegisters(size: nat)
    requires size >= 128
    ensures Lanes(size).Some?
    ensures Lanes(size).value.floatSteps * 32 == Lanes(size).value.floatRegisterBits
    ensures Lanes(size).value.doubleSteps * 64 == Lanes(size).value.doubleRegisterBits
  {
  }

  /** A 512-bit build gets exactly the 256-bit table: there is no 512-bit path. */
  lemma Width512UsesWidth256Table()
    ensures Lanes(512) == Lanes(256)
  {
  }

  /** `SimdAlignment<_T>::value`, from `sizeof(_T)` and `alignof(_T)`. */
  function SimdAlignment(sizeOf: nat, alignOf: nat): (a: nat)
    ensures sizeOf == 4 ==> a == 16
    ensures sizeOf == 8 ==> a == 32
    ensures sizeOf != 4 && sizeOf != 8 ==> a == alignOf
  {
    if sizeOf == 4 then 16 else if sizeOf == 8 then 32 else alignOf
  }

  /**
   * The alignment holds one whole register of either element type at any
   * enabled width, and is a multiple of the register size, so aligned loads
   * and stores are always legal on vector storage.
   */
  lemma AlignmentCoversRegister(size: nat, floatAlign: nat, doubleAlign: nat)
    requires size >= 128
    ensures Lanes(size).Some?
    ensures SimdAlignment(4, floatAlign) >= Lanes(size).value.floatSteps * 4
    ensures SimdAlignment(4, floatAlign) % (Lanes(size).value.floatSteps * 4) == 0
    ensures SimdAlignment(8, doubleAlign) >= Lanes(size).value.doubleSteps * 8
    ensures SimdAlignment(8, doubleAlign) % (Lanes(size).value.doubleSteps * 8) == 0
  {
  }

  /** Number of single-precision lanes in `__m_float` (`__m128`) at every enabled width. */
  const RegisterLanes: nat := 4

  /** A `__m128` register holding four exact values; lane 0 is the lowest 32 bits. */
  type Reg = r: seq<real> | |r| == RegisterLanes witness [0.0, 0.0, 0.0, 0.0]

  /** `_mm_add_ps`, `_mm_sub_ps`, `_mm_mul_ps`: lane-wise arithmetic. */
  function AddPs(x: Reg, y: Reg): (r: Reg)
    ensures forall i | 0 <= i < RegisterLanes :: r[i] == x[i] + y[i]
  {
    seq(RegisterLanes, i requires 0 <= i < RegisterLanes => x[i] + y[i])
  }

  function SubPs(x: Reg, y: Reg): (r: Reg)
    ensures forall i | 0 <= i < RegisterLanes :: r[i] == x[i] - y[i]
  {
    seq(RegisterLanes, i requires 0 <= i < RegisterLanes => x[i] - y[i])
  }

  function MulPs(x: Reg, y: Reg): (r: Reg)
    ensures forall i | 0 <= i < RegisterLanes :: r[i] == x[i] * y[i]
  {
    seq(RegisterLanes, i requires 0 <= i < RegisterLanes => x[i] * y[i])
  }

  /** `_mm_div_ps`, exact, for a divisor with no zero lane. */
  function DivPs(x: Reg, y: Reg): (r: Reg)
    requires forall i | 0 <= i < RegisterLanes :: y[i] != 0.0
    ensures forall i | 0 <= i < RegisterLanes :: r[i] == x[i] / y[i]
  {
    seq(RegisterLanes, i requires 0 <= i < RegisterLanes => x[i] / y[i])
  }

  /** Subtracting and then adding back the same register restores every lane. */
  lemma SubThenAddRestores(x: Reg, y: Reg)
    ensures AddPs(SubPs(y, x), x) == y
  {
    assert forall i | 0 <= i < RegisterLanes :: AddPs(SubPs(y, x), x)[i] == y[i];
  }

  /** Dividing lane-wise and multiplying back by the same divisor restores every lane. */
  lemma DivThenMulRestores(x: Reg, y: Reg)
    requires forall i | 0 <= i < RegisterLanes :: y[i] != 0.0
    ensures MulPs(DivPs(x, y), y) == x
  {
    forall i | 0 <= i < RegisterLanes
      ensures MulPs(DivPs(x, y), y)[i] == x[i]
    {
      assert DivPs(x, y)[i] * y[i] == (x[i] / y[i]) * y[i];
    }
  }

  /** `_mm_set1_ps`: broadcast one value to all lanes. */
  function Set1Ps(v: real): (r: Reg)
    ensures forall i | 0 <= i < RegisterLanes :: r[i] == v
  {
    seq(RegisterLanes, _ => v)
  }

  /**
   * `_mm_hadd_ps` following HADDPS in the Intel 64 and IA-32 Architectures
   * Software Developer's Manual, Volume 2: the low two lanes take the pairwise
   * sums of the first operand, the high two those of the second, each pair
   * added as the higher lane plus the lower lane.
   */
  function HaddPs(x: Reg, y: Reg): (r: Reg)
    ensures r[0] + r[1] == x[0] + x[1] + x[2] + x[3]
    ensures r[2] + r[3] == y[0] + y[1] + y[2] + y[3]
  {
    [x[1] + x[0], x[3] + x[2], y[1] + y[0], y[3] + y[2]]
  }

  /** `_mm_cvtss_f32`: the value in lane 0. */
  function FirstPs(x: Reg): (r: real)
    ensures r == x[0]
  {
    x[0]
  }

  /** Lane 0 of a broadcast is the broadcast value. */
  lemma FirstOfBroadcast(v: real)
    ensures FirstPs(Set1Ps(v)) == v
  {
  }

  /** The reduction the vector helpers use: `hadd(r, r)` twice, then lane 0. */
  function HorizontalSum(r: Reg): (s: real)
  {
    var h := HaddPs(r, r);
    FirstPs(HaddPs(h, h))
  }

  /** Two horizontal adds of a register with itself leave the sum of all four lanes in lane 0. */
  lemma HorizontalSumAddsAllLanes(r: Reg)
    ensures HorizontalSum(r) == r[0] + r[1] + r[2] + r[3]
    ensures var h := HaddPs(r, r); HaddPs(h, h) == Set1Ps(r[0] + r[1] + r[2] + r[3])
  {
  }
}
