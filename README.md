# Argon vectors and matrices, modelled in Dafny

Argon is a header-only C++ maths library. This project models its three
core headers.

- `ArgonSIMD.h` picks a SIMD width from the compiler's feature macros and
  applies a debug override. It sets the float and double lane counts and
  fixes the storage alignment of vectors.
- `Vector.h` defines `Vector<_T,_l>`. It is a fixed array of `_l`
  components, padded to at least four slots in a SIMD build. Every operator
  except `Cross` has a scalar loop, used when SIMD is off, and an SSE path
  that works on one 4-lane `__m128` register; `Cross` is one straight-line
  computation in both builds.
- `Matrix.h` defines `Matrix<_T,_rows,_cols>`. It is a flat array addressed
  through `operator()(row, col)`. Rows and columns are copied out into
  vectors, and both products are built from the vector `Dot`.

Elements are exact `real` numbers, not IEEE floats. Each SSE intrinsic is a
function on a 4-lane register. `_mm_hadd_ps` follows the definition of
HADDPS in the Intel 64 and IA-32 Architectures Software Developer's Manual,
Volume 2.

Each vector and matrix carries the build's SIMD flag as a constant field, so
one method covers both `#ifdef` branches of an operator. The header's own
debug override turns SIMD on in every build (`Simd.ConfiguredIgnoresDetection`),
so the SIMD branch is the one that actually ships. The scalar branch is still
modelled, because it is the reference the SIMD path is compared with.

Modules:

- `Simd` (`simd.dfy`) holds the capability selection, the lane-count table,
  the alignment policy and the register operations.
- `Vectors` (`vector.dfy`) holds the `Vector` class and its operators. It
  also has the free functions `Dot`, `Cross`, `DistanceSquared`, `Lerp` and
  `Reflect`, the `vec_*_simd` helpers, and the scalar reference sums
  `DotSum`, `SquareSum` and `DistSum` with their lemmas.
- `Matrices` (`matrix.dfy`) holds the square `Matrix` class, its factories,
  `matrix_mul` and `vec_transform`. It also has the specification functions
  `RowOf`, `ColOf`, `ProductEntry` and `TransformOf` with their lemmas.

What the model shows about the library as written:

- The SIMD helpers load and store exactly one register. For `_l > 4`, only
  components 0..3 are ever computed: the element-wise operators leave the
  rest zero, and `Dot`, `lengthSquared` and `DistanceSquared` read only the
  first four slots. The SIMD path therefore agrees with the scalar loop
  exactly when `_l <= 4` (`Vectors.ReachIsSize`, `Vectors.FifthComponentCounts`).
  For the reductions it also needs the zero padding that every constructor
  of a SIMD build leaves behind.
- Normalizing by a `len` whose square is `lengthSquared` gives a sum of
  squares of exactly 1 over the slots `lengthSquared` sums. In a SIMD build
  with `_l > 4` those are slots 0..3 only: `(1, 0, 0, 0, 1)` has a four-slot
  sum of 1, so it normalizes unchanged, although its five-component sum of
  squares is 2 (`Vectors.NormalizeIgnoresFifthComponent`).
- SIMD `Lerp` computes `((B - A) + A) * t`, which is `B * t`. It equals the
  scalar `A + (B - A) * t` only when `t == 1` or the component of `A` is zero.
- `Reflect` reflects each component on its own, `v[i] - 2 (v[i] n[i]) n[i]`.
  That is the mirror image `v - 2 (v . n) n` exactly when
  `v[i] n[i] n[i] == (v . n) n[i]` in every component, for instance when the
  normal lies along an axis; for a general unit normal it is not.
- The non-SIMD initializer-list constructor never writes the slots past the
  values supplied. The model keeps them at whatever the storage held before.
- `operator()(row, col)` uses slot `row + col * _cols`. That is a bijection
  for square and single-column shapes, and aliases or overruns the storage
  for the other shapes. `GetRow(k)` is therefore cell `(i, k)` for each `i`.
  `matrix_mul(A, B)` sets cell `(r, c)` to `sum_i A(i, r) * B(c, i)`, so
  when `Dot` sees all `n` components (a scalar build, or `n <= 4`)
  `Identity() * B` is the transpose of `B`, and it equals `B` exactly when
  `B` is symmetric. In a SIMD build with `n > 4` rows 4 and up of
  `Identity() * B` are zero, and `Translation(b) * v` loses the offset,
  because `Dot` never reads the last component.
- The debug override forces `ARGON_SIMD_ENABLED` and size 256. It never
  undefines `ARGON_SIMD_DISABLED`, so a build with no SIMD feature ends up
  with both macros defined.

## Model

| member | source | states |
|---|---|---|
| Simd.Detect | Argon/src/Argon/DataTypes/ArgonSIMD.h:4-19 | exactly one outcome: 512 iff AVX-512F; 256 iff AVX2 or AVX without AVX-512F; 128 iff only SSE2/SSE; otherwise disabled with size 0; enabled and disabled are never both set by the chain |
| Simd.DebugOverride | Argon/src/Argon/DataTypes/ArgonSIMD.h:21-23 | the override always yields enabled with size 256 and leaves the disabled macro as detection set it |
| Simd.ConfiguredIgnoresDetection | Argon/src/Argon/DataTypes/ArgonSIMD.h:4-23 | whatever features are present, the configuration seen is enabled at size 256: for any two feature sets the enabled flag and the size agree (the disabled macro still follows detection) |
| Simd.NoFeaturesLeavesBothMacros | Argon/src/Argon/DataTypes/ArgonSIMD.h:16-23 | with no SIMD feature both ARGON_SIMD_ENABLED and ARGON_SIMD_DISABLED end up defined |
| Simd.Lanes | Argon/src/Argon/DataTypes/ArgonSIMD.h:38-43 | a table exists iff size >= 128; floats always 4 lanes in 128 bits; size >= 256 gives 4 double lanes in 256 bits; 128..255 gives 2 double lanes in 128 bits |
| Simd.LanesFillRegisters | Argon/src/Argon/DataTypes/ArgonSIMD.h:67-72 | in every enabled table the lane count times the element width equals the register width |
| Simd.Width512UsesWidth256Table | Argon/src/Argon/DataTypes/ArgonSIMD.h:38-43 | a 512-bit build gets exactly the 256-bit table |
| Simd.SimdAlignment | Argon/src/Argon/DataTypes/ArgonSIMD.h:97-104 | 4-byte elements align to 16, 8-byte elements to 32, anything else to its natural alignment |
| Simd.AlignmentCoversRegister | Argon/src/Argon/DataTypes/ArgonSIMD.h:96-104 | at every enabled width the float and double alignments are at least one register's size and a multiple of it |
| Simd.Configured | Argon/src/Argon/DataTypes/ArgonSIMD.h:4-23 | the configuration seen is always enabled at size 256, with ARGON_SIMD_DISABLED still defined exactly when no feature macro is present |
| Simd.AddPs | Argon/src/Argon/DataTypes/ArgonSIMD.h:45 | `_mm_add_ps`: each lane is the sum of the two lanes |
| Simd.SubPs | Argon/src/Argon/DataTypes/ArgonSIMD.h:46 | `_mm_sub_ps`: each lane is the difference of the two lanes |
| Simd.MulPs | Argon/src/Argon/DataTypes/ArgonSIMD.h:47 | `_mm_mul_ps`: each lane is the product of the two lanes |
| Simd.DivPs | Argon/src/Argon/DataTypes/ArgonSIMD.h:48 | `_mm_div_ps` for a divisor with no zero lane: each lane is the quotient |
| Simd.SubThenAddRestores | Argon/src/Argon/DataTypes/ArgonSIMD.h:45-46 | adding back what was subtracted restores the register, which is why SIMD `Lerp` ends up at `B * t` |
| Simd.DivThenMulRestores | Argon/src/Argon/DataTypes/ArgonSIMD.h:47-48 | multiplying back by a nonzero divisor restores the register |
| Simd.Set1Ps | Argon/src/Argon/DataTypes/Vector.h:278 | `_mm_set1_ps`: every lane holds the broadcast value |
| Simd.HaddPs | Argon/src/Argon/DataTypes/ArgonSIMD.h:52 | `_mm_hadd_ps` as HADDPS: the low two lanes together hold the sum of the first operand's four lanes, the high two that of the second |
| Simd.FirstPs | Argon/src/Argon/DataTypes/ArgonSIMD.h:53 | `_mm_cvtss_f32`: the value of lane 0 |
| Simd.FirstOfBroadcast | Argon/src/Argon/DataTypes/ArgonSIMD.h:53 | lane 0 of a broadcast register is the broadcast value |
| Simd.HorizontalSumAddsAllLanes | Argon/src/Argon/DataTypes/ArgonSIMD.h:52-53 | two `_mm_hadd_ps` of a register with itself put the sum of its four lanes in every lane, and `_mm_cvtss_f32` returns that sum |
| Vectors.PaddedLength | Argon/src/Argon/DataTypes/Vector.h:21-26 | storage has at least `_l` slots, at least 4 in a SIMD build, extra slots only when SIMD pads a vector shorter than 4 up to exactly 4, and exactly `_l` otherwise |
| Vectors.Load | Argon/src/Argon/DataTypes/ArgonSIMD.h:49 | `_mm_load_ps`: lane `i` is slot `i` of the array, for the first four slots |
| Vectors.LoadStoreRoundTrip | Argon/src/Argon/DataTypes/ArgonSIMD.h:49-50 | loading a stored register gives it back, and storing a loaded register leaves the array unchanged |
| Vectors.ReachIsSize | Argon/src/Argon/DataTypes/Vector.h:338-347 | the components an operation sees are never more than `_l`, and are all of them iff the build is scalar or `_l <= 4` |
| Vectors.DotSumCommutes | Argon/src/Argon/DataTypes/Vector.h:189-201 | the dot product is commutative |
| Vectors.DotSumZeroTail | Argon/src/Argon/DataTypes/Vector.h:325-336 | zero slots past `n` add nothing: a four-slot sum over zero padding equals the `_l`-slot sum |
| Vectors.DotSumPrefixes | Argon/src/Argon/DataTypes/Vector.h:197-198 | the dot product over `n` slots depends only on the first `n` slots of each operand |
| Vectors.DotSumSingle | Argon/src/Argon/DataTypes/Vector.h:197-198 | if one operand is zero except at slot `p`, the dot product is that single product, or zero when `p` is out of range |
| Vectors.DotSumPair | Argon/src/Argon/DataTypes/Vector.h:197-198 | if one operand is zero except at two slots, the dot product is the sum of those two products |
| Vectors.SquareSumIsDotSum | Argon/src/Argon/DataTypes/Vector.h:134-146 | the `lengthSquared` loop computes `Dot(v, v)` |
| Vectors.SquareSumScaled | Argon/src/Argon/DataTypes/Vector.h:148-159 | dividing each of the first `k` components by `c` divides their sum of squares by `c * c` |
| Vectors.UnitAfterDivision | Argon/src/Argon/DataTypes/Vector.h:148-174 | dividing the first `k` components by a nonzero `len` with `len * len` equal to their sum of squares leaves a sum of squares of exactly 1: the squared form of "normalize yields length 1" |
| Vectors.DistSumSelf | Argon/src/Argon/DataTypes/Vector.h:228-240 | the squared distance of a vector to itself is zero |
| Vectors.DistSumSymmetric | Argon/src/Argon/DataTypes/Vector.h:228-240 | the squared distance is symmetric |
| Vectors.DistSumEqualTail | Argon/src/Argon/DataTypes/Vector.h:301-313 | slots past `n` where both operands agree add nothing to the squared distance |
| Vectors.FourSlotSums | Argon/src/Argon/DataTypes/Vector.h:301-336 | the three reference sums over one register written out lane by lane |
| Vectors.FifthComponentCounts | Argon/src/Argon/DataTypes/Vector.h:325-336 | for `_l = 5` a nonzero fifth component changes the scalar dot product but not the four-lane one |
| Vectors.NormalizeIgnoresFifthComponent | Argon/src/Argon/DataTypes/Vector.h:315-323 | for `_l = 5`, `(1, 0, 0, 0, 1)` meets the four-slot unit-length condition with `len = 1` while its five-component sum of squares is 2 |
| Vectors.LerpScalarEndpoints | Argon/src/Argon/DataTypes/Vector.h:250-251 | the scalar lerp gives `A` at `t = 0` and `B` at `t = 1` |
| Vectors.LerpLaneIsScaledEnd | Argon/src/Argon/DataTypes/Vector.h:295-297 | the SIMD lerp lane is `B * t` |
| Vectors.LerpPathsAgreeIff | Argon/src/Argon/DataTypes/Vector.h:250-251 | the two lerp formulas agree iff `t = 1` or the component of `A` is zero |
| Vectors.ReflectIsMirrorOnAxisNormal | Argon/src/Argon/DataTypes/Vector.h:264-265 | when the normal lies along one axis, the per-slot reflect formula equals the true mirror image `v - 2 (v . n) n` |
| Vectors.ReflectIsMirrorIff | Argon/src/Argon/DataTypes/Vector.h:264-265 | the per-slot reflect formula equals the mirror image in every slot iff `v[i] n[i] n[i] == (v . n) n[i]` in every slot |
| Vectors.ReflectIsNotMirror | Argon/src/Argon/DataTypes/Vector.h:264-265 | for `v = (1, 0)` and unit `n = (0.6, 0.8)` the per-slot formula gives 0 in slot 1 while the mirror image has -0.96 |
| Vectors.CrossAnticommutes | Argon/src/Argon/DataTypes/Vector.h:203-212 | `Cross(A, B) == -Cross(B, A)` |
| Vectors.CrossOfUnitAxes | Argon/src/Argon/DataTypes/Vector.h:203-212 | `Cross({1,0,0}, {0,1,0}) == {0,0,1}` |
| Vectors.Vector.Zero | Argon/src/Argon/DataTypes/Vector.h:28-34 | every physical slot, padding included, is zero |
| Vectors.Vector.FromList | Argon/src/Argon/DataTypes/Vector.h:35-57 | the first `min(|values|, _l)` values are stored in order and extra values are ignored; a SIMD build zeroes every remaining slot; a scalar build leaves the remaining slots as they were |
| Vectors.Vector.Copy | Argon/src/Argon/DataTypes/Vector.h:166 | a fresh array with the same contents |
| Vectors.Vector.Add | Argon/src/Argon/DataTypes/Vector.h:64-76 | slot `i` is `a[i] + b[i]` on the slots the path writes and zero beyond; equal to the scalar result for every component iff the build is scalar or `_l <= 4`; zero padding is kept |
| Vectors.Vector.Sub | Argon/src/Argon/DataTypes/Vector.h:78-90 | as `Add`, with `a[i] - b[i]` |
| Vectors.Vector.Mul | Argon/src/Argon/DataTypes/Vector.h:92-104 | as `Add`, with `a[i] * b[i]`; zero padding of either operand is enough for the result to have it |
| Vectors.Vector.Div | Argon/src/Argon/DataTypes/Vector.h:106-118 | on the scalar path, with no zero divisor, slot `i` is `a[i] / b[i]` |
| Vectors.Vector.LengthSquared | Argon/src/Argon/DataTypes/Vector.h:134-146 | the SIMD path sums four squares and the scalar path `_l` squares; it equals `Dot(v, v)` in a scalar build, or with `_l <= 4` and zero padding |
| Vectors.Vector.Normalized | Argon/src/Argon/DataTypes/Vector.h:161-174 | a fresh copy with the written slots divided by `len` and the others copied; per component equal to `v[i] / len` iff the build is scalar or `_l <= 4`; zero padding is kept; the source vector is not modified; when `len * len` is the sum of squares `lengthSquared` computes, the result's sum of squares over the same slots is exactly 1 |
| Vectors.Vector.Normalize | Argon/src/Argon/DataTypes/Vector.h:148-159 | the same division done in place on `items`, which keeps zero padding zero; when `len * len` is the sum of squares `lengthSquared` computed before the call, the new sum of squares over the same slots is exactly 1 |
| Vectors.Dot | Argon/src/Argon/DataTypes/Vector.h:189-201 | the SIMD path is the four-slot dot product and the scalar path the `_l`-slot one; with zero padding on either operand it is the dot product over the components the path sees, which is the full `_l`-component product when `_l <= 4` |
| Vectors.Cross | Argon/src/Argon/DataTypes/Vector.h:203-212 | a fresh 3-vector holding the cross product, with zero padding |
| Vectors.DistanceSquared | Argon/src/Argon/DataTypes/Vector.h:228-240 | the SIMD path is the four-slot squared distance and the scalar path the `_l`-slot one; they agree for `_l <= 4` when both operands have zero padding |
| Vectors.Lerp | Argon/src/Argon/DataTypes/Vector.h:242-254 | the scalar path gives `A + (B - A) t` per component; the SIMD path gives `((B - A) + A) t` in slots 0..3 and zero beyond, keeping zero padding when `B` has it |
| Vectors.Reflect | Argon/src/Argon/DataTypes/Vector.h:256-268 | slot `i` is `v[i] - 2 (v[i] n[i]) n[i]` on the slots the path writes and zero beyond; zero padding is kept |
| Vectors.StorePs | Argon/src/Argon/DataTypes/Vector.h:284 | the register replaces exactly the first four slots of the array |
| Vectors.VecReflectSimd | Argon/src/Argon/DataTypes/Vector.h:272-285 | the stored register is `v - ((v * n) * n) * 2`, lane-wise, over the loaded slots; later slots are unchanged |
| Vectors.VecLerpSimd | Argon/src/Argon/DataTypes/Vector.h:287-299 | the stored register is `((B - A) + A) * t` lane-wise; later slots are unchanged |
| Vectors.VecDistanceSimd | Argon/src/Argon/DataTypes/Vector.h:301-313 | the result is the squared distance over the first four slots |
| Vectors.VecNormalizeSimd | Argon/src/Argon/DataTypes/Vector.h:315-323 | the first four slots are divided by `len` in place; later slots are unchanged |
| Vectors.VecDotSimd | Argon/src/Argon/DataTypes/Vector.h:325-336 | the result is the dot product over the first four slots |
| Vectors.VecAddSimd | Argon/src/Argon/DataTypes/Vector.h:338-347 | the stored register is the lane-wise sum of the loaded registers; later slots are unchanged |
| Vectors.VecSubSimd | Argon/src/Argon/DataTypes/Vector.h:349-358 | the stored register is the lane-wise difference; later slots are unchanged |
| Vectors.VecMulSimd | Argon/src/Argon/DataTypes/Vector.h:360-369 | the stored register is the lane-wise product; later slots are unchanged |
| Vectors.VecLengthSimd | Argon/src/Argon/DataTypes/Vector.h:382-391 | the result is the sum of squares over the first four slots |
| Matrices.Index | Argon/src/Argon/DataTypes/Matrix.h:32-33 | in a square matrix every in-range cell addresses an in-range slot |
| Matrices.SlotOrder | Argon/src/Argon/DataTypes/Matrix.h:32-33 | in a square matrix every cell of a later column addresses a later slot than every in-range cell of an earlier column |
| Matrices.IndexInjective | Argon/src/Argon/DataTypes/Matrix.h:32-33 | in a square matrix distinct in-range cells address distinct slots |
| Matrices.IndexSurjective | Argon/src/Argon/DataTypes/Matrix.h:32-33 | in a square matrix every slot is addressed by an in-range cell |
| Matrices.NonSquareIndexAliases | Argon/src/Argon/DataTypes/Matrix.h:32-33 | in a 3-by-2 matrix the in-range cells (2, 0) and (0, 1) share slot 2, and in a 1-by-3 matrix the in-range cell (0, 2) addresses past the storage |
| Matrices.IdentityTransform | Argon/src/Argon/DataTypes/Matrix.h:132-138 | the identity transform returns the vector on the components `Dot` sees and zero on the others, so `Identity() * v == v` whenever all components are seen |
| Matrices.TranslationTransform | Argon/src/Argon/DataTypes/Matrix.h:94-101 | when `Dot` sees `terms` components, component `i < n-1` of `Translation(b) * v` is `v[i]` (if seen) plus `b[i] v[n-1]` (if the last component is seen), and the last component is `v[n-1]` if seen; so with all components seen a point `(p, 1)` moves to `(p + b, 1)`, and in a SIMD build with `n > 4` the offset is lost |
| Matrices.ScalarIsIdentityIff | Argon/src/Argon/DataTypes/Matrix.h:84-92 | a scalar matrix is the identity iff every base component is one |
| Matrices.IdentityProductIsTranspose | Argon/src/Argon/DataTypes/Matrix.h:120-130 | when `Dot` sees `terms` components, cell `(r, c)` of `matrix_mul(Identity(), B)` is `B(c, r)` for `r < terms` and zero otherwise: the transpose when all components are seen |
| Matrices.ProductIdentityIsTranspose | Argon/src/Argon/DataTypes/Matrix.h:120-130 | when `Dot` sees `terms` components, cell `(r, c)` of `matrix_mul(A, Identity())` is `A(c, r)` for `c < terms` and zero otherwise |
| Matrices.IdentityProductIsBIff | Argon/src/Argon/DataTypes/Matrix.h:120-130 | `Identity() * B == B` iff every `B(r, c)` equals `B(c, r)` for `r < terms` and is zero for the rows `Dot` does not see; with all components seen, iff `B` is symmetric |
| Matrices.Matrix.At | Argon/src/Argon/DataTypes/Matrix.h:32 | reading cell `(row, col)` gives slot `row` of the copy `GetRow(col)` and slot `col` of the copy `GetCol(row)` |
| Matrices.Matrix.constructor | Argon/src/Argon/DataTypes/Matrix.h:16-21 | all `n*n` items are zero |
| Matrices.Matrix.FromList | Argon/src/Argon/DataTypes/Matrix.h:22-30 | the values are stored in storage order and the rest are zero; the caller must supply at most `n*n` values, since the source does not check |
| Matrices.Matrix.Set | Argon/src/Argon/DataTypes/Matrix.h:33 | writing one cell changes that cell only and leaves every other cell unchanged |
| Matrices.Matrix.GetRow | Argon/src/Argon/DataTypes/Matrix.h:36-44 | a fresh vector whose slot `i` is cell `(i, k)`, with zero padding |
| Matrices.Matrix.GetCol | Argon/src/Argon/DataTypes/Matrix.h:46-54 | a fresh vector whose slot `i` is cell `(k, i)`, with zero padding |
| Matrices.Matrix.Identity | Argon/src/Argon/DataTypes/Matrix.h:74-82 | ones on the diagonal and zeros everywhere else |
| Matrices.Matrix.Scalar | Argon/src/Argon/DataTypes/Matrix.h:84-92 | `base[i]` at `(i, i)` and zeros everywhere else |
| Matrices.Matrix.Translation | Argon/src/Argon/DataTypes/Matrix.h:94-101 | the identity except cell `(n-1, i)` is `base[i]` for every `i < n-1` |
| Matrices.MatrixMul | Argon/src/Argon/DataTypes/Matrix.h:120-130 | cell `(r, c)` of the result is `Dot(A.GetRow(r), B.GetCol(c))` over the components `Dot` sees |
| Matrices.Mul | Argon/src/Argon/DataTypes/Matrix.h:56-63 | a fresh matrix holding `matrix_mul(A, B)` |
| Matrices.VecTransform | Argon/src/Argon/DataTypes/Matrix.h:132-138 | component `i` of the result is `Dot(mat.GetRow(i), vec)` over the components `Dot` sees; the padding of the result is untouched |
| Matrices.Transform | Argon/src/Argon/DataTypes/Matrix.h:65-72 | a fresh vector holding `vec_transform(mat, vec)`, with zero padding |

## Left out

- Floating point: rounding, NaN and infinities are not modelled, because elements are exact reals.
- `length`, `Distance` and the magnitude that `Normalize`/`Normalized` compute are left out, because they need `sqrt`. `Normalize` and `Normalized` take the magnitude `len` as a parameter, and their unit-length result is stated in squared form: for a `len` whose square is the sum `lengthSquared` computes.
- `vec_div_simd`, and with it SIMD `operator/`: dividing the zero padding gives 0/0, which exact division cannot express.
- Vectors.Vector.Div: covers the scalar path only and requires nonzero divisors in the first `_l` slots.
- Vectors.Vector.Normalize: modelled as the evidently intended in-place method. The source marks it `const` and has a syntax typo in its scalar loop header, so it does not compile as written.
- Stream printing (`operator<<` for vectors and matrices) is I/O. The matrix version also lacks a `return`.
- The `__m256d`/`__m128d` double-precision macros: no helper uses them. The SIMD helpers exist only for `float` vectors.
- The real intrinsics and `<immintrin.h>`: each is replaced by an exact function on a 4-lane register. The alignment precondition of `_mm_load_ps`/`_mm_store_ps` is not checked. `Simd.AlignmentCoversRegister` states why it holds.
- Non-square matrices: the model fixes `_rows == _cols`, the only shape for which `matrix_mul` matches `operator*`. `Matrices.NonSquareIndexAliases` shows how the addressing breaks otherwise.
- `operator[]` of `Vector` is direct access to `items` in the model.
- Matrices.MatrixMul: requires that `ret` shares no storage with `A` or `B`. A call such as `matrix_mul(A, B, A)` in C++ would read cells it had already overwritten.
- Matrices.VecTransform: requires that `ret` shares no storage with `vec`, since a call with the same vector as input and output would read components it had already overwritten. It also requires `ret` to be distinct from the matrix storage, which in C++ holds by the types (a vector is never a matrix) and which the model, where both are arrays of reals, has to state.
- Compile-time failures, such as a wrong `Cross` arity or mismatched shapes, are ruled out by the Dafny signatures rather than modelled.
- The ScratchPad demo program, which only prints results.
