# Perlin noise engine, modelled in Dafny

This project models `siv::BasicPerlinNoise`, the header-only Perlin noise
engine in `PerlinNoise.hpp`. Its only state is a 512-byte permutation table.
After either `reseed` the first half is a permutation of 0..255;
`deserialize` stores whatever 256 bytes it is given, so it can break that.
The second half always repeats the first.
The model covers:

- filling that table (both `reseed` overloads and both constructors);
- `serialize` and `deserialize`;
- the lattice hashing and gradient selection of `noise3D`;
- the `noise1D`/`noise2D` projections;
- `Weight`;
- the accumulated octave loops and their normalized and `_0_1` wrappers.

Modules:

- `Binary` (binary.dfy): the 32-bit integer types, and `& (2^k - 1)` on two's-complement integers as Euclidean `% 2^k`.
- `PermutationTable` (permutation_table.dfy): the table as a value. It defines the identity fill, the shuffle as a sequence of swaps, the mirroring, and the permutation and mirror predicates.
- `Scalar` (scalar.dfy): `clamp`, `Fade`, `Lerp` and `Grad` over the reals, the `* 0.5 + 0.5` remap, and a `Float` datatype that adds NaN to the reals.
- `Lattice` (lattice.dfy):
  - cell indices and fractional offsets;
  - the corner hashes and the table indices they read;
  - the trilinear blend;
  - `Noise3D`, with `Noise2D(t, x, y)` defined as `Noise3D(t, x, y, 0)` and `Noise1D(t, x)` as `Noise3D(t, x, 0, 0)`, as the source does;
  - the 256-periodicity and the bounds of these functions.
- `Octaves` (octaves.dfy): the octave sum and `Weight` as recursive functions, and the loops that compute the octave sum. The loops are written over an arbitrary single-cell noise function.
- `Perlin` (perlin_noise.dfy): the class `BasicPerlinNoise`, which holds the table as an `array`. Its methods model the source's methods that write the table (`reseed`, `deserialize`), copy it out (`serialize`), or loop (`Weight` and the octave members with their wrappers), loops included. The single-cell queries `noise1D`/`noise2D`/`noise3D` and their `_0_1` remaps read nothing but the table, so they are the table functions of `Lattice`, which the class's methods apply to the table's contents. The module also contains the determinism checks of the example program.

All arithmetic on noise values is exact arithmetic over `real`, an
idealisation of the engine's floating-point type; "## Left out" lists where
the two part ways. The normalized variants compute the quotient `0 / 0` for
`octaves <= 0`, which has no real value, and `Float.NaN` represents it.
The code divides 0 by `Weight(0) == 0`, which gives NaN, and the model
follows the code.

## Model

| member | source | states |
|---|---|---|
| Binary.LowBitsIsMod | PerlinNoise.hpp:193-195 | masking a two's-complement integer with `2^k - 1` (here `& 255`) yields its Euclidean remainder modulo `2^k` |
| PermutationTable.Iota | PerlinNoise.hpp:141-144 | the identity fill has length n and holds k at position k |
| PermutationTable.Swapped | PerlinNoise.hpp:146 | one exchange of the shuffle swaps the two entries and leaves every other entry unchanged |
| PermutationTable.Shuffle | PerlinNoise.hpp:146 | the shuffle keeps the length 256 and the multiset of entries |
| PermutationTable.Doubled | PerlinNoise.hpp:148-151 | the doubled table is mirrored (`t[256 + i] == t[i]`) and its first half is the input |
| PermutationTable.IotaCount | PerlinNoise.hpp:141-144 | each value below n occurs exactly once in the identity fill, and no other value occurs |
| PermutationTable.IotaIsPermutation | PerlinNoise.hpp:141-144 | the identity fill of 256 entries is a permutation of 0..255 |
| PermutationTable.ShuffleIsPermutation | PerlinNoise.hpp:146 | any sequence of swaps maps a permutation to a permutation |
| PermutationTable.PermutationCovers | PerlinNoise.hpp:139-152 | a permutation holds every byte at some position |
| PermutationTable.PermutationDistinct | PerlinNoise.hpp:139-152 | a permutation holds no byte at two positions |
| PermutationTable.MirroredIsDoubled | PerlinNoise.hpp:378-392 | a mirrored table is the doubling of its first half: deserializing what was serialized rebuilds the same table |
| Scalar.Clamp | PerlinNoise.hpp:76-81 | with lo <= hi the result lies in [lo, hi]; it is v when lo < v < hi, lo when v <= lo, and hi when v >= hi > lo |
| Scalar.ClampMonotone | PerlinNoise.hpp:76-81 | clamping to a non-empty range preserves order |
| Scalar.Fade | PerlinNoise.hpp:85-88 | the fade curve maps 0 to 0 and 1 to 1 |
| Scalar.FadeSymmetric | PerlinNoise.hpp:85-88 | Fade(1 - t) == 1 - Fade(t) |
| Scalar.FadeNonNegative | PerlinNoise.hpp:85-88 | the fade curve is non-negative for t >= 0 |
| Scalar.FadeRange | PerlinNoise.hpp:85-88 | the fade curve maps [0, 1] into [0, 1] |
| Scalar.Lerp | PerlinNoise.hpp:91-94 | interpolation gives a at t = 0 and b at t = 1 |
| Scalar.LerpBetween | PerlinNoise.hpp:91-94 | for t in [0, 1] the interpolated value lies between a and b |
| Scalar.LerpBound | PerlinNoise.hpp:91-94 | for t in [0, 1], interpolating two values bounded by m gives a value bounded by m |
| Scalar.Grad | PerlinNoise.hpp:97-103 | the gradient selector on the low nibble of the hash; `Scalar.GradIsEdgeDot`, `Scalar.GradAtOrigin` and `Scalar.GradBound` state what it computes |
| Scalar.GradIsEdgeDot | PerlinNoise.hpp:97-103 | the selector depends only on the low nibble of the hash; its value is the dot product of the offset with one of the twelve cube-edge directions that nibble names |
| Scalar.GradAtOrigin | PerlinNoise.hpp:97-103 | the gradient at offset (0, 0, 0) is 0 for every hash |
| Scalar.GradBound | PerlinNoise.hpp:97-103 | with offsets in [-1, 1] the gradient lies in [-2, 2] |
| Scalar.ZeroOne | PerlinNoise.hpp:223-241 | the `* 0.5 + 0.5` remap is inverted by `2r - 1`, and it maps v into [0, 1] exactly when v is in [-1, 1] |
| Scalar.Quotient | PerlinNoise.hpp:303-322 | the division gives NaN exactly when the divisor is 0; otherwise the quotient times the divisor is the dividend |
| Scalar.ZeroOneFloat | PerlinNoise.hpp:353-372 | the remap keeps NaN as NaN and sends a finite v to r with `2r - 1 == v` |
| Lattice.Cell | PerlinNoise.hpp:193-195 | the cell index lies in [0, 255] and is floor(c) mod 256 |
| Lattice.Frac | PerlinNoise.hpp:197-199 | the offset inside the cell lies in [0, 1) |
| Lattice.Hashes | PerlinNoise.hpp:205-215 | for any table contents and any cell indices in [0, 255], every index read from the table (X, X+1, A, A+1, B, B+1, AA, AA+1, AB, AB+1, BA, BA+1, BB, BB+1) lies in [0, 511] |
| Lattice.UpperHalfRead | PerlinNoise.hpp:205-215 | with a permuted first half, some cell reads index 511, so the bound of 511 is attained and the second half is needed |
| Lattice.Blend | PerlinNoise.hpp:201-215 | the trilinear blend of the eight corner gradients weighted by the fade curve; `Lattice.BlendBound` bounds it by [-2, 2] inside the cell |
| Lattice.Noise3D | PerlinNoise.hpp:191-216 | the blend of the cell holding the point at the point's offset in it; `Lattice.NoiseBound`, `Lattice.LatticeZero` and `Lattice.Periodic` state its range, its zeros on the lattice and its period 256 |
| Lattice.Noise2D | PerlinNoise.hpp:185-188 | noise2D is noise3D on the plane z = 0, so the range and lattice zeros stated for `Lattice.Noise3D` apply to it |
| Lattice.Noise1D | PerlinNoise.hpp:179-182 | noise1D is noise3D on the line y = z = 0, so the range and lattice zeros stated for `Lattice.Noise3D` apply to it |
| Lattice.Noise1DZeroOne | PerlinNoise.hpp:223-227 | `2r - 1` is noise1D at x, and r lies in [-0.5, 1.5] |
| Lattice.Noise2DZeroOne | PerlinNoise.hpp:230-234 | `2r - 1` is noise2D at (x, y), and r lies in [-0.5, 1.5] |
| Lattice.Noise3DZeroOne | PerlinNoise.hpp:237-241 | `2r - 1` is noise3D at (x, y, z), and r lies in [-0.5, 1.5] |
| Lattice.LatticeZero | PerlinNoise.hpp:191-216 | noise3D is 0 at every integer lattice point |
| Lattice.FloorUnique | PerlinNoise.hpp:193-199 | the floor of c is the integer n with n <= c < n + 1 |
| Lattice.ShiftedCoordinate | PerlinNoise.hpp:193-199 | shifting a coordinate by a multiple of 256 changes neither its cell index nor its offset |
| Lattice.Periodic | PerlinNoise.hpp:191-216 | noise3D is periodic with period 256 in each coordinate |
| Lattice.TrilinearBound | PerlinNoise.hpp:208-215 | the interpolation tree of eight values in [-2, 2] with weights in [0, 1] lies in [-2, 2] |
| Lattice.CornerGradientsBound | PerlinNoise.hpp:208-215 | with in-cell offsets in the closed interval [0, 1], each of the eight corner gradients lies in [-2, 2] |
| Lattice.BlendBound | PerlinNoise.hpp:201-215 | with in-cell offsets in the closed interval [0, 1], the blended cell value lies in [-2, 2] |
| Lattice.NoiseBound | PerlinNoise.hpp:191-216 | noise3D lies in [-2, 2] for every table and every point |
| Octaves.AtOctave | PerlinNoise.hpp:290-292 | a coordinate after i doublings is 0 when it starts at 0; `Octaves.AtOctaveIsScaled` gives its value 2^i c |
| Octaves.Octave | PerlinNoise.hpp:289 | the term octave i adds: the noise at the point doubled i times, times the amplitude of octave i; `Octaves.OctaveBound` and `Octaves.OctaveAtLattice` state its bound and its zeros |
| Octaves.Amp | PerlinNoise.hpp:285-293 | the amplitude of octave i is positive; `Octaves.AmpIsReciprocal` gives its value 1 / 2^i |
| Octaves.AtOctaveIsScaled | PerlinNoise.hpp:290-292 | after i doublings a coordinate is 2^i times its start |
| Octaves.AmpIsReciprocal | PerlinNoise.hpp:285-293 | after i halvings the amplitude is the reciprocal of 2^i |
| Octaves.AtOctaveInteger | PerlinNoise.hpp:290-292 | doubling keeps integer coordinates integer |
| Octaves.GeometricWeight | PerlinNoise.hpp:106-118 | the weight is non-negative, and at least 1 for one or more octaves |
| Octaves.WeightClosedForm | PerlinNoise.hpp:106-118 | Weight(n) == 2 - 2 / 2^n for n >= 0 |
| Octaves.WeightBelowTwo | PerlinNoise.hpp:106-118 | the weight is below 2 for every octave count |
| Octaves.WeightIncreasing | PerlinNoise.hpp:106-118 | the weight strictly increases with the octave count from 0 on |
| Octaves.OctaveSum | PerlinNoise.hpp:282-297 | the sum of the first n octaves of a noise field, 0 for n <= 0; the octave loops are proved to compute it, and `Octaves.SingleOctave`, `Octaves.OctaveSumBound` and `Octaves.OctaveSumLatticeZero` state its value for one octave, its bound and its zeros |
| Octaves.SingleOctave | PerlinNoise.hpp:282-297 | one octave is the single-cell noise at the input point |
| Octaves.OctaveAtLattice | PerlinNoise.hpp:289-293 | every octave of a noise that vanishes on the lattice is 0 at a lattice point |
| Octaves.OctaveSumLatticeZero | PerlinNoise.hpp:282-297 | the octave sum of such a noise is 0 at every lattice point |
| Octaves.OctaveBound | PerlinNoise.hpp:289 | with the noise in [-2, 2], octave i lies within twice its amplitude |
| Octaves.OctaveSumBound | PerlinNoise.hpp:282-297 | with the noise in [-2, 2], the octave sum lies within twice the weight |
| Octaves.NormalizedBound | PerlinNoise.hpp:318-322 | for one or more octaves the sum divided by the weight lies in [-2, 2] |
| Octaves.OctaveLoopStep | PerlinNoise.hpp:287-294 | one loop iteration adds the next octave and doubles the coordinates while halving the amplitude |
| Octaves.AccumulateOctaves1D | PerlinNoise.hpp:251-261 | the loop computes the octave sum along x with y = z = 0, and 0 for octaves <= 0 |
| Octaves.AccumulateOctaves2D | PerlinNoise.hpp:267-278 | the loop computes the octave sum in the plane z = 0, and 0 for octaves <= 0 |
| Octaves.AccumulateOctaves3D | PerlinNoise.hpp:284-296 | the loop computes the octave sum, and 0 for octaves <= 0 |
| Perlin.NoiseFieldBounded | PerlinNoise.hpp:191-216 | the engine's noise3D satisfies the [-2, 2] bound the octave lemmas need |
| Perlin.NoiseFieldLatticeZero | PerlinNoise.hpp:191-216 | the engine's noise3D vanishes on the integer lattice |
| Perlin.OctaveNoiseLatticeZero | PerlinNoise.hpp:249-297 | the engine's accumulated octave noise, for any table and any octave count, is 0 at every integer lattice point |
| Perlin.BasicPerlinNoise.constructor | PerlinNoise.hpp:123-126 | the new engine's table is the shuffled identity doubled, its first half a permutation |
| Perlin.BasicPerlinNoise.FromGenerator | PerlinNoise.hpp:134-137 | as above, with the shuffle drawn from a generator |
| Perlin.BasicPerlinNoise.Reseed | PerlinNoise.hpp:139-152 | the table becomes the identity shuffled by the seeded engine, then mirrored; the first half is a permutation of 0..255 |
| Perlin.BasicPerlinNoise.ReseedWithGenerator | PerlinNoise.hpp:159-172 | the same with the shuffle drawn from a generator; equal generator states give equal tables |
| Perlin.BasicPerlinNoise.FillIdentity | PerlinNoise.hpp:161-164 | the first half becomes 0, 1, ..., 255 and the second half is unchanged |
| Perlin.BasicPerlinNoise.ApplySwaps | PerlinNoise.hpp:166 | the first half becomes the shuffle of its old contents and the second half is unchanged |
| Perlin.BasicPerlinNoise.MirrorFirstHalf | PerlinNoise.hpp:168-171 | the table becomes its old first half doubled |
| Perlin.BasicPerlinNoise.Serialize | PerlinNoise.hpp:378-384 | the output holds exactly the first half of the table, and the table is unchanged |
| Perlin.BasicPerlinNoise.Deserialize | PerlinNoise.hpp:386-392 | both halves of the table become the input, whatever its bytes (they are not checked to be a permutation), so serializing afterwards returns the input |
| Perlin.BasicPerlinNoise.Weight | PerlinNoise.hpp:106-118 | the loop computes 0 for octaves <= 0 and 2 - 2 / 2^n, in [1, 2), for n >= 1 octaves |
| Perlin.BasicPerlinNoise.AccumulatedOctaveNoise1D | PerlinNoise.hpp:249-262 | the result is the octave sum of noise1D; it is 0 for octaves <= 0, noise1D(x) for one octave, and within twice the weight in magnitude |
| Perlin.BasicPerlinNoise.AccumulatedOctaveNoise2D | PerlinNoise.hpp:265-279 | the same for noise2D |
| Perlin.BasicPerlinNoise.AccumulatedOctaveNoise3D | PerlinNoise.hpp:282-297 | the same for noise3D |
| Perlin.BasicPerlinNoise.NormalizedOctaveNoise1D | PerlinNoise.hpp:304-308 | NaN for octaves <= 0; otherwise the octave sum divided by the weight, in [-2, 2] |
| Perlin.BasicPerlinNoise.NormalizedOctaveNoise2D | PerlinNoise.hpp:311-315 | the same in two dimensions |
| Perlin.BasicPerlinNoise.NormalizedOctaveNoise3D | PerlinNoise.hpp:318-322 | the same in three dimensions |
| Perlin.BasicPerlinNoise.AccumulatedOctaveNoise1DZeroOne | PerlinNoise.hpp:329-333 | the result lies in [0, 1]; it is the clamped remap of the octave sum, and exactly the remap when the sum is in [-1, 1] |
| Perlin.BasicPerlinNoise.AccumulatedOctaveNoise2DZeroOne | PerlinNoise.hpp:336-340 | the same in two dimensions |
| Perlin.BasicPerlinNoise.AccumulatedOctaveNoise3DZeroOne | PerlinNoise.hpp:343-347 | the same in three dimensions |
| Perlin.BasicPerlinNoise.NormalizedOctaveNoise1DZeroOne | PerlinNoise.hpp:354-358 | NaN for octaves <= 0; otherwise r with `2r - 1` equal to the normalized value, so r lies in [-0.5, 1.5] |
| Perlin.BasicPerlinNoise.NormalizedOctaveNoise2DZeroOne | PerlinNoise.hpp:361-365 | the same in two dimensions |
| Perlin.BasicPerlinNoise.NormalizedOctaveNoise3DZeroOne | PerlinNoise.hpp:368-372 | the same in three dimensions |
| Perlin.Agree | example.cpp:154-155 | two engines with equal tables give the same accumulated octave noise |
| Perlin.CopyThenAgree | example.cpp:150-155 | an engine deserialized from another's serialized state gets an equal table and agrees with it |
| Perlin.ReseedThenAgree | example.cpp:157-161 | two engines reseeded with the same seed agree |
| Perlin.ReseedWithGeneratorThenAgree | example.cpp:163-167 | two engines reseeded from generators in the same state agree |
| Perlin.ExampleTest | example.cpp:145-168 | all three determinism assertions of the example program hold |

## Left out

- Floating-point rounding: noise values are exact reals, so the model does not capture rounding in `Fade`, `Lerp`, the signed sum `±u ± v` of `Grad`, the offset `x - floor(x)`, the interpolation tree, the remaps, the sums of the octave and `Weight` loops or the division by the weight. Infinite and NaN inputs are not modelled either.
- Lattice.Frac: the offset lies in [0, 1) over the reals only. In binary64, `x -= std::floor(x)` rounds for negative non-integer x, and for x in [-2^-54, 0) it gives exactly 1.0, so the source's offset lies in [0, 1]. `Lattice.CornerGradientsBound` and `Lattice.BlendBound` assume only offsets in the closed interval [0, 1], so the [-2, 2] bound still covers this edge.
- The amplitude `amp` is halved once per octave; in binary64 it underflows to 0 from octave 1075 on, while `Octaves.Amp` stays positive for every octave.
- Octaves.WeightBelowTwo: holds over the reals only. In binary64 the `Weight` loop reaches 2 - 2^-52 at 53 octaves, and adding 2^-53 is a tie that rounds to even, so the source's `Weight(n)` is exactly 2 for every n >= 54 (for binary32, from 25 on).
- Octaves.WeightIncreasing: holds over the reals only; in binary64 the weight stops increasing at 54 octaves, where it saturates at 2.
- Perlin.BasicPerlinNoise.Weight: its `value < 2.0` holds over the reals only; in binary64 the loop returns 2 for 54 or more octaves.
- The conversion of `floor(x)` to `std::int32_t` is modelled as exact. For coordinates whose floor falls outside the 32-bit range, that cast is undefined behaviour in C++.
- `std::shuffle`, `std::default_random_engine`, `std::mt19937` and `std::random_device` are library code. A shuffle is modelled as an arbitrary sequence of swaps within the first half. The seeded engine is a parameter mapping a 32-bit seed to such a sequence. A generator is the swap sequence it makes the shuffle perform. The caller's generator is advanced by the shuffle's draws (`reseed` and the generator constructor forward it by reference); the model does not track that state.
- The default seed `std::default_random_engine::default_seed` is implementation-defined, so it is a parameter of `Perlin.ExampleTest`.
- The deprecated legacy declarations at the end of the class have no bodies to model.
- The compiler-feature macros, the `std::clamp` selection and the concept constraints do not change behaviour.
- The demo programs are not part of this model: image and BMP output, console prompts and the older `PerlinNoise` API. Only the determinism checks of `Test()` are modelled.
- Lattice.NoiseBound: proves noise3D is in [-2, 2], weaker than the [-1, 1] range the source's comments claim for the noise. The bound comes from bounding each corner gradient by 2 and interpolating; the true maximum of the blend is a nonlinear optimisation over the fade weights and the in-cell offsets together, which this model does not carry out.
- Lattice.Noise1DZeroOne: the range is [-0.5, 1.5] rather than the [0, 1] the source's heading claims, because it rests on the [-2, 2] noise bound.
- Lattice.Noise2DZeroOne: the range is [-0.5, 1.5] rather than [0, 1], for the same reason.
- Lattice.Noise3DZeroOne: the range is [-0.5, 1.5] rather than [0, 1], for the same reason.
- Octaves.NormalizedBound: proves [-2, 2] for the normalized value, because it rests on the [-2, 2] noise bound.
- Perlin.BasicPerlinNoise.NormalizedOctaveNoise1D: the bound is [-2, 2] rather than [-1, 1], because it rests on the [-2, 2] noise bound.
- Perlin.BasicPerlinNoise.NormalizedOctaveNoise2D: the bound is [-2, 2] rather than [-1, 1], for the same reason.
- Perlin.BasicPerlinNoise.NormalizedOctaveNoise3D: the bound is [-2, 2] rather than [-1, 1], for the same reason.
- Perlin.BasicPerlinNoise.NormalizedOctaveNoise1DZeroOne: the range is [-0.5, 1.5] rather than [0, 1], for the same reason.
- Perlin.BasicPerlinNoise.NormalizedOctaveNoise2DZeroOne: the range is [-0.5, 1.5] rather than [0, 1], for the same reason.
- Perlin.BasicPerlinNoise.NormalizedOctaveNoise3DZeroOne: the range is [-0.5, 1.5] rather than [0, 1], for the same reason.
- Scalar.Quotient: models only divisions without an infinite result, which are the only ones the engine performs.
- Octaves.Amp: states only that the amplitude is positive. Its exact value is given by `Octaves.AmpIsReciprocal`.
- The octave loops live in `Octaves` as methods over an arbitrary single-cell noise function, and the class's accumulated methods call them with the engine's own noise3D. The loop bodies match the source's loops, but they are not textually inside the class.
