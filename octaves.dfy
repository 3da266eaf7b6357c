/**
  Octave composition: the sum of single-cell noise at doubling frequencies
  and halving amplitudes, and the weight that normalizes it.

  Octave i samples the noise at 2^i times the point with amplitude 1 / 2^i.
  Over the reals these are exact. In binary64 the weights and their partial
  sums are exact up to 53 octaves, since each is a dyadic rational with at
  most 53 significant bits; beyond that the sum of the weights rounds to 2.
*/
module Octaves {
  import opened Binary
  import opened Scalar

  /** A coordinate at octave i: doubled i times, that is 2^i c. */
  function AtOctave(c: real, i: nat): (r: real)
    ensures c == 0.0 ==> r == 0.0
  {
    if i == 0 then c else 2.0 * AtOctave(c, i - 1)
  }

  /** The amplitude of octave i: 1 for the first octave, halved for each next one. */
  function Amp(i: nat): (r: real)
    ensures 0.0 < r
  {
    if i == 0 then 1.0 else Amp(i - 1) / 2.0
  }

  /** Doubling i times is scaling by 2^i. */
  lemma {:induction false} AtOctaveIsScaled(c: real, i: nat)
    ensures AtOctave(c, i) == (Pow2(i) as real) * c
  {
    if i > 0 {
      AtOctaveIsScaled(c, i - 1);
      assert (Pow2(i) as real) * c == 2.0 * ((Pow2(i - 1) as real) * c);
    }
  }

  /** The amplitude of octave i is 2^-i: the reciprocal of the frequency factor. */
  lemma {:induction false} AmpIsReciprocal(i: nat)
    ensures Amp(i) * AtOctave(1.0, i) == 1.0
  {
    if i > 0 {
      AmpIsReciprocal(i - 1);
      assert Amp(i) * AtOctave(1.0, i) == (Amp(i - 1) / 2.0) * (2.0 * AtOctave(1.0, i - 1));
    }
  }

  /** An integer coordinate stays an integer at every octave. */
  lemma {:induction false} AtOctaveInteger(c: real, i: nat)
    requires IsInteger(c)
    ensures IsInteger(AtOctave(c, i))
  {
    if i > 0 {
      AtOctaveInteger(c, i - 1);
      var n := AtOctave(c, i - 1).Floor;
      assert AtOctave(c, i) == (2 * n) as real;
    }
  }

  /** The total amplitude of the first n octaves, 1 + 1/2 + ... + 1/2^(n-1); 0 when n <= 0. */
  function GeometricWeight(n: int): (r: real)
    ensures 0.0 <= r
    ensures n >= 1 ==> 1.0 <= r
    decreases n
  {
    if n <= 0 then 0.0 else GeometricWeight(n - 1) + Amp(n - 1)
  }

  /** The closed form of the weight: 2 - 2 * 2^-n, that is 2 - 2^(1-n), for n >= 0. */
  lemma {:induction false} WeightClosedForm(n: nat)
    ensures GeometricWeight(n) == 2.0 - 2.0 * Amp(n)
  {
    if n > 0 {
      WeightClosedForm(n - 1);
    }
  }

  /** The weight never reaches 2. */
  lemma WeightBelowTwo(n: int)
    ensures GeometricWeight(n) < 2.0
  {
    if n >= 0 {
      WeightClosedForm(n);
    }
  }

  /** Every further octave adds weight. */
  lemma {:induction false} WeightIncreasing(n: int, m: int)
    requires 0 <= n < m
    ensures GeometricWeight(n) < GeometricWeight(m)
    decreases m
  {
    if n < m - 1 {
      WeightIncreasing(n, m - 1);
    }
  }

  /** A real with no fractional part. */
  predicate IsInteger(r: real) {
    r.Floor as real == r
  }

  /** Octave i of a noise field at (x, y, z): the noise at 2^i (x, y, z), weighted by 2^-i. */
  function Octave(noise: (real, real, real) -> real, x: real, y: real, z: real, i: nat): real
  {
    noise(AtOctave(x, i), AtOctave(y, i), AtOctave(z, i)) * Amp(i)
  }

  /** The sum of octaves 0..n-1 of a noise field at (x, y, z); 0 when n <= 0. */
  function OctaveSum(noise: (real, real, real) -> real, x: real, y: real, z: real, n: int): real
    decreases n
  {
    if n <= 0 then 0.0
    else OctaveSum(noise, x, y, z, n - 1) + Octave(noise, x, y, z, n - 1)
  }

  /** A single octave is the noise at the point itself. */
  lemma SingleOctave(noise: (real, real, real) -> real, x: real, y: real, z: real)
    ensures OctaveSum(noise, x, y, z, 1) == noise(x, y, z)
  {
  }

  /** Every octave of an integer lattice point samples an integer lattice point. */
  lemma OctaveAtLattice(noise: (real, real, real) -> real, x: real, y: real, z: real, n: nat)
    requires forall a, b, c :: IsInteger(a) && IsInteger(b) && IsInteger(c) ==> noise(a, b, c) == 0.0
    requires IsInteger(x) && IsInteger(y) && IsInteger(z)
    ensures Octave(noise, x, y, z, n) == 0.0
  {
    AtOctaveInteger(x, n);
    AtOctaveInteger(y, n);
    AtOctaveInteger(z, n);
  }

  /** When the noise vanishes at integer lattice points so do its octave sums. */
  lemma {:induction false} OctaveSumLatticeZero(noise: (real, real, real) -> real, x: real, y: real, z: real, n: int)
    requires forall a, b, c :: IsInteger(a) && IsInteger(b) && IsInteger(c) ==> noise(a, b, c) == 0.0
    requires IsInteger(x) && IsInteger(y) && IsInteger(z)
    ensures OctaveSum(noise, x, y, z, n) == 0.0
    decreases n
  {
    if n > 0 {
      OctaveSumLatticeZero(noise, x, y, z, n - 1);
      OctaveAtLattice(noise, x, y, z, n - 1);
    }
  }

  /** A field whose values all lie in [-2, 2], the range every single-cell noise value lies in. */
  ghost predicate BoundedByTwo(noise: (real, real, real) -> real) {
    forall a, b, c :: -2.0 <= noise(a, b, c) <= 2.0
  }

  /** A value in [-2, 2] weighted by a positive amplitude lies in [-2 amp, 2 amp]. */
  lemma WeightedBound(v: real, amp: real)
    requires -2.0 <= v <= 2.0 && 0.0 < amp
    ensures -2.0 * amp <= v * amp <= 2.0 * amp
  {
    ScaleLe(amp, v, 2.0);
    ScaleLe(amp, -2.0, v);
  }

  /** For a field bounded by 2, octave i is bounded by 2 * 2^-i. */
  lemma OctaveBound(noise: (real, real, real) -> real, x: real, y: real, z: real, i: nat)
    requires BoundedByTwo(noise)
    ensures -2.0 * Amp(i) <= Octave(noise, x, y, z, i) <= 2.0 * Amp(i)
  {
    var v := noise(AtOctave(x, i), AtOctave(y, i), AtOctave(z, i));
    assert -2.0 <= v <= 2.0;
    WeightedBound(v, Amp(i));
    assert Octave(noise, x, y, z, i) == v * Amp(i);
  }

  /** Hence the octave sum is bounded by 2 times the weight. */
  lemma {:induction false} OctaveSumBound(noise: (real, real, real) -> real, x: real, y: real, z: real, n: int)
    requires BoundedByTwo(noise)
    ensures -2.0 * GeometricWeight(n) <= OctaveSum(noise, x, y, z, n) <= 2.0 * GeometricWeight(n)
    decreases n
  {
    if n > 0 {
      OctaveSumBound(noise, x, y, z, n - 1);
      OctaveBound(noise, x, y, z, n - 1);
    }
  }

  /** A quotient by a positive w of a value within [-2 w, 2 w] lies in [-2, 2]. */
  lemma DivBound(a: real, w: real)
    requires w > 0.0 && -2.0 * w <= a <= 2.0 * w
    ensures -2.0 <= a / w <= 2.0
  {
    var q := a / w;
    assert q * w == a;
    assert (2.0 - q) * w >= 0.0;
    assert (q + 2.0) * w >= 0.0;
  }

  /** Dividing the octave sum of a field bounded by 2 by the weight lands in
      [-2, 2] for every octave count n >= 1. */
  lemma NormalizedBound(noise: (real, real, real) -> real, x: real, y: real, z: real, n: int)
    requires BoundedByTwo(noise)
    requires n >= 1
    ensures -2.0 <= OctaveSum(noise, x, y, z, n) / GeometricWeight(n) <= 2.0
  {
    OctaveSumBound(noise, x, y, z, n);
    DivBound(OctaveSum(noise, x, y, z, n), GeometricWeight(n));
  }

  /**
    One pass of an octave loop: with the coordinates and the amplitude at octave i,
    adding the weighted sample extends the sum by octave i, and doubling the
    coordinates and halving the amplitude reaches octave i + 1.
  */
  lemma OctaveLoopStep(noise: (real, real, real) -> real, x: real, y: real, z: real, i: nat,
                       cx: real, cy: real, cz: real, amp: real)
    requires amp == Amp(i) && cx == AtOctave(x, i) && cy == AtOctave(y, i) && cz == AtOctave(z, i)
    ensures OctaveSum(noise, x, y, z, i + 1) == OctaveSum(noise, x, y, z, i) + noise(cx, cy, cz) * amp
    ensures amp / 2.0 == Amp(i + 1)
    ensures cx * 2.0 == AtOctave(x, i + 1) && cy * 2.0 == AtOctave(y, i + 1) && cz * 2.0 == AtOctave(z, i + 1)
  {
  }

  /**
    The loop of accumulatedOctaveNoise1D: add the noise at (x, 0, 0) weighted
    by the amplitude, double x, halve the amplitude, `octaves` times.
  */
  method AccumulateOctaves1D(noise: (real, real, real) -> real, x: real, octaves: int) returns (result: real)
    ensures result == OctaveSum(noise, x, 0.0, 0.0, octaves)
    ensures octaves <= 0 ==> result == 0.0
  {
    result := 0.0;
    var amp := 1.0;
    var cx := x;
    var i := 0;
    while i < octaves
      invariant 0 <= i <= if octaves < 0 then 0 else octaves
      invariant amp == Amp(i) && cx == AtOctave(x, i)
      invariant result == OctaveSum(noise, x, 0.0, 0.0, i)
    {
      OctaveLoopStep(noise, x, 0.0, 0.0, i, cx, 0.0, 0.0, amp);
      result := result + noise(cx, 0.0, 0.0) * amp;
      cx := cx * 2.0;
      amp := amp / 2.0;
      i := i + 1;
    }
  }

  /** The loop of accumulatedOctaveNoise2D: as in 1D, with x and y doubled together and z = 0. */
  method AccumulateOctaves2D(noise: (real, real, real) -> real, x: real, y: real, octaves: int) returns (result: real)
    ensures result == OctaveSum(noise, x, y, 0.0, octaves)
    ensures octaves <= 0 ==> result == 0.0
  {
    result := 0.0;
    var amp := 1.0;
    var cx, cy := x, y;
    var i := 0;
    while i < octaves
      invariant 0 <= i <= if octaves < 0 then 0 else octaves
      invariant amp == Amp(i) && cx == AtOctave(x, i) && cy == AtOctave(y, i)
      invariant result == OctaveSum(noise, x, y, 0.0, i)
    {
      OctaveLoopStep(noise, x, y, 0.0, i, cx, cy, 0.0, amp);
      result := result + noise(cx, cy, 0.0) * amp;
      cx, cy := cx * 2.0, cy * 2.0;
      amp := amp / 2.0;
      i := i + 1;
    }
  }

  /** The loop of accumulatedOctaveNoise3D: as in 1D, with x, y and z doubled together. */
  method AccumulateOctaves3D(noise: (real, real, real) -> real, x: real, y: real, z: real, octaves: int) returns (result: real)
    ensures result == OctaveSum(noise, x, y, z, octaves)
    ensures octaves <= 0 ==> result == 0.0
  {
    result := 0.0;
    var amp := 1.0;
    var cx, cy, cz := x, y, z;
    var i := 0;
    while i < octaves
      invariant 0 <= i <= if octaves < 0 then 0 else octaves
      invariant amp == Amp(i) && cx == AtOctave(x, i) && cy == AtOctave(y, i) && cz == AtOctave(z, i)
      invariant result == OctaveSum(noise, x, y, z, i)
    {
      OctaveLoopStep(noise, x, y, z, i, cx, cy, cz, amp);
      result := result + noise(cx, cy, cz) * amp;
      cx, cy, cz := cx * 2.0, cy * 2.0, cz * 2.0;
      amp := amp / 2.0;
      i := i + 1;
    }
  }
}
