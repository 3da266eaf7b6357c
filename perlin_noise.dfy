/**
  The noise engine object: a 512-entry permutation table updated in place by
  reseeding and deserialization, and the octave loops that query it.

  The shuffle is library code whose result depends on the random engine; it
  is modelled by the sequence of swaps it performs. A seeded engine is the
  map from seed to that sequence, taken as a parameter.
*/
module Perlin {
  import opened Binary
  import opened PermutationTable
  import opened Scalar
  import opened Lattice
  import opened Octaves

  /** Single-cell noise is bounded by 2 everywhere, whatever the table. */
  lemma NoiseFieldBounded(t: Table)
    ensures BoundedByTwo(NoiseField(t))
  {
    forall a, b, c ensures -2.0 <= NoiseField(t)(a, b, c) <= 2.0 {
      NoiseBound(t, a, b, c);
    }
  }

  /** Single-cell noise vanishes at every integer lattice point, whatever the table. */
  lemma NoiseFieldLatticeZero(t: Table)
    ensures forall a, b, c :: IsInteger(a) && IsInteger(b) && IsInteger(c) ==> NoiseField(t)(a, b, c) == 0.0
  {
    forall a, b, c | IsInteger(a) && IsInteger(b) && IsInteger(c)
      ensures NoiseField(t)(a, b, c) == 0.0
    {
      LatticeZero(t, a.Floor, b.Floor, c.Floor);
    }
  }

  /** The accumulated octave noise of any table is 0 at every integer lattice
      point, for every octave count: each octave samples a lattice point. */
  lemma OctaveNoiseLatticeZero(t: Table, x: real, y: real, z: real, n: int)
    requires IsInteger(x) && IsInteger(y) && IsInteger(z)
    ensures OctaveSum(NoiseField(t), x, y, z, n) == 0.0
  {
    NoiseFieldLatticeZero(t);
    OctaveSumLatticeZero(NoiseField(t), x, y, z, n);
  }

  /** The engine: `p[..256]` is the state, `p[256..]` repeats it. */
  class BasicPerlinNoise {
    const p: array<Byte>

    /** The table has 512 entries and its second half mirrors the first. */
    ghost predicate Valid()
      reads this, p
    {
      p.Length == 512 && Mirrored(p[..])
    }

    /** Construction from a seed: reseeding a fresh table with `engine(seed)`. */
    constructor (seed: Uint32, engine: Uint32 -> seq<Swap>)
      ensures Valid() && fresh(p)
      ensures p[..] == Doubled(Shuffle(Iota(256), engine(seed)))
      ensures IsPermutation(p[..256])
    {
      p := new Byte[512](_ => 0);
      new;
      Reseed(engine, seed);
    }

    /** Construction from a generator: reseeding a fresh table with the swaps the generator drives. */
    constructor FromGenerator(swaps: seq<Swap>)
      ensures Valid() && fresh(p)
      ensures p[..] == Doubled(Shuffle(Iota(256), swaps))
      ensures IsPermutation(p[..256])
    {
      p := new Byte[512](_ => 0);
      new;
      ReseedWithGenerator(swaps);
    }

    /** Reseeding from a seed: the shuffle is driven by the engine that seed starts. */
    method Reseed(engine: Uint32 -> seq<Swap>, seed: Uint32)
      requires p.Length == 512
      modifies p
      ensures Valid()
      ensures p[..] == Doubled(Shuffle(Iota(256), engine(seed)))
      ensures IsPermutation(p[..256])
    {
      ReseedWithGenerator(engine(seed));
    }

    /**
      Reseeding from a generator: the identity fill of the first half, the
      shuffle's swaps applied in order, then the copy into the second half.
      The first half ends up a permutation whatever swaps are performed.
    */
    method ReseedWithGenerator(swaps: seq<Swap>)
      requires p.Length == 512
      modifies p
      ensures Valid()
      ensures p[..] == Doubled(Shuffle(Iota(256), swaps))
      ensures IsPermutation(p[..256])
    {
      FillIdentity();
      ApplySwaps(swaps);
      MirrorFirstHalf();
      IotaIsPermutation();
      ShuffleIsPermutation(Iota(256), swaps);
    }

    /** The first loop of reseeding: `p[i] = i` for every i below 256. */
    method FillIdentity()
      requires p.Length == 512
      modifies p
      ensures p[..256] == Iota(256)
      ensures p[256..] == old(p[256..])
    {
      for i := 0 to 256
        invariant forall k :: 0 <= k < i ==> p[k] == k
        invariant p[256..] == old(p[256..])
      {
        p[i] := i;
      }
    }

    /** The shuffle of the first half, one exchange at a time; the second half is not touched. */
    method ApplySwaps(swaps: seq<Swap>)
      requires p.Length == 512
      modifies p
      ensures p[..256] == Shuffle(old(p[..256]), swaps)
      ensures p[256..] == old(p[256..])
    {
      ghost var start := p[..256];
      for k := 0 to |swaps|
        invariant p[..256] == Shuffle(start, swaps[..k])
        invariant p[256..] == old(p[256..])
      {
        var s := swaps[k];
        ghost var before := p[..256];
        var tmp := p[s.i];
        p[s.i] := p[s.j];
        p[s.j] := tmp;
        assert p[..256] == Swapped(before, s);
        assert swaps[..k + 1][..k] == swaps[..k];
      }
      assert swaps[..|swaps|] == swaps;
    }

    /** The last loop of reseeding: `p[256 + i] = p[i]` for every i below 256. */
    method MirrorFirstHalf()
      requires p.Length == 512
      modifies p
      ensures p[..] == Doubled(old(p[..256]))
    {
      for i := 0 to 256
        invariant forall k :: 0 <= k < 256 ==> p[k] == old(p[k])
        invariant forall k :: 0 <= k < i ==> p[256 + k] == p[k]
      {
        p[256 + i] := p[i];
      }
      assert forall k :: 0 <= k < 512 ==> p[..][k] == Doubled(old(p[..256]))[k];
    }

    /** Serialization: the first half of the table is copied out; the table is left as it was. */
    method Serialize(s: array<Byte>)
      requires Valid() && s.Length == 256
      modifies s
      ensures s[..] == p[..256]
      ensures p[..] == old(p[..])
    {
      for i := 0 to 256
        invariant forall k :: 0 <= k < i ==> s[k] == p[k]
      {
        s[i] := p[i];
      }
      assert s[..] == p[..256];
    }

    /**
      Deserialization: both halves of the table are overwritten by `s`, whatever
      bytes it holds; `s` is left as it was. Serializing afterwards gives `s` back.
    */
    method Deserialize(s: array<Byte>)
      requires p.Length == 512 && s.Length == 256
      modifies p
      ensures Valid()
      ensures p[..] == Doubled(s[..])
      ensures p[..256] == s[..]
    {
      for i := 0 to 256
        invariant forall k :: 0 <= k < i ==> p[k] == s[k] && p[256 + k] == s[k]
      {
        p[i] := s[i];
        p[256 + i] := p[i];
      }
      assert p[..] == Doubled(s[..]);
    }

    /** The total amplitude of `octaves` octaves: 0 for none, 2 - 2^(1 - octaves) otherwise, always below 2. */
    static method Weight(octaves: Int32) returns (value: real)
      ensures value == GeometricWeight(octaves)
      ensures octaves <= 0 ==> value == 0.0
      ensures octaves >= 1 ==> value == 2.0 - 2.0 * Amp(octaves) && 1.0 <= value < 2.0
    {
      var amp := 1.0;
      value := 0.0;
      var i := 0;
      while i < octaves
        invariant 0 <= i <= if octaves < 0 then 0 else octaves
        invariant amp == Amp(i)
        invariant value == GeometricWeight(i)
      {
        value := value + amp;
        amp := amp / 2.0;
        i := i + 1;
      }
      if octaves >= 1 {
        WeightClosedForm(octaves);
        WeightBelowTwo(octaves);
      }
    }

    /** The sum of `octaves` octaves of noise1D at x, unnormalized: within twice the weight. */
    method AccumulatedOctaveNoise1D(x: real, octaves: Int32) returns (result: real)
      requires Valid()
      ensures result == OctaveSum(NoiseField(p[..]), x, 0.0, 0.0, octaves)
      ensures octaves <= 0 ==> result == 0.0
      ensures octaves == 1 ==> result == Noise1D(p[..], x)
      ensures -2.0 * GeometricWeight(octaves) <= result <= 2.0 * GeometricWeight(octaves)
    {
      result := AccumulateOctaves1D(NoiseField(p[..]), x, octaves);
      SingleOctave(NoiseField(p[..]), x, 0.0, 0.0);
      NoiseFieldBounded(p[..]);
      OctaveSumBound(NoiseField(p[..]), x, 0.0, 0.0, octaves);
    }

    /** The sum of `octaves` octaves of noise2D at (x, y), unnormalized: within twice the weight. */
    method AccumulatedOctaveNoise2D(x: real, y: real, octaves: Int32) returns (result: real)
      requires Valid()
      ensures result == OctaveSum(NoiseField(p[..]), x, y, 0.0, octaves)
      ensures octaves <= 0 ==> result == 0.0
      ensures octaves == 1 ==> result == Noise2D(p[..], x, y)
      ensures -2.0 * GeometricWeight(octaves) <= result <= 2.0 * GeometricWeight(octaves)
    {
      result := AccumulateOctaves2D(NoiseField(p[..]), x, y, octaves);
      SingleOctave(NoiseField(p[..]), x, y, 0.0);
      NoiseFieldBounded(p[..]);
      OctaveSumBound(NoiseField(p[..]), x, y, 0.0, octaves);
    }

    /** The sum of `octaves` octaves of noise3D at (x, y, z), unnormalized: within twice the weight. */
    method AccumulatedOctaveNoise3D(x: real, y: real, z: real, octaves: Int32) returns (result: real)
      requires Valid()
      ensures result == OctaveSum(NoiseField(p[..]), x, y, z, octaves)
      ensures octaves <= 0 ==> result == 0.0
      ensures octaves == 1 ==> result == Noise3D(p[..], x, y, z)
      ensures -2.0 * GeometricWeight(octaves) <= result <= 2.0 * GeometricWeight(octaves)
    {
      result := AccumulateOctaves3D(NoiseField(p[..]), x, y, z, octaves);
      SingleOctave(NoiseField(p[..]), x, y, z);
      NoiseFieldBounded(p[..]);
      OctaveSumBound(NoiseField(p[..]), x, y, z, octaves);
    }

    /**
      The octave sum of noise1D at x divided by the weight. With no octaves
      both are 0 and the division gives NaN; otherwise the value lies in [-2, 2].
    */
    method NormalizedOctaveNoise1D(x: real, octaves: Int32) returns (r: Float)
      requires Valid()
      ensures octaves <= 0 ==> r == NaN
      ensures octaves >= 1 ==> r == Finite(OctaveSum(NoiseField(p[..]), x, 0.0, 0.0, octaves) / GeometricWeight(octaves))
      ensures octaves >= 1 ==> -2.0 <= r.value <= 2.0
    {
      var acc := AccumulatedOctaveNoise1D(x, octaves);
      var w := Weight(octaves);
      r := Quotient(acc, w);
      if octaves >= 1 {
        NoiseFieldBounded(p[..]);
        NormalizedBound(NoiseField(p[..]), x, 0.0, 0.0, octaves);
      }
    }

    /**
      The octave sum of noise1D at x remapped to [0, 1] and clamped there:
      the remap is exact whenever the sum lies in [-1, 1].
    */
    method AccumulatedOctaveNoise1DZeroOne(x: real, octaves: Int32) returns (r: real)
      requires Valid()
      ensures 0.0 <= r <= 1.0
      ensures r == Clamp(ZeroOne(OctaveSum(NoiseField(p[..]), x, 0.0, 0.0, octaves)), 0.0, 1.0)
      ensures -1.0 <= OctaveSum(NoiseField(p[..]), x, 0.0, 0.0, octaves) <= 1.0
          ==> 2.0 * r - 1.0 == OctaveSum(NoiseField(p[..]), x, 0.0, 0.0, octaves)
    {
      var acc := AccumulatedOctaveNoise1D(x, octaves);
      r := Clamp(ZeroOne(acc), 0.0, 1.0);
    }

    /** The normalized octave noise1D at x remapped from [-1, 1] to [0, 1], without clamping; NaN stays NaN. */
    method NormalizedOctaveNoise1DZeroOne(x: real, octaves: Int32) returns (r: Float)
      requires Valid()
      ensures octaves <= 0 ==> r == NaN
      ensures octaves >= 1 ==> r.Finite? && 2.0 * r.value - 1.0 == OctaveSum(NoiseField(p[..]), x, 0.0, 0.0, octaves) / GeometricWeight(octaves)
      ensures octaves >= 1 ==> -0.5 <= r.value <= 1.5
    {
      var n := NormalizedOctaveNoise1D(x, octaves);
      r := ZeroOneFloat(n);
    }

    /**
      The octave sum of noise2D at (x, y) divided by the weight. With no octaves
      both are 0 and the division gives NaN; otherwise the value lies in [-2, 2].
    */
    method NormalizedOctaveNoise2D(x: real, y: real, octaves: Int32) returns (r: Float)
      requires Valid()
      ensures octaves <= 0 ==> r == NaN
      ensures octaves >= 1 ==> r == Finite(OctaveSum(NoiseField(p[..]), x, y, 0.0, octaves) / GeometricWeight(octaves))
      ensures octaves >= 1 ==> -2.0 <= r.value <= 2.0
    {
      var acc := AccumulatedOctaveNoise2D(x, y, octaves);
      var w := Weight(octaves);
      r := Quotient(acc, w);
      if octaves >= 1 {
        NoiseFieldBounded(p[..]);
        NormalizedBound(NoiseField(p[..]), x, y, 0.0, octaves);
      }
    }

    /**
      The octave sum of noise2D at (x, y) remapped to [0, 1] and clamped there:
      the remap is exact whenever the sum lies in [-1, 1].
    */
    method AccumulatedOctaveNoise2DZeroOne(x: real, y: real, octaves: Int32) returns (r: real)
      requires Valid()
      ensures 0.0 <= r <= 1.0
      ensures r == Clamp(ZeroOne(OctaveSum(NoiseField(p[..]), x, y, 0.0, octaves)), 0.0, 1.0)
      ensures -1.0 <= OctaveSum(NoiseField(p[..]), x, y, 0.0, octaves) <= 1.0
          ==> 2.0 * r - 1.0 == OctaveSum(NoiseField(p[..]), x, y, 0.0, octaves)
    {
      var acc := AccumulatedOctaveNoise2D(x, y, octaves);
      r := Clamp(ZeroOne(acc), 0.0, 1.0);
    }

    /** The normalized octave noise2D at (x, y) remapped from [-1, 1] to [0, 1], without clamping; NaN stays NaN. */
    method NormalizedOctaveNoise2DZeroOne(x: real, y: real, octaves: Int32) returns (r: Float)
      requires Valid()
      ensures octaves <= 0 ==> r == NaN
      ensures octaves >= 1 ==> r.Finite? && 2.0 * r.value - 1.0 == OctaveSum(NoiseField(p[..]), x, y, 0.0, octaves) / GeometricWeight(octaves)
      ensures octaves >= 1 ==> -0.5 <= r.value <= 1.5
    {
      var n := NormalizedOctaveNoise2D(x, y, octaves);
      r := ZeroOneFloat(n);
    }

    /**
      The octave sum of noise3D at (x, y, z) divided by the weight. With no octaves
      both are 0 and the division gives NaN; otherwise the value lies in [-2, 2].
    */
    method NormalizedOctaveNoise3D(x: real, y: real, z: real, octaves: Int32) returns (r: Float)
      requires Valid()
      ensures octaves <= 0 ==> r == NaN
      ensures octaves >= 1 ==> r == Finite(OctaveSum(NoiseField(p[..]), x, y, z, octaves) / GeometricWeight(octaves))
      ensures octaves >= 1 ==> -2.0 <= r.value <= 2.0
    {
      var acc := AccumulatedOctaveNoise3D(x, y, z, octaves);
      var w := Weight(octaves);
      r := Quotient(acc, w);
      if octaves >= 1 {
        NoiseFieldBounded(p[..]);
        NormalizedBound(NoiseField(p[..]), x, y, z, octaves);
      }
    }

    /**
      The octave sum of noise3D at (x, y, z) remapped to [0, 1] and clamped there:
      the remap is exact whenever the sum lies in [-1, 1].
    */
    method AccumulatedOctaveNoise3DZeroOne(x: real, y: real, z: real, octaves: Int32) returns (r: real)
      requires Valid()
      ensures 0.0 <= r <= 1.0
      ensures r == Clamp(ZeroOne(OctaveSum(NoiseField(p[..]), x, y, z, octaves)), 0.0, 1.0)
      ensures -1.0 <= OctaveSum(NoiseField(p[..]), x, y, z, octaves) <= 1.0
          ==> 2.0 * r - 1.0 == OctaveSum(NoiseField(p[..]), x, y, z, octaves)
    {
      var acc := AccumulatedOctaveNoise3D(x, y, z, octaves);
      r := Clamp(ZeroOne(acc), 0.0, 1.0);
    }

    /** The normalized octave noise3D at (x, y, z) remapped from [-1, 1] to [0, 1], without clamping; NaN stays NaN. */
    method NormalizedOctaveNoise3DZeroOne(x: real, y: real, z: real, octaves: Int32) returns (r: Float)
      requires Valid()
      ensures octaves <= 0 ==> r == NaN
      ensures octaves >= 1 ==> r.Finite? && 2.0 * r.value - 1.0 == OctaveSum(NoiseField(p[..]), x, y, z, octaves) / GeometricWeight(octaves)
      ensures octaves >= 1 ==> -0.5 <= r.value <= 1.5
    {
      var n := NormalizedOctaveNoise3D(x, y, z, octaves);
      r := ZeroOneFloat(n);
    }
  }

  /** Two engines with equal tables agree on the accumulated octave noise at (0.1, 0.2, 0.3) over 4 octaves. */
  method Agree(a: BasicPerlinNoise, b: BasicPerlinNoise) returns (same: bool)
    requires a.Valid() && b.Valid() && a.p[..] == b.p[..]
    ensures same
  {
    var ra := a.AccumulatedOctaveNoise3D(0.1, 0.2, 0.3, 4);
    var rb := b.AccumulatedOctaveNoise3D(0.1, 0.2, 0.3, 4);
    same := ra == rb;
  }

  /** An engine rebuilt from another's serialized state agrees with it. */
  method CopyThenAgree(a: BasicPerlinNoise, b: BasicPerlinNoise) returns (same: bool)
    requires a.Valid() && b.p.Length == 512 && a.p != b.p
    modifies b.p
    ensures b.p[..] == a.p[..]
    ensures same
  {
    var state := new Byte[256](_ => 0);
    a.Serialize(state);
    b.Deserialize(state);
    MirroredIsDoubled(a.p[..]);
    same := Agree(a, b);
  }

  /** Two engines reseeded from the same seed agree. */
  method ReseedThenAgree(a: BasicPerlinNoise, b: BasicPerlinNoise, engine: Uint32 -> seq<Swap>, seed: Uint32)
    returns (same: bool)
    requires a.p.Length == 512 && b.p.Length == 512 && a.p != b.p
    modifies a.p, b.p
    ensures same
  {
    a.Reseed(engine, seed);
    b.Reseed(engine, seed);
    same := Agree(a, b);
  }

  /** Two engines reseeded from generators in the same state agree. */
  method ReseedWithGeneratorThenAgree(a: BasicPerlinNoise, b: BasicPerlinNoise, generator: seq<Swap>)
    returns (same: bool)
    requires a.p.Length == 512 && b.p.Length == 512 && a.p != b.p
    modifies a.p, b.p
    ensures same
  {
    a.ReseedWithGenerator(generator);
    b.ReseedWithGenerator(generator);
    same := Agree(a, b);
  }

  /**
    The determinism checks of the example program: an engine rebuilt from
    another's serialized state, and two engines reseeded alike (from the seed
    1234, then from generators in the same state), agree on the accumulated
    octave noise.
  */
  method ExampleTest(device: seq<Swap>, engine: Uint32 -> seq<Swap>, defaultSeed: Uint32, generator: seq<Swap>)
    returns (afterCopy: bool, afterSeed: bool, afterGenerator: bool)
    ensures afterCopy && afterSeed && afterGenerator
  {
    var a := new BasicPerlinNoise.FromGenerator(device);
    var b := new BasicPerlinNoise(defaultSeed, engine);
    afterCopy := CopyThenAgree(a, b);
    afterSeed := ReseedThenAgree(a, b, engine, 1234);
    afterGenerator := ReseedWithGeneratorThenAgree(a, b, generator);
  }
}
