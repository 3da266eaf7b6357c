/**
  Single-cell noise: the lattice hashing through the permutation table and
  the trilinear blend of the eight corner gradients, evaluated exactly over
  the reals, plus the 1D and 2D projections and the [0, 1] remaps.

  Everything here is a function of the 512-entry table `t`; the engine's
  query members read nothing but that table.
*/
module Lattice {
  import opened Binary
  import opened PermutationTable
  import opened Scalar

  /** The lattice cell index of a coordinate, `floor(c) & 255`: in [0, 255] and
      determined by floor(c) modulo 256. */
  function Cell(c: real): (r: int)
    ensures 0 <= r < 256
    ensures r == c.Floor % 256
  {
    LowBitsIsMod(c.Floor, 8);
    LowBits(c.Floor, 8)
  }

  /** The position of a coordinate inside its cell, `c - floor(c)`: in [0, 1). */
  function Frac(c: real): (r: real)
    ensures 0.0 <= r < 1.0
  {
    c - c.Floor as real
  }

  /** The hashes of a cell: A = p[X] + Y, B = p[X + 1] + Y, and from them the
      corner hashes AA = p[A] + Z, AB = p[A + 1] + Z, BA = p[B] + Z, BB = p[B + 1] + Z. */
  datatype Corners = Corners(a: int, b: int, aa: int, ab: int, ba: int, bb: int)

  /** The fourteen table positions the blend of cell X reads through `h`. */
  function TableReads(x: int, h: Corners): seq<int> {
    [x, x + 1, h.a, h.a + 1, h.b, h.b + 1,
     h.aa, h.aa + 1, h.ab, h.ab + 1, h.ba, h.ba + 1, h.bb, h.bb + 1]
  }

  /** Hashing cell (X, Y, Z) through the doubled table. Whatever bytes the table
      holds, every position read lies in [0, 511]: at most 255 + 255 + 1. */
  function Hashes(t: Table, x: int, y: int, z: int): (h: Corners)
    requires 0 <= x < 256 && 0 <= y < 256 && 0 <= z < 256
    ensures forall k :: k in TableReads(x, h) ==> 0 <= k <= 511
  {
    var a := t[x] + y;
    var b := t[x + 1] + y;
    Corners(a, b, t[a] + z, t[a + 1] + z, t[b] + z, t[b + 1] + z)
  }

  /** The doubling is needed: on every table whose first half is a permutation,
      some cell reads position 511, in the upper half. */
  lemma UpperHalfRead(t: Table)
    requires IsPermutation(t[..256])
    ensures exists x :: 0 <= x < 256 && 511 in TableReads(x, Hashes(t, x, 255, 0))
  {
    PermutationCovers(t[..256], 255);
    var x :| 0 <= x < 256 && t[..256][x] == 255;
    assert Hashes(t, x, 255, 0).a + 1 == 511;
    assert TableReads(x, Hashes(t, x, 255, 0))[3] == 511;
  }

  /** The trilinear blend of the eight corner gradients of cell (X, Y, Z) at in-cell
      position (fx, fy, fz): x innermost, then y, then z, weighted by the fade curve. */
  function Blend(t: Table, x: int, y: int, z: int, fx: real, fy: real, fz: real): real
    requires 0 <= x < 256 && 0 <= y < 256 && 0 <= z < 256
  {
    var u, v, w := Fade(fx), Fade(fy), Fade(fz);
    var h := Hashes(t, x, y, z);
    Lerp(w,
      Lerp(v,
        Lerp(u, Grad(t[h.aa], fx, fy, fz), Grad(t[h.ba], fx - 1.0, fy, fz)),
        Lerp(u, Grad(t[h.ab], fx, fy - 1.0, fz), Grad(t[h.bb], fx - 1.0, fy - 1.0, fz))),
      Lerp(v,
        Lerp(u, Grad(t[h.aa + 1], fx, fy, fz - 1.0), Grad(t[h.ba + 1], fx - 1.0, fy, fz - 1.0)),
        Lerp(u, Grad(t[h.ab + 1], fx, fy - 1.0, fz - 1.0), Grad(t[h.bb + 1], fx - 1.0, fy - 1.0, fz - 1.0))))
  }

  /** noise3D: the blend of the cell holding (x, y, z) at the point's place inside it. */
  function Noise3D(t: Table, x: real, y: real, z: real): real
  {
    Blend(t, Cell(x), Cell(y), Cell(z), Frac(x), Frac(y), Frac(z))
  }

  /** noise2D: noise3D on the plane z = 0. */
  function Noise2D(t: Table, x: real, y: real): real
  {
    Noise3D(t, x, y, 0.0)
  }

  /** noise1D: noise3D on the line y = z = 0. */
  function Noise1D(t: Table, x: real): real
  {
    Noise3D(t, x, 0.0, 0.0)
  }

  /** noise1D_0_1: noise1D remapped from [-1, 1] to [0, 1], without clamping;
      from the noise bound [-2, 2] the result lies in [-0.5, 1.5]. */
  function Noise1DZeroOne(t: Table, x: real): (r: real)
    ensures 2.0 * r - 1.0 == Noise1D(t, x)
    ensures -0.5 <= r <= 1.5
  {
    NoiseBound(t, x, 0.0, 0.0);
    ZeroOne(Noise1D(t, x))
  }

  /** noise2D_0_1: noise2D remapped from [-1, 1] to [0, 1], without clamping;
      from the noise bound [-2, 2] the result lies in [-0.5, 1.5]. */
  function Noise2DZeroOne(t: Table, x: real, y: real): (r: real)
    ensures 2.0 * r - 1.0 == Noise2D(t, x, y)
    ensures -0.5 <= r <= 1.5
  {
    NoiseBound(t, x, y, 0.0);
    ZeroOne(Noise2D(t, x, y))
  }

  /** noise3D_0_1: noise3D remapped from [-1, 1] to [0, 1], without clamping;
      from the noise bound [-2, 2] the result lies in [-0.5, 1.5]. */
  function Noise3DZeroOne(t: Table, x: real, y: real, z: real): (r: real)
    ensures 2.0 * r - 1.0 == Noise3D(t, x, y, z)
    ensures -0.5 <= r <= 1.5
  {
    NoiseBound(t, x, y, z);
    ZeroOne(Noise3D(t, x, y, z))
  }

  /** At every integer lattice point the noise is exactly 0, whatever the table. */
  lemma LatticeZero(t: Table, i: int, j: int, k: int)
    ensures Noise3D(t, i as real, j as real, k as real) == 0.0
  {
    assert Frac(i as real) == 0.0 && Frac(j as real) == 0.0 && Frac(k as real) == 0.0;
    var h := Hashes(t, Cell(i as real), Cell(j as real), Cell(k as real));
    GradAtOrigin(t[h.aa]);
  }

  /** The floor of c is the integer n with n <= c < n + 1. */
  lemma FloorUnique(c: real, n: int)
    requires n as real <= c < n as real + 1.0
    ensures c.Floor == n
  {
  }

  /** Moving a coordinate by a multiple of 256 moves to the same cell index and in-cell position. */
  lemma ShiftedCoordinate(c: real, a: int)
    ensures Cell(c + (256 * a) as real) == Cell(c)
    ensures Frac(c + (256 * a) as real) == Frac(c)
  {
    var f := c.Floor;
    FloorUnique(c + (256 * a) as real, f + 256 * a);
    assert f == 256 * (f / 256) + f % 256;
    ModUnique(f + 256 * a, 256, f / 256 + a, f % 256);
  }

  /** The noise repeats with period 256 along each axis. */
  lemma Periodic(t: Table, x: real, y: real, z: real, a: int, b: int, c: int)
    ensures Noise3D(t, x + (256 * a) as real, y + (256 * b) as real, z + (256 * c) as real)
         == Noise3D(t, x, y, z)
  {
    ShiftedCoordinate(x, a);
    ShiftedCoordinate(y, b);
    ShiftedCoordinate(z, c);
  }

  /** The trilinear interpolation of eight values in [-2, 2] with weights in [0, 1] stays in [-2, 2]. */
  lemma TrilinearBound(u: real, v: real, w: real,
                       g000: real, g100: real, g010: real, g110: real,
                       g001: real, g101: real, g011: real, g111: real)
    requires 0.0 <= u <= 1.0 && 0.0 <= v <= 1.0 && 0.0 <= w <= 1.0
    requires -2.0 <= g000 <= 2.0 && -2.0 <= g100 <= 2.0 && -2.0 <= g010 <= 2.0 && -2.0 <= g110 <= 2.0
    requires -2.0 <= g001 <= 2.0 && -2.0 <= g101 <= 2.0 && -2.0 <= g011 <= 2.0 && -2.0 <= g111 <= 2.0
    ensures -2.0 <= Lerp(w, Lerp(v, Lerp(u, g000, g100), Lerp(u, g010, g110)),
                            Lerp(v, Lerp(u, g001, g101), Lerp(u, g011, g111))) <= 2.0
  {
    LerpBound(u, g000, g100, 2.0);
    LerpBound(u, g010, g110, 2.0);
    LerpBound(u, g001, g101, 2.0);
    LerpBound(u, g011, g111, 2.0);
    LerpBound(v, Lerp(u, g000, g100), Lerp(u, g010, g110), 2.0);
    LerpBound(v, Lerp(u, g001, g101), Lerp(u, g011, g111), 2.0);
    LerpBound(w, Lerp(v, Lerp(u, g000, g100), Lerp(u, g010, g110)),
                 Lerp(v, Lerp(u, g001, g101), Lerp(u, g011, g111)), 2.0);
  }

  /** Inside a cell every corner offset has components in [-1, 1], so every corner gradient lies in [-2, 2]. */
  lemma CornerGradientsBound(t: Table, x: int, y: int, z: int, fx: real, fy: real, fz: real)
    requires 0 <= x < 256 && 0 <= y < 256 && 0 <= z < 256
    requires 0.0 <= fx <= 1.0 && 0.0 <= fy <= 1.0 && 0.0 <= fz <= 1.0
    ensures var h := Hashes(t, x, y, z);
      && -2.0 <= Grad(t[h.aa], fx, fy, fz) <= 2.0
      && -2.0 <= Grad(t[h.ba], fx - 1.0, fy, fz) <= 2.0
      && -2.0 <= Grad(t[h.ab], fx, fy - 1.0, fz) <= 2.0
      && -2.0 <= Grad(t[h.bb], fx - 1.0, fy - 1.0, fz) <= 2.0
      && -2.0 <= Grad(t[h.aa + 1], fx, fy, fz - 1.0) <= 2.0
      && -2.0 <= Grad(t[h.ba + 1], fx - 1.0, fy, fz - 1.0) <= 2.0
      && -2.0 <= Grad(t[h.ab + 1], fx, fy - 1.0, fz - 1.0) <= 2.0
      && -2.0 <= Grad(t[h.bb + 1], fx - 1.0, fy - 1.0, fz - 1.0) <= 2.0
  {
    var h := Hashes(t, x, y, z);
    GradBound(t[h.aa], fx, fy, fz);
    GradBound(t[h.ba], fx - 1.0, fy, fz);
    GradBound(t[h.ab], fx, fy - 1.0, fz);
    GradBound(t[h.bb], fx - 1.0, fy - 1.0, fz);
    GradBound(t[h.aa + 1], fx, fy, fz - 1.0);
    GradBound(t[h.ba + 1], fx - 1.0, fy, fz - 1.0);
    GradBound(t[h.ab + 1], fx, fy - 1.0, fz - 1.0);
    GradBound(t[h.bb + 1], fx - 1.0, fy - 1.0, fz - 1.0);
  }

  /** Inside a cell the blend of the corner gradients lies in [-2, 2]. */
  lemma BlendBound(t: Table, x: int, y: int, z: int, fx: real, fy: real, fz: real)
    requires 0 <= x < 256 && 0 <= y < 256 && 0 <= z < 256
    requires 0.0 <= fx <= 1.0 && 0.0 <= fy <= 1.0 && 0.0 <= fz <= 1.0
    ensures -2.0 <= Blend(t, x, y, z, fx, fy, fz) <= 2.0
  {
    FadeRange(fx);
    FadeRange(fy);
    FadeRange(fz);
    CornerGradientsBound(t, x, y, z, fx, fy, fz);
    var h := Hashes(t, x, y, z);
    TrilinearBound(Fade(fx), Fade(fy), Fade(fz),
      Grad(t[h.aa], fx, fy, fz), Grad(t[h.ba], fx - 1.0, fy, fz),
      Grad(t[h.ab], fx, fy - 1.0, fz), Grad(t[h.bb], fx - 1.0, fy - 1.0, fz),
      Grad(t[h.aa + 1], fx, fy, fz - 1.0), Grad(t[h.ba + 1], fx - 1.0, fy, fz - 1.0),
      Grad(t[h.ab + 1], fx, fy - 1.0, fz - 1.0), Grad(t[h.bb + 1], fx - 1.0, fy - 1.0, fz - 1.0));
  }

  /** Whatever the table and the point, single-cell noise lies in [-2, 2]. */
  lemma NoiseBound(t: Table, x: real, y: real, z: real)
    ensures -2.0 <= Noise3D(t, x, y, z) <= 2.0
  {
    BlendBound(t, Cell(x), Cell(y), Cell(z), Frac(x), Frac(y), Frac(z));
  }

  /** The noise field of a table, as a function of the point. */
  function NoiseField(t: Table): (real, real, real) -> real {
    (x, y, z) => Noise3D(t, x, y, z)
  }
}
