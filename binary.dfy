/**
  Integer facts the engine's bit manipulation rests on: powers of two, and
  masking the low bits of a two's-complement integer.
*/
module Binary {

  /** `std::int32_t`: the type of octave counts. */
  type Int32 = i: int | -0x8000_0000 <= i < 0x8000_0000

  /** `std::uint32_t`: the type of seeds. */
  type Uint32 = i: int | 0 <= i < 0x1_0000_0000

  /** 2^n. */
  function Pow2(n: nat): (r: nat)
    ensures r >= 1
  {
    if n == 0 then 1 else 2 * Pow2(n - 1)
  }

  /**
    `v & (2^k - 1)` on a two's-complement integer: bit 0 of `v` is `v % 2`
    and the remaining bits are those of the arithmetic shift `v >> 1`, which
    is the floor division `v / 2` (Dafny's `/` and `%` are Euclidean, which
    for a divisor of 2 is floor division).
  */
  function LowBits(v: int, k: nat): int
    decreases k
  {
    if k == 0 then 0 else v % 2 + 2 * LowBits(v / 2, k - 1)
  }

  /** A positive multiple of a positive number is at least that number. */
  lemma MulAtLeast(m: int, d: int)
    requires m > 0 && d >= 1
    ensures m * d >= m
  {
    assert m * d == m + m * (d - 1);
    assert m * (d - 1) >= 0;
  }

  /** The remainder is the unique r in [0, m) with v == m * q + r. */
  lemma ModUnique(v: int, m: int, q: int, r: int)
    requires m > 0 && v == m * q + r && 0 <= r < m
    ensures v % m == r
  {
    var q', r' := v / m, v % m;
    assert v == m * q' + r';
    if q' > q {
      MulAtLeast(m, q' - q);
      assert false;
    } else if q' < q {
      MulAtLeast(m, q - q');
      assert false;
    }
  }

  /** Masking the low k bits of a two's-complement integer is the Euclidean remainder by 2^k, negative inputs included. */
  lemma {:induction false} LowBitsIsMod(v: int, k: nat)
    ensures LowBits(v, k) == v % Pow2(k)
    decreases k
  {
    if k > 0 {
      LowBitsIsMod(v / 2, k - 1);
      var m := Pow2(k - 1);
      var q := (v / 2) / m;
      var s := (v / 2) % m;
      assert v / 2 == m * q + s;
      assert v == 2 * (v / 2) + v % 2;
      assert v == (2 * m) * q + (2 * s + v % 2);
      ModUnique(v, 2 * m, q, 2 * s + v % 2);
    }
  }
}
