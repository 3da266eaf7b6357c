/**
  The permutation table of the noise engine, as a value.

  The engine keeps 512 bytes, and the last 256 always repeat the first 256,
  so that a lookup at an index up to 511 never has to wrap around. After
  reseeding the first 256 are a permutation of 0..255; deserialization stores
  whatever 256 bytes it is given, so it can break that. This module defines that shape, the identity fill and the
  shuffle that reseeding applies to it, and the doubling that both reseeding
  and deserialization perform.
*/
module PermutationTable {

  /** An unsigned 8-bit value: the element type of the table. */
  type Byte = b: int | 0 <= b < 256

  /** A position in the first half of the table. */
  type Index = i: int | 0 <= i < 256

  /** The engine's 512-entry lookup table. */
  type Table = t: seq<Byte> | |t| == 512 witness seq(512, _ => 0)

  /** One exchange of two entries of the first half, as a shuffle performs it. */
  datatype Swap = Swap(i: Index, j: Index)

  /** The identity fill 0, 1, ..., n - 1 that reseeding writes before shuffling. */
  function Iota(n: nat): (r: seq<Byte>)
    requires n <= 256
    ensures |r| == n
    ensures forall k :: 0 <= k < n ==> r[k] == k
  {
    if n == 0 then [] else Iota(n - 1) + [n - 1]
  }

  /** The first half after exchanging the entries at `s.i` and `s.j`. */
  function Swapped(t: seq<Byte>, s: Swap): (r: seq<Byte>)
    requires |t| == 256
    ensures |r| == 256
    ensures r[s.i] == t[s.j] && r[s.j] == t[s.i]
    ensures forall k :: 0 <= k < 256 && k != s.i && k != s.j ==> r[k] == t[k]
  {
    t[s.i := t[s.j]][s.j := t[s.i]]
  }

  /** The first half after applying `swaps` in order, first to last. */
  function Shuffle(t: seq<Byte>, swaps: seq<Swap>): (r: seq<Byte>)
    requires |t| == 256
    ensures |r| == 256
    ensures multiset(r) == multiset(t)
    decreases |swaps|
  {
    if swaps == [] then t
    else Swapped(Shuffle(t, swaps[..|swaps| - 1]), swaps[|swaps| - 1])
  }

  /** `t` holds every byte exactly once. */
  ghost predicate IsPermutation(t: seq<Byte>) {
    |t| == 256 && forall v: Byte :: multiset(t)[v] == 1
  }

  /** The second half of `t` repeats the first: `t[256 + i] == t[i]`. */
  ghost predicate Mirrored(t: seq<Byte>) {
    |t| == 512 && forall i :: 0 <= i < 256 ==> t[i] == t[256 + i]
  }

  /** The 512-entry table whose halves are both `s`. */
  function Doubled(s: seq<Byte>): (t: seq<Byte>)
    requires |s| == 256
    ensures Mirrored(t)
    ensures t[..256] == s
  {
    s + s
  }

  /** Appending one byte adds one occurrence of it and of nothing else. */
  lemma AppendCount(s: seq<Byte>, last: Byte, v: Byte)
    ensures multiset(s + [last])[v] == multiset(s)[v] + (if v == last then 1 else 0)
  {
    assert multiset(s + [last]) == multiset(s) + multiset{last};
  }

  /** Every value below `n` occurs exactly once in the identity fill, and no other value occurs. */
  lemma {:induction false} IotaCount(n: nat, v: Byte)
    requires n <= 256
    ensures multiset(Iota(n))[v] == if v < n then 1 else 0
  {
    if n > 0 {
      var prefix := Iota(n - 1);
      var last: Byte := n - 1;
      assert Iota(n) == prefix + [last];
      IotaCount(n - 1, v);
      AppendCount(prefix, last, v);
    }
  }

  /** The identity fill is a permutation. */
  lemma IotaIsPermutation()
    ensures IsPermutation(Iota(256))
  {
    forall v: Byte ensures multiset(Iota(256))[v] == 1 {
      IotaCount(256, v);
    }
  }

  /** Whatever swaps the shuffle performs, a permutation stays a permutation. */
  lemma ShuffleIsPermutation(t: seq<Byte>, swaps: seq<Swap>)
    requires IsPermutation(t)
    ensures IsPermutation(Shuffle(t, swaps))
  {
  }

  /** A permutation holds every byte somewhere. */
  lemma PermutationCovers(t: seq<Byte>, v: Byte)
    requires IsPermutation(t)
    ensures exists k :: 0 <= k < 256 && t[k] == v
  {
    assert v in multiset(t);
    assert v in t;
  }

  /** A permutation holds no byte twice. */
  lemma PermutationDistinct(t: seq<Byte>, i: int, j: int)
    requires IsPermutation(t)
    requires 0 <= i < 256 && 0 <= j < 256 && i != j
    ensures t[i] != t[j]
  {
    var lo, hi := if i < j then i else j, if i < j then j else i;
    var v := t[lo];
    assert t == t[..hi] + t[hi..];
    assert t[..hi][lo] == v;
    assert multiset(t)[v] == multiset(t[..hi])[v] + multiset(t[hi..])[v];
    assert multiset(t[hi..])[v] == 0;
    assert t[hi..][0] == t[hi];
  }

  /** A mirrored table is the doubling of its first half: the round trip
      between the 512-entry table and the 256-byte state. */
  lemma MirroredIsDoubled(t: seq<Byte>)
    requires Mirrored(t)
    ensures Doubled(t[..256]) == t
  {
    var d := Doubled(t[..256]);
    forall k | 0 <= k < 512 ensures d[k] == t[k] {
      if k >= 256 {
        assert t[k] == t[k - 256];
      }
    }
  }
}
