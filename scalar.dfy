/**
  The small scalar helpers of the noise engine, over the reals.

  The engine computes in a floating-point type; this model computes the same
  expressions exactly over `real`. The one floating-point value the reals
  lack and the engine can produce, NaN, is carried by `Float`.
*/
module Scalar {

  /** A floating-point result: a finite value, or NaN (the result of `0 / 0`). */
  datatype Float = Finite(value: real) | NaN

  /**
    Floating-point division where no infinity can arise: a non-zero divisor
    gives the quotient, and 0 / 0 gives NaN.
  */
  function Quotient(a: real, b: real): (r: Float)
    requires b != 0.0 || a == 0.0
    ensures r.NaN? <==> b == 0.0
    ensures r.Finite? ==> r.value * b == a
  {
    if b == 0.0 then NaN else Finite(a / b)
  }

  /** The `_0_1` remap on a floating-point value: NaN stays NaN. */
  function ZeroOneFloat(f: Float): (r: Float)
    ensures r.NaN? <==> f.NaN?
    ensures r.Finite? ==> 2.0 * r.value - 1.0 == f.value
  {
    match f
    case NaN => NaN
    case Finite(v) => Finite(ZeroOne(v))
  }

  /** The fallback `clamp` the engine uses when the standard one is missing. */
  function Clamp(v: real, lo: real, hi: real): (r: real)
    ensures lo <= hi ==> lo <= r <= hi
    ensures lo < v < hi ==> r == v
    ensures v <= lo ==> r == lo
    ensures lo < hi <= v ==> r == hi
  {
    if v <= lo then lo
    else if v >= hi then hi
    else v
  }

  /** Clamping to a non-empty range keeps the order of its inputs. */
  lemma ClampMonotone(v: real, w: real, lo: real, hi: real)
    requires lo <= hi && v <= w
    ensures Clamp(v, lo, hi) <= Clamp(w, lo, hi)
  {
  }

  /** Ken Perlin's quintic smoothstep 6t^5 - 15t^4 + 10t^3. */
  function Fade(t: real): (r: real)
    ensures t == 0.0 ==> r == 0.0
    ensures t == 1.0 ==> r == 1.0
  {
    t * t * t * (t * (t * 6.0 - 15.0) + 10.0)
  }

  /** The fade curve is point-symmetric about (1/2, 1/2). */
  lemma FadeSymmetric(t: real)
    ensures Fade(1.0 - t) == 1.0 - Fade(t)
  {
  }

  /** Scaling both sides of an inequality by a non-negative factor keeps it. */
  lemma ScaleLe(c: real, a: real, b: real)
    requires 0.0 <= c && a <= b
    ensures c * a <= c * b
  {
    assert c * b - c * a == c * (b - a);
  }

  /** For non-negative t the fade curve is non-negative. */
  lemma FadeNonNegative(t: real)
    requires 0.0 <= t
    ensures 0.0 <= Fade(t)
  {
    var q := t * (t * 6.0 - 15.0) + 10.0;
    // q == 6 (t - 5/4)^2 + 5/8
    assert q == 6.0 * ((t - 1.25) * (t - 1.25)) + 0.625;
    if t >= 1.25 {
      ScaleLe(t - 1.25, 0.0, t - 1.25);
    } else {
      ScaleLe(1.25 - t, 0.0, 1.25 - t);
      assert (1.25 - t) * (1.25 - t) == (t - 1.25) * (t - 1.25);
    }
    ScaleLe(t, 0.0, t);
    ScaleLe(t * t, 0.0, t);
    ScaleLe(t * t * t, 0.0, q);
  }

  /** On the unit interval the fade curve stays in the unit interval. */
  lemma FadeRange(t: real)
    requires 0.0 <= t <= 1.0
    ensures 0.0 <= Fade(t) <= 1.0
  {
    FadeNonNegative(t);
    FadeNonNegative(1.0 - t);
    FadeSymmetric(t);
  }

  /** Linear interpolation from `a` (at t = 0) to `b` (at t = 1). */
  function Lerp(t: real, a: real, b: real): (r: real)
    ensures t == 0.0 ==> r == a
    ensures t == 1.0 ==> r == b
  {
    a + t * (b - a)
  }

  /** Inside the unit interval, interpolation stays between its two end values. */
  lemma LerpBetween(t: real, a: real, b: real)
    requires 0.0 <= t <= 1.0
    ensures a <= b ==> a <= Lerp(t, a, b) <= b
    ensures b <= a ==> b <= Lerp(t, a, b) <= a
  {
    var d := b - a;
    var e := t * d;
    assert Lerp(t, a, b) == a + e;
    if a <= b {
      ScaleLe(t, 0.0, d);
      assert 0.0 <= e;
      ScaleLe(d, t, 1.0);
      assert e <= d;
    } else {
      ScaleLe(t, d, 0.0);
      assert e <= 0.0;
      ScaleLe(-d, t, 1.0);
      assert -e <= -d;
    }
  }

  /** Interpolating inside the unit interval between two values bounded by `m` stays bounded by `m`. */
  lemma LerpBound(t: real, a: real, b: real, m: real)
    requires 0.0 <= t <= 1.0
    requires -m <= a <= m && -m <= b <= m
    ensures -m <= Lerp(t, a, b) <= m
  {
    LerpBetween(t, a, b);
  }

  /** A gradient direction with integer components. */
  datatype Vec3 = Vec3(x: int, y: int, z: int)

  /**
    The sixteen directions the gradient selector picks from, by low nibble:
    the twelve midpoints of the edges of the cube [-1, 1]^3, with four of them
    repeated so that a 4-bit hash selects uniformly.
  */
  const EdgeGradients: seq<Vec3> := [
    Vec3(1, 1, 0), Vec3(-1, 1, 0), Vec3(1, -1, 0), Vec3(-1, -1, 0),
    Vec3(1, 0, 1), Vec3(-1, 0, 1), Vec3(1, 0, -1), Vec3(-1, 0, -1),
    Vec3(0, 1, 1), Vec3(0, -1, 1), Vec3(0, 1, -1), Vec3(0, -1, -1),
    Vec3(1, 1, 0), Vec3(0, -1, 1), Vec3(-1, 1, 0), Vec3(0, -1, -1)
  ]

  /** The dot product of an integer direction with a real offset. */
  function Dot(g: Vec3, x: real, y: real, z: real): real {
    g.x as real * x + g.y as real * y + g.z as real * z
  }

  /** An edge midpoint of the cube [-1, 1]^3: one component 0, the others +1 or -1. */
  predicate IsCubeEdge(g: Vec3) {
    && -1 <= g.x <= 1 && -1 <= g.y <= 1 && -1 <= g.z <= 1
    && (if g.x == 0 then 1 else 0) + (if g.y == 0 then 1 else 0) + (if g.z == 0 then 1 else 0) == 1
  }

  /**
    The gradient selector: from the low four bits `h` of the hash, pick u
    (x below 8, y otherwise) and v (y below 4, x for 12 and 14, z otherwise),
    negate u when bit 0 of h is set and v when bit 1 is set, and add them.
    On a byte, `hash & 15` is `hash % 16`, `(h & 1) == 0` is `h % 2 == 0`
    and `(h & 2) == 0` is `h / 2 % 2 == 0`.
  */
  function Grad(hash: int, x: real, y: real, z: real): real
    requires 0 <= hash < 256
  {
    var h := hash % 16;
    var u := if h < 8 then x else y;
    var v := if h < 4 then y else if h == 12 || h == 14 then x else z;
    (if h % 2 == 0 then u else -u) + (if h / 2 % 2 == 0 then v else -v)
  }

  /** The selector is the dot product of the offset with the edge gradient its low nibble names. */
  lemma GradIsEdgeDot(hash: int, x: real, y: real, z: real)
    requires 0 <= hash < 256
    ensures IsCubeEdge(EdgeGradients[hash % 16])
    ensures Grad(hash, x, y, z) == Dot(EdgeGradients[hash % 16], x, y, z)
  {
    var h := hash % 16;
    if h == 0 {} else if h == 1 {} else if h == 2 {} else if h == 3 {}
    else if h == 4 {} else if h == 5 {} else if h == 6 {} else if h == 7 {}
    else if h == 8 {} else if h == 9 {} else if h == 10 {} else if h == 11 {}
    else if h == 12 {} else if h == 13 {} else if h == 14 {} else {}
  }

  /** At the corner itself the gradient contributes nothing. */
  lemma GradAtOrigin(hash: int)
    requires 0 <= hash < 256
    ensures Grad(hash, 0.0, 0.0, 0.0) == 0.0
  {
  }

  /** With every offset component in [-1, 1], the gradient value lies in [-2, 2]. */
  lemma GradBound(hash: int, x: real, y: real, z: real)
    requires 0 <= hash < 256
    requires -1.0 <= x <= 1.0 && -1.0 <= y <= 1.0 && -1.0 <= z <= 1.0
    ensures -2.0 <= Grad(hash, x, y, z) <= 2.0
  {
  }

  /** The affine map of [-1, 1] onto [0, 1] used by the `_0_1` variants. */
  function ZeroOne(v: real): (r: real)
    ensures -1.0 <= v <= 1.0 <==> 0.0 <= r <= 1.0
    ensures 2.0 * r - 1.0 == v
  {
    v * 0.5 + 0.5
  }
}
