/**
  Exact-arithmetic stand-ins for the handful of Python numeric operations the
  pipeline relies on: `int(x)` on a float (truncation toward zero), `max`/`min`,
  and the clip to the 8-bit range. Python floats are modelled as exact reals.
 */
module Arith {

  /** An 8-bit channel value, the range of every PIL "L" sample. */
  type Byte = x: int | 0 <= x < 256

  function Max(a: int, b: int): int { if a >= b then a else b }

  function Min(a: int, b: int): int { if a <= b then a else b }

  function MaxR(a: real, b: real): real { if a >= b then a else b }

  /** Python's `int()` applied to a float: rounds toward zero. */
  function Trunc(r: real): (t: int)
    ensures r >= 0.0 ==> t >= 0 && t as real <= r < t as real + 1.0
    ensures r < 0.0 ==> t <= 0 && t as real - 1.0 < r <= t as real
  {
    if r >= 0.0 then r.Floor else -((-r).Floor)
  }

  /** `max(0, min(255, v))`: the clamp to an 8-bit value. */
  function Clamp8(v: int): (b: Byte)
    ensures 0 <= v <= 255 ==> b == v
    ensures v < 0 ==> b == 0
    ensures v > 255 ==> b == 255
  {
    Max(0, Min(255, v))
  }

  lemma Clamp8Monotone(a: int, b: int)
    requires a <= b
    ensures Clamp8(a) <= Clamp8(b)
  {
  }

  /** Truncation of a non-negative real is pinned down by the integer it brackets. */
  lemma TruncIs(r: real, k: int)
    requires 0 <= k
    requires k as real <= r < k as real + 1.0
    ensures Trunc(r) == k
  {
  }

  /** Truncating `n * num / den` (all non-negative) is Euclidean division. */
  lemma TruncRatio(n: int, num: int, den: int)
    requires n >= 0 && num >= 0 && den > 0
    ensures Trunc((n * num) as real / den as real) == n * num / den
  {
    var q := n * num / den;
    var m := n * num;
    assert q * den <= m < q * den + den;
    assert q as real * den as real <= m as real;
    assert m as real < (q as real + 1.0) * den as real;
    var r := m as real / den as real;
    assert r * den as real == m as real;
    DivideBounds(m as real, den as real, q as real);
    TruncIs(r, q);
  }

  /** Dividing by a positive real preserves `<=`. */
  lemma DivLe(a: real, b: real, d: real)
    requires d > 0.0 && a <= b
    ensures a / d <= b / d
  {
    assert b / d - a / d == (b - a) / d;
  }

  /** Dividing by a positive real preserves `<`. */
  lemma DivLt(a: real, b: real, d: real)
    requires d > 0.0 && a < b
    ensures a / d < b / d
  {
    assert b / d - a / d == (b - a) / d;
  }

  lemma Cancel(p: real, d: real)
    requires d > 0.0
    ensures (p * d) / d == p
  {
  }

  lemma DivideBounds(m: real, d: real, q: real)
    requires d > 0.0
    requires q * d <= m < (q + 1.0) * d
    ensures q <= m / d < q + 1.0
  {
    DivLe(q * d, m, d);
    var p := q + 1.0;
    var hi := p * d;
    DivLt(m, hi, d);
    Cancel(q, d);
    Cancel(p, d);
    assert m / d < hi / d == p;
  }

  /** Truncation is monotone. */
  lemma TruncMonotone(a: real, b: real)
    requires a <= b
    ensures Trunc(a) <= Trunc(b)
  {
  }

  /** For non-negative reals the truncated parts never add up to more than the truncated sum. */
  lemma TruncAddLe(a: real, b: real)
    requires a >= 0.0 && b >= 0.0
    ensures Trunc(a) + Trunc(b) <= Trunc(a + b)
  {
  }

  /** Multiplying by a non-negative factor preserves `<=`. */
  lemma MulLeft(s: real, a: real, b: real)
    requires s >= 0.0 && a <= b
    ensures s * a <= s * b
  {
    assert s * b - s * a == s * (b - a);
  }

  lemma MulNonNeg(a: real, b: real)
    requires a >= 0.0 && b >= 0.0
    ensures a * b >= 0.0
  {
  }

  /** A non-negative count scaled by a non-negative ratio is non-negative. */
  lemma ScaleNonNeg(n: nat, ratio: real)
    ensures ratio >= 0.0 ==> n as real * ratio >= 0.0
  {
    if ratio >= 0.0 {
      MulNonNeg(n as real, ratio);
    }
  }

  /** A square is never negative. */
  lemma SquareNonNeg(d: real)
    ensures d * d >= 0.0
  {
    if d < 0.0 {
      assert d * d == (-d) * (-d);
      MulNonNeg(-d, -d);
    } else {
      MulNonNeg(d, d);
    }
  }

  /** A row index and a column index address a cell inside a `w * h` row-major buffer. */
  lemma RowMajorIndex(x: int, y: int, w: int, h: int)
    requires 0 <= x < w && 0 <= y < h
    ensures 0 <= y * w + x < w * h
  {
    var k := h - y - 1;
    assert 0 <= k * w;
    assert 0 <= y * w;
    assert h * w == y * w + w + k * w;
  }
}
