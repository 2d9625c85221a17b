/**
 * Integer and real arithmetic used by the detector: C#'s truncating `(int)` cast,
 * `Math.Ceiling`, and the division facts behind row-major and channel-planar indexing.
 */
module Arith {

  /** `(int)x` in C#: rounds toward zero. */
  function TruncToInt(x: real): (r: int)
    ensures 0.0 <= x ==> r as real <= x < r as real + 1.0
    ensures x < 0.0 ==> r as real - 1.0 < x <= r as real
  {
    if x >= 0.0 then x.Floor else -((-x).Floor)
  }

  /** `Math.Ceiling(x)`: the least integer not below `x`. */
  function Ceiling(x: real): (r: int)
    ensures x <= r as real < x + 1.0
  {
    -((-x).Floor)
  }

  lemma MulMono(a: int, b: int, d: int)
    requires a <= b && d >= 0
    ensures a * d <= b * d
  {}

  lemma RealMulMono(a: real, b: real, c: real)
    requires a <= b && c >= 0.0
    ensures a * c <= b * c
  {}

  /** Quotient and remainder of `q * d + r` by `d` are `q` and `r`. */
  lemma {:induction false} DivModOf(q: int, d: int, r: int)
    requires d > 0 && 0 <= r < d
    ensures (q * d + r) / d == q && (q * d + r) % d == r
  {
    var x := q * d + r;
    var q', r' := x / d, x % d;
    assert q' * d + r' == q * d + r;
    if q' > q { MulMono(q + 1, q', d); assert false; }
    if q' < q { MulMono(q' + 1, q, d); assert false; }
  }

  /** Cell `(r, k)` of a `rows x cols` grid is inside its row-major buffer. */
  lemma RowMajorBound(r: int, k: int, rows: int, cols: int)
    requires 0 <= r < rows && 0 <= k < cols
    ensures 0 <= r * cols + k < rows * cols
  {
    MulMono(r + 1, rows, cols);
  }

  /** An index below `rows * cols` splits into a row below `rows` and a column below `cols`. */
  lemma RowMajorSplit(j: int, rows: int, cols: int)
    requires cols > 0 && 0 <= j < rows * cols
    ensures 0 <= j / cols < rows && 0 <= j % cols < cols
    ensures (j / cols) * cols + j % cols == j
  {
    if j / cols >= rows { MulMono(rows, j / cols, cols); assert false; }
  }

  /** `v` added `n` times; keeps sums of bounded terms free of products. */
  function Times(v: real, n: nat): real
  {
    if n == 0 then 0.0 else Times(v, n - 1) + v
  }

  lemma {:induction false} TimesAdd(v: real, a: nat, b: nat)
    ensures Times(v, a + b) == Times(v, a) + Times(v, b)
  {
    if b > 0 { TimesAdd(v, a, b - 1); }
  }

  lemma {:induction false} TimesIsProduct(v: real, n: nat)
    ensures Times(v, n) == v * n as real
  {
    if n > 0 { TimesIsProduct(v, n - 1); }
  }

  /** Rounding to the nearest integer, ties to the even one (`cvRound`). */
  function RoundHalfEven(x: real): (r: int)
    ensures x - 0.5 <= r as real <= x + 0.5
    ensures r as real == x - 0.5 || r as real == x + 0.5 ==> r % 2 == 0
  {
    var f := x.Floor;
    if x - f as real < 0.5 then f
    else if x - f as real > 0.5 then f + 1
    else if f % 2 == 0 then f else f + 1
  }

  /** `saturate_cast<uchar>`: rounded, then clamped to `[0, 255]`. */
  function SaturateByte(x: real): (b: int)
    ensures 0 <= b <= 255
    ensures 0.0 <= x <= 255.0 ==> x - 0.5 <= b as real <= x + 0.5
    ensures x < 0.0 ==> b == 0
    ensures x > 255.0 ==> b == 255
  {
    var r := RoundHalfEven(x);
    if r < 0 then 0 else if r > 255 then 255 else r
  }

  /** A value at most an integer rounds to at most that integer. */
  lemma RoundHalfEvenAtMost(x: real, n: int)
    requires x <= n as real
    ensures RoundHalfEven(x) <= n
  {
    var f := x.Floor;
    assert f <= n;
    if x - f as real >= 0.5 {
      assert f < n;
    }
  }

  /** A value at most the integer `t` never saturates above `t`. */
  lemma SaturateByteAtMost(x: real, t: int)
    requires 0 <= t && x <= t as real
    ensures SaturateByte(x) <= t
  {
    RoundHalfEvenAtMost(x, t);
  }
}
