/**
 * Preparing the network input: `MatResize`, `MatPadding32`, `Normalize` and `ExtractMat`
 * of PaddleOcrDetector.
 */
module Preprocess {
  import opened Wrappers
  import opened Arith
  import opened Images
  import OpenCv

  function LongEdge(m: Mat): nat {
    if m.cols >= m.rows then m.cols else m.rows
  }

  /**
   * The resize decision of `MatResize`: `None` keeps the image (a copy), `Some(s)` scales both
   * axes by `s = maxSize / longEdge`.
   */
  function ResizeFactor(src: Mat, maxSize: Option<int>): (f: Option<real>)
    requires !src.Empty()
    ensures f.None? <==> maxSize.None? || maxSize.value >= LongEdge(src)
    ensures f.Some? ==> f.value < 1.0 && f.value * LongEdge(src) as real == maxSize.value as real
  {
    if maxSize.None? then None
    else
      var scaleRate := maxSize.value as real / LongEdge(src) as real;
      var longEdge := LongEdge(src) as real;
      assert scaleRate * longEdge == maxSize.value as real;
      if scaleRate < 1.0 then
        RealMulMono(scaleRate, 1.0, longEdge);
        Some(scaleRate)
      else
        RealMulMono(1.0, scaleRate, longEdge);
        None
  }

  /**
   * `MatResize`: downscale only. `None` means OpenCV rejected the resize.
   */
  function MatResize(src: Mat, maxSize: Option<int>, cv: OpenCv.Primitives): (r: Option<Mat>)
    requires src.Valid() && !src.Empty()
    ensures maxSize.None? || maxSize.value >= LongEdge(src) ==> r == Some(src)
    ensures maxSize.Some? && maxSize.value < LongEdge(src) ==>
              var s := maxSize.value as real / LongEdge(src) as real;
              s < 1.0 && r == cv.resize(src, s)
    ensures OpenCv.ResizesByFactor(cv) && r.Some? ==>
              r.value.Valid() && r.value.channels == src.channels && !r.value.Empty()
  {
    match ResizeFactor(src, maxSize)
    case None => Some(src)
    case Some(s) =>
      cv.resize(src, s)
  }

  /**
   * What OpenCV's resize makes of `MatResize`: the result is never larger than the source, its
   * long edge fits `maxSize`, and a non-positive `maxSize` is rejected.
   */
  lemma MatResizeShrinks(src: Mat, maxSize: Option<int>, cv: OpenCv.Primitives)
    requires src.Valid() && !src.Empty() && OpenCv.ResizesByFactor(cv)
    ensures var r := MatResize(src, maxSize, cv);
            r.Some? ==>
              && r.value.Valid() && r.value.channels == src.channels && !r.value.Empty()
              && r.value.rows <= src.rows && r.value.cols <= src.cols
              && (maxSize.Some? ==> LongEdge(r.value) <= maxSize.value)
    ensures maxSize.Some? && maxSize.value <= 0 ==> MatResize(src, maxSize, cv).None?
  {
    match ResizeFactor(src, maxSize)
    case None =>
    case Some(s) =>
      ResizedSize(src, maxSize.value, s, cv);
  }

  /** One resize by `s = maxSize / longEdge < 1`, in OpenCV's rounding of the target size. */
  lemma ResizedSize(src: Mat, maxSize: int, s: real, cv: OpenCv.Primitives)
    requires src.Valid() && !src.Empty() && OpenCv.ResizesByFactor(cv)
    requires s < 1.0 && s * LongEdge(src) as real == maxSize as real
    ensures cv.resize(src, s).Some? ==>
              var o := cv.resize(src, s).value;
              o.rows <= src.rows && o.cols <= src.cols && LongEdge(o) <= maxSize
    ensures maxSize <= 0 ==> cv.resize(src, s).None?
  {
    OpenCv.ResizeInstance(cv, src, s);
    ShrunkSide(src.rows, LongEdge(src), s, maxSize);
    ShrunkSide(src.cols, LongEdge(src), s, maxSize);
  }

  /** A side `n` of an image with long edge `e`, scaled by `s = maxSize / e < 1` and rounded. */
  lemma ShrunkSide(n: nat, e: nat, s: real, maxSize: int)
    requires 1 <= n <= e && s < 1.0 && s * e as real == maxSize as real
    ensures OpenCv.TargetSide(n, s) <= n
    ensures maxSize >= 0 ==> OpenCv.TargetSide(n, s) <= maxSize
    ensures maxSize <= 0 ==> OpenCv.TargetSide(n, s) <= 0
  {
    // The product is named once and reasoned about apart from the rounding.
    var x := n as real * s;
    ScaledSide(n, e, s, maxSize, x);
    RoundedSide(n, s, x, maxSize);
  }

  /** The unrounded side `x = n * s` is at most `n` and at most `maxSize`, or not positive. */
  lemma ScaledSide(n: nat, e: nat, s: real, maxSize: int, x: real)
    requires 1 <= n <= e && s < 1.0 && s * e as real == maxSize as real
    requires x == n as real * s
    ensures s >= 0.0 ==> x <= n as real && x <= maxSize as real
    ensures s < 0.0 ==> x <= 0.0
  {
    ScaledBounds(n as real, e as real, s, maxSize as real);
  }

  /** Rounding keeps the bounds of `ScaledSide`. */
  lemma RoundedSide(n: nat, s: real, x: real, maxSize: int)
    requires x == n as real * s
    requires s >= 0.0 ==> x <= n as real && x <= maxSize as real
    requires s < 0.0 ==> x <= 0.0
    ensures OpenCv.TargetSide(n, s) <= n
    ensures maxSize >= 0 ==> OpenCv.TargetSide(n, s) <= maxSize
    ensures maxSize <= 0 ==> OpenCv.TargetSide(n, s) <= 0
  {
    if s >= 0.0 {
      RoundHalfEvenAtMost(x, n);
      RoundHalfEvenAtMost(x, maxSize);
    } else {
      RoundHalfEvenAtMost(x, 0);
      RoundHalfEvenAtMost(x, n);
    }
  }

  /** `n * s` for `1 <= n <= e` and `s * e == m`, `s < 1`. */
  lemma ScaledBounds(n: real, e: real, s: real, m: real)
    requires 1.0 <= n <= e && s < 1.0 && s * e == m
    ensures s >= 0.0 ==> n * s <= n && n * s <= m
    ensures s < 0.0 ==> n * s <= 0.0
  {
    if s >= 0.0 {
      RealMulMono(s, 1.0, n);
      RealMulMono(n, e, s);
    } else {
      RealMulMono(s, 0.0, n);
    }
  }

  /** `32 * Math.Ceiling(n / 32.0)`: the least multiple of 32 that is at least `n`. */
  function PadTo32(n: nat): (r: nat)
    ensures r % 32 == 0 && n <= r < n + 32
  {
    var c := Ceiling(n as real / 32.0);
    assert n as real <= 32.0 * c as real < n as real + 32.0;
    32 * c
  }

  lemma PadTo32Least(n: nat, m: int)
    requires m % 32 == 0 && m >= n
    ensures PadTo32(n) <= m
  {
  }

  function Zeros(n: nat): (z: seq<real>)
    ensures |z| == n && forall i | 0 <= i < n :: z[i] == 0.0
  {
    seq(n, _ => 0.0)
  }

  /**
   * `MatPadding32`: `CopyMakeBorder` with black borders of `PadTo32(h) - h` rows at the bottom and
   * `PadTo32(w) - w` columns at the right, none at the top or the left.
   */
  function MatPadding32(src: Mat): (p: Mat)
    requires src.Valid()
    ensures p.Valid() && p.channels == src.channels
    ensures p.rows % 32 == 0 && src.rows <= p.rows < src.rows + 32
    ensures p.cols % 32 == 0 && src.cols <= p.cols < src.cols + 32
    ensures forall r, k | 0 <= r < src.rows && 0 <= k < src.cols :: p.px[r][k] == src.px[r][k]
    ensures forall r, k | 0 <= r < p.rows && 0 <= k < p.cols && (r >= src.rows || k >= src.cols) ::
              p.px[r][k] == Zeros(src.channels)
  {
    var rows, cols := PadTo32(src.rows), PadTo32(src.cols);
    var bottom, right := rows - src.rows, cols - src.cols;
    var p := Mat(src.rows + bottom, src.cols + right, src.channels,
        seq(src.rows + bottom, r requires 0 <= r < src.rows + bottom =>
          seq(src.cols + right, k requires 0 <= k < src.cols + right =>
            if r < src.rows && k < src.cols then src.px[r][k] else Zeros(src.channels))));
    assert forall r, k | 0 <= r < p.rows && 0 <= k < p.cols :: |p.px[r][k]| == src.channels by {
      forall r, k | 0 <= r < p.rows && 0 <= k < p.cols ensures |p.px[r][k]| == src.channels {
        assert |p.px[r]| == p.cols;
        if r < src.rows && k < src.cols {
          assert p.px[r][k] == src.px[r][k];
        } else {
          assert p.px[r][k] == Zeros(src.channels);
        }
      }
    }
    p
  }

  /** The per-channel standardisation constants, indexed by channel position. */
  const Means: seq<real> := [0.485, 0.456, 0.406]
  const Scales: seq<real> := [1.0 / 0.229, 1.0 / 0.224, 1.0 / 0.225]

  /** What `Normalize` computes for one sample `v` of channel `c`. */
  function Standardized(v: real, c: nat): real
    requires c < 3
  {
    (v / 255.0 - Means[c]) * Scales[c]
  }

  function NormalizedMat(src: Mat): (n: Mat)
    requires src.Valid() && src.channels <= 3
    ensures n.Valid() && n.rows == src.rows && n.cols == src.cols && n.channels == src.channels
  {
    Mat(src.rows, src.cols, src.channels,
        seq(src.rows, r requires 0 <= r < src.rows =>
          seq(src.cols, k requires 0 <= k < src.cols =>
            seq(src.channels, c requires 0 <= c < src.channels => Standardized(src.px[r][k][c], c)))))
  }

  /** `ConvertTo` with scale `alpha` and shift `beta` on every sample of an image. */
  function ConvertMat(m: Mat, alpha: real, beta: real): (o: Mat)
    requires m.Valid()
    ensures o.Valid() && o.rows == m.rows && o.cols == m.cols && o.channels == m.channels
    ensures forall r, k, c | 0 <= r < m.rows && 0 <= k < m.cols && 0 <= c < m.channels ::
              o.px[r][k][c] == m.px[r][k][c] * alpha + beta
  {
    Mat(m.rows, m.cols, m.channels,
        seq(m.rows, r requires 0 <= r < m.rows =>
          seq(m.cols, k requires 0 <= k < m.cols =>
            seq(m.channels, c requires 0 <= c < m.channels => m.px[r][k][c] * alpha + beta))))
  }

  /** `ConvertTo` with scale `alpha` and shift `beta` on one plane. */
  function ConvertPlane(p: Plane, alpha: real, beta: real): (o: Plane)
    ensures |o| == |p| && forall r | 0 <= r < |p| :: |o[r]| == |p[r]|
    ensures forall r, k | 0 <= r < |p| && 0 <= k < |p[r]| :: o[r][k] == p[r][k] * alpha + beta
  {
    seq(|p|, r requires 0 <= r < |p| => seq(|p[r]|, k requires 0 <= k < |p[r]| => p[r][k] * alpha + beta))
  }

  /** `Mat.Split`: one plane per channel. */
  function Split(m: Mat): (planes: seq<Plane>)
    requires m.Valid()
    ensures |planes| == m.channels
    ensures forall c | 0 <= c < m.channels ::
              && IsGrid(planes[c], m.rows, m.cols)
              && forall r, k | 0 <= r < m.rows && 0 <= k < m.cols :: planes[c][r][k] == m.px[r][k][c]
  {
    seq(m.channels, c requires 0 <= c < m.channels =>
      seq(m.rows, r requires 0 <= r < m.rows =>
        seq(m.cols, k requires 0 <= k < m.cols => m.px[r][k][c])))
  }

  /** `Cv2.Merge`: interleave the planes again. */
  function Merge(planes: seq<Plane>, rows: nat, cols: nat): (m: Mat)
    requires forall c | 0 <= c < |planes| :: IsGrid(planes[c], rows, cols)
    ensures m.Valid() && m.rows == rows && m.cols == cols && m.channels == |planes|
    ensures forall c | 0 <= c < |planes| ::
              && IsGrid(planes[c], rows, cols)
              && forall r, k | 0 <= r < rows && 0 <= k < cols :: m.px[r][k][c] == planes[c][r][k]
  {
    Mat(rows, cols, |planes|,
        seq(rows, r requires 0 <= r < rows =>
          seq(cols, k requires 0 <= k < cols =>
            seq(|planes|, c requires 0 <= c < |planes| =>
              assert IsGrid(planes[c], rows, cols); planes[c][r][k]))))
  }

  /** Merging the split planes gives the image back. */
  lemma MergeSplit(m: Mat)
    requires m.Valid()
    ensures Merge(Split(m), m.rows, m.cols) == m
  {
    var planes := Split(m);
    var back := Merge(planes, m.rows, m.cols);
    forall r | 0 <= r < m.rows ensures back.px[r] == m.px[r] {
      forall k | 0 <= k < m.cols ensures back.px[r][k] == m.px[r][k] {
      }
    }
  }

  lemma AffineIsStandardized(v: real, c: nat)
    requires c < 3
    ensures v * (1.0 / 255.0) * (1.0 * Scales[c]) + (0.0 - Means[c]) * Scales[c] == Standardized(v, c)
  {}

  /**
   * `Normalize`: scale the image to [0, 1], split it into channels, map channel `i` by
   * `v * scales[i] - means[i] * scales[i]` in place, and merge the channels back.
   */
  method Normalize(src: Mat) returns (dest: Mat)
    requires src.Valid() && 1 <= src.channels <= 3
    ensures dest == NormalizedMat(src)
    ensures forall r, k, c | 0 <= r < src.rows && 0 <= k < src.cols && 0 <= c < src.channels ::
              dest.px[r][k][c] == (src.px[r][k][c] / 255.0 - Means[c]) * Scales[c]
  {
    var normalized := ConvertMat(src, 1.0 / 255.0, 0.0);
    var planes := Split(normalized);
    var bgr := new Plane[|planes|](i requires 0 <= i < |planes| => planes[i]);
    StandardizeChannels(bgr);
    NormalizedPlanes(src, planes, bgr[..]);
    dest := Merge(bgr[..], src.rows, src.cols);
  }

  /** The loop of `Normalize`: channel `i` is mapped by `v * scales[i] - means[i] * scales[i]` in place. */
  method StandardizeChannels(bgr: array<Plane>)
    requires bgr.Length <= 3
    modifies bgr
    ensures forall c | 0 <= c < bgr.Length ::
              bgr[c] == ConvertPlane(old(bgr[c]), 1.0 * Scales[c], (0.0 - Means[c]) * Scales[c])
  {
    var i := 0;
    while i < bgr.Length
      invariant 0 <= i <= bgr.Length
      invariant forall c | 0 <= c < i ::
                  bgr[c] == ConvertPlane(old(bgr[c]), 1.0 * Scales[c], (0.0 - Means[c]) * Scales[c])
      invariant forall c | i <= c < bgr.Length :: bgr[c] == old(bgr[c])
    {
      bgr[i] := ConvertPlane(bgr[i], 1.0 * Scales[i], (0.0 - Means[i]) * Scales[i]);
      i := i + 1;
    }
  }

  /** The channels of `src` scaled to [0, 1] and mapped by their mean and scale merge into `NormalizedMat(src)`. */
  lemma NormalizedPlanes(src: Mat, planes: seq<Plane>, bgr: seq<Plane>)
    requires src.Valid() && 1 <= src.channels <= 3
    requires planes == Split(ConvertMat(src, 1.0 / 255.0, 0.0))
    requires |bgr| == |planes|
    requires forall c | 0 <= c < |bgr| ::
               bgr[c] == ConvertPlane(planes[c], 1.0 * Scales[c], (0.0 - Means[c]) * Scales[c])
    ensures forall c | 0 <= c < |bgr| :: IsGrid(bgr[c], src.rows, src.cols)
    ensures Merge(bgr, src.rows, src.cols) == NormalizedMat(src)
  {
    forall c | 0 <= c < |bgr|
      ensures IsGrid(bgr[c], src.rows, src.cols)
    {
    }
    var dest := Merge(bgr, src.rows, src.cols);
    forall r, k, c | 0 <= r < src.rows && 0 <= k < src.cols && 0 <= c < src.channels
      ensures dest.px[r][k][c] == Standardized(src.px[r][k][c], c)
    {
      AffineIsStandardized(src.px[r][k][c], c);
    }
    NormalizedMatUnique(dest, src);
  }

  lemma NormalizedMatUnique(d: Mat, src: Mat)
    requires src.Valid() && src.channels <= 3 && d.Valid()
    requires d.rows == src.rows && d.cols == src.cols && d.channels == src.channels
    requires forall r, k, c | 0 <= r < src.rows && 0 <= k < src.cols && 0 <= c < src.channels ::
               d.px[r][k][c] == Standardized(src.px[r][k][c], c)
    ensures d == NormalizedMat(src)
  {
    var n := NormalizedMat(src);
    forall r | 0 <= r < src.rows ensures d.px[r] == n.px[r] {
      forall k | 0 <= k < src.cols ensures d.px[r][k] == n.px[r][k] {
      }
    }
  }

  /** Sample `c` of the pixel at row-major position `j` of a `rows x cols` image. */
  function SampleAt(src: Mat, j: nat, c: nat): real
    requires src.Valid() && j < src.rows * src.cols && c < src.channels
  {
    RowMajorSplit(j, src.rows, src.cols);
    src.px[j / src.cols][j % src.cols][c]
  }

  /**
   * The tensor `ExtractMat` fills: three planes of `rows * cols` samples; position `i` belongs
   * to plane `i / (rows * cols)`, and planes of channels the image lacks are zero.
   */
  function PlanarAt(src: Mat, i: nat): real
    requires src.Valid() && i < src.rows * src.cols * 3
  {
    var n := src.rows * src.cols;
    RowMajorSplit(i, 3, n);
    if i / n < src.channels then SampleAt(src, i % n, i / n) else 0.0
  }

  function Planar(src: Mat): (t: seq<real>)
    requires src.Valid()
    ensures |t| == src.rows * src.cols * 3
  {
    seq(src.rows * src.cols * 3, i requires 0 <= i < src.rows * src.cols * 3 => PlanarAt(src, i))
  }

  /**
   * `ExtractMat`: a zeroed buffer of `rows * cols * 3` floats; for each channel of the image,
   * `ExtractChannel` writes that channel into the buffer at offset `i * rows * cols`.
   */
  method ExtractMat(src: Mat) returns (result: array<real>)
    requires src.Valid() && src.channels <= 3
    ensures fresh(result)
    ensures result[..] == Planar(src)
  {
    var rows, cols := src.rows, src.cols;
    var n := rows * cols;
    result := new real[rows * cols * 3](_ => 0.0);
    var i := 0;
    while i < src.channels
      invariant 0 <= i <= src.channels
      invariant forall t | 0 <= t < i * n :: result[t] == PlanarAt(src, t)
      invariant forall t | i * n <= t < 3 * n :: result[t] == 0.0
    {
      MulMono(i + 1, 3, n);
      ExtractChannel(src, i, result);
      i := i + 1;
    }
    forall t | src.channels * n <= t < 3 * n
      ensures result[t] == PlanarAt(src, t)
    {
      PlaneOfTail(t, n, src.channels);
    }
    PlanarOfSamples(src, result[..]);
  }

  /** `Cv2.ExtractChannel` into the plane at offset `c * rows * cols` of the buffer. */
  method ExtractChannel(src: Mat, c: nat, result: array<real>)
    requires src.Valid() && c < src.channels <= 3 && result.Length == src.rows * src.cols * 3
    modifies result
    ensures forall t | 0 <= t < result.Length && c * (src.rows * src.cols) <= t < (c + 1) * (src.rows * src.cols) ::
              result[t] == PlanarAt(src, t)
    ensures forall t | 0 <= t < result.Length && !(c * (src.rows * src.cols) <= t < (c + 1) * (src.rows * src.cols)) ::
              result[t] == old(result[t])
  {
    var n := src.rows * src.cols;
    MulMono(c + 1, 3, n);
    forall j | 0 <= j < n {
      result[c * n + j] := SampleAt(src, j, c);
    }
    forall t | c * n <= t < (c + 1) * n
      ensures result[t] == PlanarAt(src, t)
    {
      DivModOf(c, n, t - c * n);
    }
  }

  /** A buffer that agrees with `PlanarAt` everywhere is the planar tensor. */
  lemma PlanarOfSamples(src: Mat, t: seq<real>)
    requires src.Valid() && |t| == src.rows * src.cols * 3
    requires forall i | 0 <= i < |t| :: t[i] == PlanarAt(src, i)
    ensures t == Planar(src)
  {
  }

  /** A position at or past `channels * n` lies in a plane at or past `channels`. */
  lemma PlaneOfTail(t: int, n: int, channels: int)
    requires n > 0 && t >= channels * n
    ensures t / n >= channels
  {
    if t / n < channels {
      MulMono(t / n + 1, channels, n);
      assert false;
    }
  }

  /** The position of sample `c` of pixel `(r, k)` in a planar tensor of `rows x cols` planes. */
  function TensorIndex(c: nat, r: nat, k: nat, rows: nat, cols: nat): nat
  {
    c * (rows * cols) + (r * cols + k)
  }

  /** A position in plane `c` at or past `channels` lies past the first `channels` planes. */
  lemma TensorIndexPastChannels(c: nat, r: nat, k: nat, rows: nat, cols: nat, channels: nat)
    requires channels <= c < 3 && r < rows && k < cols
    ensures channels * (rows * cols) <= TensorIndex(c, r, k, rows, cols) < rows * cols * 3
  {
    var area := rows * cols;
    RowMajorBound(r, k, rows, cols);
    MulMono(channels, c, area);
    MulMono(c + 1, 3, area);
  }

  /** Sample `c` of pixel `(r, k)` sits at `c * rows * cols + r * cols + k` of the tensor. */
  lemma {:induction false} PlanarIndex(src: Mat, c: nat, r: nat, k: nat)
    requires src.Valid() && c < src.channels <= 3 && r < src.rows && k < src.cols
    ensures TensorIndex(c, r, k, src.rows, src.cols) < |Planar(src)|
    ensures Planar(src)[TensorIndex(c, r, k, src.rows, src.cols)] == src.px[r][k][c]
  {
    var n := src.rows * src.cols;
    var j := r * src.cols + k;
    RowMajorBound(r, k, src.rows, src.cols);
    RowMajorBound(c, j, 3, n);
    DivModOf(c, n, j);
    DivModOf(r, src.cols, k);
  }

  /** The planes for channels the image lacks stay zero. */
  lemma {:induction false} PlanarMissingChannels(src: Mat, t: nat)
    requires src.Valid() && src.channels * (src.rows * src.cols) <= t < |Planar(src)|
    ensures Planar(src)[t] == 0.0
  {
    var n := src.rows * src.cols;
    PlaneOfTail(t, n, src.channels);
  }
}
