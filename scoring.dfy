/**
 * `GetScore` of PaddleOcrDetector: the mean probability inside a contour, computed over the
 * contour's clamped bounding box.
 */
module Scoring {
  import opened Arith
  import opened Images
  import OpenCv

  /** `MathUtil.Clamp(v, lo, hi)`. */
  function Clamp(v: int, lo: int, hi: int): (r: int)
    requires lo <= hi
    ensures lo <= r <= hi
    ensures lo <= v <= hi ==> r == v
    ensures v < lo ==> r == lo
    ensures v > hi ==> r == hi
  {
    if v < lo then lo else if v > hi then hi else v
  }

  /** Every point moved into `[0, width - 1] x [0, height - 1]`. */
  function ClampPoints(contour: Contour, width: int, height: int): (q: Contour)
    requires width >= 1 && height >= 1
    ensures |q| == |contour|
    ensures forall i | 0 <= i < |q| :: 0 <= q[i].x <= width - 1 && 0 <= q[i].y <= height - 1
    ensures forall i | 0 <= i < |q| ::
              0 <= contour[i].x < width && 0 <= contour[i].y < height ==> q[i] == contour[i]
  {
    seq(|contour|, i requires 0 <= i < |contour| =>
      Point(Clamp(contour[i].x, 0, width - 1), Clamp(contour[i].y, 0, height - 1)))
  }

  function Xs(c: Contour): (s: seq<int>)
    ensures |s| == |c| && forall i | 0 <= i < |c| :: s[i] == c[i].x
  {
    seq(|c|, i requires 0 <= i < |c| => c[i].x)
  }

  function Ys(c: Contour): (s: seq<int>)
    ensures |s| == |c| && forall i | 0 <= i < |c| :: s[i] == c[i].y
  {
    seq(|c|, i requires 0 <= i < |c| => c[i].y)
  }

  /** `Enumerable.Min`: the least element. */
  function Min(s: seq<int>): (m: int)
    requires |s| > 0
    ensures forall i | 0 <= i < |s| :: m <= s[i]
    ensures exists i | 0 <= i < |s| :: s[i] == m
  {
    if |s| == 1 then s[0]
    else
      var rest := Min(s[1..]);
      assert forall i | 1 <= i < |s| :: s[i] == s[1..][i - 1];
      if s[0] <= rest then s[0] else rest
  }

  /** `Enumerable.Max`: the greatest element. */
  function Max(s: seq<int>): (m: int)
    requires |s| > 0
    ensures forall i | 0 <= i < |s| :: s[i] <= m
    ensures exists i | 0 <= i < |s| :: s[i] == m
  {
    if |s| == 1 then s[0]
    else
      var rest := Max(s[1..]);
      assert forall i | 1 <= i < |s| :: s[i] == s[1..][i - 1];
      if s[0] >= rest then s[0] else rest
  }

  /** The inclusive bounding box `[xmin, xmax] x [ymin, ymax]` of some points. */
  datatype Box = Box(xmin: int, xmax: int, ymin: int, ymax: int) {
    function RoiWidth(): int { xmax - xmin + 1 }
    function RoiHeight(): int { ymax - ymin + 1 }
  }

  function BoundingBox(q: Contour): (b: Box)
    requires |q| > 0
    ensures forall i | 0 <= i < |q| :: b.xmin <= q[i].x <= b.xmax && b.ymin <= q[i].y <= b.ymax
    ensures exists i | 0 <= i < |q| :: q[i].x == b.xmin
    ensures exists i | 0 <= i < |q| :: q[i].x == b.xmax
    ensures exists i | 0 <= i < |q| :: q[i].y == b.ymin
    ensures exists i | 0 <= i < |q| :: q[i].y == b.ymax
  {
    Box(Min(Xs(q)), Max(Xs(q)), Min(Ys(q)), Max(Ys(q)))
  }

  /** The points moved so that the box corner `(xmin, ymin)` becomes the origin. */
  function Shift(q: Contour, xmin: int, ymin: int): (s: Contour)
    ensures |s| == |q|
    ensures forall i | 0 <= i < |q| :: s[i].x == q[i].x - xmin && s[i].y == q[i].y - ymin
  {
    seq(|q|, i requires 0 <= i < |q| => Point(q[i].x - xmin, q[i].y - ymin))
  }

  /** Shifting back by the same offset restores the points. */
  lemma ShiftBack(q: Contour, xmin: int, ymin: int)
    ensures Shift(Shift(q, xmin, ymin), -xmin, -ymin) == q
  {
    var s := Shift(Shift(q, xmin, ymin), -xmin, -ymin);
    assert forall i | 0 <= i < |q| :: s[i] == q[i];
  }

  /** `pred[ymin, ymax + 1, xmin, xmax + 1]`. */
  function Crop(pred: Plane, width: nat, height: nat, b: Box): (c: Plane)
    requires IsGrid(pred, height, width)
    requires 0 <= b.xmin <= b.xmax < width && 0 <= b.ymin <= b.ymax < height
    ensures IsGrid(c, b.RoiHeight(), b.RoiWidth())
    ensures forall r, k | 0 <= r < b.RoiHeight() && 0 <= k < b.RoiWidth() ::
              c[r][k] == pred[b.ymin + r][b.xmin + k]
  {
    seq(b.RoiHeight(), r requires 0 <= r < b.RoiHeight() => pred[b.ymin + r][b.xmin .. b.xmax + 1])
  }

  /** `Cv2.CountNonZero` of a row. */
  function RowCount(m: seq<int>): nat
  {
    if m == [] then 0 else RowCount(m[..|m| - 1]) + (if m[|m| - 1] != 0 then 1 else 0)
  }

  /** A row counts at most its length, and nothing exactly when it is all zero. */
  lemma {:induction false} RowCountZero(m: seq<int>)
    ensures RowCount(m) <= |m|
    ensures RowCount(m) == 0 <==> forall k | 0 <= k < |m| :: m[k] == 0
  {
    if m != [] {
      var init := m[..|m| - 1];
      RowCountZero(init);
      assert forall k | 0 <= k < |init| :: init[k] == m[k];
    }
  }

  /** The sum of the samples whose mask cell is set. */
  function RowSum(p: seq<real>, m: seq<int>): real
    requires |p| == |m|
  {
    if m == [] then 0.0
    else RowSum(p[..|p| - 1], m[..|m| - 1]) + (if m[|m| - 1] != 0 then p[|p| - 1] else 0.0)
  }

  /** `Cv2.CountNonZero`. */
  function CountNonZero(mask: Grid<int>): nat
  {
    if mask == [] then 0 else CountNonZero(mask[..|mask| - 1]) + RowCount(mask[|mask| - 1])
  }

  /** `Cv2.CountNonZero` is zero exactly on a black mask. */
  lemma {:induction false} CountNonZeroZero(mask: Grid<int>)
    ensures CountNonZero(mask) == 0 <==> OpenCv.AllZero(mask)
  {
    if mask != [] {
      var init := mask[..|mask| - 1];
      CountNonZeroZero(init);
      RowCountZero(mask[|mask| - 1]);
      assert forall r | 0 <= r < |init| :: init[r] == mask[r];
    }
  }

  function MaskedSum(p: Plane, mask: Grid<int>): real
    requires |p| == |mask| && forall r | 0 <= r < |p| :: |p[r]| == |mask[r]|
  {
    if mask == [] then 0.0
    else MaskedSum(p[..|p| - 1], mask[..|mask| - 1]) + RowSum(p[|p| - 1], mask[|mask| - 1])
  }

  /** `Mat.Mean(mask).Val0`: the mean sample over the set mask cells. */
  function MaskedMean(p: Plane, mask: Grid<int>): (mean: real)
    requires |p| == |mask| && forall r | 0 <= r < |p| :: |p[r]| == |mask[r]|
    requires CountNonZero(mask) > 0
    ensures mean * CountNonZero(mask) as real == MaskedSum(p, mask)
  {
    var count := CountNonZero(mask) as real;
    var mean := MaskedSum(p, mask) / count;
    assert mean * count == MaskedSum(p, mask);
    mean
  }

  /** The clamped bounding box `GetScore` crops for a contour. */
  function ScoreBox(contour: Contour, width: nat, height: nat): (b: Box)
    requires |contour| > 0 && width >= 1 && height >= 1
  {
    BoundingBox(ClampPoints(contour, width, height))
  }

  /** The mask `GetScore` fills for a contour: the shifted polygon on a box-sized black image. */
  function ScoreMask(contour: Contour, width: nat, height: nat, cv: OpenCv.Primitives): Grid<int>
    requires |contour| > 0 && width >= 1 && height >= 1
  {
    var b := ScoreBox(contour, width, height);
    ScoreBoxInside(contour, width, height);
    cv.fillPoly(b.RoiHeight(), b.RoiWidth(), Shift(ClampPoints(contour, width, height), b.xmin, b.ymin))
  }

  /**
   * `GetScore`: zero for a non-positive box or an empty mask, otherwise the mean probability of
   * the box crop over the mask.
   */
  function GetScore(contour: Contour, pred: Plane, width: nat, height: nat, cv: OpenCv.Primitives): (score: real)
    requires |contour| > 0 && width >= 1 && height >= 1 && IsGrid(pred, height, width)
    requires OpenCv.FillsToSize(cv)
    ensures CountNonZero(ScoreMask(contour, width, height, cv)) == 0 ==> score == 0.0
  {
    var clampedPoints := ClampPoints(contour, width, height);
    var b := BoundingBox(clampedPoints);
    if b.RoiWidth() <= 0 || b.RoiHeight() <= 0 then 0.0
    else
      var rootPoints := Shift(clampedPoints, b.xmin, b.ymin);
      var mask := cv.fillPoly(b.RoiHeight(), b.RoiWidth(), rootPoints);
      if CountNonZero(mask) == 0 then 0.0
      else
        ScoreBoxInside(contour, width, height);
        var crop := Crop(pred, width, height, b);
        SameShape(crop, mask, b.RoiHeight(), b.RoiWidth());
        MaskedMean(crop, mask)
  }

  /** Two grids of the same size have rows of equal length. */
  lemma SameShape<S, T>(a: Grid<S>, b: Grid<T>, rows: int, cols: int)
    requires IsGrid(a, rows, cols) && IsGrid(b, rows, cols)
    ensures |a| == |b| && forall r | 0 <= r < |a| :: |a[r]| == |b[r]|
  {
  }

  /**
   * For a non-empty contour the clamped box has positive size and the crop
   * `[ymin, ymax + 1) x [xmin, xmax + 1)` lies inside the `height x width` map.
   */
  lemma ScoreBoxInside(contour: Contour, width: nat, height: nat)
    requires |contour| > 0 && width >= 1 && height >= 1
    ensures var b := ScoreBox(contour, width, height);
      && 0 <= b.xmin <= b.xmax <= width - 1 && 0 <= b.ymin <= b.ymax <= height - 1
      && b.RoiWidth() >= 1 && b.RoiHeight() >= 1
  {
    var q := ClampPoints(contour, width, height);
    var b := BoundingBox(q);
    var i :| 0 <= i < |q| && q[i].x == b.xmin;
    var j :| 0 <= j < |q| && q[j].x == b.xmax;
    var k :| 0 <= k < |q| && q[k].y == b.ymin;
    var l :| 0 <= l < |q| && q[l].y == b.ymax;
  }

  /** The shifted points lie in `[0, roiWidth - 1] x [0, roiHeight - 1]`. */
  lemma ShiftedInsideRoi(contour: Contour, width: nat, height: nat)
    requires |contour| > 0 && width >= 1 && height >= 1
    ensures var q := ClampPoints(contour, width, height);
      var b := BoundingBox(q);
      var s := Shift(q, b.xmin, b.ymin);
      forall i | 0 <= i < |s| :: 0 <= s[i].x <= b.RoiWidth() - 1 && 0 <= s[i].y <= b.RoiHeight() - 1
  {
  }

  lemma {:induction false} RowSumBounds(p: seq<real>, m: seq<int>, lo: real, hi: real)
    requires |p| == |m| && forall k | 0 <= k < |p| :: lo <= p[k] <= hi
    ensures Times(lo, RowCount(m)) <= RowSum(p, m) <= Times(hi, RowCount(m))
  {
    if m != [] {
      var n := |m| - 1;
      RowSumBounds(p[..n], m[..n], lo, hi);
    }
  }

  lemma {:induction false} MaskedSumBounds(p: Plane, mask: Grid<int>, lo: real, hi: real)
    requires |p| == |mask| && forall r | 0 <= r < |p| :: |p[r]| == |mask[r]|
    requires forall r, k | 0 <= r < |p| && 0 <= k < |p[r]| :: lo <= p[r][k] <= hi
    ensures Times(lo, CountNonZero(mask)) <= MaskedSum(p, mask) <= Times(hi, CountNonZero(mask))
  {
    if mask != [] {
      var n := |p| - 1;
      var p', mask' := p[..n], mask[..n];
      assert forall r | 0 <= r < n :: p'[r] == p[r] && mask'[r] == mask[r];
      MaskedSumBounds(p', mask', lo, hi);
      RowSumBounds(p[n], mask[n], lo, hi);
      var before, row := CountNonZero(mask'), RowCount(mask[n]);
      assert CountNonZero(mask) == before + row;
      assert MaskedSum(p, mask) == MaskedSum(p', mask') + RowSum(p[n], mask[n]);
      TimesAdd(lo, before, row);
      TimesAdd(hi, before, row);
    }
  }

  lemma CropWithin(pred: Plane, width: nat, height: nat, b: Box, lo: real, hi: real)
    requires IsGrid(pred, height, width)
    requires 0 <= b.xmin <= b.xmax < width && 0 <= b.ymin <= b.ymax < height
    requires forall r, k | 0 <= r < height && 0 <= k < width :: lo <= pred[r][k] <= hi
    ensures var c := Crop(pred, width, height, b);
      forall r, k | 0 <= r < |c| && 0 <= k < |c[r]| :: lo <= c[r][k] <= hi
  {
    var c := Crop(pred, width, height, b);
    forall r, k | 0 <= r < |c| && 0 <= k < |c[r]| ensures lo <= c[r][k] <= hi {
      assert |c[r]| == b.RoiWidth();
      assert c[r][k] == pred[b.ymin + r][b.xmin + k];
    }
  }

  lemma MeanWithin(sum: real, n: nat, lo: real, hi: real)
    requires n > 0 && Times(lo, n) <= sum <= Times(hi, n)
    ensures lo <= sum / n as real <= hi
  {
    TimesIsProduct(lo, n);
    TimesIsProduct(hi, n);
    QuotientWithin(sum, n as real, lo, hi);
  }

  /** A quotient by a positive count of a sum between `lo * count` and `hi * count`. */
  lemma QuotientWithin(sum: real, count: real, lo: real, hi: real)
    requires count > 0.0 && lo * count <= sum <= hi * count
    ensures lo <= sum / count <= hi
  {
    var mean := sum / count;
    assert mean * count == sum;
    MulCancel(lo, mean, count);
    MulCancel(mean, hi, count);
  }

  lemma MulCancel(a: real, b: real, c: real)
    requires c > 0.0 && a * c <= b * c
    ensures a <= b
  {}

  /** When the filled mask has a set pixel, the score is the mean of the box crop over the mask. */
  lemma GetScoreIsMean(contour: Contour, pred: Plane, width: nat, height: nat, cv: OpenCv.Primitives)
    requires |contour| > 0 && width >= 1 && height >= 1 && IsGrid(pred, height, width)
    requires OpenCv.FillsToSize(cv)
    ensures CountNonZero(ScoreMask(contour, width, height, cv)) > 0 ==>
              GetScore(contour, pred, width, height, cv) ==
                MaskedMean(Crop(pred, width, height, ScoreBox(contour, width, height)),
                           ScoreMask(contour, width, height, cv))
  {
  }

  /**
   * When every probability of the map lies in `[lo, hi]` and the mask has a set pixel, so does
   * the score; with `lo == hi == p` (a uniform map) the score is exactly `p`.
   */
  lemma {:induction false} GetScoreWithin(contour: Contour, pred: Plane, width: nat, height: nat,
                                          cv: OpenCv.Primitives, lo: real, hi: real)
    requires |contour| > 0 && width >= 1 && height >= 1 && IsGrid(pred, height, width)
    requires OpenCv.FillsToSize(cv)
    requires forall r, k | 0 <= r < height && 0 <= k < width :: lo <= pred[r][k] <= hi
    ensures CountNonZero(ScoreMask(contour, width, height, cv)) > 0 ==>
              lo <= GetScore(contour, pred, width, height, cv) <= hi
  {
    var b := ScoreBox(contour, width, height);
    ScoreBoxInside(contour, width, height);
    var mask := ScoreMask(contour, width, height, cv);
    if CountNonZero(mask) > 0 {
      var crop := Crop(pred, width, height, b);
      CropWithin(pred, width, height, b, lo, hi);
      MaskedSumBounds(crop, mask, lo, hi);
      MeanWithin(MaskedSum(crop, mask), CountNonZero(mask), lo, hi);
      assert GetScore(contour, pred, width, height, cv) == MaskedSum(crop, mask) / CountNonZero(mask) as real;
    }
  }
}
