/**
 * The post-processing chain of `PaddleOcrDetector.Run`: binarisation of the 8-bit map, the
 * score filter, unclip enlargement, the minimum-size filter and the reading-order sort.
 */
module PostProcess {
  import opened Wrappers
  import opened Arith
  import opened Images
  import opened Scoring
  import OpenCv

  /** The 8-bit threshold `(int)(BoxThreshold * 255)`. */
  function ThresholdByte(boxThreshold: real): (t: int)
    ensures 0.0 <= boxThreshold ==> 0 <= t && t as real <= boxThreshold * 255.0 < t as real + 1.0
    ensures boxThreshold < 0.0 ==> t <= 0 && t as real - 1.0 < boxThreshold * 255.0 <= t as real
  {
    TruncToInt(boxThreshold * 255.0)
  }

  /** For a non-negative threshold, a byte exceeds the 8-bit threshold exactly when it exceeds `BoxThreshold * 255`. */
  lemma ThresholdByteExceeds(boxThreshold: real, v: int)
    requires 0.0 <= boxThreshold
    ensures v > ThresholdByte(boxThreshold) <==> v as real > boxThreshold * 255.0
  {
  }

  /**
   * `Threshold(t, 255, Binary)` on the 8-bit buffer when a threshold is set (a cell becomes 255
   * exactly when it exceeds `t`, 0 otherwise), and a plain copy of the buffer when it is not.
   */
  function Binarize(cbuf: Grid<int>, boxThreshold: Option<real>): (binary: Grid<int>)
    ensures |binary| == |cbuf| && forall r | 0 <= r < |cbuf| :: |binary[r]| == |cbuf[r]|
    ensures boxThreshold.None? ==> binary == cbuf
    ensures boxThreshold.Some? ==>
              forall r, k | 0 <= r < |cbuf| && 0 <= k < |cbuf[r]| ::
                (binary[r][k] == 255 <==> cbuf[r][k] > ThresholdByte(boxThreshold.value))
                && (binary[r][k] == 0 <==> cbuf[r][k] <= ThresholdByte(boxThreshold.value))
  {
    match boxThreshold
    case None => cbuf
    case Some(t) =>
      var th := ThresholdByte(t);
      seq(|cbuf|, r requires 0 <= r < |cbuf| =>
        seq(|cbuf[r]|, k requires 0 <= k < |cbuf[r]| => if cbuf[r][k] > th then 255 else 0))
  }

  /** A buffer whose every cell is at most the threshold binarises to a black mask. */
  lemma {:induction false} BinarizeBelowIsBlack(cbuf: Grid<int>, t: real)
    requires forall r, k | 0 <= r < |cbuf| && 0 <= k < |cbuf[r]| :: cbuf[r][k] <= ThresholdByte(t)
    ensures OpenCv.AllZero(Binarize(cbuf, Some(t)))
  {
    var b := Binarize(cbuf, Some(t));
    forall r, k | 0 <= r < |b| && 0 <= k < |b[r]| ensures b[r][k] == 0 {
      assert |b[r]| == |cbuf[r]|;
    }
  }

  /** `a` is `b` with some elements left out, the rest in their order. */
  predicate IsSubsequence<T(==)>(a: seq<T>, b: seq<T>)
  {
    if a == [] then true
    else if b == [] then false
    else if a[|a| - 1] == b[|b| - 1] && IsSubsequence(a[..|a| - 1], b[..|b| - 1]) then true
    else IsSubsequence(a, b[..|b| - 1])
  }

  /**
   * The `Where` on scores, `BoxScoreThreahold == null || score(x) > BoxScoreThreahold`: keeps, in
   * order, the contours that pass.
   */
  function ScoreFilter(contours: seq<Contour>, threshold: Option<real>, score: Contour -> real)
    : (kept: seq<Contour>)
    ensures |kept| <= |contours|
    ensures forall c :: c in kept <==> c in contours && (threshold.None? || score(c) > threshold.value)
    ensures threshold.None? ==> kept == contours
  {
    if contours == [] then []
    else
      var n := |contours| - 1;
      var rest := ScoreFilter(contours[..n], threshold, score);
      assert contours == contours[..n] + [contours[n]];
      if threshold.None? || score(contours[n]) > threshold.value then rest + [contours[n]] else rest
  }

  /** `ScoreFilter` keeps every passing contour as often as it occurs and drops every other one. */
  lemma {:induction false} ScoreFilterCounts(contours: seq<Contour>, threshold: Option<real>, score: Contour -> real)
    ensures var kept := ScoreFilter(contours, threshold, score);
            forall c :: multiset(kept)[c] ==
              if threshold.None? || score(c) > threshold.value then multiset(contours)[c] else 0
  {
    if contours != [] {
      var n := |contours| - 1;
      ScoreFilterCounts(contours[..n], threshold, score);
      assert contours == contours[..n] + [contours[n]];
      assert multiset(contours) == multiset(contours[..n]) + multiset{contours[n]};
    }
  }

  /** `ScoreFilter` keeps the contours in their original order. */
  lemma {:induction false} ScoreFilterOrder(contours: seq<Contour>, threshold: Option<real>, score: Contour -> real)
    ensures IsSubsequence(ScoreFilter(contours, threshold, score), contours)
  {
    if contours != [] {
      var n := |contours| - 1;
      var rest := ScoreFilter(contours[..n], threshold, score);
      ScoreFilterOrder(contours[..n], threshold, score);
      if threshold.None? || score(contours[n]) > threshold.value {
        assert (rest + [contours[n]])[..|rest|] == rest;
      }
    }
  }

  /** `GetScore(x, roi)` for the contours that tracing yields, which are never empty. */
  function ScoreOn(roi: Plane, width: nat, height: nat, cv: OpenCv.Primitives): (score: Contour -> real)
    requires width >= 1 && height >= 1 && IsGrid(roi, height, width) && OpenCv.FillsToSize(cv)
    ensures forall c: Contour | |c| > 0 :: score(c) == GetScore(c, roi, width, height, cv)
  {
    c => if |c| > 0 then GetScore(c, roi, width, height, cv) else 0.0
  }

  /** The unclip offset `d = UnclipRatio * |area| / perimeter`. */
  function Offset(unclipRatio: real, signedArea: real, perimeter: real): (d: real)
    requires perimeter > 0.0
    ensures unclipRatio >= 0.0 ==> d >= 0.0
  {
    var area := if signedArea < 0.0 then -signedArea else signedArea;
    unclipRatio * area / perimeter
  }

  /** The offset times the perimeter is the ratio times the unsigned area. */
  lemma OffsetTimesPerimeter(unclipRatio: real, signedArea: real, perimeter: real)
    requires perimeter > 0.0
    ensures var d := Offset(unclipRatio, signedArea, perimeter);
            d * perimeter == unclipRatio * signedArea || d * perimeter == -(unclipRatio * signedArea)
  {
  }

  /** The offset does not depend on the orientation of the contour. */
  lemma OffsetOrientation(unclipRatio: real, signedArea: real, perimeter: real)
    requires perimeter > 0.0
    ensures Offset(unclipRatio, -signedArea, perimeter) == Offset(unclipRatio, signedArea, perimeter)
  {
  }

  const MinPerimeter: real := 0.000001

  /**
   * The `Select` that enlarges one contour's minimum-area rectangle: nothing for a perimeter
   * below `1e-6`, otherwise both sides grow by `2d`, and size and center are multiplied by
   * `scaleRate` while the angle is kept.
   */
  function Unclip(rect: RotatedRect, signedArea: real, perimeter: real, unclipRatio: real, scaleRate: real)
    : (enlarged: Option<RotatedRect>)
    ensures enlarged.None? <==> perimeter < MinPerimeter
    ensures enlarged.Some? ==>
              var d := Offset(unclipRatio, signedArea, perimeter);
              && enlarged.value.angle == rect.angle
              && enlarged.value.center == Point2f(rect.center.x * scaleRate, rect.center.y * scaleRate)
              && enlarged.value.size.width == (rect.size.width + 2.0 * d) * scaleRate
              && enlarged.value.size.height == (rect.size.height + 2.0 * d) * scaleRate
  {
    if perimeter < MinPerimeter then None
    else
      var d := Offset(unclipRatio, signedArea, perimeter);
      var newSize := Size2f((rect.size.width + 2.0 * d) * scaleRate, (rect.size.height + 2.0 * d) * scaleRate);
      Some(RotatedRect(Point2f(rect.center.x * scaleRate, rect.center.y * scaleRate), newSize, rect.angle))
  }

  /** A larger unclip ratio never gives a smaller box, for a positive scale. */
  lemma UnclipMonotone(rect: RotatedRect, signedArea: real, perimeter: real, r1: real, r2: real, scaleRate: real)
    requires r1 <= r2 && scaleRate > 0.0 && perimeter >= MinPerimeter
    ensures Unclip(rect, signedArea, perimeter, r1, scaleRate).Some?
    ensures Unclip(rect, signedArea, perimeter, r2, scaleRate).Some?
    ensures var a, b := Unclip(rect, signedArea, perimeter, r1, scaleRate).value,
                        Unclip(rect, signedArea, perimeter, r2, scaleRate).value;
            a.size.width <= b.size.width && a.size.height <= b.size.height
  {
    var d1, d2 := Offset(r1, signedArea, perimeter), Offset(r2, signedArea, perimeter);
    assert d1 <= d2 by {
      var area := if signedArea < 0.0 then -signedArea else signedArea;
      var q := area / perimeter;
      assert d1 == r1 * q;
      assert d2 == r2 * q;
      RealMulMono(r1, r2, q);
    }
    RealMulMono(rect.size.width + 2.0 * d1, rect.size.width + 2.0 * d2, scaleRate);
    RealMulMono(rect.size.height + 2.0 * d1, rect.size.height + 2.0 * d2, scaleRate);
  }

  /** With a non-negative ratio the enlarged box is at least the rescaled rectangle. */
  lemma UnclipNeverShrinks(rect: RotatedRect, signedArea: real, perimeter: real, unclipRatio: real, scaleRate: real)
    requires unclipRatio >= 0.0 && scaleRate > 0.0 && perimeter >= MinPerimeter
    ensures var e := Unclip(rect, signedArea, perimeter, unclipRatio, scaleRate);
            e.Some? && e.value.size.width >= rect.size.width * scaleRate
            && e.value.size.height >= rect.size.height * scaleRate
  {
    UnclipMonotone(rect, signedArea, perimeter, 0.0, unclipRatio, scaleRate);
    assert Offset(0.0, signedArea, perimeter) == 0.0;
  }

  /** The unclip `Select` over every surviving contour. */
  function UnclipAll(contours: seq<Contour>, unclipRatio: real, scaleRate: real, cv: OpenCv.Primitives)
    : (boxes: seq<Option<RotatedRect>>)
    ensures |boxes| == |contours|
    ensures forall i | 0 <= i < |contours| ::
              boxes[i] == Unclip(cv.minAreaRect(contours[i]), cv.contourArea(contours[i]),
                                 cv.arcLength(contours[i]), unclipRatio, scaleRate)
  {
    seq(|contours|, i requires 0 <= i < |contours| =>
      Unclip(cv.minAreaRect(contours[i]), cv.contourArea(contours[i]), cv.arcLength(contours[i]),
             unclipRatio, scaleRate))
  }

  predicate LargeEnough(b: RotatedRect, minSize: int) {
    b.size.width > minSize as real && b.size.height > minSize as real
  }

  /** The `Where` on sizes and the `Select` of the values: keeps, in order, the boxes above `minSize`. */
  function SizeFilter(boxes: seq<Option<RotatedRect>>, minSize: int): (kept: seq<RotatedRect>)
    ensures |kept| <= |boxes|
    ensures forall i | 0 <= i < |kept| :: LargeEnough(kept[i], minSize)
    ensures forall b :: b in kept <==> Some(b) in boxes && LargeEnough(b, minSize)
  {
    if boxes == [] then []
    else
      var n := |boxes| - 1;
      var rest := SizeFilter(boxes[..n], minSize);
      assert boxes == boxes[..n] + [boxes[n]];
      if boxes[n].Some? && LargeEnough(boxes[n].value, minSize) then rest + [boxes[n].value] else rest
  }

  /** `SizeFilter` keeps every present box above `minSize` as often as it occurs and drops every other entry. */
  lemma {:induction false} SizeFilterCounts(boxes: seq<Option<RotatedRect>>, minSize: int)
    ensures var kept := SizeFilter(boxes, minSize);
            forall b :: multiset(kept)[b] == if LargeEnough(b, minSize) then multiset(boxes)[Some(b)] else 0
  {
    if boxes != [] {
      var n := |boxes| - 1;
      var rest := SizeFilter(boxes[..n], minSize);
      SizeFilterCounts(boxes[..n], minSize);
      assert boxes == boxes[..n] + [boxes[n]];
      assert multiset(boxes) == multiset(boxes[..n]) + multiset{boxes[n]};
      if boxes[n].Some? && LargeEnough(boxes[n].value, minSize) {
        assert multiset(rest + [boxes[n].value]) == multiset(rest) + multiset{boxes[n].value};
      }
    }
  }

  /** `SizeFilter` keeps the boxes in their original order. */
  lemma {:induction false} SizeFilterOrder(boxes: seq<Option<RotatedRect>>, minSize: int)
    ensures IsSubsequence(Present(SizeFilter(boxes, minSize)), boxes)
  {
    if boxes != [] {
      var n := |boxes| - 1;
      var rest := SizeFilter(boxes[..n], minSize);
      SizeFilterOrder(boxes[..n], minSize);
      if boxes[n].Some? && LargeEnough(boxes[n].value, minSize) {
        assert Present(rest + [boxes[n].value])[..|rest|] == Present(rest);
      }
    }
  }

  /** Each box as a present value. */
  function Present(s: seq<RotatedRect>): (t: seq<Option<RotatedRect>>)
    ensures |t| == |s| && forall i | 0 <= i < |s| :: t[i] == Some(s[i])
  {
    seq(|s|, i requires 0 <= i < |s| => Some(s[i]))
  }

  /** Reading order: by center Y, then by center X. */
  predicate CenterBefore(a: RotatedRect, b: RotatedRect) {
    a.center.y < b.center.y || (a.center.y == b.center.y && a.center.x <= b.center.x)
  }

  predicate SortedByCenter(s: seq<RotatedRect>) {
    forall i, j | 0 <= i < j < |s| :: CenterBefore(s[i], s[j])
  }

  /** Inserts `b` after every box that does not come after it. */
  function Insert(b: RotatedRect, s: seq<RotatedRect>): (r: seq<RotatedRect>)
    requires SortedByCenter(s)
    ensures SortedByCenter(r)
    ensures multiset(r) == multiset(s) + multiset{b}
  {
    if s == [] || CenterBefore(s[|s| - 1], b) then s + [b]
    else
      var n := |s| - 1;
      var rest := Insert(b, s[..n]);
      assert s == s[..n] + [s[n]];
      InsertTailBefore(b, s, rest);
      AppendSorted(rest, s[n]);
      rest + [s[n]]
  }

  lemma InsertTailBefore(b: RotatedRect, s: seq<RotatedRect>, rest: seq<RotatedRect>)
    requires SortedByCenter(s) && |s| > 0 && !CenterBefore(s[|s| - 1], b)
    requires multiset(rest) == multiset(s[..|s| - 1]) + multiset{b}
    ensures forall i | 0 <= i < |rest| :: CenterBefore(rest[i], s[|s| - 1])
  {
    var n := |s| - 1;
    forall i | 0 <= i < |rest| ensures CenterBefore(rest[i], s[n]) {
      assert rest[i] in multiset(rest);
      if rest[i] != b {
        assert rest[i] in multiset(s[..n]);
        var j :| 0 <= j < n && s[..n][j] == rest[i];
        assert s[j] == rest[i];
      }
    }
  }

  lemma AppendSorted(s: seq<RotatedRect>, x: RotatedRect)
    requires SortedByCenter(s) && forall i | 0 <= i < |s| :: CenterBefore(s[i], x)
    ensures SortedByCenter(s + [x])
  {
    var t := s + [x];
    forall i, j | 0 <= i < j < |t| ensures CenterBefore(t[i], t[j]) {
      if j < |s| { assert t[i] == s[i] && t[j] == s[j]; }
    }
  }

  /** `OrderBy(v => v.Center.Y).ThenBy(v => v.Center.X)`, a stable sort. */
  function SortByCenter(s: seq<RotatedRect>): (r: seq<RotatedRect>)
    ensures SortedByCenter(r)
    ensures multiset(r) == multiset(s)
  {
    if s == [] then []
    else
      var n := |s| - 1;
      assert s == s[..n] + [s[n]];
      Insert(s[n], SortByCenter(s[..n]))
  }

  /** The boxes of `s` whose center is `c`, in order. */
  function WithCenter(s: seq<RotatedRect>, c: Point2f): seq<RotatedRect>
  {
    if s == [] then []
    else WithCenter(s[..|s| - 1], c) + (if s[|s| - 1].center == c then [s[|s| - 1]] else [])
  }

  lemma {:induction false} WithCenterAppend(a: seq<RotatedRect>, b: seq<RotatedRect>, c: Point2f)
    ensures WithCenter(a + b, c) == WithCenter(a, c) + WithCenter(b, c)
  {
    if b == [] {
      assert a + b == a;
    } else {
      var n := |b| - 1;
      assert a + b == (a + b[..n]) + [b[n]];
      assert (a + b)[..|a + b| - 1] == a + b[..n];
      WithCenterAppend(a, b[..n], c);
    }
  }

  lemma WithCenterSingle(x: RotatedRect, c: Point2f)
    ensures WithCenter([x], c) == if x.center == c then [x] else []
  {
    assert [x][..0] == [];
  }

  lemma {:induction false} InsertStable(b: RotatedRect, s: seq<RotatedRect>, c: Point2f)
    requires SortedByCenter(s)
    ensures WithCenter(Insert(b, s), c) == WithCenter(s, c) + WithCenter([b], c)
  {
    if s == [] || CenterBefore(s[|s| - 1], b) {
      assert Insert(b, s) == s + [b];
      WithCenterAppend(s, [b], c);
    } else {
      var n := |s| - 1;
      var last := s[n];
      var rest := Insert(b, s[..n]);
      assert Insert(b, s) == rest + [last];
      InsertStable(b, s[..n], c);
      WithCenterAppend(rest, [last], c);
      assert s == s[..n] + [last];
      WithCenterAppend(s[..n], [last], c);
      // `last` comes strictly after `b`, so at most one of the two has center `c`
      assert last.center != b.center;
      WithCenterSingle(b, c);
      WithCenterSingle(last, c);
      SwapDisjoint(WithCenter(s[..n], c), WithCenter([b], c), WithCenter([last], c));
    }
  }

  lemma SwapDisjoint(a: seq<RotatedRect>, x: seq<RotatedRect>, y: seq<RotatedRect>)
    requires x == [] || y == []
    ensures (a + x) + y == (a + y) + x
  {
  }

  /** The sort is stable: boxes with the same center keep their input order. */
  lemma {:induction false} SortByCenterStable(s: seq<RotatedRect>, c: Point2f)
    ensures WithCenter(SortByCenter(s), c) == WithCenter(s, c)
  {
    if s != [] {
      var n := |s| - 1;
      SortByCenterStable(s[..n], c);
      InsertStable(s[n], SortByCenter(s[..n]), c);
      assert s == s[..n] + [s[n]];
      WithCenterAppend(s[..n], [s[n]], c);
    }
  }

  /**
   * The `Where`/`Select`/`OrderBy`/`ThenBy` chain after the contours are traced; `score` is the
   * contour score (`GetScore` on the probability map, see `ScoreOn`).
   */
  function Boxes(contours: seq<Contour>, scoreThreshold: Option<real>, score: Contour -> real, minSize: int,
                 unclipRatio: real, scaleRate: real, cv: OpenCv.Primitives)
    : (rects: seq<RotatedRect>)
    ensures SortedByCenter(rects)
    ensures forall i | 0 <= i < |rects| :: LargeEnough(rects[i], minSize)
  {
    var kept := ScoreFilter(contours, scoreThreshold, score);
    var enlarged := UnclipAll(kept, unclipRatio, scaleRate, cv);
    var large := SizeFilter(enlarged, minSize);
    SortKeepsLarge(large, minSize);
    SortByCenter(large)
  }

  lemma SortKeepsLarge(s: seq<RotatedRect>, minSize: int)
    requires forall i | 0 <= i < |s| :: LargeEnough(s[i], minSize)
    ensures forall i | 0 <= i < |SortByCenter(s)| :: LargeEnough(SortByCenter(s)[i], minSize)
  {
    var r := SortByCenter(s);
    forall i | 0 <= i < |r| ensures LargeEnough(r[i], minSize) {
      assert r[i] in multiset(r);
      assert r[i] in multiset(s);
      var j :| 0 <= j < |s| && s[j] == r[i];
    }
  }

  /** No contour, no box. */
  lemma BoxesOfNothing(scoreThreshold: Option<real>, score: Contour -> real, minSize: int, unclipRatio: real,
                       scaleRate: real, cv: OpenCv.Primitives)
    ensures Boxes([], scoreThreshold, score, minSize, unclipRatio, scaleRate, cv) == []
  {
    assert ScoreFilter([], scoreThreshold, score) == [];
    assert UnclipAll([], unclipRatio, scaleRate, cv) == [];
    assert SizeFilter([], minSize) == [];
  }

  /** The unclipped rectangle of one contour. */
  function UnclipContour(c: Contour, unclipRatio: real, scaleRate: real, cv: OpenCv.Primitives): Option<RotatedRect>
  {
    Unclip(cv.minAreaRect(c), cv.contourArea(c), cv.arcLength(c), unclipRatio, scaleRate)
  }

  /**
   * A box is reported exactly when it is large enough and is the unclipped rectangle of a
   * contour whose score passes the threshold.
   */
  lemma BoxesMembership(contours: seq<Contour>, scoreThreshold: Option<real>, score: Contour -> real, minSize: int,
                        unclipRatio: real, scaleRate: real, cv: OpenCv.Primitives, b: RotatedRect)
    ensures b in Boxes(contours, scoreThreshold, score, minSize, unclipRatio, scaleRate, cv) <==>
              && LargeEnough(b, minSize)
              && exists c | c in contours ::
                   && (scoreThreshold.None? || score(c) > scoreThreshold.value)
                   && UnclipContour(c, unclipRatio, scaleRate, cv) == Some(b)
  {
    var kept := ScoreFilter(contours, scoreThreshold, score);
    var enlarged := UnclipAll(kept, unclipRatio, scaleRate, cv);
    var large := SizeFilter(enlarged, minSize);
    var rects := SortByCenter(large);
    assert b in rects <==> b in large by {
      assert b in rects <==> b in multiset(rects);
      assert b in large <==> b in multiset(large);
    }
    if b in rects {
      assert Some(b) in enlarged;
      var i :| 0 <= i < |enlarged| && enlarged[i] == Some(b);
      assert kept[i] in kept;
    }
    if LargeEnough(b, minSize) && exists c | c in contours ::
         && (scoreThreshold.None? || score(c) > scoreThreshold.value)
         && UnclipContour(c, unclipRatio, scaleRate, cv) == Some(b) {
      var c :| c in contours
         && (scoreThreshold.None? || score(c) > scoreThreshold.value)
         && UnclipContour(c, unclipRatio, scaleRate, cv) == Some(b);
      assert c in kept;
      var i :| 0 <= i < |kept| && kept[i] == c;
      assert enlarged[i] == Some(b);
    }
  }
}
