/**
 * The OpenCV primitives the detector calls and whose internals are not part of this model.
 * They are passed around as one value of function-valued fields; `Lawful` collects the few
 * facts about them that the detector relies on.
 */
module OpenCv {
  import opened Wrappers
  import opened Arith
  import opened Images

  datatype Primitives = Primitives(
    /** `Mat.Resize(default, s, s)`: `None` when OpenCV rejects the target size. */
    resize: (Mat, real) -> Option<Mat>,
    /** `FindContoursAsArray(List, ApproxSimple)` on an 8-bit image. */
    findContours: Grid<int> -> seq<Contour>,
    /** A black `rows x cols` 8-bit mask with the polygon filled with 255 by `FillPoly`. */
    fillPoly: (nat, nat, Contour) -> Grid<int>,
    minAreaRect: Contour -> RotatedRect,
    /** `ContourArea`: the signed area of the closed polygon. */
    contourArea: Contour -> real,
    /** `ArcLength(contour, true)`: the perimeter of the closed polygon. */
    arcLength: Contour -> real
  )

  predicate AllZero(g: Grid<int>) {
    forall r, k | 0 <= r < |g| && 0 <= k < |g[r]| :: g[r][k] == 0
  }

  /** The side OpenCV's resize computes for an image side `n` and factor `s`. */
  function TargetSide(n: nat, s: real): int {
    RoundHalfEven(n as real * s)
  }

  /**
   * `Resize(default, s, s)` of a non-empty image: the target size is each side times `s`,
   * rounded to the nearest integer; OpenCV rejects an empty target (which includes every
   * `s <= 0`), and otherwise yields a well-formed image of that size with the same channels.
   */
  ghost predicate ResizesByFactor(cv: Primitives) {
    forall m: Mat, s: real | m.Valid() && !m.Empty() ::
      && (cv.resize(m, s).None? <==>
            TargetSide(m.rows, s) < 1 || TargetSide(m.cols, s) < 1)
      && (cv.resize(m, s).Some? ==>
            && cv.resize(m, s).value.Valid() && cv.resize(m, s).value.channels == m.channels
            && cv.resize(m, s).value.rows == TargetSide(m.rows, s)
            && cv.resize(m, s).value.cols == TargetSide(m.cols, s))
  }

  /** `ResizesByFactor` at one image and one factor. */
  lemma ResizeInstance(cv: Primitives, m: Mat, s: real)
    requires ResizesByFactor(cv) && m.Valid() && !m.Empty()
    ensures cv.resize(m, s).None? <==>
              TargetSide(m.rows, s) < 1 || TargetSide(m.cols, s) < 1
    ensures cv.resize(m, s).Some? ==>
              && cv.resize(m, s).value.Valid() && cv.resize(m, s).value.channels == m.channels
              && cv.resize(m, s).value.rows == TargetSide(m.rows, s)
              && cv.resize(m, s).value.cols == TargetSide(m.cols, s)
  {
  }

  /** Contour tracing yields no empty contour, and nothing at all on a black image. */
  ghost predicate TracesContours(cv: Primitives) {
    && (forall g: Grid<int>, i | 0 <= i < |cv.findContours(g)| :: |cv.findContours(g)[i]| > 0)
    && (forall g: Grid<int> | AllZero(g) :: cv.findContours(g) == [])
  }

  /** The filled mask has the requested size. */
  ghost predicate FillsToSize(cv: Primitives) {
    forall h: nat, w: nat, p: Contour :: IsGrid(cv.fillPoly(h, w, p), h, w)
  }

  /** What the detector relies on about the primitives. */
  ghost predicate Lawful(cv: Primitives) {
    ResizesByFactor(cv) && TracesContours(cv) && FillsToSize(cv)
  }
}
