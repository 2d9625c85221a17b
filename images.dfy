/**
 * Data model of the detector: images (OpenCV `Mat`), rectangular grids, integer contour
 * points, oriented boxes (`RotatedRect`), and the errors a detection call raises.
 */
module Images {

  /** A rectangular grid stored row by row. */
  type Grid<T> = seq<seq<T>>

  predicate IsGrid<T>(g: Grid<T>, rows: int, cols: int) {
    |g| == rows && forall r | 0 <= r < |g| :: |g[r]| == cols
  }

  /** A single-channel floating-point image, such as one channel of a `Mat` or a probability map. */
  type Plane = Grid<real>

  /**
   * An interleaved image: `px[r][k]` holds the `channels` samples of the pixel in row `r`,
   * column `k`. Sample values are kept as reals whatever the source depth.
   */
  datatype Mat = Mat(rows: nat, cols: nat, channels: nat, px: Grid<seq<real>>) {

    predicate Valid() {
      && IsGrid(px, rows, cols)
      && forall r, k | 0 <= r < rows && 0 <= k < cols :: |px[r][k]| == channels
    }

    /** `Mat.Empty()`: the image holds no pixel. */
    predicate Empty() {
      rows == 0 || cols == 0
    }
  }

  /** A contour vertex, `OpenCvSharp.Point`. */
  datatype Point = Point(x: int, y: int)

  type Contour = seq<Point>

  datatype Point2f = Point2f(x: real, y: real)

  datatype Size2f = Size2f(width: real, height: real)

  /** An oriented box: center, size and rotation angle in degrees. */
  datatype RotatedRect = RotatedRect(center: Point2f, size: Size2f, angle: real)

  /** The exceptions a detection call can end with. */
  datatype DetectError =
    | EmptyImage                        // ArgumentException: zero pixels
    | UnsupportedChannels(channels: nat) // NotSupportedException: neither 1 nor 3 channels
    | ResizeRejected                    // OpenCV refuses the resize target size
    | PredictorRunFailed                // the predictor reports that its run failed
    | OutputOutOfRange                  // the output tensor cannot hold the valid region
}
