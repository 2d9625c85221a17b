/**
 * `PaddleOcrDetector`: the checks and preprocessing before the detection network runs
 * (`RunRawCore`), and the post-processing of its probability map into text boxes (`Run`).
 * The network itself is the `predictor` parameter: it receives the tensor shape and data and
 * answers with an output tensor, or with `None` when its run fails.
 */
module Detector {
  import opened Wrappers
  import opened Arith
  import opened Images
  import OpenCv
  import opened Preprocess
  import opened Scoring
  import opened PostProcess

  /** The detector's settable properties. */
  datatype Config = Config(
    maxSize: Option<int>,
    boxScoreThreshold: Option<real>,
    boxThreshold: Option<real>,
    minSize: int,
    unclipRatio: real)

  /** The property initialisers: 960, 0.7, 0.3, 3 and 1.5. */
  function DefaultConfig(): (c: Config)
    ensures c.maxSize == Some(960) && c.minSize == 3 && c.unclipRatio == 1.5
    ensures c.boxScoreThreshold == Some(0.7) && c.boxThreshold == Some(0.3)
  {
    Config(Some(960), Some(0.7), Some(0.3), 3, 1.5)
  }

  /** An output tensor of the network: its shape and its data in row-major order. */
  datatype Tensor = Tensor(shape: seq<int>, data: seq<real>)

  type Predictor = (seq<int>, seq<real>) -> Option<Tensor>

  /**
   * What `RunRawCore` returns: the height and width read from the output shape, the output data,
   * and the size of the resized image before padding.
   */
  datatype Raw = Raw(height: int, width: int, data: seq<real>, resizedRows: nat, resizedCols: nat)

  /** The tensor handed to the network for a resized image: padded, normalized, planar. */
  function NetworkInput(resized: Mat): (t: seq<real>)
    requires resized.Valid() && resized.channels <= 3
  {
    Planar(NormalizedMat(MatPadding32(resized)))
  }

  /** The reference definition of `RunRawCore`. */
  function RawCore(src: Mat, cfg: Config, cv: OpenCv.Primitives, predictor: Predictor)
    : (r: Result<Raw, DetectError>)
    requires src.Valid() && OpenCv.ResizesByFactor(cv)
    ensures r == Err(EmptyImage) <==> src.Empty()
    ensures r == Err(UnsupportedChannels(src.channels)) <==>
              !src.Empty() && src.channels != 1 && src.channels != 3
    ensures r.Ok? ==> r.value.resizedRows >= 1 && r.value.resizedCols >= 1
    ensures r.Ok? && cfg.maxSize.None? ==>
              r.value.resizedRows == src.rows && r.value.resizedCols == src.cols
    ensures r.Ok? ==> r.value.resizedRows <= src.rows && r.value.resizedCols <= src.cols
    ensures r.Ok? && cfg.maxSize.Some? ==>
              r.value.resizedRows <= cfg.maxSize.value && r.value.resizedCols <= cfg.maxSize.value
    ensures (&& !src.Empty() && (src.channels == 1 || src.channels == 3)
             && cfg.maxSize.Some? && cfg.maxSize.value <= 0) ==> r == Err(ResizeRejected)
  {
    if src.Empty() then Err(EmptyImage)
    else if src.channels != 1 && src.channels != 3 then Err(UnsupportedChannels(src.channels))
    else
      MatResizeShrinks(src, cfg.maxSize, cv);
      match MatResize(src, cfg.maxSize, cv)
      case None => Err(ResizeRejected)
      case Some(resized) =>
        var padded := MatPadding32(resized);
        match predictor([1, 3, padded.rows, padded.cols], NetworkInput(resized))
        case None => Err(PredictorRunFailed)
        case Some(out) =>
          if |out.shape| < 4 then Err(OutputOutOfRange)
          else Ok(Raw(out.shape[2], out.shape[3], out.data, resized.rows, resized.cols))
  }

  /** Validation, resize, padding to multiples of 32, normalization, and one network run. */
  method RunRawCore(src: Mat, cfg: Config, cv: OpenCv.Primitives, predictor: Predictor)
    returns (r: Result<Raw, DetectError>)
    requires src.Valid() && OpenCv.ResizesByFactor(cv)
    ensures r == RawCore(src, cfg, cv, predictor)
  {
    if src.Empty() {
      return Err(EmptyImage);
    }
    if !(src.channels == 3 || src.channels == 1) {
      return Err(UnsupportedChannels(src.channels));
    }
    var resized := MatResize(src, cfg.maxSize, cv);
    if resized.None? {
      return Err(ResizeRejected);
    }
    var padded := MatPadding32(resized.value);
    var normalized := Normalize(padded);
    var data := ExtractMat(normalized);
    var output := predictor([1, 3, normalized.rows, normalized.cols], data[..]);
    if output.None? {
      return Err(PredictorRunFailed);
    }
    if |output.value.shape| < 4 {
      return Err(OutputOutOfRange);
    }
    r := Ok(Raw(output.value.shape[2], output.value.shape[3], output.value.data,
                resized.value.rows, resized.value.cols));
  }

  /**
   * Where the network finds each input sample: channel `c` of padded pixel `(r, k)` is the
   * standardized source sample inside the image, the standardized black value in the padding,
   * and zero in a channel the image does not have.
   */
  lemma NetworkInputLayout(resized: Mat, c: nat, r: nat, k: nat)
    requires resized.Valid() && 1 <= resized.channels <= 3
    requires c < 3 && r < PadTo32(resized.rows) && k < PadTo32(resized.cols)
    ensures var rows, cols := PadTo32(resized.rows), PadTo32(resized.cols);
            var i := TensorIndex(c, r, k, rows, cols);
            && i < |NetworkInput(resized)|
            && NetworkInput(resized)[i] ==
                 if c >= resized.channels then 0.0
                 else if r < resized.rows && k < resized.cols then Standardized(resized.px[r][k][c], c)
                 else Standardized(0.0, c)
  {
    if c < resized.channels {
      PresentChannel(resized, c, r, k);
    } else {
      MissingChannel(resized, c, r, k);
    }
  }

  lemma {:induction false} PresentChannel(resized: Mat, c: nat, r: nat, k: nat)
    requires resized.Valid() && c < resized.channels <= 3
    requires r < PadTo32(resized.rows) && k < PadTo32(resized.cols)
    ensures var rows, cols := PadTo32(resized.rows), PadTo32(resized.cols);
            var i := TensorIndex(c, r, k, rows, cols);
            && i < |NetworkInput(resized)|
            && NetworkInput(resized)[i] ==
                 if r < resized.rows && k < resized.cols then Standardized(resized.px[r][k][c], c)
                 else Standardized(0.0, c)
  {
    var p := MatPadding32(resized);
    var n := NormalizedMat(p);
    PlanarIndex(n, c, r, k);
    assert n.px[r][k][c] == Standardized(p.px[r][k][c], c);
    if r < resized.rows && k < resized.cols {
      assert p.px[r][k] == resized.px[r][k];
    } else {
      assert p.px[r][k] == Zeros(resized.channels);
    }
  }

  lemma {:induction false} MissingChannel(resized: Mat, c: nat, r: nat, k: nat)
    requires resized.Valid() && resized.channels <= c < 3
    requires r < PadTo32(resized.rows) && k < PadTo32(resized.cols)
    ensures var rows, cols := PadTo32(resized.rows), PadTo32(resized.cols);
            var i := TensorIndex(c, r, k, rows, cols);
            i < |NetworkInput(resized)| && NetworkInput(resized)[i] == 0.0
  {
    var rows, cols := PadTo32(resized.rows), PadTo32(resized.cols);
    var input := NormalizedMat(MatPadding32(resized));
    var i := TensorIndex(c, r, k, rows, cols);
    TensorIndexPastChannels(c, r, k, rows, cols, resized.channels);
    PlanarMissingChannels(input, i);
  }

  /** The valid region of the output lies inside the output map and its data. */
  predicate RoiFits(raw: Raw) {
    && raw.resizedRows <= raw.height && raw.resizedCols <= raw.width
    && raw.height * raw.width <= |raw.data|
  }

  /** Sample `(r, k)` of a row-major buffer whose rows are `width` long. */
  function Cell(data: seq<real>, width: nat, rows: nat, r: nat, k: nat): real
    requires r < rows && k < width && rows * width <= |data|
  {
    RowMajorBound(r, k, rows, width);
    data[r * width + k]
  }

  /** The top-left `rows x cols` window of a row-major buffer whose rows are `width` long. */
  function Window(data: seq<real>, width: nat, rows: nat, cols: nat): (g: Plane)
    requires cols <= width && rows * width <= |data|
    ensures IsGrid(g, rows, cols)
    ensures forall r, k | 0 <= r < rows && 0 <= k < cols :: g[r][k] == Cell(data, width, rows, r, k)
  {
    seq(rows, r requires 0 <= r < rows =>
      seq(cols, k requires 0 <= k < cols => Cell(data, width, rows, r, k)))
  }

  /** `pred[0, resizedRows, 0, resizedCols]`: the probability map without the padding. */
  function Roi(raw: Raw): (roi: Plane)
    requires RoiFits(raw)
    ensures IsGrid(roi, raw.resizedRows, raw.resizedCols)
    ensures forall r, k | 0 <= r < raw.resizedRows && 0 <= k < raw.resizedCols ::
              roi[r][k] == Cell(raw.data, raw.width, raw.height, r, k)
  {
    MulMono(raw.resizedRows, raw.height, raw.width);
    Window(raw.data, raw.width, raw.resizedRows, raw.resizedCols)
  }

  /** `roi.ConvertTo(cbuf, CV_8UC1, 255)`. */
  function ToBytes(roi: Plane): (cbuf: Grid<int>)
    ensures |cbuf| == |roi|
    ensures forall r | 0 <= r < |roi| :: |cbuf[r]| == |roi[r]|
    ensures forall r, k | 0 <= r < |roi| && 0 <= k < |roi[r]| ::
              && 0 <= cbuf[r][k] <= 255
              && (0.0 <= roi[r][k] <= 1.0 ==>
                    roi[r][k] * 255.0 - 0.5 <= cbuf[r][k] as real <= roi[r][k] * 255.0 + 0.5)
              && (roi[r][k] < 0.0 ==> cbuf[r][k] == 0)
              && (roi[r][k] > 1.0 ==> cbuf[r][k] == 255)
  {
    seq(|roi|, r requires 0 <= r < |roi| =>
      seq(|roi[r]|, k requires 0 <= k < |roi[r]| => SaturateByte(roi[r][k] * 255.0)))
  }

  /** The contours traced on the binarized probability map. */
  function Contours(raw: Raw, cfg: Config, cv: OpenCv.Primitives): (contours: seq<Contour>)
    requires RoiFits(raw)
    ensures OpenCv.TracesContours(cv) ==> forall c | c in contours :: |c| > 0
    ensures OpenCv.TracesContours(cv) && OpenCv.AllZero(Binarize(ToBytes(Roi(raw)), cfg.boxThreshold)) ==>
              contours == []
  {
    cv.findContours(Binarize(ToBytes(Roi(raw)), cfg.boxThreshold))
  }

  /** `scaleRate`: source width over resized width, used for both axes. */
  function ScaleRate(src: Mat, raw: Raw): (rate: real)
    requires raw.resizedCols >= 1
    ensures rate >= 0.0 && rate * raw.resizedCols as real == src.cols as real
    ensures raw.resizedCols <= src.cols ==> rate >= 1.0
  {
    var rate := src.cols as real / raw.resizedCols as real;
    assert rate * raw.resizedCols as real == src.cols as real;
    if raw.resizedCols <= src.cols then
      MulCancel(1.0, rate, raw.resizedCols as real);
      rate
    else
      rate
  }

  /** The reference definition of `Run`. */
  function Detect(src: Mat, cfg: Config, cv: OpenCv.Primitives, predictor: Predictor)
    : (r: Result<seq<RotatedRect>, DetectError>)
    requires src.Valid() && OpenCv.Lawful(cv)
    ensures RawCore(src, cfg, cv, predictor).Err? ==> r == Err(RawCore(src, cfg, cv, predictor).error)
    ensures r == Err(OutputOutOfRange) <==>
              RawCore(src, cfg, cv, predictor) == Err(OutputOutOfRange)
              || (RawCore(src, cfg, cv, predictor).Ok? && !RoiFits(RawCore(src, cfg, cv, predictor).value))
    ensures r.Ok? ==> SortedByCenter(r.value)
    ensures r.Ok? ==> forall i | 0 <= i < |r.value| :: LargeEnough(r.value[i], cfg.minSize)
  {
    match RawCore(src, cfg, cv, predictor)
    case Err(e) => Err(e)
    case Ok(raw) =>
      if !RoiFits(raw) then Err(OutputOutOfRange)
      else
        Ok(Boxes(Contours(raw, cfg, cv), cfg.boxScoreThreshold, ScoreOn(Roi(raw), raw.resizedCols, raw.resizedRows, cv),
                 cfg.minSize, cfg.unclipRatio, ScaleRate(src, raw), cv))
  }

  /** Detection: the raw run, then thresholding, contour tracing, scoring, unclipping and sorting. */
  method Run(src: Mat, cfg: Config, cv: OpenCv.Primitives, predictor: Predictor)
    returns (r: Result<seq<RotatedRect>, DetectError>)
    requires src.Valid() && OpenCv.Lawful(cv)
    ensures r == Detect(src, cfg, cv, predictor)
  {
    var raw := RunRawCore(src, cfg, cv, predictor);
    if raw.Err? {
      return Err(raw.error);
    }
    if !RoiFits(raw.value) {
      return Err(OutputOutOfRange);
    }
    var roi := Roi(raw.value);
    var cbuf := ToBytes(roi);
    var binary := Binarize(cbuf, cfg.boxThreshold);
    var contours := cv.findContours(binary);
    var scaleRate := ScaleRate(src, raw.value);
    var score := ScoreOn(roi, raw.value.resizedCols, raw.value.resizedRows, cv);
    r := Ok(Boxes(contours, cfg.boxScoreThreshold, score, cfg.minSize, cfg.unclipRatio, scaleRate, cv));
  }

  /** `Mat.FromPixelData(height, width, CV_32FC1, data)`: the output data viewed as a map. */
  function OutputMap(raw: Raw): (r: Result<Plane, DetectError>)
    ensures r.Ok? <==> raw.height >= 0 && raw.width >= 0 && raw.height * raw.width <= |raw.data|
    ensures r.Err? ==> r.error == OutputOutOfRange
    ensures r.Ok? ==>
              && IsGrid(r.value, raw.height, raw.width)
              && forall i, j | 0 <= i < raw.height && 0 <= j < raw.width ::
                   r.value[i][j] == Cell(raw.data, raw.width, raw.height, i, j)
  {
    if raw.height < 0 || raw.width < 0 || raw.height * raw.width > |raw.data| then Err(OutputOutOfRange)
    else Ok(Window(raw.data, raw.width, raw.height, raw.width))
  }

  /** The region `Run` scores is the top-left corner of the map `RunRaw` returns. */
  lemma RoiInOutputMap(raw: Raw)
    requires RoiFits(raw)
    ensures OutputMap(raw).Ok?
    ensures forall r, k | 0 <= r < raw.resizedRows && 0 <= k < raw.resizedCols ::
              Roi(raw)[r][k] == OutputMap(raw).value[r][k]
  {
  }

  /** `RunRaw`: the output map, with the size of the resized image inside it. */
  method RunRaw(src: Mat, cfg: Config, cv: OpenCv.Primitives, predictor: Predictor)
    returns (r: Result<(Plane, nat, nat), DetectError>)
    requires src.Valid() && OpenCv.ResizesByFactor(cv)
    ensures var raw := RawCore(src, cfg, cv, predictor);
            && (raw.Err? ==> r == Err(raw.error))
            && (raw.Ok? && OutputMap(raw.value).Err? ==> r == Err(OutputMap(raw.value).error))
            && (raw.Ok? && OutputMap(raw.value).Ok? ==>
                  r == Ok((OutputMap(raw.value).value, raw.value.resizedRows, raw.value.resizedCols)))
  {
    var raw := RunRawCore(src, cfg, cv, predictor);
    if raw.Err? {
      return Err(raw.error);
    }
    var plane := OutputMap(raw.value);
    if plane.Err? {
      return Err(plane.error);
    }
    r := Ok((plane.value, raw.value.resizedRows, raw.value.resizedCols));
  }

  /**
   * A probability map at or below the box threshold everywhere yields no box at all: the
   * binarized map is black and tracing finds no contour.
   */
  lemma {:induction false} FaintMapHasNoBoxes(src: Mat, cfg: Config, cv: OpenCv.Primitives, predictor: Predictor)
    requires src.Valid() && OpenCv.Lawful(cv)
    requires RawCore(src, cfg, cv, predictor).Ok? && RoiFits(RawCore(src, cfg, cv, predictor).value)
    requires cfg.boxThreshold.Some? && cfg.boxThreshold.value >= 0.0
    requires var roi := Roi(RawCore(src, cfg, cv, predictor).value);
             forall r, k | 0 <= r < |roi| && 0 <= k < |roi[r]| ::
               roi[r][k] * 255.0 <= ThresholdByte(cfg.boxThreshold.value) as real
    ensures Detect(src, cfg, cv, predictor) == Ok([])
  {
    var raw := RawCore(src, cfg, cv, predictor).value;
    var roi := Roi(raw);
    var t := cfg.boxThreshold.value;
    var cbuf := ToBytes(roi);
    forall r, k | 0 <= r < |cbuf| && 0 <= k < |cbuf[r]| ensures cbuf[r][k] <= ThresholdByte(t) {
      SaturateByteAtMost(roi[r][k] * 255.0, ThresholdByte(t));
    }
    BinarizeBelowIsBlack(cbuf, t);
    assert Contours(raw, cfg, cv) == [];
    BoxesOfNothing(cfg.boxScoreThreshold, ScoreOn(roi, raw.resizedCols, raw.resizedRows, cv), cfg.minSize,
                   cfg.unclipRatio, ScaleRate(src, raw), cv);
  }

  /**
   * Every reported box is large enough and is the unclipped rectangle of a traced contour whose
   * `GetScore` passes the box score threshold, and every such rectangle is reported.
   */
  lemma DetectedBoxes(src: Mat, cfg: Config, cv: OpenCv.Primitives, predictor: Predictor, b: RotatedRect)
    requires src.Valid() && OpenCv.Lawful(cv)
    requires RawCore(src, cfg, cv, predictor).Ok? && RoiFits(RawCore(src, cfg, cv, predictor).value)
    ensures var raw := RawCore(src, cfg, cv, predictor).value;
            b in Detect(src, cfg, cv, predictor).value <==>
              && LargeEnough(b, cfg.minSize)
              && exists c | c in Contours(raw, cfg, cv) ::
                   && |c| > 0
                   && (cfg.boxScoreThreshold.None?
                       || GetScore(c, Roi(raw), raw.resizedCols, raw.resizedRows, cv) > cfg.boxScoreThreshold.value)
                   && UnclipContour(c, cfg.unclipRatio, ScaleRate(src, raw), cv) == Some(b)
  {
    var raw := RawCore(src, cfg, cv, predictor).value;
    var contours := Contours(raw, cfg, cv);
    TracedNonEmpty(cv, Binarize(ToBytes(Roi(raw)), cfg.boxThreshold));
    ScoredMembership(contours, cfg.boxScoreThreshold, Roi(raw), raw.resizedCols, raw.resizedRows, cv,
                     cfg.minSize, cfg.unclipRatio, ScaleRate(src, raw), b);
  }

  lemma TracedNonEmpty(cv: OpenCv.Primitives, g: Grid<int>)
    requires OpenCv.TracesContours(cv)
    ensures forall c | c in cv.findContours(g) :: |c| > 0
  {
    forall c | c in cv.findContours(g) ensures |c| > 0 {
      var j :| 0 <= j < |cv.findContours(g)| && cv.findContours(g)[j] == c;
    }
  }

  /** `BoxesMembership` with the score of each contour taken from the probability map. */
  lemma ScoredMembership(contours: seq<Contour>, scoreThreshold: Option<real>, roi: Plane, width: nat, height: nat,
                         cv: OpenCv.Primitives, minSize: int, unclipRatio: real, scaleRate: real, b: RotatedRect)
    requires width >= 1 && height >= 1 && IsGrid(roi, height, width) && OpenCv.FillsToSize(cv)
    requires forall c | c in contours :: |c| > 0
    ensures b in Boxes(contours, scoreThreshold, ScoreOn(roi, width, height, cv), minSize, unclipRatio, scaleRate, cv)
            <==>
              && LargeEnough(b, minSize)
              && exists c | c in contours ::
                   && |c| > 0
                   && (scoreThreshold.None? || GetScore(c, roi, width, height, cv) > scoreThreshold.value)
                   && UnclipContour(c, unclipRatio, scaleRate, cv) == Some(b)
  {
    var score := ScoreOn(roi, width, height, cv);
    BoxesMembership(contours, scoreThreshold, score, minSize, unclipRatio, scaleRate, cv, b);
  }
}
