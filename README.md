# PaddleOcrDetector text detection, modelled in Dafny

This project models the text-detection stage of PaddleSharp's OCR pipeline,
`src/Sdcb.PaddleOCR/PaddleOcrDetector.cs`. The stage has two halves.

- `RunRawCore` validates the input image. When `MaxSize` is set and the long edge exceeds it, it
  shrinks the image so that the long edge fits `MaxSize`. It pads the image on the bottom and
  right to multiples of 32, and standardizes every channel with the ImageNet means and scales.
  It then lays the image out plane by plane for the network and runs the network once.
- `Run` crops the network's probability map to the unpadded region and converts it to 8 bits.
  It binarizes the map with `BoxThreshold` and traces the contours. Contours whose mean
  probability (`GetScore`) does not exceed `BoxScoreThreahold` are dropped. Each remaining
  contour's minimum-area rectangle is enlarged by the unclip offset `d = UnclipRatio * |area| /
  perimeter` and scaled back to source coordinates. Only boxes larger than `MinSize` on both
  sides are kept. These are sorted stably by center Y, then center X.

Modules, one per stage:

- `Images`: the data model. An interleaved `Mat`, grids and planes, integer contour points,
  `RotatedRect`, and the exceptions a call ends with, as `DetectError`.
- `OpenCv`: the OpenCV primitives whose internals are not modelled: resize, contour tracing,
  polygon fill, minimum-area rectangle, contour area and arc length. They are function-valued
  fields of one `Primitives` value. The predicates `ResizesByFactor`, `TracesContours` and
  `FillsToSize` state the few facts about them that the detector relies on.
- `Arith`: C# and OpenCV numeric conversions. These are the `(int)` cast (truncation toward
  zero), `Math.Ceiling`, and `saturate_cast<uchar>` (round half to even, then clamp to
  `[0, 255]`), plus small arithmetic lemmas.
- `Preprocess`: `MatResize`, `MatPadding32`, `Normalize` and `ExtractMat`. `Normalize` and
  `ExtractMat` are methods over arrays, proved against the functions `NormalizedMat` and
  `Planar`.
- `Scoring`: `GetScore`, with clamping, the bounding box, the crop and the masked mean.
- `PostProcess`: binarization, the score filter, unclip, the size filter and the stable sort.
- `Detector`: the configuration with its defaults, and `RunRawCore`, `RunRaw` and `Run`. Each is
  a method proved equal to a reference function (`RawCore`, `OutputMap`, `Detect`). Lemmas about
  the reference functions state the end-to-end properties.

The network is the `predictor` parameter. It receives the input shape `[1, 3, rows, cols]` and
the planar data. It answers with an output tensor (shape and data), or with nothing when its run
fails.

Binarization follows the code. OpenCV's binary threshold whitens only pixels strictly above
`(int)(BoxThreshold * 255)`, not those at or above `BoxThreshold * 255`, so `Binarize` uses `>`.
Because the threshold is truncated and the map is rounded, a value slightly below `BoxThreshold`
can still binarize white: with `BoxThreshold = 0.3008` the byte threshold is 76, and a value of
0.3004 becomes byte 77. A map at or below `(int)(BoxThreshold * 255) / 255` everywhere does
stay black; `FaintMapHasNoBoxes` assumes that bound.

## Model

| member | source | states |
|---|---|---|
| `Arith.TruncToInt` | src/Sdcb.PaddleOCR/PaddleOcrDetector.cs:123 | the C# `(int)` cast of a real within `int` range truncates toward zero: the result is the largest integer not above a non-negative value and the smallest not below a negative one |
| `Arith.Ceiling` | src/Sdcb.PaddleOCR/PaddleOcrDetector.cs:314-316 | `Math.Ceiling` gives the least integer at or above its argument |
| `Arith.SaturateByte` | src/Sdcb.PaddleOCR/PaddleOcrDetector.cs:121 | the 8-bit conversion of `v * 255` stays in `[0, 255]`, is within one half of an in-range value, and saturates below 0 and above 255 |
| `Arith.SaturateByteAtMost` | src/Sdcb.PaddleOCR/PaddleOcrDetector.cs:121 | a value at most an integer threshold never converts to a byte above that threshold |
| `Arith.RoundHalfEven` | src/Sdcb.PaddleOCR/PaddleOcrDetector.cs:121 | `cvRound`: the result is within one half of the value, and an exact tie goes to the even neighbour |
| `Preprocess.ResizeFactor` | src/Sdcb.PaddleOCR/PaddleOcrDetector.cs:278-286 | there is no scale factor exactly when `MaxSize` is null or at least the long edge; otherwise the factor is below 1 and maps the long edge onto `MaxSize` |
| `Preprocess.MatResize` | src/Sdcb.PaddleOCR/PaddleOcrDetector.cs:276-287 | the image is copied unchanged when `MaxSize` is null or the image already fits; otherwise it is the OpenCV resize by `MaxSize / longEdge`, a factor below 1; a resized image is valid, keeps its channels and is not empty |
| `Preprocess.MatResizeShrinks` | src/Sdcb.PaddleOCR/PaddleOcrDetector.cs:276-287 | a resized image is no larger than the source on either side and, when `MaxSize` is set, its long edge is at most `MaxSize`; a non-positive `MaxSize` makes the resize fail |
| `Preprocess.ResizedSize` | src/Sdcb.PaddleOCR/PaddleOcrDetector.cs:281-285 | one resize by `s = MaxSize / longEdge < 1` gives sides at most the source's and at most `MaxSize`, and fails when `MaxSize <= 0` |
| `Preprocess.ShrunkSide` | src/Sdcb.PaddleOCR/PaddleOcrDetector.cs:281-285 | a side `n` at most the long edge, scaled by `s` and rounded, is at most `n`, at most a non-negative `MaxSize`, and not positive when `MaxSize` is not |
| `Preprocess.PadTo32` | src/Sdcb.PaddleOCR/PaddleOcrDetector.cs:314-317 | `32 * ceil(n / 32)` is a multiple of 32 in `[n, n + 32)` |
| `Preprocess.PadTo32Least` | src/Sdcb.PaddleOCR/PaddleOcrDetector.cs:315-317 | the padded side is the least multiple of 32 not below the side |
| `Preprocess.MatPadding32` | src/Sdcb.PaddleOCR/PaddleOcrDetector.cs:312-319 | both sides are padded to multiples of 32 on the bottom and right edges only; every original pixel keeps its place and value, and every added pixel is black in every channel |
| `Preprocess.ConvertMat` | src/Sdcb.PaddleOCR/PaddleOcrDetector.cs:324 | `ConvertTo` with `alpha` and `beta` keeps size and channels and maps every sample `v` to `v * alpha + beta` |
| `Preprocess.ConvertPlane` | src/Sdcb.PaddleOCR/PaddleOcrDetector.cs:330 | `ConvertTo` on one plane keeps its shape and maps every cell `v` to `v * alpha + beta` |
| `Preprocess.Merge` | src/Sdcb.PaddleOCR/PaddleOcrDetector.cs:334 | merging planes of one size gives a valid image of that size with one channel per plane, and sample `c` of pixel `(r, k)` is cell `(r, k)` of plane `c` |
| `Preprocess.Split` | src/Sdcb.PaddleOCR/PaddleOcrDetector.cs:325 | splitting gives one plane per channel, each of the image's size, and cell `(r, k)` of plane `c` is sample `c` of pixel `(r, k)` |
| `Preprocess.MergeSplit` | src/Sdcb.PaddleOCR/PaddleOcrDetector.cs:325-334 | merging the planes of a split gives back the image |
| `Preprocess.AffineIsStandardized` | src/Sdcb.PaddleOCR/PaddleOcrDetector.cs:324-331 | scaling by `1/255` and then applying the per-channel scale and offset is `(v / 255 - mean[c]) * scale[c]` |
| `Preprocess.StandardizeChannels` | src/Sdcb.PaddleOCR/PaddleOcrDetector.cs:328-331 | the loop replaces every plane `c` by its conversion with `scale[c]` and `-mean[c] * scale[c]` |
| `Preprocess.NormalizedPlanes` | src/Sdcb.PaddleOCR/PaddleOcrDetector.cs:323-334 | the converted planes have the image's size and, merged, are `NormalizedMat(src)` |
| `Preprocess.NormalizedMatUnique` | src/Sdcb.PaddleOCR/PaddleOcrDetector.cs:321-342 | any image of the source's size and channels whose every sample is standardized with its channel's mean and scale is `NormalizedMat(src)` |
| `Preprocess.Normalize` | src/Sdcb.PaddleOCR/PaddleOcrDetector.cs:321-342 | the loop over the split planes yields exactly `NormalizedMat(src)`: same size and channels, and every sample standardized with its channel's mean and scale |
| `Preprocess.ExtractMat` | src/Sdcb.PaddleOCR/PaddleOcrDetector.cs:289-310 | the buffer of `rows * cols * 3` floats filled channel by channel equals the planar layout `Planar(src)` |
| `Preprocess.ExtractChannel` | src/Sdcb.PaddleOCR/PaddleOcrDetector.cs:300-302 | copying channel `c` writes exactly that channel's plane of `Planar(src)` and leaves the rest of the buffer unchanged |
| `Preprocess.PlanarIndex` | src/Sdcb.PaddleOCR/PaddleOcrDetector.cs:296-302 | channel `c` of pixel `(r, k)` sits at index `c * rows * cols + r * cols + k` of the planar buffer |
| `Preprocess.PlanarMissingChannels` | src/Sdcb.PaddleOCR/PaddleOcrDetector.cs:293-302 | the planes of channels the image does not have stay zero |
| `Scoring.Clamp` | src/Sdcb.PaddleOCR/PaddleOcrDetector.cs:244 | the clamped value lies in `[lo, hi]`, equals the input inside it and the nearer bound outside it |
| `Scoring.ClampPoints` | src/Sdcb.PaddleOCR/PaddleOcrDetector.cs:243-245 | every clamped point lies in the map, and points already inside are unchanged |
| `Scoring.Min` | src/Sdcb.PaddleOCR/PaddleOcrDetector.cs:247 | the minimum is a lower bound of the sequence and is attained |
| `Scoring.Max` | src/Sdcb.PaddleOCR/PaddleOcrDetector.cs:248 | the maximum is an upper bound of the sequence and is attained |
| `Scoring.BoundingBox` | src/Sdcb.PaddleOCR/PaddleOcrDetector.cs:247-250 | every point lies within the box, and each of the four sides is touched by some point |
| `Scoring.ScoreBoxInside` | src/Sdcb.PaddleOCR/PaddleOcrDetector.cs:247-254 | for a non-empty contour the clamped box lies inside the map and has positive width and height, so the `roiWidth <= 0` branch is never taken |
| `Scoring.ShiftedInsideRoi` | src/Sdcb.PaddleOCR/PaddleOcrDetector.cs:259-264 | the shifted polygon lies inside the mask it is filled into |
| `Scoring.Shift` | src/Sdcb.PaddleOCR/PaddleOcrDetector.cs:259-261 | point `i` of the result is point `i` moved by `(-xmin, -ymin)` |
| `Scoring.ShiftBack` | src/Sdcb.PaddleOCR/PaddleOcrDetector.cs:259-261 | shifting back by `(xmin, ymin)` restores the clamped points |
| `Scoring.CountNonZeroZero` | src/Sdcb.PaddleOCR/PaddleOcrDetector.cs:266 | `CountNonZero` is 0 exactly when every mask pixel is 0 |
| `Scoring.RowCountZero` | src/Sdcb.PaddleOCR/PaddleOcrDetector.cs:266 | the count of one mask row is at most its length, and 0 exactly when the row is all zero |
| `Scoring.Crop` | src/Sdcb.PaddleOCR/PaddleOcrDetector.cs:271 | the crop `pred[ymin, ymax + 1, xmin, xmax + 1]` has the box's size and cell `(r, k)` is map cell `(ymin + r, xmin + k)` |
| `Scoring.CropWithin` | src/Sdcb.PaddleOCR/PaddleOcrDetector.cs:271 | bounds on the map's values hold for every cell of the crop |
| `Scoring.MaskedMean` | src/Sdcb.PaddleOCR/PaddleOcrDetector.cs:272 | the mean times the number of set mask pixels is the sum of the crop under the mask |
| `Scoring.MaskedSumBounds` | src/Sdcb.PaddleOCR/PaddleOcrDetector.cs:272 | when every map value is in `[lo, hi]`, the sum under the mask lies between `lo` and `hi` times the number of set mask pixels |
| `Scoring.MeanWithin` | src/Sdcb.PaddleOCR/PaddleOcrDetector.cs:272 | a sum between `n * lo` and `n * hi` has its mean in `[lo, hi]` |
| `Scoring.QuotientWithin` | src/Sdcb.PaddleOCR/PaddleOcrDetector.cs:272 | a sum between `lo * n` and `hi * n`, divided by a positive `n`, lies in `[lo, hi]` |
| `Scoring.GetScore` | src/Sdcb.PaddleOCR/PaddleOcrDetector.cs:237-274 | a contour whose filled mask is empty scores 0 |
| `Scoring.GetScoreIsMean` | src/Sdcb.PaddleOCR/PaddleOcrDetector.cs:263-273 | when the filled mask has a set pixel, the score is `MaskedMean` of the box crop over that mask |
| `Scoring.GetScoreWithin` | src/Sdcb.PaddleOCR/PaddleOcrDetector.cs:263-273 | when the mask has a set pixel, the score lies within any bounds of the map's values; a uniform map scores its own value |
| `PostProcess.Binarize` | src/Sdcb.PaddleOCR/PaddleOcrDetector.cs:122-124 | with a threshold, a pixel is 255 exactly when it is above `(int)(BoxThreshold * 255)` and 0 exactly otherwise; with no threshold the buffer is copied unchanged |
| `PostProcess.ThresholdByte` | src/Sdcb.PaddleOCR/PaddleOcrDetector.cs:123 | `(int)(BoxThreshold * 255)` truncates toward zero: the largest integer at or below a non-negative `BoxThreshold * 255`, the smallest at or above a negative one |
| `PostProcess.ThresholdByteExceeds` | src/Sdcb.PaddleOCR/PaddleOcrDetector.cs:122-124 | for a non-negative threshold, a byte is above `(int)(BoxThreshold * 255)` exactly when it is above `BoxThreshold * 255` |
| `PostProcess.BinarizeBelowIsBlack` | src/Sdcb.PaddleOCR/PaddleOcrDetector.cs:122-124 | a buffer at or below the threshold everywhere binarizes to an all-black mask |
| `PostProcess.ScoreFilter` | src/Sdcb.PaddleOCR/PaddleOcrDetector.cs:131 | a contour is kept exactly when it was traced and (no score threshold is set or its score exceeds the threshold); with no threshold every contour is kept, in order |
| `PostProcess.ScoreFilterCounts` | src/Sdcb.PaddleOCR/PaddleOcrDetector.cs:131 | a contour that passes occurs in the result as often as in the input; one that fails does not occur |
| `PostProcess.ScoreFilterOrder` | src/Sdcb.PaddleOCR/PaddleOcrDetector.cs:131 | the kept contours are a subsequence of the input, in input order |
| `PostProcess.ScoreOn` | src/Sdcb.PaddleOCR/PaddleOcrDetector.cs:131 | the score used by the filter is `GetScore` on the cropped map for every traced contour |
| `PostProcess.Offset` | src/Sdcb.PaddleOCR/PaddleOcrDetector.cs:136-141 | the unclip offset `UnclipRatio * |area| / perimeter` is non-negative for a non-negative ratio |
| `PostProcess.OffsetTimesPerimeter` | src/Sdcb.PaddleOCR/PaddleOcrDetector.cs:136-141 | the offset times the perimeter is `UnclipRatio` times the signed area, up to sign |
| `PostProcess.OffsetOrientation` | src/Sdcb.PaddleOCR/PaddleOcrDetector.cs:136 | the offset does not depend on the orientation of the contour, since `Math.Abs` drops the sign of its area |
| `PostProcess.Unclip` | src/Sdcb.PaddleOCR/PaddleOcrDetector.cs:134-149 | no box for a perimeter below `1e-6`; otherwise both sides grow by `2d` with `d = ratio * |area| / perimeter`, and size and center are multiplied by the scale rate with the angle kept |
| `PostProcess.UnclipMonotone` | src/Sdcb.PaddleOCR/PaddleOcrDetector.cs:141-145 | for a positive scale rate, a larger unclip ratio never gives a narrower or lower box |
| `PostProcess.UnclipNeverShrinks` | src/Sdcb.PaddleOCR/PaddleOcrDetector.cs:141-145 | with a non-negative ratio the enlarged box is at least the rescaled minimum-area rectangle on both sides |
| `PostProcess.UnclipAll` | src/Sdcb.PaddleOCR/PaddleOcrDetector.cs:132-150 | one unclip result per kept contour, in order |
| `PostProcess.SizeFilter` | src/Sdcb.PaddleOCR/PaddleOcrDetector.cs:151-154 | a box is kept exactly when it was produced and both sides are strictly above `MinSize` |
| `PostProcess.SizeFilterCounts` | src/Sdcb.PaddleOCR/PaddleOcrDetector.cs:151-154 | a large enough box occurs in the result as often as it was produced; any other box does not occur |
| `PostProcess.SizeFilterOrder` | src/Sdcb.PaddleOCR/PaddleOcrDetector.cs:151-154 | the kept boxes are in the order they were produced |
| `PostProcess.Insert` | src/Sdcb.PaddleOCR/PaddleOcrDetector.cs:155-156 | inserting after every box that does not come later keeps a sorted sequence sorted and adds exactly that box |
| `PostProcess.SortByCenter` | src/Sdcb.PaddleOCR/PaddleOcrDetector.cs:155-156 | the result is ordered by center Y, then center X, and is a permutation of the input |
| `PostProcess.InsertStable` | src/Sdcb.PaddleOCR/PaddleOcrDetector.cs:155-156 | insertion puts the new box after every box with the same center |
| `PostProcess.SortByCenterStable` | src/Sdcb.PaddleOCR/PaddleOcrDetector.cs:155-156 | the sort is stable: boxes with equal centers keep their input order |
| `PostProcess.Boxes` | src/Sdcb.PaddleOCR/PaddleOcrDetector.cs:130-157 | the returned boxes are in reading order and all strictly larger than `MinSize` on both sides |
| `PostProcess.BoxesOfNothing` | src/Sdcb.PaddleOCR/PaddleOcrDetector.cs:130-157 | no contour gives no box |
| `PostProcess.BoxesMembership` | src/Sdcb.PaddleOCR/PaddleOcrDetector.cs:130-157 | a box is returned exactly when it is large enough and is the unclipped rectangle of a contour whose score passes the threshold |
| `Detector.DefaultConfig` | src/Sdcb.PaddleOCR/PaddleOcrDetector.cs:20-32 | the defaults are `MaxSize` 960, `BoxScoreThreahold` 0.7, `BoxThreshold` 0.3, `MinSize` 3 and `UnclipRatio` 1.5 |
| `Detector.RawCore` | src/Sdcb.PaddleOCR/PaddleOcrDetector.cs:187-235 | an empty image fails with `EmptyImage` exactly; a non-empty image with neither 1 nor 3 channels fails with `UnsupportedChannels` exactly; a non-positive `MaxSize` on a valid image fails with `ResizeRejected`; a success reports a non-empty resized size no larger than the source on either side and at most `MaxSize` on both sides when it is set, and the source size when `MaxSize` is null |
| `Detector.RunRawCore` | src/Sdcb.PaddleOCR/PaddleOcrDetector.cs:187-235 | the method, with `Normalize` and `ExtractMat` run on arrays, returns exactly `RawCore` |
| `Detector.NetworkInputLayout` | src/Sdcb.PaddleOCR/PaddleOcrDetector.cs:198-219 | what the network reads at `c * rows * cols + r * cols + k` is the standardized sample inside the image, the standardized black value in the padding, and 0 in a channel the image lacks |
| `Detector.PresentChannel` | src/Sdcb.PaddleOCR/PaddleOcrDetector.cs:198-219 | the present-channel case of the layout |
| `Detector.MissingChannel` | src/Sdcb.PaddleOCR/PaddleOcrDetector.cs:293-302 | the missing-channel case of the layout |
| `Detector.Window` | src/Sdcb.PaddleOCR/PaddleOcrDetector.cs:118-119 | the top-left window of a row-major buffer has the requested size, and cell `(r, k)` is buffer entry `r * width + k` |
| `Detector.Roi` | src/Sdcb.PaddleOCR/PaddleOcrDetector.cs:119 | the cropped map has the resized size, and cell `(r, k)` is entry `r * width + k` of the output buffer |
| `Detector.OutputMap` | src/Sdcb.PaddleOCR/PaddleOcrDetector.cs:118 | the output data is viewed as a map exactly when the declared size is non-negative and the data holds it; the map has the declared size and cell `(i, j)` is entry `i * width + j`; otherwise the error is `OutputOutOfRange` |
| `Detector.RoiInOutputMap` | src/Sdcb.PaddleOCR/PaddleOcrDetector.cs:118-119 | when the crop fits, the output is a map and every cell of the crop is the same cell of the map |
| `Detector.ToBytes` | src/Sdcb.PaddleOCR/PaddleOcrDetector.cs:121 | the 8-bit map has the crop's shape; every byte is in `[0, 255]`, within one half of `255 * v` for `v` in `[0, 1]`, 0 below 0 and 255 above 1 |
| `Detector.Contours` | src/Sdcb.PaddleOCR/PaddleOcrDetector.cs:126 | every traced contour has a point, and an all-black binary map yields no contour |
| `Detector.ScaleRate` | src/Sdcb.PaddleOCR/PaddleOcrDetector.cs:128 | the rate times the resized width is the source width, and the rate is at least 1 when the image was not enlarged |
| `Detector.RunRaw` | src/Sdcb.PaddleOCR/PaddleOcrDetector.cs:172-185 | returns the errors of `RawCore`, otherwise the output map with the resized size |
| `Detector.Detect` | src/Sdcb.PaddleOCR/PaddleOcrDetector.cs:112-164 | errors of the raw run propagate unchanged; `OutputOutOfRange` arises exactly from the output shape or a crop that does not fit; a success is in reading order with every box strictly larger than `MinSize` |
| `Detector.Run` | src/Sdcb.PaddleOCR/PaddleOcrDetector.cs:112-164 | the method returns exactly `Detect` |
| `Detector.FaintMapHasNoBoxes` | src/Sdcb.PaddleOCR/PaddleOcrDetector.cs:119-126 | a probability map at or below `(int)(BoxThreshold * 255) / 255` everywhere yields no box, for a non-negative `BoxThreshold` |
| `Detector.TracedNonEmpty` | src/Sdcb.PaddleOCR/PaddleOcrDetector.cs:126 | every traced contour has a point, so `GetScore` applies to it |
| `Detector.ScoredMembership` | src/Sdcb.PaddleOCR/PaddleOcrDetector.cs:130-157 | the membership of `BoxesMembership` with the score read from the probability map by `GetScore` |
| `Detector.DetectedBoxes` | src/Sdcb.PaddleOCR/PaddleOcrDetector.cs:112-164 | a box is detected exactly when it is strictly larger than `MinSize` and is the unclipped, rescaled rectangle of a traced contour whose `GetScore` passes `BoxScoreThreahold`, or of any traced contour when that threshold is null |

## Left out

- OpenCV internals are not modelled: resize interpolation, contour tracing, polygon fill, minimum-area rectangle, contour area and arc length. They are parameters, with only the facts in `OpenCv` assumed of them.
- Floating-point precision is not modelled: `float` and `double` arithmetic are exact reals. This covers the `(float)` casts in unclip and the float constants `1 / 0.229f` and so on.
- The network is a parameter. Its lock, tensor handles, `GCHandle` pinning, `Clone`, `Dispose`, the constructors and `Visualize` are left out. They concern resources or drawing, not the detection result.
- Exceptions are error values of `DetectError`. OpenCV's resize throwing for a target side below one pixel is `ResizeRejected`; `RawCore` shows that a non-positive `MaxSize` always ends there.
- An output shape of fewer than four entries throws an index exception in C#; it is `OutputOutOfRange` here.
- `RoiFits` and `OutputMap` require the output data to hold `height * width` values. The C# code hands the buffer to OpenCV without checking; these guards make the model total.
- A cropped region that does not fit the output map makes OpenCV throw; it is `OutputOutOfRange` here.
- `MathUtil.Clamp` is not part of this model; `Scoring.Clamp` assumes it is the standard clamp to `[lo, hi]`.
- `Mat.Mean(mask)` is modelled as the exact mean of the crop over the set mask pixels.
- `Scoring.GetScore`: its own contract states only the empty-mask case; the value in the other case is stated by `GetScoreIsMean` and bounded by `GetScoreWithin`.
- `PostProcess.Boxes`: its own contract states order and size only; which boxes are returned is stated by `BoxesMembership` and `DetectedBoxes`.
- ExtractMat: does not model 32-bit `int` overflow of the buffer length `rows * cols * 3` (line 293) or of the byte offset `i * rows * cols * sizeof(float)` (line 301), because sizes are unbounded naturals here. In C# the offset of the third channel overflows once an image has 2^28 pixels or more, and the length once it has more than about 715 million.
- PostProcess.ThresholdByte: the cast `(int)(BoxThreshold * 255)` is modelled only for values within `int` range. For `|BoxThreshold|` of about 8.42e6 or more, unchecked C# leaves the result unspecified, and the model's exact truncation may differ from it. `Arith.TruncToInt` has the same range limit.
