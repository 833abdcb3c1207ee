# Thermal change and edge detection, modelled in Dafny

This project models the analysis engine of the thermal image tool. That engine is two
classes, each shipped in two byte-identical copies (`thermal_analyzer/…` and
`thermal_digger/…`):

- **`ThermalComparisonDetector`** compares a master (reference) frame with a slave (target)
  frame. It offers:
  - a direct difference, with an epsilon-guarded percentage mode;
  - gradient-preprocessed and Gaussian-smoothed differences;
  - a z-score test against the master's local statistics;
  - a per-pixel Pearson correlation over reflect-padded windows;
  - a metrics aggregator that dispatches on which keys a result holds.
- **`ThermalEdgeDetector`** detects edges in one frame. It smooths the frame when asked,
  resolves the default Canny thresholds, dispatches over five method names without regard
  to case, and thresholds the gradient magnitude. It then computes edge metrics: pixel
  count, density, contour lengths, and forward-difference gradients sampled along each
  contour.

Frames are rectangular `seq<seq<real>>`. The library filters (numpy, scipy.ndimage, skimage)
are function values inside a `Lib` record. The only facts assumed about them are stated by
`Library.Valid`:
- every filter returns an array of its input's shape;
- `sqrt` is non-negative and inverts squaring on non-negative numbers.

Errors the Python code raises become `Outcomes.Result` failures:
- a shape mismatch naming both shapes;
- an unsupported method name;
- numpy's refusal to reduce an empty array.

Module layout:

| file | module | models |
|---|---|---|
| grids.dfy | `Grids` | grids, shapes, flattening, sum / max / min / mean / count |
| library.dfy | `Library` | the library filters, `sqrt`, elementwise magnitude, direction and masks |
| outcomes.dfy | `Outcomes` | error kinds, `Result`, `Option` |
| comparison_results.dfy | `ComparisonResults` | `ComparisonMethod` and the five result dictionaries |
| gradient_kernel.dfy | `GradientKernel` | the ramped 1-D kernel of `_calculate_gradient_magnitude` |
| comparison_difference.dfy | `ComparisonDifference` | direct, gradient-preprocessed and smoothed differences |
| statistical_change.dfy | `StatisticalChange` | `compute_statistical_significance` |
| spatial_correlation.dfy | `SpatialCorrelation` | reflect padding, windows, Pearson guard, the pixel loops |
| comparison_metrics.dfy | `ComparisonMetrics` | `calculate_metrics` |
| edge_detector.dfy | `EdgeDetector` | `EdgeDetectionMethod` and `detect_edges` |
| edge_metrics.dfy | `EdgeMetrics` | `calculate_edge_metrics` |
| scenarios.dfy | `Scenarios` | two concrete 4x4 scenarios |

Some behaviours of the code are kept as written:

- **The z-score numerator.** It uses the master's local mean. So comparing a frame with
  itself does not give zero z-scores; only cells equal to their local mean do
  (`StatisticalChange.ZScoreSign`).
- **Canny smooths twice.** Canny receives the already-smoothed frame and `sigma` again.
- **Even kernel sizes.** For an even window wider than 3, the ramped kernel is not balanced
  (`GradientKernel.EvenKernelUnbalanced`). The window-size control of the comparison GUI only
  offers odd sizes, so the kernel lemmas are stated for odd sizes.

## Model

| member | source | states |
|---|---|---|
| ComparisonResults.ComparisonMethodName | thermal_analyzer/image_analysis/comparison_detector.py:17-19 | the displayed name is capitalized: an upper-case first letter and no upper-case letter after it |
| ComparisonResults.ComparisonMethodNameInjective | thermal_analyzer/image_analysis/comparison_detector.py:11-19 | distinct comparison methods display distinctly |
| ComparisonDifference.RelativeDivisor | thermal_analyzer/image_analysis/comparison_detector.py:56-60 | the percentage divisor is at least 1e-5 and at least \|master\|, and it is one of the two |
| ComparisonDifference.RelativeDivisorIgnoresSign | thermal_analyzer/image_analysis/comparison_detector.py:59-60 | the divisor depends only on the master cell's magnitude |
| ComparisonDifference.ComputeDifference | thermal_analyzer/image_analysis/comparison_detector.py:48-73 | fails exactly on a shape mismatch, naming both shapes; otherwise every cell is slave − master, or that over the guarded divisor times 100 in relative mode; the mask is exactly \|d\| > threshold; the parameters are echoed |
| ComparisonDifference.SelfDifferenceIsZero | thermal_analyzer/image_analysis/comparison_detector.py:53-66 | a frame compared with itself gives all zeros and, for a threshold ≥ 0, an all-false mask, in both modes |
| ComparisonDifference.DifferenceAntisymmetric | thermal_analyzer/image_analysis/comparison_detector.py:53-66 | in absolute mode, swapping master and slave negates every cell and keeps the mask |
| ComparisonDifference.RelativeDifferenceIsPercentage | thermal_analyzer/image_analysis/comparison_detector.py:56-60 | a slave p percent above every master cell (all above epsilon) reads exactly p in relative mode |
| ComparisonDifference.ThresholdMonotone | thermal_analyzer/image_analysis/comparison_detector.py:63-66 | raising the threshold only removes cells from the mask |
| ComparisonDifference.GradientMagnitude | thermal_digger/image_analysis/comparison_detector.py:353-391 | the gradient magnitude has the frame's shape and is non-negative |
| ComparisonDifference.SmallWindowsUseSobel | thermal_digger/image_analysis/comparison_detector.py:383-386 | every window size ≤ 3, 1 and 2 included, takes the Sobel path |
| ComparisonDifference.WideWindowsUseRampedKernel | thermal_digger/image_analysis/comparison_detector.py:365-381 | wider windows convolve both axes with the ramped kernel of their own size |
| GradientKernel.Kernel | thermal_digger/image_analysis/comparison_detector.py:372-377 | the kernel has one tap per window position |
| GradientKernel.KernelAntisymmetric | thermal_digger/image_analysis/comparison_detector.py:368-377 | for an odd window > 3, the centre tap is 0 and tap i is the negation of tap w−1−i |
| GradientKernel.KernelHalfSums | thermal_digger/image_analysis/comparison_detector.py:368-377 | for an odd window > 3, the negative half sums to exactly −1 and the positive half to +1 |
| GradientKernel.KernelSumsToZero | thermal_digger/image_analysis/comparison_detector.py:368-377 | for an odd window > 3, the taps sum to 0 |
| GradientKernel.EvenKernelUnbalanced | thermal_digger/image_analysis/comparison_detector.py:368-377 | the size-4 kernel is (−2/3, −1/3, 0, 1/3) and sums to −2/3 |
| ComparisonDifference.GradientPreprocessedDifference | thermal_digger/image_analysis/comparison_detector.py:96-124 | both frames' gradient magnitudes are kept; their difference follows the same relative rule and strict mask; the parameters are echoed; equal shapes are required because the code checks none |
| ComparisonDifference.SmoothingSigma | thermal_digger/image_analysis/comparison_detector.py:146 | sigma is window_size / 6 |
| ComparisonDifference.SmoothedDifference | thermal_digger/image_analysis/comparison_detector.py:145-174 | both frames are smoothed with sigma = w/6, then the same difference, relative rule and mask apply; the parameters are echoed |
| StatisticalChange.StdFloor | thermal_analyzer/image_analysis/comparison_detector.py:209-210 | the z-score divisor is at least 0.001 and at least the local std, and it is one of the two |
| StatisticalChange.LocalStds | thermal_analyzer/image_analysis/comparison_detector.py:199-206 | the local standard deviations have the frame's shape and are non-negative |
| StatisticalChange.StatisticalSignificance | thermal_analyzer/image_analysis/comparison_detector.py:194-225 | fails exactly on a shape mismatch; z × floored std = slave − master's local mean; significant ⇔ \|z\| > threshold; the unfloored stds are reported |
| StatisticalChange.StatisticsIgnoreSlave | thermal_digger/image_analysis/comparison_detector.py:198-206 | the reported local means and stds do not depend on the slave frame |
| StatisticalChange.ZScoreSign | thermal_analyzer/image_analysis/comparison_detector.py:212-216 | the z-score has the sign of slave − local mean; it is 0, and not significant, when they are equal |
| SpatialCorrelation.ReflectIndex | thermal_analyzer/image_analysis/comparison_detector.py:254-255 | the reflected index always lies inside the axis |
| SpatialCorrelation.Pad | thermal_analyzer/image_analysis/comparison_detector.py:254-255 | the padded frame is (rows + 2h) × (cols + 2h), and each cell reads the reflected source cell |
| SpatialCorrelation.ReflectPadding | thermal_analyzer/image_analysis/comparison_detector.py:254-255 | the frame sits in the middle; row/column −k reads k and n−1+k reads n−1−k, so the border is not repeated |
| SpatialCorrelation.WindowInsidePadded | thermal_analyzer/image_analysis/comparison_detector.py:258-262 | every pixel's w × w window lies inside the padded frame |
| SpatialCorrelation.Pearson | thermal_analyzer/image_analysis/comparison_detector.py:270-286 | below the 1e-10 denominator floor the correlation is 0; above it, r × denominator = the numerator |
| SpatialCorrelation.CorrelationMap | thermal_analyzer/image_analysis/comparison_detector.py:247-289 | the map has the frame's shape, and each cell is the guarded Pearson coefficient of that pixel's padded windows |
| SpatialCorrelation.CorrelationRow | thermal_analyzer/image_analysis/comparison_detector.py:259-289 | the inner loop fills one row with each pixel's correlation |
| SpatialCorrelation.CorrelationRows | thermal_analyzer/image_analysis/comparison_detector.py:258-289 | the outer loop fills every row |
| SpatialCorrelation.ComputeSpatialCorrelation | thermal_analyzer/image_analysis/comparison_detector.py:243-298 | fails exactly on a shape mismatch; otherwise the map equals the reference `CorrelationMap` and the low-correlation mask is exactly map < threshold |
| SpatialCorrelation.PearsonWithItself | thermal_digger/image_analysis/comparison_detector.py:271-286 | a window correlated with itself gives exactly 1 whenever the guard lets it through |
| SpatialCorrelation.PearsonOfConstantWindow | thermal_digger/image_analysis/comparison_detector.py:271-286 | a constant master window gives exactly 0, whatever the slave window is |
| SpatialCorrelation.SelfCorrelation | thermal_digger/image_analysis/comparison_detector.py:258-286 | correlating a frame with itself gives 1 where the guard passes and 0 where the window is constant |
| ComparisonMetrics.CountTrueIsMarkedCount | thermal_analyzer/image_analysis/comparison_detector.py:323 | the boolean sum equals the number of true positions |
| ComparisonMetrics.Std | thermal_analyzer/image_analysis/comparison_detector.py:317 | the population standard deviation is non-negative |
| ComparisonMetrics.StdOfConstant | thermal_analyzer/image_analysis/comparison_detector.py:316-317 | a constant array has mean equal to the constant and std 0 |
| ComparisonMetrics.Summarize | thermal_analyzer/image_analysis/comparison_detector.py:316-319 | min ≤ mean ≤ max; max and min are elements bounding every element; std ≥ 0 |
| ComparisonMetrics.DisjointCountsBounded | thermal_analyzer/image_analysis/comparison_detector.py:323-325 | two disjoint sub-masks together count no more than the mask |
| ComparisonMetrics.Signs | thermal_analyzer/image_analysis/comparison_detector.py:324-325 | the positive and negative counts are the sizes of the marked positive and negative index sets, and together at most the significant count |
| ComparisonMetrics.CalculateMetrics | thermal_analyzer/image_analysis/comparison_detector.py:301-351 | fails exactly when a present array is empty; each key group is present exactly when its source key is; significant_pixel_count is the mask's count; the positive/negative counts of differences and z-scores are the sizes of the marked positive and negative index sets (`SignsOf`), together at most that count; the summaries are those of the flattened arrays; mean_correlation is the mean and min_correlation the minimum of the map |
| ComparisonMetrics.SelfComparisonMetrics | thermal_digger/image_analysis/comparison_detector.py:311-325 | the metrics of a frame compared with itself are all 0, with no significant, positive or negative pixel |
| EdgeDetector.EdgeMethodName | thermal_analyzer/image_analysis/edge_detector.py:21-23 | the displayed name is an upper-case letter followed by lower-case letters |
| EdgeDetector.ParseEdgeMethod | thermal_analyzer/image_analysis/edge_detector.py:70-136 | an accepted name lowers to the chosen method's tag; a rejected one raises the unsupported-method error naming it as given |
| EdgeDetector.ParseIsCaseInsensitive | thermal_analyzer/image_analysis/edge_detector.py:70-136 | a name selects a method exactly when it lowers to that method's tag |
| EdgeDetector.NameRoundTrip | thermal_digger/image_analysis/edge_detector.py:13-23 | every method's displayed name parses back to that method |
| EdgeDetector.ResolveThresholds | thermal_analyzer/image_analysis/edge_detector.py:59-63 | explicit thresholds are kept; an unset low becomes 0.4 × threshold and an unset high becomes threshold |
| EdgeDetector.ResolveIdempotent | thermal_analyzer/image_analysis/edge_detector.py:59-63 | resolved thresholds, passed back in, are kept unchanged |
| EdgeDetector.DefaultThresholdsOrdered | thermal_analyzer/image_analysis/edge_detector.py:59-63 | for a threshold ≥ 0 the defaults satisfy 0 ≤ low ≤ high |
| EdgeDetector.Smooth | thermal_analyzer/image_analysis/edge_detector.py:54-57 | Gaussian smoothing applies exactly when sigma > 0; otherwise the raw frame is used |
| EdgeDetector.ComponentsOf | thermal_analyzer/image_analysis/edge_detector.py:70-133 | each method's two directional responses (Sobel and Canny: Sobel x and y; Prewitt, Scharr: horizontal and vertical; Roberts: the two diagonals), both of the frame's shape |
| EdgeDetector.DetectEdges | thermal_analyzer/image_analysis/edge_detector.py:53-138 | fails exactly on an unsupported name; magnitude and direction come from the method's two responses; magnitude ≥ 0; for Sobel, Prewitt, Roberts and Scharr, edges ⇔ magnitude > threshold; Canny's mask is the external detector's with the resolved thresholds |
| EdgeDetector.EdgesShrinkAsThresholdRises | thermal_analyzer/image_analysis/edge_detector.py:70-133 | for the thresholding methods, t1 ≤ t2 gives edges(t2) ⊆ edges(t1), and the magnitude and direction do not change |
| EdgeDetector.CannyIgnoresThresholdWhenExplicit | thermal_digger/image_analysis/edge_detector.py:59-95 | with both Canny thresholds given, `threshold` has no effect on the result |
| EdgeDetector.CannyGradientIsSobels | thermal_digger/image_analysis/edge_detector.py:54-95 | Canny reports Sobel's magnitude and direction; for sigma > 0 its mask is computed from the already-smoothed frame, with sigma passed again |
| EdgeDetector.ZeroResponseIsNoEdge | thermal_analyzer/image_analysis/edge_detector.py:70-133 | where both responses are 0, the magnitude is 0 and a threshold ≥ 0 marks no edge |
| EdgeMetrics.Trunc | thermal_analyzer/image_analysis/edge_detector.py:177 | `int()` truncates toward zero |
| EdgeMetrics.PointGradient | thermal_analyzer/image_analysis/edge_detector.py:177-185 | a sample exists exactly when 0 ≤ y < rows−1 and 0 ≤ x < cols−1; it reads only (y,x), (y+1,x) and (y,x+1) |
| EdgeMetrics.Samples | thermal_analyzer/image_analysis/edge_detector.py:170-188 | the in-bounds gradients of one contour, in visiting order: at most one per point, each ≥ 0 |
| EdgeMetrics.SamplesExistIff | thermal_analyzer/image_analysis/edge_detector.py:175-188 | a contour yields a sample exactly when one of its points is in bounds |
| EdgeMetrics.ContourGradient | thermal_analyzer/image_analysis/edge_detector.py:190-193 | a contour's mean gradient exists exactly when it has a sample, and lies between its samples' min and max |
| EdgeMetrics.ContourGradients | thermal_digger/image_analysis/edge_detector.py:164-193 | there are at most as many gradient entries as contours |
| EdgeMetrics.ContourGradientsNonNegative | thermal_digger/image_analysis/edge_detector.py:183-193 | every per-contour gradient is ≥ 0 |
| EdgeMetrics.ContourGradientsExistIff | thermal_digger/image_analysis/edge_detector.py:164-193 | some gradient entry exists exactly when some contour has a sample |
| EdgeMetrics.EdgeDensity | thermal_analyzer/image_analysis/edge_detector.py:152-154 | density exists exactly for a non-empty frame, and then density × size = 100 × count; it lies in [0, 100], is 0 exactly with no edges and 100 exactly when all pixels are edges |
| EdgeMetrics.TemperatureSummary | thermal_analyzer/image_analysis/edge_detector.py:204-210 | the temperature keys exist exactly when some contour had a sample; then the per-contour list is `ContourGradients`, max_temp_gradient is an entry bounding every entry, mean_temp_gradient × entries = their sum, and 0 ≤ mean ≤ max |
| EdgeMetrics.EdgeMetricsOf | thermal_analyzer/image_analysis/edge_detector.py:140-212 | count = the mask's true cells, ≤ size; density exists exactly for a non-empty frame, with density × size = 100 × count, in [0, 100]; num_contours = \|contour_lengths\|, each length is its contour's point count, total = Σ lengths; temperature keys exist exactly when thermal data is given and some contour had a sample, with max an entry bounding every entry and mean × entries = their sum |
| EdgeMetrics.SampleContour | thermal_analyzer/image_analysis/edge_detector.py:171-188 | the point loop's sum and count are those of the contour's in-bounds samples |
| EdgeMetrics.ContourLoop | thermal_analyzer/image_analysis/edge_detector.py:160-193 | the contour loop yields the lengths, their total and the per-contour gradients |
| EdgeMetrics.CalculateEdgeMetrics | thermal_analyzer/image_analysis/edge_detector.py:140-212 | the loop implementation equals the reference `EdgeMetricsOf` |
| EdgeMetrics.NoEdgesNoDensity | thermal_analyzer/image_analysis/edge_detector.py:152-154 | an edge-free mask has 0 edge pixels and density 0 |
| EdgeMetrics.OutOfBoundsContourHasNoGradient | thermal_digger/image_analysis/edge_detector.py:179-193 | a contour with no in-bounds point gives no gradient entry |
| EdgeMetrics.UniformFrameContourGradientZero | thermal_analyzer/image_analysis/edge_detector.py:183-193 | on a uniform-temperature frame every contour gradient is 0 |
| Scenarios.OneWarmPixel | thermal_analyzer/image_analysis/comparison_detector.py:32-73 | a 4x4 frame of 20.0 against one with a single 25.0 cell, threshold 1.0: exactly that cell is significant, max_diff = 5.0 and min_diff = 0.0 |
| Scenarios.MismatchedFrames | thermal_analyzer/image_analysis/comparison_detector.py:194-196 | a 4x4 master against a 3x3 slave fails with a shape mismatch naming (4,4) and (3,3) |

## Left out

- Rendering and the GUI are not modelled. This covers `create_edge_overlay`, matplotlib, thermal_plot.py and the Tk windows: they draw results and compute no analysis.
- File loading, configuration and the legacy `image_analysis_.py` prototype are not modelled. They sit outside the detectors.
- The library filters are uninterpreted. Only their shape preservation and the two square-root laws are assumed. Gaussian, uniform, Sobel, `convolve1d`, Prewitt, Scharr, Roberts, Canny, `find_contours` and `arctan2` are not re-derived.
- Floating point is not modelled. Arithmetic is over exact reals, so there is no rounding, NaN or infinity.
- The empty-array cases follow numpy's outcome in the model's own terms:
  - a reduction that numpy refuses is `EmptyReduction`;
  - a NaN density is an absent density.
- A grid with no rows has shape (0, 0) here. numpy can also represent shapes such as (0, 5).
- SpatialCorrelation.ComputeSpatialCorrelation: requires the padding to be narrower than the frame (`w // 2 < rows` and `< cols`, or no padding). numpy's reflect mode also handles wider pads by reflecting repeatedly, which is not modelled.
- SpatialCorrelation.Pearson: the bound −1 ≤ r ≤ 1 (Cauchy–Schwarz) is not proved.
- ComparisonMetrics.CalculateMetrics: requires a present mask to have the shape of the array it is combined with. numpy would broadcast some other shapes, and that broadcasting is not modelled.
- ComparisonDifference.GradientPreprocessedDifference: requires equal shapes. The code checks none; with unequal shapes numpy would fail while subtracting or broadcast.
- ComparisonDifference.SmoothedDifference: requires equal shapes, for the same reason.
- EdgeDetector.ParseEdgeMethod: lowers ASCII letters only. For the five method names, Python's full Unicode `lower()` accepts exactly the same strings.
- GradientKernel.KernelHalfSums: stated for odd window sizes only. An even size does not balance, as `EvenKernelUnbalanced` shows.
- The unused `weights` array of `_calculate_gradient_magnitude` is not modelled. It is computed but never read.
- Keyword defaults are not modelled. Every member takes threshold, window size, sigma and the Canny thresholds explicitly; an unset Canny threshold is the `None` of an `Option`.
- The `try`/`except` around each correlation cell is not modelled, because no modelled step raises there.
