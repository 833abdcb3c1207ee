/** The difference family of `ThermalComparisonDetector`: the direct
    master/slave difference, the difference of gradient magnitudes, and the
    difference of Gaussian-smoothed frames. All three share one policy:
    `slave - master`, optionally turned into a percentage of `|master|` with an
    epsilon-guarded divisor, and a strict `|difference| > threshold` mask. */
module ComparisonDifference {
  import opened Grids
  import opened Library
  import opened Outcomes
  import opened ComparisonResults
  import GradientKernel

  /** The smallest divisor the relative mode ever uses. */
  const RelativeEpsilon: real := 0.00001

  /** `abs(np.where(abs(master) > epsilon, master, epsilon))`: the larger of `|master|` and epsilon. */
  function RelativeDivisor(m: real): (d: real)
    ensures d >= RelativeEpsilon && d >= Abs(m)
    ensures d == Abs(m) || d == RelativeEpsilon
  {
    if Abs(m) > RelativeEpsilon then Abs(m) else RelativeEpsilon
  }

  /** The divisor discards the master's sign. */
  lemma RelativeDivisorIgnoresSign(m: real)
    ensures RelativeDivisor(-m) == RelativeDivisor(m)
  {
  }

  function DifferenceCell(m: real, s: real, relative: bool): real {
    if relative then (s - m) / RelativeDivisor(m) * 100.0 else s - m
  }

  function DifferenceGrid(master: Grid, slave: Grid, relative: bool): (r: Grid)
    requires SameShape(master, slave)
    ensures SameShape(r, master)
  {
    seq(|master|, i requires 0 <= i < |master| =>
      seq(|master[i]|, j requires 0 <= j < |master[i]| => DifferenceCell(master[i][j], slave[i][j], relative)))
  }

  /** The shared difference policy, cell by cell: `d` is the (relative) difference of `s` against
      `m`, and `mask` marks exactly the cells whose absolute difference exceeds `t`. */
  ghost predicate DifferencePolicy(m: Grid, s: Grid, t: real, relative: bool, d: Grid, mask: Mask) {
    && SameShape(m, s) && SameShape(d, m) && SameShape(mask, m)
    && (forall i, j | 0 <= i < |d| && 0 <= j < |d[i]| ::
          d[i][j] == if relative then (s[i][j] - m[i][j]) / RelativeDivisor(m[i][j]) * 100.0
                     else s[i][j] - m[i][j])
    && (forall i, j | 0 <= i < |mask| && 0 <= j < |mask[i]| :: mask[i][j] <==> Abs(d[i][j]) > t)
  }

  lemma DifferencePolicyHolds(m: Grid, s: Grid, t: real, relative: bool)
    requires SameShape(m, s)
    ensures DifferencePolicy(m, s, t, relative, DifferenceGrid(m, s, relative),
                             AbsExceeds(DifferenceGrid(m, s, relative), t))
  {
  }

  /** `compute_difference`. */
  function ComputeDifference(master: Grid, slave: Grid, threshold: real, relative: bool): (r: Result<ComparisonResult>)
    requires IsRect(master) && IsRect(slave)
    ensures r.Failure? <==> ShapeOf(master) != ShapeOf(slave)
    ensures r.Failure? ==> r.error == ShapeMismatch(ShapeOf(master), ShapeOf(slave))
    ensures r.Success? ==>
      && r.value.DirectResult?
      && r.value.thresholdValue == threshold && r.value.isRelative == relative
      && DifferencePolicy(master, slave, threshold, relative, r.value.difference, r.value.significantChanges)
  {
    if ShapeOf(master) != ShapeOf(slave) then
      Failure(ShapeMismatch(ShapeOf(master), ShapeOf(slave)))
    else
      EqualShapesMatch(master, slave);
      var d := DifferenceGrid(master, slave, relative);
      DifferencePolicyHolds(master, slave, threshold, relative);
      Success(DirectResult(d, AbsExceeds(d, threshold), threshold, relative))
  }

  /** Comparing a frame with itself gives an all-zero difference and, for a
      non-negative threshold, no significant cell -- in both modes. */
  lemma SelfDifferenceIsZero(a: Grid, threshold: real, relative: bool)
    requires IsRect(a) && threshold >= 0.0
    ensures ComputeDifference(a, a, threshold, relative).Success?
    ensures var r := ComputeDifference(a, a, threshold, relative).value;
      && (forall i, j | 0 <= i < |r.difference| && 0 <= j < |r.difference[i]| :: r.difference[i][j] == 0.0)
      && (forall i, j | 0 <= i < |r.significantChanges| && 0 <= j < |r.significantChanges[i]| ::
            !r.significantChanges[i][j])
  {
    var r := ComputeDifference(a, a, threshold, relative).value;
    assert DifferencePolicy(a, a, threshold, relative, r.difference, r.significantChanges);
  }

  /** In absolute mode, swapping master and slave negates every cell and keeps the mask. */
  lemma DifferenceAntisymmetric(a: Grid, b: Grid, threshold: real)
    requires IsRect(a) && IsRect(b) && ShapeOf(a) == ShapeOf(b)
    ensures ComputeDifference(a, b, threshold, false).Success?
    ensures ComputeDifference(b, a, threshold, false).Success?
    ensures var ab := ComputeDifference(a, b, threshold, false).value;
            var ba := ComputeDifference(b, a, threshold, false).value;
      && SameShape(ab.difference, ba.difference)
      && (forall i, j | 0 <= i < |ab.difference| && 0 <= j < |ab.difference[i]| ::
            ba.difference[i][j] == -ab.difference[i][j])
      && ab.significantChanges == ba.significantChanges
  {
    var ab := ComputeDifference(a, b, threshold, false).value;
    var ba := ComputeDifference(b, a, threshold, false).value;
    assert DifferencePolicy(a, b, threshold, false, ab.difference, ab.significantChanges);
    assert DifferencePolicy(b, a, threshold, false, ba.difference, ba.significantChanges);
    var m1 := ab.significantChanges;
    var m2 := ba.significantChanges;
    assert |m1| == |m2|;
    forall i | 0 <= i < |m1| ensures m1[i] == m2[i] {
      assert |m1[i]| == |m2[i]|;
      forall j | 0 <= j < |m1[i]| ensures m1[i][j] == m2[i][j] {
        assert Abs(ab.difference[i][j]) == Abs(ba.difference[i][j]);
      }
    }
  }

  /** Relative mode yields the percentage change: a slave `p` percent above a master cell
      that is above epsilon reads exactly `p`. */
  lemma RelativeDifferenceIsPercentage(a: Grid, p: real, threshold: real)
    requires IsRect(a)
    requires forall i, j | 0 <= i < |a| && 0 <= j < |a[i]| :: a[i][j] > RelativeEpsilon
    ensures var b := seq(|a|, i requires 0 <= i < |a| =>
                       seq(|a[i]|, j requires 0 <= j < |a[i]| => a[i][j] * (1.0 + p / 100.0)));
      && ComputeDifference(a, b, threshold, true).Success?
      && var d := ComputeDifference(a, b, threshold, true).value.difference;
         forall i, j | 0 <= i < |d| && 0 <= j < |d[i]| :: d[i][j] == p
  {
    var b := seq(|a|, i requires 0 <= i < |a| =>
               seq(|a[i]|, j requires 0 <= j < |a[i]| => a[i][j] * (1.0 + p / 100.0)));
    assert IsRect(b) && ShapeOf(a) == ShapeOf(b);
    var r := ComputeDifference(a, b, threshold, true).value;
    assert DifferencePolicy(a, b, threshold, true, r.difference, r.significantChanges);
    forall i, j | 0 <= i < |r.difference| && 0 <= j < |r.difference[i]| ensures r.difference[i][j] == p {
      var m := a[i][j];
      assert RelativeDivisor(m) == m;
      assert b[i][j] - m == m * (p / 100.0);
      assert (m * (p / 100.0)) / m == p / 100.0;
    }
  }

  /** Raising the threshold can only remove cells from the mask. */
  lemma ThresholdMonotone(d: Grid, t1: real, t2: real)
    requires t1 <= t2
    ensures forall i, j | 0 <= i < |d| && 0 <= j < |d[i]| ::
      AbsExceeds(d, t2)[i][j] ==> AbsExceeds(d, t1)[i][j]
  {
  }

  // ---------------------------------------------------------------------------
  // Gradient pre-processing

  /** `_calculate_gradient_magnitude`: the ramped kernel along both axes when the window
      is wider than 3, Sobel otherwise; the magnitude of the two responses. */
  function GradientMagnitude(lib: Lib, data: Grid, w: nat): (r: Grid)
    requires Valid(lib)
    ensures SameShape(r, data)
    ensures forall i, j | 0 <= i < |r| && 0 <= j < |r[i]| :: r[i][j] >= 0.0
  {
    var gx := if w > 3 then lib.convolve1d(data, GradientKernel.Kernel(w), 1) else lib.sobel(data, 1);
    var gy := if w > 3 then lib.convolve1d(data, GradientKernel.Kernel(w), 0) else lib.sobel(data, 0);
    Magnitude(lib.sqrt, gx, gy)
  }

  /** Every window of at most 3 -- 1 and 2 included -- takes the Sobel path. */
  lemma SmallWindowsUseSobel(lib: Lib, data: Grid, w: nat)
    requires Valid(lib) && w <= 3
    ensures GradientMagnitude(lib, data, w) == Magnitude(lib.sqrt, lib.sobel(data, 1), lib.sobel(data, 0))
  {
  }

  /** Wider windows convolve with the ramped kernel of their own size. */
  lemma WideWindowsUseRampedKernel(lib: Lib, data: Grid, w: nat)
    requires Valid(lib) && w > 3
    ensures GradientMagnitude(lib, data, w)
         == Magnitude(lib.sqrt, lib.convolve1d(data, GradientKernel.Kernel(w), 1),
                                lib.convolve1d(data, GradientKernel.Kernel(w), 0))
  {
  }

  /** `compute_gradient_preprocessed_difference`. The source checks no shapes here, so
      equal shapes are the caller's obligation. */
  function GradientPreprocessedDifference(lib: Lib, master: Grid, slave: Grid, w: nat, threshold: real,
                                          relative: bool): (r: ComparisonResult)
    requires Valid(lib) && SameShape(master, slave)
    ensures r.GradientResult?
    ensures r.masterGradient == GradientMagnitude(lib, master, w)
    ensures r.slaveGradient == GradientMagnitude(lib, slave, w)
    ensures SameShape(r.masterGradient, master)
    ensures DifferencePolicy(r.masterGradient, r.slaveGradient, threshold, relative, r.difference,
                             r.significantChanges)
    ensures r.thresholdValue == threshold && r.isRelative == relative && r.windowSize == w
  {
    var mg := GradientMagnitude(lib, master, w);
    var sg := GradientMagnitude(lib, slave, w);
    var d := DifferenceGrid(mg, sg, relative);
    DifferencePolicyHolds(mg, sg, threshold, relative);
    GradientResult(d, AbsExceeds(d, threshold), mg, sg, threshold, relative, w)
  }

  // ---------------------------------------------------------------------------
  // Smoothing pre-processing

  /** `sigma = window_size / 6.0`. */
  function SmoothingSigma(w: nat): (sigma: real)
    ensures sigma >= 0.0 && sigma * 6.0 == w as real
  {
    w as real / 6.0
  }

  /** `compute_smoothed_difference`. No shape check here either. */
  function SmoothedDifference(lib: Lib, master: Grid, slave: Grid, w: nat, threshold: real,
                              relative: bool): (r: ComparisonResult)
    requires Valid(lib) && SameShape(master, slave)
    ensures r.SmoothedResult?
    ensures r.smoothedMaster == lib.gaussian(master, SmoothingSigma(w))
    ensures r.smoothedSlave == lib.gaussian(slave, SmoothingSigma(w))
    ensures SameShape(r.smoothedMaster, master)
    ensures DifferencePolicy(r.smoothedMaster, r.smoothedSlave, threshold, relative, r.difference,
                             r.significantChanges)
    ensures r.thresholdValue == threshold && r.isRelative == relative && r.windowSize == w
  {
    var sigma := SmoothingSigma(w);
    var sm := lib.gaussian(master, sigma);
    var ss := lib.gaussian(slave, sigma);
    var d := DifferenceGrid(sm, ss, relative);
    DifferencePolicyHolds(sm, ss, threshold, relative);
    SmoothedResult(d, AbsExceeds(d, threshold), sm, ss, threshold, relative, w)
  }
}
