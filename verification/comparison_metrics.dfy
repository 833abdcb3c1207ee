/** `calculate_metrics`: the summary statistics of a comparison result. Each key
    group appears exactly when the result holds the array it summarises; numpy's
    refusal to take the extremum of an empty array is the one error. */
module ComparisonMetrics {
  import opened Grids
  import opened Library
  import opened Outcomes
  import opened ComparisonResults
  import opened ComparisonDifference

  /** `np.mean`, `np.std`, `np.max` and `np.min` of one array. */
  datatype Summary = Summary(mean: real, std: real, max: real, min: real)

  /** How many significant pixels moved up, and how many moved down. */
  datatype SignCounts = SignCounts(positive: nat, negative: nat)

  /** The metrics dictionary, one field per key group. */
  datatype Metrics = Metrics(
    difference: Option<Summary>,           // mean_diff, std_diff, max_diff, min_diff
    differenceSigns: Option<SignCounts>,   // positive_changes, negative_changes
    zscore: Option<Summary>,               // mean_zscore, std_zscore, max_zscore, min_zscore
    zscoreSigns: Option<SignCounts>,       // positive_significant, negative_significant
    significantPixelCount: Option<nat>,    // significant_pixel_count
    meanCorrelation: Option<real>,         // mean_correlation
    minCorrelation: Option<real>,          // min_correlation
    lowCorrelationCount: Option<nat>)      // low_correlation_count

  /** Number of positions whose index lies in the set: the independent count of marked pixels. */
  function Marked(bs: seq<bool>): set<nat> {
    set k: nat | k < |bs| && bs[k]
  }

  /** `np.sum` of a boolean array counts exactly its true positions. */
  lemma {:induction false} CountTrueIsMarkedCount(bs: seq<bool>)
    ensures CountTrue(bs) == |Marked(bs)|
  {
    if |bs| > 0 {
      var init := bs[..|bs| - 1];
      var n := |bs| - 1;
      CountTrueIsMarkedCount(init);
      if bs[n] {
        assert Marked(bs) == Marked(init) + {n};
        assert n !in Marked(init);
      } else {
        assert Marked(bs) == Marked(init);
      }
    }
  }

  /** Population standard deviation (`np.std`, ddof = 0). */
  function Std(sqrt: real -> real, xs: seq<real>): (s: real)
    ensures SqrtLaws(sqrt) ==> s >= 0.0
  {
    Root(sqrt, Mean(SquaredGaps(xs)))
  }

  /** `(x - mean) ** 2` for every element. */
  function SquaredGaps(xs: seq<real>): (r: seq<real>)
    ensures |r| == |xs|
    ensures forall k | 0 <= k < |xs| :: r[k] == Square(xs[k] - Mean(xs))
  {
    seq(|xs|, k requires 0 <= k < |xs| => Square(xs[k] - Mean(xs)))
  }

  /** A constant sequence has standard deviation 0. */
  lemma StdOfConstant(sqrt: real -> real, xs: seq<real>, c: real)
    requires SqrtLaws(sqrt) && |xs| > 0
    requires forall k | 0 <= k < |xs| :: xs[k] == c
    ensures Mean(xs) == c
    ensures Std(sqrt, xs) == 0.0
  {
    var n := |xs| as real;
    SumOfConstant(xs, c);
    assert Mean(xs) == (n * c) / n;
    assert Mean(xs) == c;
    var gaps := SquaredGaps(xs);
    assert forall k | 0 <= k < |gaps| :: gaps[k] == 0.0 by {
      forall k | 0 <= k < |gaps| ensures gaps[k] == 0.0 {
        assert gaps[k] == Square(c - c);
      }
    }
    SumOfConstant(gaps, 0.0);
    assert Mean(gaps) == 0.0;
    SqrtOfZero(sqrt);
  }

  function Summarize(sqrt: real -> real, xs: seq<real>): (s: Summary)
    requires |xs| > 0
    ensures s.min <= s.mean <= s.max
    ensures s.max in xs && s.min in xs
    ensures forall k | 0 <= k < |xs| :: s.min <= xs[k] <= s.max
    ensures SqrtLaws(sqrt) ==> s.std >= 0.0
  {
    MeanBetweenMinAndMax(xs);
    MaxIsUpperBound(xs);
    MinIsLowerBound(xs);
    Summary(Mean(xs), Std(sqrt, xs), Max(xs), Min(xs))
  }

  /** `(data > 0) & mask` and `(data < 0) & mask`, flattened. */
  function Rising(xs: seq<real>, ms: seq<bool>): (r: seq<bool>)
    requires |xs| == |ms|
    ensures |r| == |xs|
    ensures forall k | 0 <= k < |r| :: r[k] <==> xs[k] > 0.0 && ms[k]
  {
    seq(|xs|, k requires 0 <= k < |xs| => xs[k] > 0.0 && ms[k])
  }

  function Falling(xs: seq<real>, ms: seq<bool>): (r: seq<bool>)
    requires |xs| == |ms|
    ensures |r| == |xs|
    ensures forall k | 0 <= k < |r| :: r[k] <==> xs[k] < 0.0 && ms[k]
  {
    seq(|xs|, k requires 0 <= k < |xs| => xs[k] < 0.0 && ms[k])
  }

  /** Two disjoint sub-masks of a mask together count no more than the mask. */
  lemma {:induction false} DisjointCountsBounded(p: seq<bool>, q: seq<bool>, m: seq<bool>)
    requires |p| == |q| == |m|
    requires forall k | 0 <= k < |m| :: (p[k] ==> m[k]) && (q[k] ==> m[k]) && !(p[k] && q[k])
    ensures CountTrue(p) + CountTrue(q) <= CountTrue(m)
  {
    if |m| > 0 {
      var n := |m| - 1;
      DisjointCountsBounded(p[..n], q[..n], m[..n]);
    }
  }

  /** The positive and negative counts of the significant pixels. */
  function Signs(xs: seq<real>, ms: seq<bool>): (c: SignCounts)
    requires |xs| == |ms|
    ensures c.positive == |set k: nat | k < |xs| && xs[k] > 0.0 && ms[k]|
    ensures c.negative == |set k: nat | k < |xs| && xs[k] < 0.0 && ms[k]|
    ensures c.positive + c.negative <= CountTrue(ms)
  {
    var up := Rising(xs, ms);
    var down := Falling(xs, ms);
    CountTrueIsMarkedCount(up);
    CountTrueIsMarkedCount(down);
    assert Marked(up) == set k: nat | k < |xs| && xs[k] > 0.0 && ms[k];
    assert Marked(down) == set k: nat | k < |xs| && xs[k] < 0.0 && ms[k];
    DisjointCountsBounded(up, down, ms);
    SignCounts(CountTrue(up), CountTrue(down))
  }

  /** The array `calculate_metrics` sums over must be non-empty for `np.max`/`np.min`. */
  predicate Reducible(g: Option<Grid>) {
    g.None? || |Flatten(g.value)| > 0
  }

  /** A present mask has the shape of the array it is combined with; numpy would reject
      (or broadcast) anything else. */
  ghost predicate Compatible(f: Fields) {
    && (f.difference.Some? && f.significantChanges.Some? ==>
          SameShape(f.difference.value, f.significantChanges.value))
    && (f.zscores.Some? && f.significantChanges.Some? ==>
          SameShape(f.zscores.value, f.significantChanges.value))
  }

  /** The sign counts of a grid's cells under a mask of its shape, over their flattenings. */
  function SignsOf(g: Grid, m: Mask): (c: SignCounts)
    requires SameShape(g, m)
    ensures |Flatten(g)| == |Flatten(m)|
    ensures c.positive == |set k: nat | k < |Flatten(g)| && Flatten(g)[k] > 0.0 && Flatten(m)[k]|
    ensures c.negative == |set k: nat | k < |Flatten(g)| && Flatten(g)[k] < 0.0 && Flatten(m)[k]|
    ensures c.positive + c.negative <= CountTrue(Flatten(m))
  {
    FlattenSameLength(g, m);
    Signs(Flatten(g), Flatten(m))
  }

  /** `mean/std/max/min` of an array, when the result holds it. */
  function SummaryOf(sqrt: real -> real, g: Option<Grid>): (r: Option<Summary>)
    requires Reducible(g)
    ensures r.Some? <==> g.Some?
    ensures r.Some? ==> r.value == Summarize(sqrt, Flatten(g.value))
  {
    if g.Some? then Some(Summarize(sqrt, Flatten(g.value))) else None
  }

  /** The positive and negative counts of an array under the significance mask, when the
      result holds both. */
  function SignsIfPresent(g: Option<Grid>, mask: Option<Mask>): (r: Option<SignCounts>)
    requires g.Some? && mask.Some? ==> SameShape(g.value, mask.value)
    ensures r.Some? <==> g.Some? && mask.Some?
    ensures r.Some? ==>
      && r.value == SignsOf(g.value, mask.value)
      && r.value.positive + r.value.negative <= CountTrue(Flatten(mask.value))
  {
    if g.Some? && mask.Some? then Some(SignsOf(g.value, mask.value)) else None
  }

  /** `np.sum` of a mask, when the result holds it. */
  function CountIfPresent(mask: Option<Mask>): (r: Option<nat>)
    ensures r.Some? <==> mask.Some?
    ensures r.Some? ==> r.value == CountTrue(Flatten(mask.value))
  {
    if mask.Some? then Some(CountTrue(Flatten(mask.value))) else None
  }

  /** `np.mean` of the correlation map: between its minimum and maximum. */
  function MeanCorrelation(c: seq<real>): (r: real)
    requires |c| > 0
    ensures r == Mean(c) && Min(c) <= r <= Max(c)
  {
    MeanBetweenMinAndMax(c);
    Mean(c)
  }

  /** `np.min` of the correlation map: an entry bounding every entry from below. */
  function MinCorrelation(c: seq<real>): (r: real)
    requires |c| > 0
    ensures r == Min(c) && r in c && forall k | 0 <= k < |c| :: r <= c[k]
  {
    MinIsLowerBound(c);
    Min(c)
  }

  /** `calculate_metrics`. */
  function CalculateMetrics(sqrt: real -> real, f: Fields): (r: Result<Metrics>)
    requires Compatible(f)
    ensures r.Failure? <==>
      !Reducible(f.difference) || !Reducible(f.zscores) || !Reducible(f.correlationMap)
    ensures r.Failure? ==> r.error == EmptyReduction
    ensures r.Success? ==>
      var m := r.value;
      && (m.difference.Some? <==> f.difference.Some?)
      && (m.zscore.Some? <==> f.zscores.Some?)
      && (m.meanCorrelation.Some? <==> f.correlationMap.Some?)
      && (m.minCorrelation.Some? <==> f.correlationMap.Some?)
      && (m.differenceSigns.Some? <==> f.difference.Some? && f.significantChanges.Some?)
      && (m.zscoreSigns.Some? <==> f.zscores.Some? && f.significantChanges.Some?)
      && (m.significantPixelCount.Some? <==>
            f.significantChanges.Some? && (f.difference.Some? || f.zscores.Some?))
      && (m.lowCorrelationCount.Some? <==> f.correlationMap.Some? && f.lowCorrelationMask.Some?)
      && (m.significantPixelCount.Some? ==>
            m.significantPixelCount.value == CountTrue(Flatten(f.significantChanges.value)))
      && (m.differenceSigns.Some? ==>
            && m.differenceSigns.value == SignsOf(f.difference.value, f.significantChanges.value)
            && m.differenceSigns.value.positive + m.differenceSigns.value.negative
                 <= m.significantPixelCount.value)
      && (m.zscoreSigns.Some? ==>
            && m.zscoreSigns.value == SignsOf(f.zscores.value, f.significantChanges.value)
            && m.zscoreSigns.value.positive + m.zscoreSigns.value.negative
                 <= m.significantPixelCount.value)
      && (m.lowCorrelationCount.Some? ==>
            m.lowCorrelationCount.value == CountTrue(Flatten(f.lowCorrelationMask.value)))
      && (m.difference.Some? ==> m.difference.value == Summarize(sqrt, Flatten(f.difference.value)))
      && (m.zscore.Some? ==> m.zscore.value == Summarize(sqrt, Flatten(f.zscores.value)))
      && (m.meanCorrelation.Some? ==>
            var c := Flatten(f.correlationMap.value);
            && m.meanCorrelation.value == Mean(c)
            && Min(c) <= m.meanCorrelation.value <= Max(c)
            && m.minCorrelation.value == Min(c)
            && m.minCorrelation.value in c
            && (forall k | 0 <= k < |c| :: m.minCorrelation.value <= c[k]))
  {
    if !Reducible(f.difference) || !Reducible(f.zscores) || !Reducible(f.correlationMap) then
      Failure(EmptyReduction)
    else
      var sig := if f.difference.Some? || f.zscores.Some? then CountIfPresent(f.significantChanges) else None;
      var corr := if f.correlationMap.Some? then Some(Flatten(f.correlationMap.value)) else None;
      Success(Metrics(
        SummaryOf(sqrt, f.difference), SignsIfPresent(f.difference, f.significantChanges),
        SummaryOf(sqrt, f.zscores), SignsIfPresent(f.zscores, f.significantChanges),
        sig,
        if corr.Some? then Some(MeanCorrelation(corr.value)) else None,
        if corr.Some? then Some(MinCorrelation(corr.value)) else None,
        if corr.Some? then CountIfPresent(f.lowCorrelationMask) else None))
  }

  /** Every entry of a grid's flattening is zero when every cell is. */
  lemma ZeroGridFlattensToZeros(g: Grid)
    requires forall i, j | 0 <= i < |g| && 0 <= j < |g[i]| :: g[i][j] == 0.0
    ensures forall k | 0 <= k < |Flatten(g)| :: Flatten(g)[k] == 0.0
  {
    forall k | 0 <= k < |Flatten(g)| ensures Flatten(g)[k] == 0.0 {
      FlattenElementIsCell(g, Flatten(g)[k]);
    }
  }

  /** The metrics of comparing a non-empty frame with itself: every difference statistic
      is 0 and no pixel counts as changed. */
  lemma SelfComparisonMetrics(sqrt: real -> real, a: Grid, threshold: real, relative: bool)
    requires SqrtLaws(sqrt) && IsRect(a) && |a| > 0 && Cols(a) > 0 && threshold >= 0.0
    ensures ComputeDifference(a, a, threshold, relative).Success?
    ensures var r := ComputeDifference(a, a, threshold, relative).value;
            var m := CalculateMetrics(sqrt, FieldsOf(r));
      && m.Success?
      && m.value.difference == Some(Summary(0.0, 0.0, 0.0, 0.0))
      && m.value.significantPixelCount == Some(0)
      && m.value.differenceSigns == Some(SignCounts(0, 0))
      && m.value.zscore.None? && m.value.meanCorrelation.None?
  {
    SelfDifferenceIsZero(a, threshold, relative);
    var r := ComputeDifference(a, a, threshold, relative).value;
    var d := r.difference;
    assert DifferencePolicy(a, a, threshold, relative, d, r.significantChanges);
    var xs := Flatten(d);
    FlattenHasCell(d, 0, 0);
    ZeroGridFlattensToZeros(d);
    AllFalseMaskCountsZero(r.significantChanges);
    StdOfConstant(sqrt, xs, 0.0);
    var s := Summarize(sqrt, xs);
    assert s == Summary(0.0, 0.0, 0.0, 0.0);
  }
}
