/** The comparison methods the GUI offers and the result records the comparison
    detector returns. Each Python result dictionary becomes one constructor; the
    keys a dictionary holds are recovered by `Fields`, which is all that the
    metrics aggregator looks at. */
module ComparisonResults {
  import opened Grids
  import opened Outcomes

  datatype ComparisonMethod = DirectDifference | StatisticalChange | Correlation

  /** `str(method)`: the enum name with underscores as spaces, capitalized. */
  function ComparisonMethodName(m: ComparisonMethod): (s: string)
    ensures |s| > 0 && 'A' <= s[0] <= 'Z'
    ensures forall k | 1 <= k < |s| :: !('A' <= s[k] <= 'Z')
  {
    match m
    case DirectDifference => "Direct difference"
    case StatisticalChange => "Statistical change"
    case Correlation => "Correlation"
  }

  /** Distinct methods display distinctly. */
  lemma ComparisonMethodNameInjective(a: ComparisonMethod, b: ComparisonMethod)
    requires ComparisonMethodName(a) == ComparisonMethodName(b)
    ensures a == b
  {
  }

  datatype ComparisonResult =
    /** `compute_difference` */
    | DirectResult(difference: Grid, significantChanges: Mask, thresholdValue: real, isRelative: bool)
    /** `compute_gradient_preprocessed_difference` */
    | GradientResult(difference: Grid, significantChanges: Mask, masterGradient: Grid, slaveGradient: Grid,
                     thresholdValue: real, isRelative: bool, windowSize: nat)
    /** `compute_smoothed_difference` */
    | SmoothedResult(difference: Grid, significantChanges: Mask, smoothedMaster: Grid, smoothedSlave: Grid,
                     thresholdValue: real, isRelative: bool, windowSize: nat)
    /** `compute_statistical_significance` */
    | StatisticalResult(zscores: Grid, significantChanges: Mask, localMeans: Grid, localStds: Grid,
                        zscoreThreshold: real, windowSize: nat)
    /** `compute_spatial_correlation` */
    | CorrelationResult(correlationMap: Grid, lowCorrelationMask: Mask, correlationThreshold: real,
                        windowSize: nat)

  /** The keys of a result dictionary that `calculate_metrics` tests for, with their values. */
  datatype Fields = Fields(
    difference: Option<Grid>,
    zscores: Option<Grid>,
    correlationMap: Option<Grid>,
    significantChanges: Option<Mask>,
    lowCorrelationMask: Option<Mask>)

  function FieldsOf(r: ComparisonResult): (f: Fields)
    ensures f.difference.Some? <==> r.DirectResult? || r.GradientResult? || r.SmoothedResult?
    ensures f.zscores.Some? <==> r.StatisticalResult?
    ensures f.correlationMap.Some? <==> r.CorrelationResult?
    ensures f.significantChanges.Some? <==> !r.CorrelationResult?
    ensures f.lowCorrelationMask.Some? <==> r.CorrelationResult?
  {
    match r
    case DirectResult(d, m, _, _) => Fields(Some(d), None, None, Some(m), None)
    case GradientResult(d, m, _, _, _, _, _) => Fields(Some(d), None, None, Some(m), None)
    case SmoothedResult(d, m, _, _, _, _, _) => Fields(Some(d), None, None, Some(m), None)
    case StatisticalResult(z, m, _, _, _, _) => Fields(None, Some(z), None, Some(m), None)
    case CorrelationResult(c, m, _, _) => Fields(None, None, Some(c), None, Some(m))
  }
}
