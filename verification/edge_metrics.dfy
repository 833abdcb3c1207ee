/** `ThermalEdgeDetector.calculate_edge_metrics`: edge-pixel count and density,
    the contours of the edge mask with their lengths, and -- when a thermal frame
    is supplied -- the mean forward-difference gradient sampled along each contour.
    Contour points are truncated toward zero (`int()`) and sampled only where the
    2x2 neighbourhood lies inside the frame. */
module EdgeMetrics {
  import opened Grids
  import opened Library
  import opened Outcomes

  /** `int(x)`: truncation toward zero. */
  function Trunc(x: real): (n: int)
    ensures x >= 0.0 ==> 0 <= n && n as real <= x < n as real + 1.0
    ensures x < 0.0 ==> n <= 0 && n as real - 1.0 < x <= n as real
  {
    if x >= 0.0 then x.Floor else -((-x).Floor)
  }

  /** `0 <= y < rows - 1 and 0 <= x < cols - 1`: the cell, its lower and its right neighbour
      are all inside the frame. */
  predicate InBounds(t: Grid, y: int, x: int) {
    0 <= y < |t| - 1 && 0 <= x < Cols(t) - 1
  }

  /** The forward-difference gradient magnitude at a contour point, when it is in bounds. */
  function PointGradient(sqrt: real -> real, t: Grid, p: Point): (r: Option<real>)
    requires IsRect(t)
    ensures r.Some? <==> InBounds(t, Trunc(p.row), Trunc(p.col))
    ensures r.Some? ==>
      var y := Trunc(p.row);
      var x := Trunc(p.col);
      r.value == Root(sqrt, Square(t[y][x + 1] - t[y][x]) + Square(t[y + 1][x] - t[y][x]))
  {
    var y := Trunc(p.row);
    var x := Trunc(p.col);
    if InBounds(t, y, x) then
      var gy := t[y + 1][x] - t[y][x];
      var gx := t[y][x + 1] - t[y][x];
      Some(Root(sqrt, Square(gx) + Square(gy)))
    else None
  }

  /** The in-bounds samples of one contour, in the order the loop visits them. */
  function Samples(sqrt: real -> real, t: Grid, c: Contour): (r: seq<real>)
    requires IsRect(t)
    ensures |r| <= |c|
    ensures SqrtLaws(sqrt) ==> forall k | 0 <= k < |r| :: r[k] >= 0.0
  {
    if |c| == 0 then []
    else
      var g := PointGradient(sqrt, t, c[|c| - 1]);
      Samples(sqrt, t, c[..|c| - 1]) + (if g.Some? then [g.value] else [])
  }

  /** A contour yields a sample exactly when one of its points is in bounds. */
  lemma {:induction false} SamplesExistIff(sqrt: real -> real, t: Grid, c: Contour)
    requires IsRect(t)
    ensures |Samples(sqrt, t, c)| > 0 <==>
      exists k | 0 <= k < |c| :: InBounds(t, Trunc(c[k].row), Trunc(c[k].col))
  {
    if |c| > 0 {
      var init := c[..|c| - 1];
      SamplesExistIff(sqrt, t, init);
      if exists k | 0 <= k < |init| :: InBounds(t, Trunc(init[k].row), Trunc(init[k].col)) {
        var k :| 0 <= k < |init| && InBounds(t, Trunc(init[k].row), Trunc(init[k].col));
        assert c[k] == init[k];
      }
      if exists k | 0 <= k < |c| :: InBounds(t, Trunc(c[k].row), Trunc(c[k].col)) {
        var k :| 0 <= k < |c| && InBounds(t, Trunc(c[k].row), Trunc(c[k].col));
        if k < |c| - 1 {
          assert init[k] == c[k];
        }
      }
    }
  }

  /** The mean gradient along one contour, present only when it had an in-bounds sample. */
  function ContourGradient(sqrt: real -> real, t: Grid, c: Contour): (r: Option<real>)
    requires IsRect(t)
    ensures r.Some? <==> |Samples(sqrt, t, c)| > 0
    ensures r.Some? ==> Min(Samples(sqrt, t, c)) <= r.value <= Max(Samples(sqrt, t, c))
  {
    var s := Samples(sqrt, t, c);
    if |s| > 0 then
      MeanBetweenMinAndMax(s);
      Some(Mean(s))
    else None
  }

  /** `contour_temp_gradients`: one entry per contour that had an in-bounds sample. */
  function ContourGradients(sqrt: real -> real, t: Grid, cs: seq<Contour>): (r: seq<real>)
    requires IsRect(t)
    ensures |r| <= |cs|
  {
    if |cs| == 0 then []
    else
      var g := ContourGradient(sqrt, t, cs[|cs| - 1]);
      ContourGradients(sqrt, t, cs[..|cs| - 1]) + (if g.Some? then [g.value] else [])
  }

  /** Every per-contour gradient is non-negative. */
  lemma {:induction false} ContourGradientsNonNegative(sqrt: real -> real, t: Grid, cs: seq<Contour>)
    requires SqrtLaws(sqrt) && IsRect(t)
    ensures forall k | 0 <= k < |ContourGradients(sqrt, t, cs)| :: ContourGradients(sqrt, t, cs)[k] >= 0.0
  {
    if |cs| > 0 {
      ContourGradientsNonNegative(sqrt, t, cs[..|cs| - 1]);
      var s := Samples(sqrt, t, cs[|cs| - 1]);
      if |s| > 0 {
        MinIsLowerBound(s);
      }
    }
  }

  /** Some contour has a gradient entry exactly when some contour has an in-bounds point. */
  lemma {:induction false} ContourGradientsExistIff(sqrt: real -> real, t: Grid, cs: seq<Contour>)
    requires IsRect(t)
    ensures |ContourGradients(sqrt, t, cs)| > 0 <==>
      exists k | 0 <= k < |cs| :: |Samples(sqrt, t, cs[k])| > 0
  {
    if |cs| > 0 {
      var init := cs[..|cs| - 1];
      ContourGradientsExistIff(sqrt, t, init);
      if exists k | 0 <= k < |init| :: |Samples(sqrt, t, init[k])| > 0 {
        var k :| 0 <= k < |init| && |Samples(sqrt, t, init[k])| > 0;
        assert cs[k] == init[k];
      }
      if exists k | 0 <= k < |cs| :: |Samples(sqrt, t, cs[k])| > 0 {
        var k :| 0 <= k < |cs| && |Samples(sqrt, t, cs[k])| > 0;
        if k < |cs| - 1 {
          assert init[k] == cs[k];
        }
      }
    }
  }

  /** `d` is `count` as a percentage of `size`: d * size = 100 * count. */
  ghost predicate IsPercentage(d: real, count: nat, size: nat) {
    d * (size as real) == 100.0 * (count as real)
  }

  /** `edge_density = num_edge_pixels / total_pixels * 100`. A frame of no pixels has no
      density (numpy yields NaN). */
  function EdgeDensity(count: nat, size: nat): (d: Option<real>)
    ensures d.Some? <==> size > 0
    ensures d.Some? && count <= size ==> 0.0 <= d.value <= 100.0
    ensures d.Some? ==> (d.value == 0.0 <==> count == 0)
    ensures d.Some? ==> (d.value == 100.0 <==> count == size)
    ensures d.Some? ==> IsPercentage(d.value, count, size)
  {
    if size == 0 then None
    else
      var q := (count as real) / (size as real);
      DensityScale(count as real, size as real);
      Some(q * 100.0)
  }

  lemma DensityScale(c: real, n: real)
    requires n > 0.0 && c >= 0.0
    ensures (c / n) * n == c
    ensures (c / n) * 100.0 * n == 100.0 * c
    ensures c <= n ==> 0.0 <= c / n <= 1.0
    ensures (c / n == 0.0 <==> c == 0.0) && (c / n == 1.0 <==> c == n)
  {
    var q := c / n;
    DivideBounds(c, n, 0.0, if c <= n then 1.0 else q);
    assert q * 100.0 * n == 100.0 * (q * n);
  }

  /** The temperature-gradient keys, added only when there is something to summarise. */
  datatype TemperatureGradients = TemperatureGradients(mean: real, max: real, perContour: seq<real>)

  /** `mean_temp_gradient` and `max_temp_gradient` are `np.mean` and `np.max` of the
      per-contour gradients, all of which are non-negative. */
  ghost predicate SummarizesGradients(mean: real, max: real, grads: seq<real>) {
    && max in grads
    && (forall k | 0 <= k < |grads| :: 0.0 <= grads[k] <= max)
    && mean * (|grads| as real) == Sum(grads)
    && 0.0 <= mean <= max
  }

  function GradientSummary(grads: seq<real>): (r: TemperatureGradients)
    requires |grads| > 0 && forall k | 0 <= k < |grads| :: grads[k] >= 0.0
    ensures r.perContour == grads && SummarizesGradients(r.mean, r.max, r.perContour)
  {
    MeanFacts(grads);
    MaxIsUpperBound(grads);
    TemperatureGradients(Mean(grads), Max(grads), grads)
  }

  /** The mean of non-negative gradients is non-negative, at most their maximum, and times
      their number gives their sum. */
  lemma MeanFacts(grads: seq<real>)
    requires |grads| > 0 && forall k | 0 <= k < |grads| :: grads[k] >= 0.0
    ensures Mean(grads) * (|grads| as real) == Sum(grads)
    ensures 0.0 <= Mean(grads) <= Max(grads)
  {
    MeanTimesLength(grads);
    MinIsLowerBound(grads);
    MeanBetweenMinAndMax(grads);
  }

  /** The temperature-gradient keys for the given contours of a thermal frame. */
  function TemperatureSummary(sqrt: real -> real, t: Grid, cs: seq<Contour>): (r: Option<TemperatureGradients>)
    requires SqrtLaws(sqrt) && IsRect(t)
    ensures r.Some? <==> exists k | 0 <= k < |cs| :: |Samples(sqrt, t, cs[k])| > 0
    ensures r.Some? ==>
      && r.value.perContour == ContourGradients(sqrt, t, cs)
      && |r.value.perContour| <= |cs|
      && SummarizesGradients(r.value.mean, r.value.max, r.value.perContour)
  {
    var grads := ContourGradients(sqrt, t, cs);
    ContourGradientsExistIff(sqrt, t, cs);
    if |grads| == 0 then None
    else
      ContourGradientsNonNegative(sqrt, t, cs);
      Some(GradientSummary(grads))
  }

  /** The edge metrics dictionary. */
  datatype EdgeMetrics = EdgeMetrics(
    numEdgePixels: nat,
    edgeDensity: Option<real>,
    numContours: nat,
    totalEdgeLength: nat,
    contourLengths: seq<nat>,
    temperature: Option<TemperatureGradients>)

  function ContourLengths(cs: seq<Contour>): (r: seq<nat>)
    ensures |r| == |cs| && forall k | 0 <= k < |cs| :: r[k] == |cs[k]|
  {
    seq(|cs|, k requires 0 <= k < |cs| => |cs[k]|)
  }

  /** The contours `find_contours(edges.astype(float), 0.5)` traces. */
  function EdgeContours(lib: Lib, edges: Mask): seq<Contour> {
    lib.findContours(MaskAsGrid(edges), 0.5)
  }

  /** The reference definition of `calculate_edge_metrics`. */
  function EdgeMetricsOf(lib: Lib, edges: Mask, thermal: Option<Grid>): (m: EdgeMetrics)
    requires Valid(lib) && IsRect(edges) && (thermal.Some? ==> IsRect(thermal.value))
    ensures m.numEdgePixels == CountTrue(Flatten(edges))
    ensures m.numEdgePixels <= Size(edges)
    ensures m.edgeDensity.Some? <==> Size(edges) > 0
    ensures m.edgeDensity.Some? ==> 0.0 <= m.edgeDensity.value <= 100.0
    ensures m.edgeDensity.Some? ==>
      IsPercentage(m.edgeDensity.value, m.numEdgePixels, Size(edges))
    ensures m.numContours == |m.contourLengths| == |EdgeContours(lib, edges)|
    ensures m.totalEdgeLength == NatSum(m.contourLengths)
    ensures forall k | 0 <= k < |m.contourLengths| :: m.contourLengths[k] == |EdgeContours(lib, edges)[k]|
    ensures m.temperature.Some? <==>
      thermal.Some? && exists k | 0 <= k < |EdgeContours(lib, edges)| ::
        |Samples(lib.sqrt, thermal.value, EdgeContours(lib, edges)[k])| > 0
    ensures m.temperature.Some? ==>
      && m.temperature.value.perContour == ContourGradients(lib.sqrt, thermal.value, EdgeContours(lib, edges))
      && |m.temperature.value.perContour| <= m.numContours
      && SummarizesGradients(m.temperature.value.mean, m.temperature.value.max, m.temperature.value.perContour)
  {
    var cs := EdgeContours(lib, edges);
    var count := CountTrue(Flatten(edges));
    FlattenLength(edges);
    var lengths := ContourLengths(cs);
    var temperature := if thermal.Some? then TemperatureSummary(lib.sqrt, thermal.value, cs) else None;
    var size := Size(edges);
    EdgeMetrics(count, EdgeDensity(count, size), |cs|, NatSum(lengths), lengths, temperature)
  }

  /** One more point extends the samples by that point's gradient, if it has one. */
  lemma SamplesStep(sqrt: real -> real, t: Grid, c: Contour, i: nat)
    requires IsRect(t) && i < |c|
    ensures var g := PointGradient(sqrt, t, c[i]);
      Samples(sqrt, t, c[..i + 1]) == Samples(sqrt, t, c[..i]) + (if g.Some? then [g.value] else [])
  {
    assert c[..i + 1][..i] == c[..i];
    assert c[..i + 1][i] == c[i];
  }

  /** One more point adds its sample, if it has one, to the count and to the sum. */
  lemma SampleCountAndSum(sqrt: real -> real, t: Grid, c: Contour, i: nat)
    requires IsRect(t) && i < |c|
    ensures var g := PointGradient(sqrt, t, c[i]);
      && |Samples(sqrt, t, c[..i + 1])| == |Samples(sqrt, t, c[..i])| + (if g.Some? then 1 else 0)
      && Sum(Samples(sqrt, t, c[..i + 1])) == Sum(Samples(sqrt, t, c[..i])) + (if g.Some? then g.value else 0.0)
  {
    SamplesStep(sqrt, t, c, i);
    var g := PointGradient(sqrt, t, c[i]);
    if g.Some? {
      SumConcat(Samples(sqrt, t, c[..i]), [g.value]);
    } else {
      assert Samples(sqrt, t, c[..i]) + [] == Samples(sqrt, t, c[..i]);
    }
  }

  /** The sampling loop over one contour's points. */
  method SampleContour(sqrt: real -> real, t: Grid, c: Contour) returns (sum: real, count: nat)
    requires IsRect(t)
    ensures count == |Samples(sqrt, t, c)|
    ensures sum == Sum(Samples(sqrt, t, c))
  {
    sum, count := 0.0, 0;
    var i := 0;
    while i < |c|
      invariant 0 <= i <= |c|
      invariant count == |Samples(sqrt, t, c[..i])|
      invariant sum == Sum(Samples(sqrt, t, c[..i]))
    {
      SampleCountAndSum(sqrt, t, c, i);
      var g := PointGradient(sqrt, t, c[i]);
      if g.Some? {
        sum := sum + g.value;
        count := count + 1;
      }
      i := i + 1;
    }
    assert c[..|c|] == c;
  }

  /** The loop over contours: lengths, their total, and the per-contour mean gradients. */
  method ContourLoop(sqrt: real -> real, cs: seq<Contour>, thermal: Option<Grid>)
    returns (total: nat, lengths: seq<nat>, grads: seq<real>)
    requires thermal.Some? ==> IsRect(thermal.value)
    ensures lengths == ContourLengths(cs)
    ensures total == NatSum(lengths)
    ensures thermal.None? ==> grads == []
    ensures thermal.Some? ==> grads == ContourGradients(sqrt, thermal.value, cs)
  {
    total, lengths, grads := 0, [], [];
    var k := 0;
    while k < |cs|
      invariant 0 <= k <= |cs|
      invariant lengths == ContourLengths(cs[..k])
      invariant total == NatSum(lengths)
      invariant thermal.None? ==> grads == []
      invariant thermal.Some? ==> grads == ContourGradients(sqrt, thermal.value, cs[..k])
    {
      assert cs[..k + 1][..k] == cs[..k];
      assert cs[..k + 1][k] == cs[k];
      var c := cs[k];
      lengths := lengths + [|c|];
      total := total + |c|;
      if thermal.Some? {
        var sum, n := SampleContour(sqrt, thermal.value, c);
        if n > 0 {
          grads := grads + [sum / (n as real)];
        }
      }
      k := k + 1;
    }
    assert cs[..|cs|] == cs;
  }

  /** `calculate_edge_metrics`. */
  method CalculateEdgeMetrics(lib: Lib, edges: Mask, thermal: Option<Grid>) returns (m: EdgeMetrics)
    requires Valid(lib) && IsRect(edges) && (thermal.Some? ==> IsRect(thermal.value))
    ensures m == EdgeMetricsOf(lib, edges, thermal)
  {
    var count := CountTrue(Flatten(edges));
    var density := EdgeDensity(count, Size(edges));
    var cs := EdgeContours(lib, edges);
    var total, lengths, grads := ContourLoop(lib.sqrt, cs, thermal);
    var temperature := if thermal.Some? && |grads| > 0
                       then Some(TemperatureGradients(Mean(grads), Max(grads), grads)) else None;
    m := EdgeMetrics(count, density, |cs|, total, lengths, temperature);
  }

  // ---------------------------------------------------------------------------
  // Consequences

  /** An edge-free mask has no edge pixels and density 0. */
  lemma NoEdgesNoDensity(lib: Lib, edges: Mask, thermal: Option<Grid>)
    requires Valid(lib) && IsRect(edges) && (thermal.Some? ==> IsRect(thermal.value))
    requires Size(edges) > 0
    requires forall i, j | 0 <= i < |edges| && 0 <= j < |edges[i]| :: !edges[i][j]
    ensures EdgeMetricsOf(lib, edges, thermal).numEdgePixels == 0
    ensures EdgeMetricsOf(lib, edges, thermal).edgeDensity == Some(0.0)
  {
    AllFalseMaskCountsZero(edges);
  }

  /** A contour none of whose points is in bounds adds to the length totals but gives no
      gradient entry. */
  lemma OutOfBoundsContourHasNoGradient(sqrt: real -> real, t: Grid, c: Contour)
    requires IsRect(t)
    requires forall k | 0 <= k < |c| :: !InBounds(t, Trunc(c[k].row), Trunc(c[k].col))
    ensures ContourGradient(sqrt, t, c).None?
  {
    SamplesExistIff(sqrt, t, c);
  }

  /** Every sample of a uniform-temperature frame is 0, so every contour gradient is 0. */
  lemma {:induction false} UniformFrameSamplesZero(sqrt: real -> real, t: Grid, c: Contour)
    requires SqrtLaws(sqrt) && IsRect(t)
    requires forall i, j | 0 <= i < |t| && 0 <= j < |t[i]| :: t[i][j] == t[0][0]
    ensures forall k | 0 <= k < |Samples(sqrt, t, c)| :: Samples(sqrt, t, c)[k] == 0.0
  {
    if |c| > 0 {
      UniformFrameSamplesZero(sqrt, t, c[..|c| - 1]);
      SqrtOfZero(sqrt);
    }
  }

  lemma UniformFrameContourGradientZero(sqrt: real -> real, t: Grid, c: Contour)
    requires SqrtLaws(sqrt) && IsRect(t)
    requires forall i, j | 0 <= i < |t| && 0 <= j < |t[i]| :: t[i][j] == t[0][0]
    ensures ContourGradient(sqrt, t, c).Some? ==> ContourGradient(sqrt, t, c).value == 0.0
  {
    var s := Samples(sqrt, t, c);
    UniformFrameSamplesZero(sqrt, t, c);
    if |s| > 0 {
      MaxIsUpperBound(s);
      MinIsLowerBound(s);
    }
  }
}
