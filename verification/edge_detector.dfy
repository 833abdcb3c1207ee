/** `ThermalEdgeDetector.detect_edges`: optional Gaussian smoothing, the default
    Canny thresholds, a case-insensitive dispatch over five method names, and the
    `magnitude > threshold` mask every gradient method shares. Canny's mask comes
    from the external detector alone; its magnitude and direction are Sobel's. */
module EdgeDetector {
  import opened Grids
  import opened Library
  import opened Outcomes

  datatype EdgeMethod = Sobel | Canny | Prewitt | Roberts | Scharr

  /** `str(method)`: the enum name, capitalized. */
  function EdgeMethodName(m: EdgeMethod): (s: string)
    ensures |s| > 0 && 'A' <= s[0] <= 'Z'
    ensures forall k | 1 <= k < |s| :: 'a' <= s[k] <= 'z'
  {
    match m
    case Sobel => "Sobel"
    case Canny => "Canny"
    case Prewitt => "Prewitt"
    case Roberts => "Roberts"
    case Scharr => "Scharr"
  }

  /** The tag `detect_edges` compares `method.lower()` against. */
  function Tag(m: EdgeMethod): (s: string)
    ensures forall k | 0 <= k < |s| :: 'a' <= s[k] <= 'z'
  {
    match m
    case Sobel => "sobel"
    case Canny => "canny"
    case Prewitt => "prewitt"
    case Roberts => "roberts"
    case Scharr => "scharr"
  }

  function LowerChar(c: char): (d: char)
    ensures 'A' <= c <= 'Z' ==> 'a' <= d <= 'z' && d as int - c as int == 32
    ensures !('A' <= c <= 'Z') ==> d == c
  {
    if 'A' <= c <= 'Z' then (c as int + 32) as char else c
  }

  /** `str.lower()` on the ASCII letters; every other character is kept. */
  function Lower(s: string): (r: string)
    ensures |r| == |s|
    ensures forall k | 0 <= k < |s| :: r[k] == LowerChar(s[k])
  {
    seq(|s|, k requires 0 <= k < |s| => LowerChar(s[k]))
  }

  /** The dispatch of `detect_edges`: the method whose tag the lowered name equals, or the
      `ValueError` naming the name as given. */
  function ParseEdgeMethod(name: string): (r: Result<EdgeMethod>)
    ensures r.Success? ==> Tag(r.value) == Lower(name)
    ensures r.Failure? ==> r.error == UnsupportedMethod(name)
  {
    var l := Lower(name);
    if l == "sobel" then Success(Sobel)
    else if l == "canny" then Success(Canny)
    else if l == "prewitt" then Success(Prewitt)
    else if l == "roberts" then Success(Roberts)
    else if l == "scharr" then Success(Scharr)
    else Failure(UnsupportedMethod(name))
  }

  lemma TagsDistinct(a: EdgeMethod, b: EdgeMethod)
    requires Tag(a) == Tag(b)
    ensures a == b
  {
  }

  /** A name is accepted exactly when it lowers to one of the five tags: the dispatch is
      case-insensitive and closed. */
  lemma ParseIsCaseInsensitive(name: string, m: EdgeMethod)
    ensures ParseEdgeMethod(name) == Success(m) <==> Lower(name) == Tag(m)
  {
    if Lower(name) == Tag(m) {
      var r := ParseEdgeMethod(name);
      if r.Success? {
        TagsDistinct(r.value, m);
      }
    }
  }

  /** The displayed name of every method parses back to that method. */
  lemma NameRoundTrip(m: EdgeMethod)
    ensures ParseEdgeMethod(EdgeMethodName(m)) == Success(m)
  {
    ParseIsCaseInsensitive(EdgeMethodName(m), m);
    assert Lower(EdgeMethodName(m)) == Tag(m);
  }

  /** The low and high hysteresis thresholds handed to Canny. */
  datatype CannyThresholds = CannyThresholds(low: real, high: real)

  /** An unset low threshold becomes `0.4 * threshold`, an unset high one `threshold`. */
  function ResolveThresholds(threshold: real, low: Option<real>, high: Option<real>): (r: CannyThresholds)
    ensures low.Some? ==> r.low == low.value
    ensures low.None? ==> r.low * 5.0 == threshold * 2.0
    ensures high.Some? ==> r.high == high.value
    ensures high.None? ==> r.high == threshold
  {
    CannyThresholds(if low.Some? then low.value else 0.4 * threshold,
                    if high.Some? then high.value else threshold)
  }

  /** Resolving twice changes nothing: the resolved values, passed back in, are kept. */
  lemma ResolveIdempotent(threshold: real, low: Option<real>, high: Option<real>, other: real)
    ensures var r := ResolveThresholds(threshold, low, high);
      ResolveThresholds(other, Some(r.low), Some(r.high)) == r
  {
  }

  /** With a non-negative threshold the defaults are ordered: 0 <= low <= high. */
  lemma DefaultThresholdsOrdered(threshold: real)
    requires threshold >= 0.0
    ensures var r := ResolveThresholds(threshold, None, None);
      0.0 <= r.low <= r.high
  {
  }

  /** `gaussian_filter(data, sigma)` when `sigma > 0`, the raw frame otherwise. */
  function Smooth(lib: Lib, data: Grid, sigma: real): (r: Grid)
    requires Valid(lib)
    ensures SameShape(r, data)
    ensures sigma <= 0.0 ==> r == data
    ensures sigma > 0.0 ==> r == lib.gaussian(data, sigma)
  {
    if sigma > 0.0 then lib.gaussian(data, sigma) else data
  }

  /** The two directional responses a method combines: (x, y) for Sobel, Canny, Prewitt
      and Scharr, and the (positive, negative) diagonals for Roberts. */
  datatype Components = Components(first: Grid, second: Grid)

  function ComponentsOf(lib: Lib, m: EdgeMethod, s: Grid): (c: Components)
    requires Valid(lib)
    ensures SameShape(c.first, s) && SameShape(c.second, s)
  {
    match m
    case Sobel => Components(lib.sobel(s, 1), lib.sobel(s, 0))
    case Canny => Components(lib.sobel(s, 1), lib.sobel(s, 0))
    case Prewitt => Components(lib.prewittH(s), lib.prewittV(s))
    case Roberts => Components(lib.robertsPos(s), lib.robertsNeg(s))
    case Scharr => Components(lib.scharrH(s), lib.scharrV(s))
  }

  /** `(edges, gradient_magnitude, edge_directions)`. */
  datatype EdgeResult = EdgeResult(edges: Mask, gradientMagnitude: Grid, edgeDirections: Grid)

  /** The response of one method to an already-smoothed frame: the magnitude and
      direction of its two components, and the mask. */
  function Respond(lib: Lib, m: EdgeMethod, s: Grid, threshold: real, sigma: real,
                   t: CannyThresholds): (r: EdgeResult)
    requires Valid(lib)
    ensures var c := ComponentsOf(lib, m, s);
      && SameShape(r.edges, s)
      && SameShape(r.gradientMagnitude, s)
      && SameShape(r.edgeDirections, s)
      && (forall i, j | 0 <= i < |s| && 0 <= j < |s[i]| ::
            && r.gradientMagnitude[i][j] == Root(lib.sqrt, Square(c.first[i][j]) + Square(c.second[i][j]))
            && r.gradientMagnitude[i][j] >= 0.0
            && r.edgeDirections[i][j] == lib.atan2(c.second[i][j], c.first[i][j]))
      && (m != Canny ==>
            forall i, j | 0 <= i < |s| && 0 <= j < |s[i]| ::
              r.edges[i][j] <==> r.gradientMagnitude[i][j] > threshold)
      && (m == Canny ==> r.edges == lib.canny(s, sigma, t.low, t.high))
  {
    var c := ComponentsOf(lib, m, s);
    var mag := Magnitude(lib.sqrt, c.first, c.second);
    var dir := Directions(lib.atan2, c.first, c.second);
    var edges := if m == Canny then lib.canny(s, sigma, t.low, t.high) else Exceeds(mag, threshold);
    EdgeResult(edges, mag, dir)
  }

  /** `detect_edges`. */
  function DetectEdges(lib: Lib, data: Grid, name: string, threshold: real, sigma: real,
                       low: Option<real>, high: Option<real>): (r: Result<EdgeResult>)
    requires Valid(lib)
    ensures r.Failure? <==> ParseEdgeMethod(name).Failure?
    ensures r.Failure? ==> r.error == UnsupportedMethod(name)
    ensures r.Success? ==>
      var m := ParseEdgeMethod(name).value;
      var s := Smooth(lib, data, sigma);
      var c := ComponentsOf(lib, m, s);
      && SameShape(r.value.edges, data)
      && SameShape(r.value.gradientMagnitude, data)
      && SameShape(r.value.edgeDirections, data)
      && (forall i, j | 0 <= i < |data| && 0 <= j < |data[i]| ::
            && r.value.gradientMagnitude[i][j] == Root(lib.sqrt, Square(c.first[i][j]) + Square(c.second[i][j]))
            && r.value.gradientMagnitude[i][j] >= 0.0
            && r.value.edgeDirections[i][j] == lib.atan2(c.second[i][j], c.first[i][j]))
      && (m != Canny ==>
            forall i, j | 0 <= i < |data| && 0 <= j < |data[i]| ::
              r.value.edges[i][j] <==> r.value.gradientMagnitude[i][j] > threshold)
      && (m == Canny ==>
            var t := ResolveThresholds(threshold, low, high);
            r.value.edges == lib.canny(s, sigma, t.low, t.high))
  {
    var m :- ParseEdgeMethod(name);
    var s := Smooth(lib, data, sigma);
    Success(Respond(lib, m, s, threshold, sigma, ResolveThresholds(threshold, low, high)))
  }

  /** For the thresholding methods a higher threshold keeps a subset of the edges, and the
      magnitude and direction do not depend on the threshold at all. */
  lemma EdgesShrinkAsThresholdRises(lib: Lib, data: Grid, name: string, t1: real, t2: real, sigma: real,
                                    low: Option<real>, high: Option<real>, i: nat, j: nat)
    requires Valid(lib) && t1 <= t2
    requires ParseEdgeMethod(name).Success? && ParseEdgeMethod(name).value != Canny
    requires i < |data| && j < |data[i]|
    ensures var r1 := DetectEdges(lib, data, name, t1, sigma, low, high).value;
            var r2 := DetectEdges(lib, data, name, t2, sigma, low, high).value;
      && (r2.edges[i][j] ==> r1.edges[i][j])
      && r1.gradientMagnitude == r2.gradientMagnitude
      && r1.edgeDirections == r2.edgeDirections
  {
  }

  /** With both Canny thresholds given explicitly, the `threshold` argument has no effect on
      Canny's result. */
  lemma CannyIgnoresThresholdWhenExplicit(lib: Lib, data: Grid, name: string, t1: real, t2: real,
                                          sigma: real, low: real, high: real)
    requires Valid(lib) && ParseEdgeMethod(name) == Success(Canny)
    ensures DetectEdges(lib, data, name, t1, sigma, Some(low), Some(high))
         == DetectEdges(lib, data, name, t2, sigma, Some(low), Some(high))
  {
  }

  /** Canny reports Sobel's magnitude and direction; its mask is the external detector's,
      fed the already-smoothed frame and `sigma` once more. */
  lemma CannyGradientIsSobels(lib: Lib, data: Grid, threshold: real, sigma: real,
                              low: Option<real>, high: Option<real>)
    requires Valid(lib)
    ensures var c := DetectEdges(lib, data, "canny", threshold, sigma, low, high);
            var s := DetectEdges(lib, data, "sobel", threshold, sigma, low, high);
            var t := ResolveThresholds(threshold, low, high);
      && c.Success? && s.Success?
      && c.value.gradientMagnitude == s.value.gradientMagnitude
      && c.value.edgeDirections == s.value.edgeDirections
      && (sigma > 0.0 ==>
            c.value.edges == lib.canny(lib.gaussian(data, sigma), sigma, t.low, t.high))
  {
    assert Lower("canny") == "canny";
    assert Lower("sobel") == "sobel";
  }

  /** Where both directional responses vanish the magnitude is 0, so no thresholding method
      marks the cell for a non-negative threshold. */
  lemma ZeroResponseIsNoEdge(lib: Lib, data: Grid, name: string, threshold: real, sigma: real,
                             low: Option<real>, high: Option<real>, i: nat, j: nat)
    requires Valid(lib) && threshold >= 0.0
    requires ParseEdgeMethod(name).Success? && ParseEdgeMethod(name).value != Canny
    requires i < |data| && j < |data[i]|
    requires var c := ComponentsOf(lib, ParseEdgeMethod(name).value, Smooth(lib, data, sigma));
      c.first[i][j] == 0.0 && c.second[i][j] == 0.0
    ensures var r := DetectEdges(lib, data, name, threshold, sigma, low, high).value;
      r.gradientMagnitude[i][j] == 0.0 && !r.edges[i][j]
  {
    var c := ComponentsOf(lib, ParseEdgeMethod(name).value, Smooth(lib, data, sigma));
    MagnitudeOfZero(lib.sqrt, c.first, c.second, i, j);
  }
}
