/** The numerical primitives the detectors borrow from numpy, scipy.ndimage and
    skimage. They are not re-derived: each is an uninterpreted function value,
    and `Valid` states the only facts the detectors rely on -- every filter
    returns an array of its input's shape, and the square root is non-negative
    and inverts squaring on non-negative numbers. */
module Library {
  import opened Grids

  /** A sub-pixel contour point (row, column), as skimage's `find_contours` yields it. */
  datatype Point = Point(row: real, col: real)

  type Contour = seq<Point>

  datatype Lib = Lib(
    sqrt: real -> real,                          // np.sqrt
    atan2: (real, real) -> real,                 // np.arctan2(y, x)
    gaussian: (Grid, real) -> Grid,              // ndimage.gaussian_filter(data, sigma)
    uniform: (Grid, nat) -> Grid,                // ndimage.uniform_filter(data, size)
    sobel: (Grid, nat) -> Grid,                  // ndimage.sobel(data, axis, mode='reflect')
    convolve1d: (Grid, seq<real>, nat) -> Grid,  // ndimage.convolve1d(data, weights, axis, mode='reflect')
    prewittH: Grid -> Grid,                      // filters.prewitt_h
    prewittV: Grid -> Grid,                      // filters.prewitt_v
    scharrH: Grid -> Grid,                       // filters.scharr_h
    scharrV: Grid -> Grid,                       // filters.scharr_v
    robertsPos: Grid -> Grid,                    // filters.roberts_pos_diag
    robertsNeg: Grid -> Grid,                    // filters.roberts_neg_diag
    canny: (Grid, real, real, real) -> Mask,     // feature.canny(data, sigma, low, high)
    findContours: (Grid, real) -> seq<Contour>   // measure.find_contours(data, level)
  )

  function Square(x: real): real {
    x * x
  }

  /** `np.sqrt(x)` for a given square-root function. */
  function Root(sqrt: real -> real, x: real): real {
    sqrt(x)
  }

  ghost predicate SqrtLaws(sqrt: real -> real) {
    && (forall x :: Root(sqrt, x) >= 0.0)
    && (forall x :: x >= 0.0 ==> Root(sqrt, Square(x)) == x)
  }

  ghost predicate Valid(lib: Lib) {
    && SqrtLaws(lib.sqrt)
    && (forall g, s :: SameShape(lib.gaussian(g, s), g))
    && (forall g, n :: SameShape(lib.uniform(g, n), g))
    && (forall g, axis :: SameShape(lib.sobel(g, axis), g))
    && (forall g, k, axis :: SameShape(lib.convolve1d(g, k, axis), g))
    && (forall g :: SameShape(lib.prewittH(g), g))
    && (forall g :: SameShape(lib.prewittV(g), g))
    && (forall g :: SameShape(lib.scharrH(g), g))
    && (forall g :: SameShape(lib.scharrV(g), g))
    && (forall g :: SameShape(lib.robertsPos(g), g))
    && (forall g :: SameShape(lib.robertsNeg(g), g))
    && (forall g, s, lo, hi :: SameShape(lib.canny(g, s, lo, hi), g))
  }

  lemma SqrtOfZero(sqrt: real -> real)
    requires SqrtLaws(sqrt)
    ensures Root(sqrt, 0.0) == 0.0
  {
    assert Square(0.0) == 0.0;
  }

  /** Elementwise `sqrt(a**2 + b**2)`: the gradient magnitude of two directional responses. */
  function Magnitude(sqrt: real -> real, a: Grid, b: Grid): (r: Grid)
    requires SameShape(a, b)
    ensures SameShape(r, a)
    ensures forall i, j | 0 <= i < |r| && 0 <= j < |r[i]| ::
      r[i][j] == Root(sqrt, Square(a[i][j]) + Square(b[i][j]))
    ensures SqrtLaws(sqrt) ==> forall i, j | 0 <= i < |r| && 0 <= j < |r[i]| :: r[i][j] >= 0.0
  {
    seq(|a|, i requires 0 <= i < |a| =>
      seq(|a[i]|, j requires 0 <= j < |a[i]| => Root(sqrt, Square(a[i][j]) + Square(b[i][j]))))
  }

  /** Two zero responses have zero magnitude. */
  lemma MagnitudeOfZero(sqrt: real -> real, a: Grid, b: Grid, i: nat, j: nat)
    requires SqrtLaws(sqrt) && SameShape(a, b)
    requires i < |a| && j < |a[i]| && a[i][j] == 0.0 && b[i][j] == 0.0
    ensures Magnitude(sqrt, a, b)[i][j] == 0.0
  {
    SqrtOfZero(sqrt);
  }

  /** Elementwise `arctan2(b, a)`: the direction of the response pair (a, b). */
  function Directions(atan2: (real, real) -> real, a: Grid, b: Grid): (r: Grid)
    requires SameShape(a, b)
    ensures SameShape(r, a)
    ensures forall i, j | 0 <= i < |r| && 0 <= j < |r[i]| :: r[i][j] == atan2(b[i][j], a[i][j])
  {
    seq(|a|, i requires 0 <= i < |a| =>
      seq(|a[i]|, j requires 0 <= j < |a[i]| => atan2(b[i][j], a[i][j])))
  }

  /** Elementwise `g > t`. */
  function Exceeds(g: Grid, t: real): (r: Mask)
    ensures SameShape(r, g)
    ensures forall i, j | 0 <= i < |r| && 0 <= j < |r[i]| :: r[i][j] <==> g[i][j] > t
  {
    seq(|g|, i requires 0 <= i < |g| => seq(|g[i]|, j requires 0 <= j < |g[i]| => g[i][j] > t))
  }

  /** Elementwise `abs(g) > t`. */
  function AbsExceeds(g: Grid, t: real): (r: Mask)
    ensures SameShape(r, g)
    ensures forall i, j | 0 <= i < |r| && 0 <= j < |r[i]| :: r[i][j] <==> Abs(g[i][j]) > t
  {
    seq(|g|, i requires 0 <= i < |g| => seq(|g[i]|, j requires 0 <= j < |g[i]| => Abs(g[i][j]) > t))
  }

  /** Elementwise `g < t`. */
  function Below(g: Grid, t: real): (r: Mask)
    ensures SameShape(r, g)
    ensures forall i, j | 0 <= i < |r| && 0 <= j < |r[i]| :: r[i][j] <==> g[i][j] < t
  {
    seq(|g|, i requires 0 <= i < |g| => seq(|g[i]|, j requires 0 <= j < |g[i]| => g[i][j] < t))
  }

  /** `edges.astype(float)`: true becomes 1.0 and false 0.0. */
  function MaskAsGrid(m: Mask): (r: Grid)
    ensures SameShape(r, m)
    ensures forall i, j | 0 <= i < |r| && 0 <= j < |r[i]| :: r[i][j] == if m[i][j] then 1.0 else 0.0
  {
    seq(|m|, i requires 0 <= i < |m| =>
      seq(|m[i]|, j requires 0 <= j < |m[i]| => if m[i][j] then 1.0 else 0.0))
  }
}
