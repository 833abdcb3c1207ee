/** `compute_spatial_correlation`: for every pixel, the Pearson correlation of
    the master's and the slave's window around it, taken from copies of both
    frames padded by numpy's `reflect` mode (the border cell is not repeated).
    A window pair whose denominator falls below 1e-10 correlates as exactly 0. */
module SpatialCorrelation {
  import opened Grids
  import opened Library
  import opened Outcomes
  import opened ComparisonResults

  /** Below this denominator a cell's correlation is defined as 0. */
  const DenominatorFloor: real := 0.0000000001

  /** Reflect padding by `w // 2` bounces once off each border: the pad is narrower than
      the frame, or there is no pad at all. */
  ghost predicate PadFits<T>(g: seq<seq<T>>, w: nat) {
    Half(w) == 0 || (Half(w) < |g| && Half(w) < Cols(g))
  }

  /** numpy's `reflect` index map for one axis of length `n`: index `-k` reads `k`, index
      `n - 1 + k` reads `n - 1 - k`, and the border index itself is not repeated. */
  function ReflectIndex(k: int, n: nat): (r: nat)
    requires n >= 1 && -(n - 1) <= k <= 2 * n - 2
    ensures r < n
  {
    if k < 0 then -k else if k >= n then 2 * (n - 1) - k else k
  }

  /** `np.pad(g, h, mode='reflect')`. */
  function Pad(g: Grid, h: nat): (p: Grid)
    requires IsRect(g) && (h == 0 || (h < |g| && h < Cols(g)))
    ensures |p| == |g| + 2 * h
    ensures forall a | 0 <= a < |p| :: |p[a]| == Cols(g) + 2 * h
    ensures forall a, b | 0 <= a < |p| && 0 <= b < |p[a]| ::
      p[a][b] == g[ReflectIndex(a - h, |g|)][ReflectIndex(b - h, Cols(g))]
  {
    var n := |g|;
    var c := Cols(g);
    seq(n + 2 * h, a requires 0 <= a < n + 2 * h =>
      seq(c + 2 * h, b requires 0 <= b < c + 2 * h =>
        g[ReflectIndex(a - h, n)][ReflectIndex(b - h, c)]))
  }

  /** The padded frame holds the frame in its middle, and mirrors it around the borders
      without repeating the border row or column. */
  lemma ReflectPadding(g: Grid, h: nat, i: nat, j: nat, k: nat)
    requires IsRect(g) && (h == 0 || (h < |g| && h < Cols(g)))
    requires i < |g| && j < Cols(g) && 1 <= k <= h
    ensures Pad(g, h)[i + h][j + h] == g[i][j]
    ensures Pad(g, h)[h - k][j + h] == g[k][j]
    ensures Pad(g, h)[h + |g| - 1 + k][j + h] == g[|g| - 1 - k][j]
    ensures Pad(g, h)[i + h][h - k] == g[i][k]
    ensures Pad(g, h)[i + h][h + Cols(g) - 1 + k] == g[i][Cols(g) - 1 - k]
  {
  }

  /** Every window `padded[i..i+w][j..j+w]` of an output pixel lies inside the padded frame. */
  lemma WindowInsidePadded(g: Grid, w: nat, i: nat, j: nat)
    requires IsRect(g) && PadFits(g, w) && i < |g| && j < Cols(g)
    ensures var p := Pad(g, Half(w));
      && |p| == |g| + 2 * Half(w)
      && i + w <= |p|
      && forall a | i <= a < i + w :: j + w <= |p[a]| == Cols(g) + 2 * Half(w)
  {
  }

  /** `padded[i:i+w, j:j+w].flatten()`. */
  function Window(p: Grid, i: nat, j: nat, w: nat): (xs: seq<real>)
    requires i + w <= |p| && forall a | i <= a < i + w :: j + w <= |p[a]|
  {
    Flatten(seq(w, a requires 0 <= a < w => p[i + a][j..j + w]))
  }

  /** `x - np.mean(x)`. */
  function Deviations(xs: seq<real>): (d: seq<real>)
    ensures |d| == |xs|
  {
    var m := Mean(xs);
    seq(|xs|, k requires 0 <= k < |xs| => xs[k] - m)
  }

  /** `np.sum(a * b)`. */
  function Dot(a: seq<real>, b: seq<real>): real
    requires |a| == |b|
  {
    Sum(seq(|a|, k requires 0 <= k < |a| => a[k] * b[k]))
  }

  /** `np.sum(dx**2)` for `dx = x - np.mean(x)`. */
  function SquaredSpread(xs: seq<real>): real {
    Dot(Deviations(xs), Deviations(xs))
  }

  /** `np.sqrt(np.sum(dx**2) * np.sum(dy**2))`. */
  function Denominator(sqrt: real -> real, xs: seq<real>, ys: seq<real>): real {
    Root(sqrt, SquaredSpread(xs) * SquaredSpread(ys))
  }

  /** Division by a non-zero real, undone by multiplying back. */
  function Quotient(s: real, d: real): (q: real)
    requires d != 0.0
    ensures q * d == s
  {
    s / d
  }

  /** The Pearson coefficient of two flattened windows with the denominator guard. */
  function Pearson(sqrt: real -> real, xs: seq<real>, ys: seq<real>): (r: real)
    requires |xs| == |ys|
    ensures Denominator(sqrt, xs, ys) < DenominatorFloor ==> r == 0.0
    ensures Denominator(sqrt, xs, ys) >= DenominatorFloor ==>
      r * Denominator(sqrt, xs, ys) == Dot(Deviations(xs), Deviations(ys))
  {
    var den := Denominator(sqrt, xs, ys);
    if den < DenominatorFloor then 0.0 else Quotient(Dot(Deviations(xs), Deviations(ys)), den)
  }

  function CorrelationCell(sqrt: real -> real, mp: Grid, sp: Grid, i: nat, j: nat, w: nat): real
    requires i + w <= |mp| && forall a | i <= a < i + w :: j + w <= |mp[a]|
    requires i + w <= |sp| && forall a | i <= a < i + w :: j + w <= |sp[a]|
  {
    FlattenLength(seq(w, a requires 0 <= a < w => mp[i + a][j..j + w]));
    FlattenLength(seq(w, a requires 0 <= a < w => sp[i + a][j..j + w]));
    Pearson(sqrt, Window(mp, i, j, w), Window(sp, i, j, w))
  }

  /** The reference definition: the correlation of every pixel's padded windows. */
  function CorrelationMap(sqrt: real -> real, master: Grid, slave: Grid, w: nat): (r: Grid)
    requires IsRect(master) && SameShape(master, slave) && PadFits(master, w)
    ensures SameShape(r, master)
    ensures forall i, j | 0 <= i < |r| && 0 <= j < |r[i]| ::
      r[i][j] == CorrelationCell(sqrt, Pad(master, Half(w)), Pad(slave, Half(w)), i, j, w)
  {
    var h := Half(w);
    var mp := Pad(master, h);
    var sp := Pad(slave, h);
    seq(|master|, i requires 0 <= i < |master| =>
      seq(Cols(master), j requires 0 <= j < Cols(master) => CorrelationCell(sqrt, mp, sp, i, j, w)))
  }

  /** The inner loop of `compute_spatial_correlation`: one output row. */
  method CorrelationRow(sqrt: real -> real, mp: Grid, sp: Grid, i: nat, cols: nat, w: nat)
    returns (row: seq<real>)
    requires i + w <= |mp| && forall a | i <= a < i + w :: cols - 1 + w <= |mp[a]|
    requires i + w <= |sp| && forall a | i <= a < i + w :: cols - 1 + w <= |sp[a]|
    ensures |row| == cols
    ensures forall b | 0 <= b < cols :: row[b] == CorrelationCell(sqrt, mp, sp, i, b, w)
  {
    row := [];
    var j := 0;
    while j < cols
      invariant 0 <= j <= cols
      invariant |row| == j
      invariant forall b | 0 <= b < j :: row[b] == CorrelationCell(sqrt, mp, sp, i, b, w)
    {
      row := row + [CorrelationCell(sqrt, mp, sp, i, j, w)];
      j := j + 1;
    }
  }

  /** The outer loop of `compute_spatial_correlation`: one row after the other. */
  method CorrelationRows(sqrt: real -> real, mp: Grid, sp: Grid, rows: nat, cols: nat, w: nat)
    returns (corr: Grid)
    requires rows - 1 + w <= |mp| && forall a | 0 <= a < rows - 1 + w :: cols - 1 + w <= |mp[a]|
    requires rows - 1 + w <= |sp| && forall a | 0 <= a < rows - 1 + w :: cols - 1 + w <= |sp[a]|
    ensures |corr| == rows
    ensures forall a | 0 <= a < rows :: |corr[a]| == cols
    ensures forall a, b | 0 <= a < rows && 0 <= b < cols ::
      corr[a][b] == CorrelationCell(sqrt, mp, sp, a, b, w)
  {
    corr := [];
    var i := 0;
    while i < rows
      invariant 0 <= i <= rows
      invariant |corr| == i
      invariant forall a | 0 <= a < i :: |corr[a]| == cols
      invariant forall a, b | 0 <= a < i && 0 <= b < cols ::
        corr[a][b] == CorrelationCell(sqrt, mp, sp, a, b, w)
    {
      var row := CorrelationRow(sqrt, mp, sp, i, cols, w);
      corr := corr + [row];
      i := i + 1;
    }
  }

  /** `compute_spatial_correlation`: pad both frames, then correlate every pixel's windows. */
  method ComputeSpatialCorrelation(lib: Lib, master: Grid, slave: Grid, w: nat, threshold: real)
    returns (r: Result<ComparisonResult>)
    requires IsRect(master) && IsRect(slave) && PadFits(master, w)
    ensures r.Failure? <==> ShapeOf(master) != ShapeOf(slave)
    ensures r.Failure? ==> r.error == ShapeMismatch(ShapeOf(master), ShapeOf(slave))
    ensures r.Success? ==>
      && SameShape(master, slave)
      && r.value == CorrelationResult(CorrelationMap(lib.sqrt, master, slave, w),
                                      Below(CorrelationMap(lib.sqrt, master, slave, w), threshold),
                                      threshold, w)
  {
    if ShapeOf(master) != ShapeOf(slave) {
      return Failure(ShapeMismatch(ShapeOf(master), ShapeOf(slave)));
    }
    EqualShapesMatch(master, slave);
    var h := Half(w);
    var mp := Pad(master, h);
    var sp := Pad(slave, h);
    if |master| == 0 {
      return Success(CorrelationResult([], Below([], threshold), threshold, w));
    }
    var corr := CorrelationRows(lib.sqrt, mp, sp, |master|, Cols(master), w);
    ghost var spec := CorrelationMap(lib.sqrt, master, slave, w);
    forall a | 0 <= a < |corr| ensures corr[a] == spec[a] {
      assert |corr[a]| == |spec[a]|;
    }
    return Success(CorrelationResult(corr, Below(corr, threshold), threshold, w));
  }

  // ---------------------------------------------------------------------------
  // Degenerate windows

  lemma SelfDotNonNegative(d: seq<real>)
    ensures Dot(d, d) >= 0.0
  {
    var sq := seq(|d|, k requires 0 <= k < |d| => d[k] * d[k]);
    SumNonNegative(sq);
  }

  /** A window correlated with itself gives exactly 1 wherever the guard lets it through. */
  lemma PearsonWithItself(sqrt: real -> real, xs: seq<real>)
    requires SqrtLaws(sqrt)
    requires Denominator(sqrt, xs, xs) >= DenominatorFloor
    ensures Pearson(sqrt, xs, xs) == 1.0
  {
    var s := SquaredSpread(xs);
    SelfDotNonNegative(Deviations(xs));
    assert Denominator(sqrt, xs, xs) == Root(sqrt, s * s);
    assert s * s == Square(s);
    assert Root(sqrt, Square(s)) == s;
  }

  /** A constant master window gives exactly 0, whatever the slave window holds -- even when
      the slave window is the same constant. */
  lemma PearsonOfConstantWindow(sqrt: real -> real, xs: seq<real>, ys: seq<real>, c: real)
    requires SqrtLaws(sqrt) && |xs| == |ys|
    requires forall k | 0 <= k < |xs| :: xs[k] == c
    ensures Pearson(sqrt, xs, ys) == 0.0
  {
    SumOfConstant(xs, c);
    var dx := Deviations(xs);
    if |xs| > 0 {
      assert Mean(xs) == c;
    }
    assert forall k | 0 <= k < |dx| :: dx[k] == 0.0;
    var sq := seq(|dx|, k requires 0 <= k < |dx| => dx[k] * dx[k]);
    SumOfConstant(sq, 0.0);
    assert SquaredSpread(xs) * SquaredSpread(ys) == 0.0;
    SqrtOfZero(sqrt);
  }

  /** Correlating a frame with itself: every pixel whose guard passes reads 1, and every
      pixel whose master window is constant reads 0. */
  lemma SelfCorrelation(sqrt: real -> real, a: Grid, w: nat, i: nat, j: nat)
    requires SqrtLaws(sqrt) && IsRect(a) && PadFits(a, w)
    requires i < |a| && j < Cols(a)
    ensures var p := Pad(a, Half(w));
            var xs := Window(p, i, j, w);
      && (Denominator(sqrt, xs, xs) >= DenominatorFloor ==> CorrelationMap(sqrt, a, a, w)[i][j] == 1.0)
      && ((forall k | 0 <= k < |xs| :: xs[k] == xs[0]) ==> CorrelationMap(sqrt, a, a, w)[i][j] == 0.0)
  {
    var p := Pad(a, Half(w));
    var xs := Window(p, i, j, w);
    assert CorrelationMap(sqrt, a, a, w)[i][j] == Pearson(sqrt, xs, xs);
    if Denominator(sqrt, xs, xs) >= DenominatorFloor {
      PearsonWithItself(sqrt, xs);
    }
    if |xs| == 0 {
      PearsonOfConstantWindow(sqrt, xs, xs, 0.0);
    } else if forall k | 0 <= k < |xs| :: xs[k] == xs[0] {
      PearsonOfConstantWindow(sqrt, xs, xs, xs[0]);
    }
  }
}
