/** `compute_statistical_significance`: z-scores of the slave frame against the
    master frame's local statistics. Mean and standard deviation come from the
    master alone (box filters over the window); the standard deviation is
    floored before dividing, while the unfloored one is what the result reports. */
module StatisticalChange {
  import opened Grids
  import opened Library
  import opened Outcomes
  import opened ComparisonResults

  /** The smallest divisor a z-score is ever computed with. */
  const StdEpsilon: real := 0.001

  /** `np.where(local_stds > epsilon, local_stds, epsilon)`: the larger of the two. */
  function StdFloor(s: real): (d: real)
    ensures d >= StdEpsilon && d >= s
    ensures d == s || d == StdEpsilon
  {
    if s > StdEpsilon then s else StdEpsilon
  }

  function SquaredDeviations(data: Grid, means: Grid): (r: Grid)
    requires SameShape(data, means)
    ensures SameShape(r, data)
  {
    seq(|data|, i requires 0 <= i < |data| =>
      seq(|data[i]|, j requires 0 <= j < |data[i]| => Square(data[i][j] - means[i][j])))
  }

  function ElementwiseSqrt(sqrt: real -> real, g: Grid): (r: Grid)
    ensures SameShape(r, g)
    ensures forall i, j | 0 <= i < |r| && 0 <= j < |r[i]| :: r[i][j] == Root(sqrt, g[i][j])
  {
    seq(|g|, i requires 0 <= i < |g| => seq(|g[i]|, j requires 0 <= j < |g[i]| => Root(sqrt, g[i][j])))
  }

  function ZScores(slave: Grid, means: Grid, stds: Grid): (r: Grid)
    requires SameShape(slave, means) && SameShape(slave, stds)
    ensures SameShape(r, slave)
  {
    seq(|slave|, i requires 0 <= i < |slave| =>
      seq(|slave[i]|, j requires 0 <= j < |slave[i]| => (slave[i][j] - means[i][j]) / StdFloor(stds[i][j])))
  }

  /** The master frame's local statistics: box-filtered mean, and the square root of the
      box-filtered squared deviation from that mean. */
  function LocalMeans(lib: Lib, master: Grid, w: nat): Grid {
    lib.uniform(master, w)
  }

  function LocalStds(lib: Lib, master: Grid, w: nat): (r: Grid)
    requires Valid(lib)
    ensures SameShape(r, master)
    ensures forall i, j | 0 <= i < |r| && 0 <= j < |r[i]| :: r[i][j] >= 0.0
  {
    var means := LocalMeans(lib, master, w);
    ElementwiseSqrt(lib.sqrt, lib.uniform(SquaredDeviations(master, means), w))
  }

  /** `compute_statistical_significance`. */
  function StatisticalSignificance(lib: Lib, master: Grid, slave: Grid, w: nat, zThreshold: real)
    : (r: Result<ComparisonResult>)
    requires Valid(lib) && IsRect(master) && IsRect(slave)
    ensures r.Failure? <==> ShapeOf(master) != ShapeOf(slave)
    ensures r.Failure? ==> r.error == ShapeMismatch(ShapeOf(master), ShapeOf(slave))
    ensures r.Success? ==>
      && r.value.StatisticalResult?
      && r.value.localMeans == LocalMeans(lib, master, w)
      && r.value.localStds == LocalStds(lib, master, w)
      && r.value.zscoreThreshold == zThreshold && r.value.windowSize == w
      && SameShape(r.value.zscores, master) && SameShape(r.value.significantChanges, master)
      && (forall i, j | 0 <= i < |r.value.zscores| && 0 <= j < |r.value.zscores[i]| ::
            && r.value.zscores[i][j] * StdFloor(r.value.localStds[i][j]) == slave[i][j] - r.value.localMeans[i][j]
            && (r.value.significantChanges[i][j] <==> Abs(r.value.zscores[i][j]) > zThreshold))
  {
    if ShapeOf(master) != ShapeOf(slave) then
      Failure(ShapeMismatch(ShapeOf(master), ShapeOf(slave)))
    else
      EqualShapesMatch(master, slave);
      var means := LocalMeans(lib, master, w);
      var stds := LocalStds(lib, master, w);
      var z := ZScores(slave, means, stds);
      Success(StatisticalResult(z, AbsExceeds(z, zThreshold), means, stds, zThreshold, w))
  }

  /** The local statistics depend on the master frame only: any two slaves get the same ones. */
  lemma StatisticsIgnoreSlave(lib: Lib, master: Grid, s1: Grid, s2: Grid, w: nat, z1: real, z2: real)
    requires Valid(lib) && IsRect(master) && IsRect(s1) && IsRect(s2)
    requires ShapeOf(master) == ShapeOf(s1) == ShapeOf(s2)
    ensures StatisticalSignificance(lib, master, s1, w, z1).Success?
    ensures StatisticalSignificance(lib, master, s2, w, z2).Success?
    ensures StatisticalSignificance(lib, master, s1, w, z1).value.localMeans
         == StatisticalSignificance(lib, master, s2, w, z2).value.localMeans
    ensures StatisticalSignificance(lib, master, s1, w, z1).value.localStds
         == StatisticalSignificance(lib, master, s2, w, z2).value.localStds
  {
  }

  /** A slave cell equal to the master's local mean has z-score 0 and is never significant
      for a non-negative threshold; elsewhere the z-score has the sign of the deviation. */
  lemma ZScoreSign(lib: Lib, master: Grid, slave: Grid, w: nat, zThreshold: real, i: nat, j: nat)
    requires Valid(lib) && IsRect(master) && IsRect(slave) && ShapeOf(master) == ShapeOf(slave)
    requires i < |master| && j < |master[i]|
    ensures var r := StatisticalSignificance(lib, master, slave, w, zThreshold);
      && r.Success?
      && var dev := slave[i][j] - r.value.localMeans[i][j];
         && (dev == 0.0 ==> r.value.zscores[i][j] == 0.0
                            && (zThreshold >= 0.0 ==> !r.value.significantChanges[i][j]))
         && (dev > 0.0 ==> r.value.zscores[i][j] > 0.0)
         && (dev < 0.0 ==> r.value.zscores[i][j] < 0.0)
  {
    var r := StatisticalSignificance(lib, master, slave, w, zThreshold);
    var z := r.value.zscores[i][j];
    var f := StdFloor(r.value.localStds[i][j]);
    assert z * f == slave[i][j] - r.value.localMeans[i][j];
    assert f > 0.0;
  }
}
