/** Two end-to-end scenarios on concrete 4x4 frames: one warm pixel, and a
    reference and target of different sizes. */
module Scenarios {
  import opened Grids
  import opened Library
  import opened Outcomes
  import opened ComparisonResults
  import opened ComparisonDifference
  import opened ComparisonMetrics
  import StatisticalChange

  function Uniform4(): (g: Grid)
    ensures IsRect(g) && ShapeOf(g) == Shape(4, 4)
  {
    [[20.0, 20.0, 20.0, 20.0], [20.0, 20.0, 20.0, 20.0], [20.0, 20.0, 20.0, 20.0], [20.0, 20.0, 20.0, 20.0]]
  }

  function WarmPixel4(): (g: Grid)
    ensures IsRect(g) && ShapeOf(g) == Shape(4, 4)
  {
    [[20.0, 20.0, 20.0, 20.0], [20.0, 20.0, 25.0, 20.0], [20.0, 20.0, 20.0, 20.0], [20.0, 20.0, 20.0, 20.0]]
  }

  function Uniform3(): (g: Grid)
    ensures IsRect(g) && ShapeOf(g) == Shape(3, 3)
  {
    [[20.0, 20.0, 20.0], [20.0, 20.0, 20.0], [20.0, 20.0, 20.0]]
  }

  function WarmDifference(): Grid {
    [[0.0, 0.0, 0.0, 0.0], [0.0, 0.0, 5.0, 0.0], [0.0, 0.0, 0.0, 0.0], [0.0, 0.0, 0.0, 0.0]]
  }

  function WarmMask(): Mask {
    [[false, false, false, false], [false, false, true, false],
     [false, false, false, false], [false, false, false, false]]
  }

  lemma FlattenFourRows<T>(a: seq<T>, b: seq<T>, c: seq<T>, d: seq<T>)
    ensures Flatten([a, b, c, d]) == a + b + c + d
  {
    assert [a, b, c, d][1..] == [b, c, d];
    assert [b, c, d][1..] == [c, d];
    assert [c, d][1..] == [d];
    assert [d][1..] == [];
    assert Flatten([d]) == d + Flatten<T>([]);
    assert Flatten([c, d]) == c + Flatten([d]);
    assert Flatten([b, c, d]) == b + Flatten([c, d]);
  }

  /** The difference and mask of the warm-pixel comparison, cell by cell. */
  lemma WarmPixelDifference()
    ensures var r := ComputeDifference(Uniform4(), WarmPixel4(), 1.0, false);
      && r.Success?
      && r.value.difference == WarmDifference()
      && r.value.significantChanges == WarmMask()
  {
    var r := ComputeDifference(Uniform4(), WarmPixel4(), 1.0, false);
    var d := WarmDifference();
    var mask := WarmMask();
    assert DifferencePolicy(Uniform4(), WarmPixel4(), 1.0, false, r.value.difference, r.value.significantChanges);
    forall i | 0 <= i < 4 ensures r.value.difference[i] == d[i] {
      assert |r.value.difference[i]| == 4;
    }
    forall i | 0 <= i < 4 ensures r.value.significantChanges[i] == mask[i] {
      assert |r.value.significantChanges[i]| == 4;
    }
  }

  lemma WarmMaskCountsOne()
    ensures CountTrue(Flatten(WarmMask())) == 1
  {
    var f := [false, false, false, false];
    var w := [false, false, true, false];
    FlattenFourRows(f, w, f, f);
    CountTrueConcat(f, w);
    CountTrueConcat(f + w, f);
    CountTrueConcat(f + w + f, f);
    assert CountTrue(f) == 0 by { CountTrueNoneSet(f); }
    assert w[..3] == [false, false, true] && w[..3][..2] == [false, false];
    assert CountTrue(w[..3][..2]) == 0 by { CountTrueNoneSet(w[..3][..2]); }
  }

  lemma WarmDifferenceRange()
    ensures |Flatten(WarmDifference())| > 0
    ensures Max(Flatten(WarmDifference())) == 5.0 && Min(Flatten(WarmDifference())) == 0.0
  {
    var z := [0.0, 0.0, 0.0, 0.0];
    var w := [0.0, 0.0, 5.0, 0.0];
    FlattenFourRows(z, w, z, z);
    var xs := Flatten(WarmDifference());
    assert xs == z + w + z + z;
    assert forall k | 0 <= k < |xs| :: xs[k] == 0.0 || xs[k] == 5.0;
    assert xs[6] == 5.0 && xs[0] == 0.0;
    MaxIsUpperBound(xs);
    MinIsLowerBound(xs);
  }

  /** One pixel 5 degrees warmer, threshold 1, absolute mode: exactly that pixel is
      significant, and the difference ranges from 0 to 5. */
  lemma OneWarmPixel(sqrt: real -> real)
    ensures var r := ComputeDifference(Uniform4(), WarmPixel4(), 1.0, false);
      && r.Success?
      && r.value.significantChanges == WarmMask()
      && var m := CalculateMetrics(sqrt, FieldsOf(r.value));
         && m.Success?
         && m.value.significantPixelCount == Some(1)
         && m.value.difference.Some?
         && m.value.difference.value.max == 5.0
         && m.value.difference.value.min == 0.0
  {
    WarmPixelDifference();
    WarmMaskCountsOne();
    WarmDifferenceRange();
  }

  /** A 4x4 reference against a 3x3 target is refused, naming both shapes, by every
      comparison that checks shapes. */
  lemma MismatchedFrames(lib: Lib)
    requires Valid(lib)
    ensures ComputeDifference(Uniform4(), Uniform3(), 1.0, false) == Failure(ShapeMismatch(Shape(4, 4), Shape(3, 3)))
    ensures StatisticalChange.StatisticalSignificance(lib, Uniform4(), Uniform3(), 5, 2.0)
         == Failure(ShapeMismatch(Shape(4, 4), Shape(3, 3)))
  {
  }
}
