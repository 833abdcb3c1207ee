/** Rectangular 2-D grids of temperatures and boolean masks, with the
    reductions (sum, count, extrema, mean) that the detectors apply to them.
    A numpy array is always rectangular; here rectangularity is the predicate
    `IsRect`, and reductions work on the row-major flattening of a grid. */
module Grids {

  type Grid = seq<seq<real>>
  type Mask = seq<seq<bool>>

  /** numpy's `.shape` of a 2-D array. A grid with no rows has shape (0, 0). */
  datatype Shape = Shape(rows: nat, cols: nat)

  function Cols<T>(g: seq<seq<T>>): nat {
    if |g| == 0 then 0 else |g[0]|
  }

  /** numpy's `.size` of a 2-D array: rows times columns. */
  function Size<T>(g: seq<seq<T>>): nat {
    |g| * Cols(g)
  }

  function ShapeOf<T>(g: seq<seq<T>>): Shape {
    Shape(|g|, Cols(g))
  }

  ghost predicate IsRect<T>(g: seq<seq<T>>) {
    forall i | 0 <= i < |g| :: |g[i]| == Cols(g)
  }

  ghost predicate SameShape<A, B>(a: seq<seq<A>>, b: seq<seq<B>>) {
    |a| == |b| && forall i | 0 <= i < |a| :: |a[i]| == |b[i]|
  }

  /** Two rectangular grids with equal `.shape` have rows of equal length. */
  lemma EqualShapesMatch<A, B>(a: seq<seq<A>>, b: seq<seq<B>>)
    requires IsRect(a) && IsRect(b) && ShapeOf(a) == ShapeOf(b)
    ensures SameShape(a, b)
  {
  }

  /** `w // 2`: the half-width of a window of `w` cells. */
  function Half(w: nat): nat {
    w / 2
  }

  function Abs(x: real): real {
    if x < 0.0 then -x else x
  }

  /** Row-major flattening, as numpy's `flatten()` and every whole-array reduction see a grid. */
  function Flatten<T>(g: seq<seq<T>>): seq<T> {
    if |g| == 0 then [] else g[0] + Flatten(g[1..])
  }

  lemma {:induction false} FlattenLength<T>(g: seq<seq<T>>)
    requires IsRect(g)
    ensures |Flatten(g)| == |g| * Cols(g)
  {
    if |g| > 0 {
      var rest := g[1..];
      assert IsRect(rest) && (|rest| > 0 ==> Cols(rest) == Cols(g)) by {
        forall i | 0 <= i < |rest| ensures |rest[i]| == Cols(g) {
          assert rest[i] == g[i + 1];
        }
      }
      FlattenLength(rest);
      assert |Flatten(rest)| == |rest| * Cols(g);
    }
  }

  lemma {:induction false} FlattenSameLength<A, B>(a: seq<seq<A>>, b: seq<seq<B>>)
    requires SameShape(a, b)
    ensures |Flatten(a)| == |Flatten(b)|
  {
    if |a| > 0 {
      assert SameShape(a[1..], b[1..]) by {
        forall i | 0 <= i < |a[1..]| ensures |a[1..][i]| == |b[1..][i]| {
          assert a[1..][i] == a[i + 1] && b[1..][i] == b[i + 1];
        }
      }
      FlattenSameLength(a[1..], b[1..]);
    }
  }

  /** Every cell of the grid appears in its flattening. */
  lemma {:induction false} FlattenHasCell<T>(g: seq<seq<T>>, i: nat, j: nat)
    requires i < |g| && j < |g[i]|
    ensures g[i][j] in Flatten(g)
  {
    if i == 0 {
      assert Flatten(g)[j] == g[0][j];
    } else {
      assert g[1..][i - 1] == g[i];
      FlattenHasCell(g[1..], i - 1, j);
    }
  }

  /** Every element of the flattening is a cell of the grid. */
  lemma {:induction false} FlattenElementIsCell<T>(g: seq<seq<T>>, x: T)
    requires x in Flatten(g)
    ensures exists i, j :: 0 <= i < |g| && 0 <= j < |g[i]| && g[i][j] == x
  {
    if x in g[0] {
      var j :| 0 <= j < |g[0]| && g[0][j] == x;
      assert g[0][j] == x;
    } else {
      assert x in Flatten(g[1..]);
      FlattenElementIsCell(g[1..], x);
      var i, j :| 0 <= i < |g[1..]| && 0 <= j < |g[1..][i]| && g[1..][i][j] == x;
      assert g[i + 1][j] == x;
    }
  }

  // ---------------------------------------------------------------------------
  // Reductions over sequences

  function Sum(xs: seq<real>): real {
    if |xs| == 0 then 0.0 else Sum(xs[..|xs| - 1]) + xs[|xs| - 1]
  }

  function NatSum(xs: seq<nat>): nat {
    if |xs| == 0 then 0 else NatSum(xs[..|xs| - 1]) + xs[|xs| - 1]
  }

  function Max(xs: seq<real>): real
    requires |xs| > 0
  {
    if |xs| == 1 then xs[0]
    else
      var m := Max(xs[..|xs| - 1]);
      if xs[|xs| - 1] > m then xs[|xs| - 1] else m
  }

  function Min(xs: seq<real>): real
    requires |xs| > 0
  {
    if |xs| == 1 then xs[0]
    else
      var m := Min(xs[..|xs| - 1]);
      if xs[|xs| - 1] < m then xs[|xs| - 1] else m
  }

  /** Arithmetic mean. The empty case is never observed by a caller that
      reports it (numpy yields NaN there); 0 keeps the function total. */
  function Mean(xs: seq<real>): real {
    if |xs| == 0 then 0.0 else Sum(xs) / (|xs| as real)
  }

  /** Number of `true` entries: numpy's `np.sum` of a boolean array. */
  function CountTrue(bs: seq<bool>): (n: nat)
    ensures n <= |bs|
  {
    if |bs| == 0 then 0 else CountTrue(bs[..|bs| - 1]) + (if bs[|bs| - 1] then 1 else 0)
  }

  lemma {:induction false} SumConcat(a: seq<real>, b: seq<real>)
    ensures Sum(a + b) == Sum(a) + Sum(b)
  {
    if |b| == 0 {
      assert a + b == a;
    } else {
      assert (a + b)[..|a + b| - 1] == a + b[..|b| - 1];
      SumConcat(a, b[..|b| - 1]);
    }
  }

  /** The maximum is an element that bounds every element from above. */
  lemma {:induction false} MaxIsUpperBound(xs: seq<real>)
    requires |xs| > 0
    ensures Max(xs) in xs
    ensures forall k | 0 <= k < |xs| :: xs[k] <= Max(xs)
  {
    if |xs| > 1 {
      var init := xs[..|xs| - 1];
      MaxIsUpperBound(init);
      forall k | 0 <= k < |xs| ensures xs[k] <= Max(xs) {
        if k < |xs| - 1 { assert xs[k] == init[k]; }
      }
    }
  }

  /** The minimum is an element that bounds every element from below. */
  lemma {:induction false} MinIsLowerBound(xs: seq<real>)
    requires |xs| > 0
    ensures Min(xs) in xs
    ensures forall k | 0 <= k < |xs| :: Min(xs) <= xs[k]
  {
    if |xs| > 1 {
      var init := xs[..|xs| - 1];
      MinIsLowerBound(init);
      forall k | 0 <= k < |xs| ensures Min(xs) <= xs[k] {
        if k < |xs| - 1 { assert xs[k] == init[k]; }
      }
    }
  }

  lemma {:induction false} SumBounds(xs: seq<real>, lo: real, hi: real)
    requires forall k | 0 <= k < |xs| :: lo <= xs[k] <= hi
    ensures (|xs| as real) * lo <= Sum(xs) <= (|xs| as real) * hi
  {
    if |xs| > 0 {
      SumBounds(xs[..|xs| - 1], lo, hi);
    }
  }

  /** The mean of a non-empty sequence lies between its minimum and its maximum. */
  lemma MeanBetweenMinAndMax(xs: seq<real>)
    requires |xs| > 0
    ensures Min(xs) <= Mean(xs) <= Max(xs)
  {
    MaxIsUpperBound(xs);
    MinIsLowerBound(xs);
    SumBounds(xs, Min(xs), Max(xs));
    DivideBounds(Sum(xs), |xs| as real, Min(xs), Max(xs));
  }

  /** The mean times the number of elements is the sum. */
  lemma MeanTimesLength(xs: seq<real>)
    requires |xs| > 0
    ensures Mean(xs) * (|xs| as real) == Sum(xs)
  {
    var n := |xs| as real;
    assert Mean(xs) == Sum(xs) / n;
  }

  lemma DivideBounds(s: real, n: real, lo: real, hi: real)
    requires n > 0.0 && n * lo <= s <= n * hi
    ensures lo <= s / n <= hi
  {
    var q := s / n;
    assert q * n == s;
    assert (q - lo) * n >= 0.0 && (hi - q) * n >= 0.0;
  }

  /** A sum of `n` copies of `c` is `n * c`. */
  lemma {:induction false} SumOfConstant(xs: seq<real>, c: real)
    requires forall k | 0 <= k < |xs| :: xs[k] == c
    ensures Sum(xs) == (|xs| as real) * c
  {
    if |xs| > 0 {
      SumOfConstant(xs[..|xs| - 1], c);
    }
  }

  /** A sum of non-negative terms is non-negative. */
  lemma {:induction false} SumNonNegative(xs: seq<real>)
    requires forall k | 0 <= k < |xs| :: xs[k] >= 0.0
    ensures Sum(xs) >= 0.0
  {
    if |xs| > 0 {
      SumNonNegative(xs[..|xs| - 1]);
    }
  }

  lemma {:induction false} CountTrueNoneSet(bs: seq<bool>)
    requires forall k | 0 <= k < |bs| :: !bs[k]
    ensures CountTrue(bs) == 0
  {
    if |bs| > 0 {
      CountTrueNoneSet(bs[..|bs| - 1]);
    }
  }

  lemma {:induction false} CountTrueConcat(a: seq<bool>, b: seq<bool>)
    ensures CountTrue(a + b) == CountTrue(a) + CountTrue(b)
  {
    if |b| == 0 {
      assert a + b == a;
    } else {
      assert (a + b)[..|a + b| - 1] == a + b[..|b| - 1];
      assert (a + b)[|a + b| - 1] == b[|b| - 1];
      CountTrueConcat(a, b[..|b| - 1]);
    }
  }

  /** An all-false mask has no true cell in its flattening. */
  lemma AllFalseMaskCountsZero(m: Mask)
    requires forall i, j | 0 <= i < |m| && 0 <= j < |m[i]| :: !m[i][j]
    ensures CountTrue(Flatten(m)) == 0
  {
    var bs := Flatten(m);
    forall k | 0 <= k < |bs| ensures !bs[k] {
      assert bs[k] in bs;
      FlattenElementIsCell(m, bs[k]);
    }
    CountTrueNoneSet(bs);
  }
}
