/** The ramped 1-D finite-difference kernel `_calculate_gradient_magnitude`
    builds for windows wider than 3: taps left of the centre fall linearly to
    the left edge, taps right of it rise linearly to the right edge, the centre
    is zero, and each side is scaled by 1 / (h * (h + 1) / 2), h = size // 2.
    Over the rationals the weights can be checked exactly. */
module GradientKernel {
  import opened Grids

  /** n * (n + 1) / 2, the sum 1 + 2 + ... + n. */
  function Triangle(n: nat): real {
    (n as real) * (n as real + 1.0) / 2.0
  }

  lemma TriangleAtLeastThree(n: nat)
    requires n >= 2
    ensures Triangle(n) >= 3.0
  {
    var h := n as real;
    assert h * (h + 1.0) == h * h + h;
    assert h * h >= 2.0 * h;
  }

  /** `half_size * (half_size + 1) / 2`. */
  function Norm(w: nat): (n: real)
    requires w > 3
    ensures n >= 3.0
  {
    TriangleAtLeastThree(Half(w));
    Triangle(Half(w))
  }

  /** `1 / norm`, the factor every non-centre tap carries. */
  function Scale(w: nat): (c: real)
    requires w > 3
    ensures c > 0.0 && c * Norm(w) == 1.0
  {
    1.0 / Norm(w)
  }

  /** `gradient_filter[i]`. */
  function Tap(w: nat, i: nat): real
    requires w > 3
  {
    var h := Half(w);
    if i < h then -(Scale(w) * ((h - i) as real))
    else if i > h then Scale(w) * ((i - h) as real)
    else 0.0
  }

  function Kernel(w: nat): (k: seq<real>)
    requires w > 3
    ensures |k| == w
  {
    seq(w, i requires 0 <= i < w => Tap(w, i))
  }

  /** For an odd window the centre tap is zero and the kernel is antisymmetric. */
  lemma KernelAntisymmetric(w: nat)
    requires w > 3 && w % 2 == 1
    ensures Kernel(w)[Half(w)] == 0.0
    ensures forall i | 0 <= i < w :: Kernel(w)[i] == -Kernel(w)[w - 1 - i]
  {
    var k := Kernel(w);
    var h := Half(w);
    forall i | 0 <= i < w ensures k[i] == -k[w - 1 - i] {
      assert w - 1 - i == 2 * h - i;
    }
  }

  /** (h - 0) + (h - 1) + ... + (h - (n - 1)), in closed form. */
  function Ramp(h: nat, n: nat): real {
    (n as real) * (h as real) - Triangle(n) + n as real
  }

  lemma RampStep(h: nat, n: nat)
    requires n > 0
    ensures Ramp(h, n) == Ramp(h, n - 1) + (h as real - (n - 1) as real)
  {
    var m := (n - 1) as real;
    assert n as real == m + 1.0;
    assert Triangle(n) == Triangle(n - 1) + m + 1.0;
  }

  /** A tap left of the centre: minus the scale times its distance from the centre. */
  lemma NegativeTap(w: nat, i: nat)
    requires w > 3 && i < Half(w)
    ensures Kernel(w)[i] == -(Scale(w) * (Half(w) as real - i as real))
  {
    assert ((Half(w) - i) as real) == Half(w) as real - i as real;
  }

  lemma Distribute(c: real, a: real, b: real)
    ensures -(c * a) + -(c * b) == -(c * (a + b))
  {
  }

  lemma {:induction false} NegativePrefix(w: nat, n: nat)
    requires w > 3 && n <= Half(w)
    ensures Sum(Kernel(w)[..n]) == -(Scale(w) * Ramp(Half(w), n))
  {
    var k := Kernel(w);
    if n > 0 {
      var c := Scale(w);
      var h := Half(w);
      var d := h as real - (n - 1) as real;
      NegativePrefix(w, n - 1);
      assert k[..n][..n - 1] == k[..n - 1];
      NegativeTap(w, n - 1);
      RampStep(h, n);
      Distribute(c, Ramp(h, n - 1), d);
    }
  }

  lemma {:induction false} PositivePrefix(w: nat, n: nat)
    requires w > 3 && Half(w) + 1 + n <= w
    ensures Sum(Kernel(w)[Half(w) + 1..][..n]) == Scale(w) * Triangle(n)
  {
    var right := Kernel(w)[Half(w) + 1..];
    if n > 0 {
      PositivePrefix(w, n - 1);
      assert right[..n][..n - 1] == right[..n - 1];
      assert right[n - 1] == Tap(w, Half(w) + n);
      assert Triangle(n) == Triangle(n - 1) + n as real;
    }
  }

  /** For an odd window the negative half sums to exactly -1 and the positive half to +1. */
  lemma KernelHalfSums(w: nat)
    requires w > 3 && w % 2 == 1
    ensures Sum(Kernel(w)[..Half(w)]) == -1.0
    ensures Sum(Kernel(w)[Half(w) + 1..]) == 1.0
  {
    var h := Half(w);
    var c := Scale(w);
    NegativePrefix(w, h);
    assert Ramp(h, h) == Norm(w);
    PositivePrefix(w, h);
    assert Kernel(w)[h + 1..][..h] == Kernel(w)[h + 1..];
    assert Triangle(h) == Norm(w);
  }

  /** For an odd window the taps cancel: the kernel sums to 0, so a uniform row has no
      gradient. */
  lemma KernelSumsToZero(w: nat)
    requires w > 3 && w % 2 == 1
    ensures Sum(Kernel(w)) == 0.0
  {
    var k := Kernel(w);
    var h := Half(w);
    KernelHalfSums(w);
    KernelAntisymmetric(w);
    assert k == k[..h] + [k[h]] + k[h + 1..];
    SumConcat(k[..h] + [k[h]], k[h + 1..]);
    SumConcat(k[..h], [k[h]]);
    assert [k[h]][..0] == [];
  }

  /** An even window is not balanced: the size-4 kernel is (-2/3, -1/3, 0, 1/3), whose taps
      sum to -2/3 rather than 0. */
  lemma EvenKernelUnbalanced()
    ensures Kernel(4) == [-(2.0 / 3.0), -(1.0 / 3.0), 0.0, 1.0 / 3.0]
    ensures Sum(Kernel(4)) == -(2.0 / 3.0)
  {
    assert Half(4) == 2;
    assert Norm(4) == 3.0;
    var c := Scale(4);
    assert c == 1.0 / 3.0;
    var k := Kernel(4);
    assert k[0] == -(2.0 / 3.0) && k[1] == -(1.0 / 3.0) && k[2] == 0.0 && k[3] == 1.0 / 3.0;
    NegativePrefix(4, 2);
    assert Ramp(2, 2) == 3.0;
    PositivePrefix(4, 1);
    assert Triangle(1) == 1.0;
    assert k[3..][..1] == k[3..];
    assert k == k[..2] + [k[2]] + k[3..];
    SumConcat(k[..2] + [k[2]], k[3..]);
    SumConcat(k[..2], [k[2]]);
    assert [k[2]][..0] == [];
  }
}
