/**
 * The training-time scaling rules: the per-request window base that history
 * values are divided by (and the prediction multiplied by), and the min-max
 * scaling of noise magnitudes.
 */
module Scaling {
  import opened Common

  /** The floor of the window base (`1e-8`); it keeps the base strictly positive. */
  const MinBase: real := 0.00000001

  const ModeMean: string := "window_mean"
  const ModeAnchor: string := "window_anchor"
  const ModeNone: string := "none"

  predicate KnownMode(mode: string) {
    mode == ModeMean || mode == ModeAnchor || mode == ModeNone
  }

  function Sum(xs: seq<real>): real
    decreases |xs|
  {
    if |xs| == 0 then 0.0 else Sum(xs[..|xs| - 1]) + xs[|xs| - 1]
  }

  /** The arithmetic mean (`numpy.mean` over exact reals). */
  function Mean(xs: seq<real>): real
    requires |xs| > 0
  {
    Sum(xs) / (|xs| as real)
  }

  function MaxReal(a: real, b: real): real {
    if a >= b then a else b
  }

  function Abs(x: real): real {
    if x < 0.0 then -x else x
  }

  /**
   * `compute_window_base(hist_raw, mode)`: the window statistic the mode names
   * (mean, last value, or 1.0 for `none`), clamped below at 1e-8; an unknown
   * mode raises, reported with the mode itself.
   */
  function ComputeWindowBase(histRaw: seq<real>, mode: string): (r: Result<real, string>)
    requires |histRaw| > 0 || (mode != ModeMean && mode != ModeAnchor)
    ensures r.Ok? <==> KnownMode(mode)
    ensures r.Err? ==> r.error == mode
    ensures r.Ok? ==> r.value >= MinBase
    ensures mode == ModeNone ==> r == Ok(1.0)
    ensures mode == ModeMean ==> r.value >= Mean(histRaw) && (r.value == Mean(histRaw) || r.value == MinBase)
    ensures mode == ModeAnchor ==>
      r.value >= histRaw[|histRaw| - 1] && (r.value == histRaw[|histRaw| - 1] || r.value == MinBase)
  {
    if mode == ModeMean then Ok(MaxReal(Mean(histRaw), MinBase))
    else if mode == ModeAnchor then Ok(MaxReal(histRaw[|histRaw| - 1], MinBase))
    else if mode == ModeNone then Ok(MaxReal(1.0, MinBase))
    else Err(mode)
  }

  lemma DivMonotone(a: real, b: real, d: real)
    requires d > 0.0 && a <= b
    ensures a / d <= b / d
  {
    assert (b / d - a / d) * d == b - a;
  }

  /** Every history value divided by the base. */
  function DivideAll(xs: seq<real>, base: real): (r: seq<real>)
    requires base > 0.0
    ensures |r| == |xs|
  {
    seq(|xs|, k requires 0 <= k < |xs| => xs[k] / base)
  }

  lemma {:induction false} SumDivide(xs: seq<real>, base: real)
    requires base > 0.0
    ensures Sum(DivideAll(xs, base)) == Sum(xs) / base
    decreases |xs|
  {
    if |xs| > 0 {
      var init := xs[..|xs| - 1];
      SumDivide(init, base);
      assert DivideAll(xs, base)[..|xs| - 1] == DivideAll(init, base);
    }
  }

  /** Unscaling inverts scaling: `(v / base) * base == v` for every accepted base. */
  lemma ScaleRoundTrip(v: real, base: real)
    requires base >= MinBase
    ensures (v / base) * base == v
    ensures (v * base) / base == v
  {
  }

  /** A total divided by its own mean and then by the count is 1. */
  lemma QuotientOfMean(total: real, m: real, n: real)
    requires m > 0.0 && n > 0.0 && m == total / n
    ensures (total / m) / n == 1.0
  {
    assert total == m * n;
    assert total / m == n;
  }

  /**
   * In `window_mean` mode a window whose mean is at least the floor is scaled
   * to mean exactly 1.
   */
  lemma WindowMeanNormalizes(histRaw: seq<real>)
    requires |histRaw| > 0 && Mean(histRaw) >= MinBase
    ensures ComputeWindowBase(histRaw, ModeMean) == Ok(Mean(histRaw))
    ensures Mean(DivideAll(histRaw, Mean(histRaw))) == 1.0
  {
    var m := Mean(histRaw);
    var n := |histRaw| as real;
    SumDivide(histRaw, m);
    assert Mean(DivideAll(histRaw, m)) == (Sum(histRaw) / m) / n;
    QuotientOfMean(Sum(histRaw), m, n);
  }

  /**
   * In `window_anchor` mode a window whose last value is at least the floor
   * is scaled so that that last value becomes exactly 1.
   */
  lemma WindowAnchorNormalizes(histRaw: seq<real>)
    requires |histRaw| > 0 && histRaw[|histRaw| - 1] >= MinBase
    ensures ComputeWindowBase(histRaw, ModeAnchor) == Ok(histRaw[|histRaw| - 1])
    ensures DivideAll(histRaw, histRaw[|histRaw| - 1])[|histRaw| - 1] == 1.0
  {
    var last := histRaw[|histRaw| - 1];
    assert last > 0.0;
    assert last / last == 1.0;
    assert DivideAll(histRaw, last)[|histRaw| - 1] == last / last;
  }

  /**
   * `scale_noise_abs_db(val_db, vmin, vmax)`: `(|val| - vmin) / (vmax - vmin)`
   * clamped into [0, 1]. Below `vmin` the result is 0 and above `vmax` it is 1
   * when the range is proper.
   */
  function ScaleNoiseAbsDb(valDb: real, vmin: real, vmax: real): (r: real)
    requires vmax != vmin
    ensures 0.0 <= r <= 1.0
    ensures vmax > vmin && Abs(valDb) <= vmin ==> r == 0.0
    ensures vmax > vmin && Abs(valDb) >= vmax ==> r == 1.0
  {
    var v := Abs(valDb);
    var ratio := (v - vmin) / (vmax - vmin);
    DivBounds(v - vmin, vmax - vmin);
    var lifted := MaxReal(ratio, 0.0);
    if lifted <= 1.0 then lifted else 1.0
  }

  lemma DivBounds(a: real, d: real)
    requires d != 0.0
    ensures d > 0.0 && a <= 0.0 ==> a / d <= 0.0
    ensures d > 0.0 && a >= d ==> a / d >= 1.0
  {
    if d > 0.0 {
      if a <= 0.0 {
        DivMonotone(a, 0.0, d);
      }
      if a >= d {
        DivMonotone(d, a, d);
      }
    }
  }

  /** The scaled noise depends on the magnitude alone: -100 dB and 100 dB scale alike. */
  lemma NoiseDependsOnMagnitude(a: real, b: real, vmin: real, vmax: real)
    requires vmax != vmin
    requires Abs(a) == Abs(b)
    ensures ScaleNoiseAbsDb(a, vmin, vmax) == ScaleNoiseAbsDb(b, vmin, vmax)
    ensures ScaleNoiseAbsDb(-a, vmin, vmax) == ScaleNoiseAbsDb(a, vmin, vmax)
  {
  }

  /** With a proper range, a larger magnitude never scales lower. */
  lemma NoiseMonotone(a: real, b: real, vmin: real, vmax: real)
    requires vmax > vmin
    requires Abs(a) <= Abs(b)
    ensures ScaleNoiseAbsDb(a, vmin, vmax) <= ScaleNoiseAbsDb(b, vmin, vmax)
  {
    DivMonotone(Abs(a) - vmin, Abs(b) - vmin, vmax - vmin);
  }

  /**
   * Inside the range the scaling is invertible: mapping the scaled value back
   * onto [vmin, vmax] recovers the magnitude.
   */
  lemma NoiseInverse(v: real, vmin: real, vmax: real)
    requires vmax > vmin
    requires vmin <= Abs(v) <= vmax
    ensures vmin + ScaleNoiseAbsDb(v, vmin, vmax) * (vmax - vmin) == Abs(v)
  {
    var d := vmax - vmin;
    var ratio := (Abs(v) - vmin) / d;
    assert ratio * d == Abs(v) - vmin;
    assert 0.0 <= ratio <= 1.0 by {
      assert Abs(v) - vmin <= d;
    }
  }
}
