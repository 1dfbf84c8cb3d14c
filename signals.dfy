/** The two signal chains in front of the rate estimators.
    - PPG (the red channel): a slow baseline (an exponential moving average with
      weight 0.01, started at the first sample), a first-order high-pass filter
      y = a (y' + x - x'), a 5-sample moving average, and a z-score against the
      last 160 smoothed values, with the variance floored at 1e-9. The plotted
      value is the baseline plus the smoothed value.
    - BCG: the same high-pass filter (with its own coefficient) and a 7-sample
      moving average.
    Each chain also counts its samples; the count is the sample index the rate
    estimator stamps its peaks with. */
module Signals {
  import opened Numeric
  import opened Ring
  import opened Filters

  const PpgSmoothWin: int := 5
  const NormWindow: int := 160
  const BcgSmoothWin: int := 7
  /** The smallest variance the z-score divides by. */
  const MinVariance: real := 0.000000001

  /** One step of the first-order high-pass filter: the new output from the
      previous output, the new input and the previous input. */
  function HighPass(alpha: real, prevY: real, x: real, prevX: real): real
  {
    alpha * (prevY + x - prevX)
  }

  /** The baseline after a sample: the sample itself the first time, and
      otherwise 1 % of the way from the old baseline to the sample. */
  function Baseline(init: bool, ema: real, x: real): real
  {
    if !init then x else 0.99 * ema + 0.01 * x
  }

  /** The variance of the normalisation window, floored at MinVariance. */
  function NormVariance(w: seq<real>): (v: real)
    requires |w| > 0
    ensures v >= MinVariance
  {
    RealMax(MinVariance, SumSqR(w) / |w| as real - Mean(w) * Mean(w))
  }

  /** The z-score of y against the window w. */
  function ZScore(y: real, w: seq<real>, sqrt: real -> real): real
    requires SqrtOk(sqrt) && |w| > 0
  {
    var v := NormVariance(w);
    SqrtSign(sqrt, v);
    (y - Mean(w)) / sqrt(v)
  }

  function Pow(r: real, k: nat): real
  {
    if k == 0 then 1.0 else r * Pow(r, k - 1)
  }

  /** A factor in (0, 1) raised to a positive power stays in (0, 1). */
  lemma {:induction false} PowBounds(r: real, k: nat)
    requires 0.0 < r < 1.0
    ensures 0.0 < Pow(r, k) <= 1.0
    ensures k > 0 ==> Pow(r, k) < 1.0
  {
    if k > 0 {
      PowBounds(r, k - 1);
      var p := Pow(r, k - 1);
      assert r * p <= 1.0 * p by {
        assert (1.0 - r) * p > 0.0;
      }
      assert r * p > 0.0;
    }
  }

  /** The baseline after k more samples of the same value x. */
  function SettleBaseline(ema: real, x: real, k: nat): real
  {
    if k == 0 then ema else Baseline(true, SettleBaseline(ema, x, k - 1), x)
  }

  /** While the signal holds a value, the baseline's distance to it shrinks by
      a factor 0.99 per sample. */
  lemma {:induction false} BaselineSettles(ema: real, x: real, k: nat)
    ensures SettleBaseline(ema, x, k) - x == Pow(0.99, k) * (ema - x)
  {
    if k > 0 {
      BaselineSettles(ema, x, k - 1);
      var e := SettleBaseline(ema, x, k - 1);
      var p := Pow(0.99, k - 1);
      assert Baseline(true, e, x) - x == 0.99 * (e - x);
      assert 0.99 * (p * (ema - x)) == (0.99 * p) * (ema - x);
    }
  }

  /** Once started, the baseline lies between its old value and the sample. */
  lemma {:induction false} BaselineBetween(init: bool, ema: real, x: real)
    ensures !init ==> Baseline(init, ema, x) == x
    ensures init && ema <= x ==> ema <= Baseline(init, ema, x) <= x
    ensures init && x <= ema ==> x <= Baseline(init, ema, x) <= ema
  {
  }

  /** The high-pass output after k more samples of the value the input
      already holds. */
  function HoldInput(alpha: real, y: real, x: real, k: nat): real
  {
    if k == 0 then y else HighPass(alpha, HoldInput(alpha, y, x, k - 1), x, x)
  }

  /** The high-pass filter removes a constant level: while the input holds a
      value, the output is multiplied by alpha per sample, so with alpha in
      (0, 1) it decays toward zero. */
  lemma {:induction false} HighPassRemovesDc(alpha: real, y: real, x: real, k: nat)
    ensures HoldInput(alpha, y, x, k) == Pow(alpha, k) * y
  {
    if k > 0 {
      HighPassRemovesDc(alpha, y, x, k - 1);
      var p := Pow(alpha, k - 1);
      assert alpha * (p * y) == (alpha * p) * y;
    }
  }

  /** With alpha in (0, 1) the decay is strict: after k > 0 samples of a held
      input the output is smaller in magnitude unless it was already zero. */
  lemma {:induction false} HighPassDecays(alpha: real, y: real, x: real, k: nat)
    requires 0.0 < alpha < 1.0 && k > 0 && y != 0.0
    ensures AbsR(HoldInput(alpha, y, x, k)) < AbsR(y)
  {
    HighPassRemovesDc(alpha, y, x, k);
    PowBounds(alpha, k);
    var p := Pow(alpha, k);
    if y > 0.0 {
      assert 0.0 < p * y < y by {
        assert (1.0 - p) * y > 0.0;
      }
    } else {
      assert y < p * y < 0.0 by {
        assert (1.0 - p) * y < 0.0;
      }
    }
    assert AbsR(HoldInput(alpha, y, x, k)) == AbsR(p * y);
  }

  /** A sum of values in [lo, hi] lies between n lo and n hi. */
  lemma {:induction false} SumWithin(s: seq<real>, lo: real, hi: real)
    requires forall k :: 0 <= k < |s| ==> lo <= s[k] <= hi
    ensures |s| as real * lo <= SumR(s) <= |s| as real * hi
  {
    if s != [] {
      var p := s[..|s| - 1];
      assert forall k :: 0 <= k < |p| ==> lo <= p[k] <= hi by {
        forall k | 0 <= k < |p| ensures lo <= p[k] <= hi {
          assert p[k] == s[k];
        }
      }
      SumWithin(p, lo, hi);
      var m := |p| as real;
      assert |s| as real * lo == m * lo + lo;
      assert |s| as real * hi == m * hi + hi;
    }
  }

  /** The mean of a window lies within the range of its values: the smoothed
      signal never leaves the range of the samples it averages. */
  lemma {:induction false} MeanWithin(s: seq<real>, lo: real, hi: real)
    requires |s| > 0
    requires forall k :: 0 <= k < |s| ==> lo <= s[k] <= hi
    ensures lo <= Mean(s) <= hi
  {
    SumWithin(s, lo, hi);
    var n := |s| as real;
    assert Mean(s) * n == SumR(s);
    LeByDivisor(lo, Mean(s), n);
    LeByDivisor(Mean(s), hi, n);
  }

  lemma {:induction false} LeByDivisor(x: real, y: real, n: real)
    requires n > 0.0 && x * n <= y * n
    ensures x <= y
  {
  }

  /** The z-score has the sign of the distance from the mean, and scaled by the
      standard deviation it is that distance. */
  lemma {:induction false} ZScoreSign(y: real, w: seq<real>, sqrt: real -> real)
    requires SqrtOk(sqrt) && |w| > 0
    ensures ZScore(y, w, sqrt) > 0.0 <==> y > Mean(w)
    ensures ZScore(y, w, sqrt) < 0.0 <==> y < Mean(w)
    ensures ZScore(y, w, sqrt) * sqrt(NormVariance(w)) == y - Mean(w)
  {
    var v := NormVariance(w);
    SqrtSign(sqrt, v);
    var s := sqrt(v);
    var z := ZScore(y, w, sqrt);
    assert z == (y - Mean(w)) / s;
    assert z * s == y - Mean(w);
    if z > 0.0 {
      assert z * s > 0.0;
    } else if z < 0.0 {
      assert (-z) * s > 0.0;
    }
  }

  /** The state of the PPG chain: the baseline, the high-pass filter's last
      input and output, the smoothing and normalisation windows (oldest
      first) and the sample count. */
  datatype PpgState = PpgState(dcEma: real, dcInit: bool, prevX: real, prevY: real,
                               smooth: seq<real>, norm: seq<real>, sampleIndex: int)

  /** The PPG chain's new state, the z-score and the plotted value. */
  datatype PpgOut = PpgOut(state: PpgState, z: real, plot: real)

  /** The state of the BCG chain. */
  datatype BcgState = BcgState(prevX: real, prevY: real, smooth: seq<real>, sampleIndex: int)

  /** The BCG chain's new state and the filtered value. */
  datatype BcgOut = BcgOut(state: BcgState, filtered: real)

  function PpgInitial(): PpgState
  {
    PpgState(0.0, false, 0.0, 0.0, [], [], 0)
  }

  function BcgInitial(): BcgState
  {
    BcgState(0.0, 0.0, [], 0)
  }

  /** One red sample through the PPG chain. */
  function PpgStep(alpha: real, s: PpgState, x: real, sqrt: real -> real): PpgOut
    requires SqrtOk(sqrt)
  {
    var dc := Baseline(s.dcInit, s.dcEma, x);
    var y := HighPass(alpha, s.prevY, x, s.prevX);
    var smooth := Last(PpgSmoothWin, s.smooth + [y]);
    var ySmooth := Mean(smooth);
    var norm := Last(NormWindow, s.norm + [ySmooth]);
    PpgOut(PpgState(dc, true, x, y, smooth, norm, s.sampleIndex + 1), ZScore(ySmooth, norm, sqrt), dc + ySmooth)
  }

  /** One BCG sample through the BCG chain. */
  function BcgStep(alpha: real, s: BcgState, x: real): BcgOut
  {
    var y := HighPass(alpha, s.prevY, x, s.prevX);
    var smooth := Last(BcgSmoothWin, s.smooth + [y]);
    BcgOut(BcgState(x, y, smooth, s.sampleIndex + 1), Mean(smooth))
  }

  /** The PPG chain keeps at most 5 smoothed and 160 normalisation values,
      counts its samples, and its plotted value is the new baseline plus the
      mean of the smoothing window; the z-score has the sign of the smoothed
      value's distance from the normalisation window's mean. */
  lemma {:induction false} PpgStepFacts(alpha: real, s: PpgState, x: real, sqrt: real -> real)
    requires SqrtOk(sqrt)
    ensures var o := PpgStep(alpha, s, x, sqrt);
            && 0 < |o.state.smooth| <= PpgSmoothWin && 0 < |o.state.norm| <= NormWindow
            && o.state.sampleIndex == s.sampleIndex + 1
            && o.state.norm[|o.state.norm| - 1] == Mean(o.state.smooth)
            && o.plot == o.state.dcEma + Mean(o.state.smooth)
            && (o.z > 0.0 <==> Mean(o.state.smooth) > Mean(o.state.norm))
            && (o.z < 0.0 <==> Mean(o.state.smooth) < Mean(o.state.norm))
  {
    var o := PpgStep(alpha, s, x, sqrt);
    var t := s.norm + [Mean(o.state.smooth)];
    LastSuffix(NormWindow, t);
    assert o.state.norm[|o.state.norm| - 1] == t[|t| - 1];
    ZScoreSign(Mean(o.state.smooth), o.state.norm, sqrt);
  }

  /** The step function, given its parts. */
  lemma {:induction false} PpgStepIs(alpha: real, s: PpgState, x: real, sqrt: real -> real, t: PpgState, z: real, plot: real)
    requires SqrtOk(sqrt)
    requires t.dcInit && t.dcEma == Baseline(s.dcInit, s.dcEma, x)
    requires t.prevX == x && t.prevY == HighPass(alpha, s.prevY, x, s.prevX)
    requires t.smooth == Last(PpgSmoothWin, s.smooth + [t.prevY])
    requires t.norm == Last(NormWindow, s.norm + [Mean(t.smooth)])
    requires t.sampleIndex == s.sampleIndex + 1
    requires z == ZScore(Mean(t.smooth), t.norm, sqrt) && plot == t.dcEma + Mean(t.smooth)
    ensures PpgOut(t, z, plot) == PpgStep(alpha, s, x, sqrt)
  {
  }

  /** The PPG chain. */
  class PpgChain {
    const hpAlpha: real
    const smooth: MovingAverage
    const norm: StatWindow
    var dcEma: real
    var dcInit: bool
    var prevX: real
    var prevY: real
    var sampleIndex: int
    ghost const Repr: set<object>

    ghost function State(): PpgState
      reads this, smooth, norm
    {
      PpgState(dcEma, dcInit, prevX, prevY, smooth.window, norm.window, sampleIndex)
    }

    ghost predicate Valid()
      reads this, Repr
    {
      && Repr == {this, smooth, smooth.buf, norm, norm.buf}
      && smooth.buf != norm.buf
      && smooth.buf.Length == PpgSmoothWin && norm.buf.Length == NormWindow
      && smooth.Valid() && norm.Valid()
    }

    constructor(hpAlpha: real)
      ensures Valid() && fresh(Repr) && this.hpAlpha == hpAlpha && State() == PpgInitial()
    {
      this.hpAlpha := hpAlpha;
      var s := new MovingAverage(PpgSmoothWin);
      var n := new StatWindow(NormWindow);
      smooth, norm := s, n;
      Repr := {this, s, s.buf, n, n.buf};
      dcEma, dcInit, prevX, prevY, sampleIndex := 0.0, false, 0.0, 0.0, 0;
    }

    /** One red sample: returns its z-score for the heart-rate estimator and
        the value to plot. */
    method Process(x: real, sqrt: real -> real) returns (z: real, plot: real)
      requires Valid() && SqrtOk(sqrt)
      modifies Repr
      ensures PpgOut(State(), z, plot) == PpgStep(hpAlpha, old(State()), x, sqrt)
      ensures Valid()
    {
      ghost var s0 := State();
      var ySmooth := Filter(x);
      z := Normalize(ySmooth, sqrt);
      plot := dcEma + ySmooth;
      PpgStepIs(hpAlpha, s0, x, sqrt, PpgState(dcEma, dcInit, prevX, prevY, smooth.window, norm.window, sampleIndex), z, plot);
    }

    /** The baseline, the high-pass filter and the smoothing window; returns
        the smoothed value. */
    method Filter(x: real) returns (ySmooth: real)
      requires Valid()
      modifies this, smooth, smooth.buf
      ensures Valid()
      ensures dcInit && dcEma == Baseline(old(dcInit), old(dcEma), x)
      ensures prevX == x && prevY == HighPass(hpAlpha, old(prevY), x, old(prevX))
      ensures smooth.window == Last(PpgSmoothWin, old(smooth.window) + [prevY])
      ensures ySmooth == Mean(smooth.window)
      ensures sampleIndex == old(sampleIndex) + 1
    {
      var dc := Baseline(dcInit, dcEma, x);
      var y := HighPass(hpAlpha, prevY, x, prevX);
      ySmooth := smooth.Push(y);
      dcEma, dcInit, prevX, prevY, sampleIndex := dc, true, x, y, sampleIndex + 1;
    }

    /** Add the smoothed value to the normalisation window and return its
        z-score against the window. */
    method Normalize(ySmooth: real, sqrt: real -> real) returns (z: real)
      requires norm.Valid() && norm.buf.Length == NormWindow && SqrtOk(sqrt)
      modifies norm, norm.buf
      ensures norm.Valid()
      ensures norm.window == Last(NormWindow, old(norm.window) + [ySmooth])
      ensures |norm.window| > 0
      ensures z == ZScore(ySmooth, norm.window, sqrt)
    {
      norm.Push(ySmooth);
      var n := Max(1, norm.count) as real;
      var mean := norm.sum / n;
      var variance := RealMax(MinVariance, norm.sumSq / n - mean * mean);
      assert variance == NormVariance(norm.window);
      SqrtSign(sqrt, variance);
      z := (ySmooth - mean) / sqrt(variance);
    }

    /** The reset in Clear. */
    method Clear()
      requires Valid()
      modifies Repr
      ensures State() == PpgInitial()
      ensures Valid()
    {
      prevX, prevY := 0.0, 0.0;
      smooth.Clear();
      norm.Clear();
      dcEma, dcInit := 0.0, false;
      sampleIndex := 0;
    }
  }

  /** The BCG chain. */
  class BcgChain {
    const hpAlpha: real
    const smooth: MovingAverage
    var prevX: real
    var prevY: real
    var sampleIndex: int
    ghost const Repr: set<object>

    ghost function State(): BcgState
      reads this, smooth
    {
      BcgState(prevX, prevY, smooth.window, sampleIndex)
    }

    ghost predicate Valid()
      reads this, Repr
    {
      && Repr == {this, smooth, smooth.buf}
      && smooth.buf.Length == BcgSmoothWin
      && smooth.Valid()
    }

    constructor(hpAlpha: real)
      ensures Valid() && fresh(Repr) && this.hpAlpha == hpAlpha && State() == BcgInitial()
    {
      this.hpAlpha := hpAlpha;
      var s := new MovingAverage(BcgSmoothWin);
      smooth := s;
      Repr := {this, s, s.buf};
      prevX, prevY, sampleIndex := 0.0, 0.0, 0;
    }

    /** One BCG sample: returns the filtered value for the respiration-rate
        estimator and the plot. */
    method Process(x: real) returns (f: real)
      requires Valid()
      modifies Repr
      ensures BcgOut(State(), f) == BcgStep(hpAlpha, old(State()), x)
      ensures Valid()
    {
      var y := HighPass(hpAlpha, prevY, x, prevX);
      prevX, prevY := x, y;
      f := smooth.Push(y);
      sampleIndex := sampleIndex + 1;
    }

    /** The reset in Clear. */
    method Clear()
      requires Valid()
      modifies Repr
      ensures State() == BcgInitial()
      ensures Valid()
    {
      prevX, prevY := 0.0, 0.0;
      smooth.Clear();
      sampleIndex := 0;
    }
  }
}
