/** Blood-oxygen saturation from the red and infrared PPG channels. Both are
    kept in sliding windows of 160 samples with running sums and sums of
    squares (Filters.StatWindow). Every fifth display update the value is
    committed: with at least 160 / 3 = 53 samples, the DC part of each channel
    is its mean and the AC part its standard deviation; when both DC parts
    exceed 1 and both AC parts exceed 1e-6, the ratio of ratios
    R = (AC_red / DC_red) / (AC_ir / DC_ir) gives 121 - 9 R clamped to
    [90, 100], smoothed by an exponential moving average with weight 0.2 (the
    first reading is taken as it is) and rounded to the displayed value. */
module SpO2 {
  import opened Numeric

  const Window: int := 160
  /** Window / 3 in integer division. */
  const MinCount: int := 53
  const EmaAlpha: real := 0.2
  const CoeffA: real := 121.0
  const CoeffB: real := 9.0
  const Low: real := 90.0
  const High: real := 100.0
  /** The smallest AC part that is not treated as zero. */
  const MinAc: real := 0.000001

  /** The running sums of the two windows, over `count` samples. */
  datatype Stats = Stats(count: int, redSum: real, redSumSq: real, irSum: real, irSumSq: real)

  /** The smoothed value and the displayed (rounded) value; 0 means none yet. */
  datatype Reading = Reading(ema: real, value: int)

  /** The mean and the standard deviation of one channel. */
  function Dc(sum: real, n: real): real
    requires n > 0.0
  {
    sum / n
  }

  function Ac(sum: real, sumSq: real, n: real, sqrt: real -> real): real
    requires n > 0.0
  {
    sqrt(RealMax(0.0, sumSq / n - Dc(sum, n) * Dc(sum, n)))
  }

  /** The calibrated saturation for a ratio of ratios, clamped to [90, 100]. */
  function Saturation(ratio: real): (r: real)
    ensures Low <= r <= High
  {
    ClampR(CoeffA - CoeffB * ratio, Low, High)
  }

  /** The window holds enough samples and both channels pass the DC and AC
      guards. */
  predicate Guarded(s: Stats, sqrt: real -> real)
  {
    && s.count >= MinCount
    && var n := s.count as real;
       && Dc(s.redSum, n) > 1.0 && Dc(s.irSum, n) > 1.0
       && Ac(s.redSum, s.redSumSq, n, sqrt) > MinAc && Ac(s.irSum, s.irSumSq, n, sqrt) > MinAc
  }

  /** The saturation the window reads: 121 - 9 R for the ratio of ratios R,
      clamped to [90, 100]. */
  function Target(s: Stats, sqrt: real -> real): (r: real)
    requires Guarded(s, sqrt)
    ensures Low <= r <= High
  {
    var n := s.count as real;
    var ratio := (Ac(s.redSum, s.redSumSq, n, sqrt) / Dc(s.redSum, n))
               / (Ac(s.irSum, s.irSumSq, n, sqrt) / Dc(s.irSum, n));
    Saturation(ratio)
  }

  /** The commit: the reading is left alone when the window is too short or a
      guard fails, and otherwise smoothed toward the new saturation. */
  function Commit(s: Stats, r: Reading, sqrt: real -> real): Reading
  {
    if !Guarded(s, sqrt) then r
    else
      var spo2 := Target(s, sqrt);
      var ema := if r.value <= 0 then spo2 else (1.0 - EmaAlpha) * r.ema + EmaAlpha * spo2;
      Reading(ema, RoundHalfEven(ema))
  }

  /** The displayed value is none yet or in [90, 100], and once there is one
      the smoothed value lies in [90, 100] as well. */
  predicate Inv(r: Reading)
  {
    && (r.value == 0 || 90 <= r.value <= 100)
    && (r.value > 0 ==> Low <= r.ema <= High)
  }

  /** The reading before the first commit. */
  function Initial(): (r: Reading)
    ensures Inv(r)
  {
    Reading(0.0, 0)
  }

  /** Every commit keeps the reading within [90, 100]. */
  lemma {:induction false} CommitKeepsInv(s: Stats, r: Reading, sqrt: real -> real)
    requires Inv(r)
    ensures Inv(Commit(s, r, sqrt))
  {
    var c := Commit(s, r, sqrt);
    if c != r {
      assert Low <= c.ema <= High;
      RoundHalfEvenWithin(c.ema, 90, 100);
    }
  }

  /** When the reading changes, the window held enough samples and passed the
      guards, and the smoothed value became the window's saturation (first
      reading) or moved to 0.8 of its old distance from it. */
  lemma {:induction false} CommitSmooths(s: Stats, r: Reading, sqrt: real -> real)
    ensures var c := Commit(s, r, sqrt);
            c != r ==>
              && Guarded(s, sqrt)
              && (r.value <= 0 ==> c.ema == Target(s, sqrt))
              && (r.value > 0 ==> AbsR(c.ema - Target(s, sqrt)) == (1.0 - EmaAlpha) * AbsR(r.ema - Target(s, sqrt)))
              && c.value == RoundHalfEven(c.ema)
  {
    var c := Commit(s, r, sqrt);
    if c != r && r.value > 0 {
      var t := Target(s, sqrt);
      assert c.ema - t == (1.0 - EmaAlpha) * (r.ema - t);
    }
  }

  /** Too few samples leave the reading as it is. */
  lemma {:induction false} ShortWindowKeeps(s: Stats, r: Reading, sqrt: real -> real)
    requires s.count < MinCount
    ensures Commit(s, r, sqrt) == r
  {
  }

  /** Identical red and infrared windows give a ratio of 1 and so 121 - 9 = 112,
      which the clamp turns into 100: a first reading of 100. */
  lemma {:induction false} EqualChannelsReadFull(s: Stats, sqrt: real -> real)
    requires s.count >= MinCount
    requires s.redSum == s.irSum && s.redSumSq == s.irSumSq
    requires Dc(s.redSum, s.count as real) > 1.0 && Ac(s.redSum, s.redSumSq, s.count as real, sqrt) > MinAc
    ensures Commit(s, Initial(), sqrt) == Reading(High, 100)
  {
    var n := s.count as real;
    var q := Ac(s.redSum, s.redSumSq, n, sqrt) / Dc(s.redSum, n);
    assert q > 0.0;
    assert q / q == 1.0;
    assert Saturation(1.0) == High;
  }
}
