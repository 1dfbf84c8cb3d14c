/** The monitor itself: what happens to every sample that arrives from the
    sensor, and the Clear command.

    Every sample first enters the two 500-sample histories (BCG and red PPG)
    that the presence check looks at. When both PPG channels read below 20000
    the chair is reported empty and nothing else happens; otherwise the chair
    is reported occupied and the presence check on the BCG history runs. When
    somebody is present the PPG chain feeds the heart-rate estimator, the BCG
    chain the respiration-rate estimator, the red and infrared samples enter
    the SpO2 windows, the filtered signals go to the live plots and the sample
    is recorded (the last 2000 are kept). Every 100 measured samples the two
    temperatures are refreshed, and every fifth time the displayed values are
    committed: the heart rate through the stabiliser, the respiration rate as
    estimated, and the SpO2 reading from its windows. Reporting the chair
    empty restarts the count of 100. */
module Monitoring {
  import opened Numeric
  import opened Wrappers
  import opened Ring
  import opened Filters
  import opened Signals
  import opened HrConstraints
  import opened Presence
  import PeakDetector
  import SpO2
  import Chart
  import Alerts

  /** The length of the BCG and PPG histories. */
  const HistoryLength: int := 500
  /** Both PPG channels below this means nobody is in the chair. */
  const PpgThreshold: int := 20000
  /** The number of recorded samples kept. */
  const SamplesCap: int := 2000
  /** Measured samples between temperature refreshes. */
  const CommitEvery: int := 100
  /** Temperature refreshes between commits of the displayed values. */
  const CommitCycles: int := 5

  const ShortMin: int := -32768
  const ShortMax: int := 32767
  const UintMax: int := 4294967295

  /** A recorded sample: when it arrived and its six raw values. */
  datatype DataPoint = DataPoint(time: int, heart: int, breath: int, red: int, ir: int, t1: int, t2: int)

  /** The displayed values: heart rate, respiration rate (0 for none yet),
      the stabiliser's pending jump and the SpO2 reading. */
  datatype Vitals = Vitals(hr: int, rr: int, pending: Option<Pending>, spo2: SpO2.Reading)

  /** Every displayed value is unset or within its range. */
  predicate Displayed(v: Vitals)
  {
    && (v.hr == 0 || HrMin <= v.hr <= HrMax)
    && (v.rr == 0 || PeakDetector.BreathBand.lo <= v.rr <= PeakDetector.BreathBand.hi)
    && SpO2.Inv(v.spo2)
  }

  /** A rate an estimator may report: unset, or within its band. */
  predicate InBand(b: PeakDetector.Band, rate: int)
  {
    rate == 0 || b.lo <= rate <= b.hi
  }

  /** The commit of the displayed values: the heart rate through the
      stabiliser and the respiration rate as estimated, each only once its
      estimator has a rate, and the SpO2 reading from its windows. */
  function CommitVitals(v: Vitals, hrRate: int, rrRate: int, s: SpO2.Stats, sqrt: real -> real, now: int): Vitals
  {
    var o := if hrRate > 0 then Constrain(hrRate, v.hr, v.pending, now) else Outcome(v.hr, v.pending);
    Vitals(o.value, if rrRate > 0 then rrRate else v.rr, o.pending, SpO2.Commit(s, v.spo2, sqrt))
  }

  /** A commit keeps every displayed value unset or within its range. */
  lemma {:induction false} CommitKeepsDisplayed(v: Vitals, hrRate: int, rrRate: int, s: SpO2.Stats, sqrt: real -> real, now: int)
    requires Displayed(v)
    requires InBand(PeakDetector.HeartBand, hrRate) && InBand(PeakDetector.BreathBand, rrRate)
    ensures Displayed(CommitVitals(v, hrRate, rrRate, s, sqrt, now))
  {
    if hrRate > 0 {
      ConstrainInBand(hrRate, v.hr, v.pending, now);
    }
    SpO2.CommitKeepsInv(s, v.spo2, sqrt);
  }

  /** Once a heart rate is displayed, a commit moves it by at most 10 bpm,
      toward the estimate. */
  lemma {:induction false} CommitMovesHrGently(v: Vitals, hrRate: int, rrRate: int, s: SpO2.Stats, sqrt: real -> real, now: int)
    requires v.hr > 0 && InBand(PeakDetector.HeartBand, hrRate)
    ensures var c := CommitVitals(v, hrRate, rrRate, s, sqrt, now);
            && Abs(c.hr - v.hr) <= 2 * MaxStep
            && (hrRate > 0 ==> Min(v.hr, hrRate) <= c.hr <= Max(v.hr, hrRate))
            && (hrRate == 0 ==> c.hr == v.hr)
  {
    if hrRate > 0 {
      NoOvershoot(hrRate, v.hr, v.pending, now);
    }
  }

  /** The SpO2 alert can never fire: a committed reading is at least 90, which
      is also the alert's threshold. */
  lemma {:induction false} Spo2AlertNeverFires(v: Vitals, noPerson: bool)
    requires Displayed(v)
    ensures !Alerts.Spo2AlertActive(noPerson, v.spo2.value)
  {
    Alerts.CommittedSpo2NeverAlerts(noPerson, v.spo2.value);
  }

  /** The filtered BCG value as plotted: rounded and clamped to a short. */
  function ToShort(x: real): (r: int)
    ensures ShortMin <= r <= ShortMax
    ensures ShortMin <= RoundHalfEven(x) <= ShortMax ==> r == RoundHalfEven(x)
  {
    Clamp(RoundHalfEven(x), ShortMin, ShortMax)
  }

  /** The plotted PPG value: rounded and clamped to an unsigned int. */
  function ToUint(x: real): (r: int)
    ensures 0 <= r <= UintMax
    ensures 0 <= RoundHalfEven(x) <= UintMax ==> r == RoundHalfEven(x)
  {
    Clamp(RoundHalfEven(x), 0, UintMax)
  }

  /** The temperature shown for a raw reading: raw * 0.02 - 273.15 rounded to
      one decimal. */
  function Temperature(raw: int): real
  {
    RoundHalfEven((raw as real * 0.02 - 273.15) * 10.0) as real / 10.0
  }

  /** The shown temperature is within 0.05 degrees of the exact conversion. */
  lemma {:induction false} TemperatureClose(raw: int)
    ensures AbsR(Temperature(raw) - (raw as real * 0.02 - 273.15)) <= 0.05
  {
    var x := (raw as real * 0.02 - 273.15) * 10.0;
    RoundHalfEvenClose(x);
    var d := RoundHalfEven(x) as real - x;
    assert Temperature(raw) - (raw as real * 0.02 - 273.15) == d / 10.0;
  }

  /** The monitor's fixed parameters: the high-pass coefficients rc / (rc + dt)
      for the cut-offs 0.7 Hz (PPG) and 0.1 Hz (BCG) at 80 samples per second,
      and the square root. */
  datatype Config = Config(ppgAlpha: real, bcgAlpha: real, sqrt: real -> real)

  /** The state of the signal chains: the PPG chain feeding the heart-rate
      detector, the BCG chain feeding the respiration-rate detector, and the
      red and infrared SpO2 windows, oldest sample first. */
  datatype Pipeline = Pipeline(
    ppg: PpgState,
    bcg: BcgState,
    heart: PeakDetector.Detector,
    breath: PeakDetector.Detector,
    red: seq<real>,
    ir: seq<real>)

  /** The chains as constructed. */
  function PipelineInitial(): Pipeline
  {
    Pipeline(PpgInitial(), BcgInitial(), PeakDetector.Initial(), PeakDetector.Initial(), [], [])
  }

  /** Both detectors keep their invariants, and the two SpO2 windows share
      one write index, so they always hold as many samples, at most 160. */
  predicate PipelineInv(p: Pipeline)
  {
    && PeakDetector.Inv(PeakDetector.HeartBand, p.heart)
    && PeakDetector.Inv(PeakDetector.BreathBand, p.breath)
    && |p.red| == |p.ir| <= SpO2.Window
  }

  /** The count and the running sums of the two SpO2 windows. */
  function WindowStats(p: Pipeline): SpO2.Stats
  {
    SpO2.Stats(|p.red|, SumR(p.red), SumSqR(p.red), SumR(p.ir), SumSqR(p.ir))
  }

  /** The chains after one measured sample, and the two filtered values as
      plotted. */
  datatype Measurement = Measurement(pipe: Pipeline, bcgPlot: int, ppgPlot: int)

  /** The measuring steps for a sample with somebody present, in the order
      AddSample takes them: the red sample through the PPG chain and its
      z-score into the heart-rate detector, the BCG sample through the BCG
      chain and into the respiration-rate detector, then red and infrared
      into the SpO2 windows. */
  function MeasureStep(c: Config, p: Pipeline, v2: int, v3: int, v4: int): Measurement
    requires SqrtOk(c.sqrt)
  {
    var o := PpgStep(c.ppgAlpha, p.ppg, v3 as real, c.sqrt);
    var heart := PeakDetector.Step(PeakDetector.HeartBand, p.heart, o.z, o.state.sampleIndex);
    var b := BcgStep(c.bcgAlpha, p.bcg, v2 as real);
    var breath := PeakDetector.Step(PeakDetector.BreathBand, p.breath, b.filtered, b.state.sampleIndex);
    var red := Last(SpO2.Window, p.red + [v3 as real]);
    var ir := Last(SpO2.Window, p.ir + [v4 as real]);
    Measurement(Pipeline(o.state, b.state, heart, breath, red, ir), ToShort(b.filtered), ToUint(o.plot))
  }

  /** The chains as constructed keep the invariant: no intervals, no rates,
      empty windows. */
  lemma {:induction false} InitialPipelineInv()
    ensures PipelineInv(PipelineInitial())
    ensures PipelineInitial().heart.rate == 0 && PipelineInitial().breath.rate == 0
  {
    assert PeakDetector.BandOk(PeakDetector.HeartBand);
    assert PeakDetector.BandOk(PeakDetector.BreathBand);
  }

  /** A measured sample keeps the invariant; both rates stay unset or within
      their bands (40..200 beats, 6..40 breaths a minute), the SpO2 windows
      hold the last (up to) 160 samples, and the plotted values fit their
      integer types. */
  lemma {:induction false} MeasureKeepsInv(c: Config, p: Pipeline, v2: int, v3: int, v4: int)
    requires SqrtOk(c.sqrt) && PipelineInv(p)
    ensures var m := MeasureStep(c, p, v2, v3, v4);
            && PipelineInv(m.pipe)
            && InBand(PeakDetector.HeartBand, m.pipe.heart.rate)
            && InBand(PeakDetector.BreathBand, m.pipe.breath.rate)
            && |m.pipe.red| == Min(|p.red| + 1, SpO2.Window)
            && m.pipe.red[|m.pipe.red| - 1] == v3 as real && m.pipe.ir[|m.pipe.ir| - 1] == v4 as real
            && ShortMin <= m.bcgPlot <= ShortMax && 0 <= m.ppgPlot <= UintMax
  {
    var o := PpgStep(c.ppgAlpha, p.ppg, v3 as real, c.sqrt);
    var b := BcgStep(c.bcgAlpha, p.bcg, v2 as real);
    PeakDetector.StepKeepsInv(PeakDetector.HeartBand, p.heart, o.z, o.state.sampleIndex);
    PeakDetector.StepKeepsInv(PeakDetector.BreathBand, p.breath, b.filtered, b.state.sampleIndex);
    LastSuffix(SpO2.Window, p.red + [v3 as real]);
    LastSuffix(SpO2.Window, p.ir + [v4 as real]);
  }

  /** Where a present sample stands in the commit cadence: refreshes since the
      last commit times 100, plus samples since the last refresh. */
  function Phase(count: int, counthr: int): int
  {
    counthr * CommitEvery + count
  }

  /** The two counters after a measured sample. */
  function TickCount(count: int): int
  {
    (count + 1) % CommitEvery
  }

  function TickCounthr(count: int, counthr: int): int
  {
    if count == CommitEvery - 1 then (counthr + 1) % CommitCycles else counthr
  }

  /** Whether a measured sample commits the displayed values. */
  predicate Commits(count: int, counthr: int)
  {
    count == CommitEvery - 1 && counthr == CommitCycles - 1
  }

  /** The two counters together count present samples modulo 500, and the
      displayed values are committed exactly on the 500th: the cadence of
      one commit every 500 measured samples. */
  lemma {:induction false} CadenceIsEvery500(count: int, counthr: int)
    requires 0 <= count < CommitEvery && 0 <= counthr < CommitCycles
    ensures 0 <= Phase(count, counthr) < CommitEvery * CommitCycles
    ensures Phase(TickCount(count), TickCounthr(count, counthr)) == (Phase(count, counthr) + 1) % (CommitEvery * CommitCycles)
    ensures Commits(count, counthr) <==> Phase(count, counthr) == CommitEvery * CommitCycles - 1
  {
    if count < CommitEvery - 1 {
      assert TickCount(count) == count + 1;
    } else if counthr < CommitCycles - 1 {
      assert TickCount(count) == 0 && TickCounthr(count, counthr) == counthr + 1;
    } else {
      assert TickCount(count) == 0 && TickCounthr(count, counthr) == 0;
    }
  }

  /** Both PPG channels below 20000 counts: nobody is in the chair. */
  predicate LowPpg(v3: int, v4: int)
  {
    v3 < PpgThreshold && v4 < PpgThreshold
  }


  /** Everything the monitor keeps between samples, apart from the plots: the
      two 500-sample histories and the number of samples seen, the presence
      check, the chains, the displayed values, the record, the two counters of
      the commit cadence and the two temperatures. */
  datatype MonitorState = MonitorState(
    bcg: seq<real>,
    ppg: seq<real>,
    totalSamples: int,
    watch: Watch,
    pipe: Pipeline,
    shown: Vitals,
    samples: seq<DataPoint>,
    count: int,
    counthr: int,
    t1: real,
    t2: real)

  /** Full histories, chains and displayed values within their invariants,
      counters within their cycles and at most 2000 recorded samples. */
  predicate MonitorInv(s: MonitorState)
  {
    && |s.bcg| == HistoryLength && |s.ppg| == HistoryLength
    && PipelineInv(s.pipe)
    && Displayed(s.shown)
    && 0 <= s.count < CommitEvery && 0 <= s.counthr < CommitCycles
    && |s.samples| <= SamplesCap
  }

  /** The sample enters both histories (PushBack on each). */
  function Shifted(s: MonitorState, v2: int, v3: int): MonitorState
  {
    s.(bcg := Last(HistoryLength, s.bcg + [v2 as real]),
       ppg := Last(HistoryLength, s.ppg + [v3 as real]),
       totalSamples := s.totalSamples + 1)
  }

  /** The no-person flag is set; setting it (when it was clear) restarts the
      count of 100. */
  function Flagged(s: MonitorState): MonitorState
  {
    if s.watch.noPerson then s else s.(watch := s.watch.(noPerson := true), count := 0)
  }

  /** The presence check on the BCG history (CheckNoPerson); reporting the
      chair empty restarts the count of 100. */
  ghost function Checked(s: MonitorState, sqrt: real -> real, now: int): MonitorState
  {
    var w := Check(s.watch, s.totalSamples, Flat(s.bcg, FlatWindow, FlatThreshold, sqrt), now);
    s.(watch := w, count := if w.noPerson && !s.watch.noPerson then 0 else s.count)
  }

  /** The chains after a measured sample. */
  function Measured(c: Config, s: MonitorState, v2: int, v3: int, v4: int): MonitorState
    requires SqrtOk(c.sqrt)
  {
    s.(pipe := MeasureStep(c, s.pipe, v2, v3, v4).pipe)
  }

  /** The sample is recorded; the oldest of more than 2000 is dropped. */
  function Recorded(s: MonitorState, d: DataPoint): MonitorState
  {
    s.(samples := Last(SamplesCap, s.samples + [d]))
  }

  /** The cadence after a measured sample: the count of 100 moves on; at 100
      the temperatures are refreshed from v3 and v4 and the count of
      refreshes moves on; at the fifth refresh the displayed values are
      committed. */
  function Ticked(s: MonitorState, v3: int, v4: int, sqrt: real -> real, now: int): MonitorState
  {
    if s.count + 1 < CommitEvery then s.(count := s.count + 1)
    else
      var shown := if Commits(s.count, s.counthr)
                   then CommitVitals(s.shown, s.pipe.heart.rate, s.pipe.breath.rate, WindowStats(s.pipe), sqrt, now)
                   else s.shown;
      s.(count := 0, counthr := TickCounthr(s.count, s.counthr), t1 := Temperature(v3), t2 := Temperature(v4), shown := shown)
  }

  /** A sample with somebody present: measured, recorded and counted. */
  function Present(c: Config, s: MonitorState, v1: int, v2: int, v3: int, v4: int, v5: int, v6: int, now: int): MonitorState
    requires SqrtOk(c.sqrt)
  {
    Ticked(Recorded(Measured(c, s, v2, v3, v4), DataPoint(now, v1, v2, v3, v4, v5, v6)), v3, v4, c.sqrt, now)
  }

  /** A sample that passed the PPG gate: the flag is cleared and the presence
      check runs; if it finds somebody present the sample is measured. */
  ghost function Attended(c: Config, s: MonitorState, v1: int, v2: int, v3: int, v4: int, v5: int, v6: int, now: int): MonitorState
    requires SqrtOk(c.sqrt)
  {
    var s2 := Checked(s.(watch := s.watch.(noPerson := false)), c.sqrt, now);
    if s2.watch.noPerson then s2 else Present(c, s2, v1, v2, v3, v4, v5, v6, now)
  }

  /** One sample (AddSample): into the histories; both PPG channels below
      20000 set the no-person flag and end the step; otherwise it is
      attended to. */
  ghost function Sample(c: Config, s: MonitorState, v1: int, v2: int, v3: int, v4: int, v5: int, v6: int, now: int): MonitorState
    requires SqrtOk(c.sqrt)
  {
    var s1 := Shifted(s, v2, v3);
    if LowPpg(v3, v4) then Flagged(s1) else Attended(c, s1, v1, v2, v3, v4, v5, v6, now)
  }

  /** The state reset of the Clear command: the record, the presence check,
      both chains and detectors, and the pending heart-rate jump. The SpO2
      windows, the displayed values, the counters, the temperatures and the
      histories are kept. */
  function Cleared(s: MonitorState): MonitorState
  {
    s.(samples := [], watch := Watch(None, false), totalSamples := 0,
       pipe := PipelineInitial().(red := s.pipe.red, ir := s.pipe.ir),
       shown := s.shown.(pending := None))
  }

  /** Both PPG channels below 20000: the chair is reported empty and nothing
      is filtered, detected, windowed, recorded or committed; the count of
      100 restarts if the flag was clear. */
  lemma {:induction false} LowPpgTouchesNothing(c: Config, s: MonitorState, v1: int, v2: int, v3: int, v4: int, v5: int, v6: int, now: int)
    requires SqrtOk(c.sqrt) && LowPpg(v3, v4)
    ensures var r := Sample(c, s, v1, v2, v3, v4, v5, v6, now);
            && r.watch == s.watch.(noPerson := true)
            && r.pipe == s.pipe && r.shown == s.shown && r.samples == s.samples
            && r.counthr == s.counthr && r.t1 == s.t1 && r.t2 == s.t2
            && r.count == (if s.watch.noPerson then s.count else 0)
            && r.totalSamples == s.totalSamples + 1
  {
  }

  /** Whenever a sample leaves the chair reported empty, the chains, the
      displayed values, the record, the refresh count and the temperatures
      are as they were, and the count of 100 either is as it was (the flag
      was already set by the PPG gate) or restarts. */
  lemma {:induction false} AbsentTouchesNothing(c: Config, s: MonitorState, v1: int, v2: int, v3: int, v4: int, v5: int, v6: int, now: int)
    requires SqrtOk(c.sqrt)
    ensures var r := Sample(c, s, v1, v2, v3, v4, v5, v6, now);
            r.watch.noPerson ==>
              && r.pipe == s.pipe && r.shown == s.shown && r.samples == s.samples
              && r.counthr == s.counthr && r.t1 == s.t1 && r.t2 == s.t2
              && (r.count == s.count || r.count == 0)
  {
    if !LowPpg(v3, v4) {
      var s1 := Shifted(s, v2, v3);
      var s2 := Checked(s1.(watch := s1.watch.(noPerson := false)), c.sqrt, now);
      if s2.watch.noPerson {
        assert Attended(c, s1, v1, v2, v3, v4, v5, v6, now) == s2;
      }
    }
  }

  /** A sample with somebody present runs both chains and detectors, the
      SpO2 windows, the record and the cadence; the presence check on the
      new history reports someone present. */
  lemma {:induction false} PresentMeasures(c: Config, s: MonitorState, v1: int, v2: int, v3: int, v4: int, v5: int, v6: int, now: int)
    requires SqrtOk(c.sqrt) && 0 <= s.count < CommitEvery
    ensures var r := Sample(c, s, v1, v2, v3, v4, v5, v6, now);
            !r.watch.noPerson ==>
              && !LowPpg(v3, v4)
              && r.pipe == MeasureStep(c, s.pipe, v2, v3, v4).pipe
              && r.samples == Last(SamplesCap, s.samples + [DataPoint(now, v1, v2, v3, v4, v5, v6)])
              && r.count == TickCount(s.count)
              && r.counthr == TickCounthr(s.count, s.counthr)
              && r.shown == (if Commits(s.count, s.counthr)
                             then CommitVitals(s.shown, r.pipe.heart.rate, r.pipe.breath.rate, WindowStats(r.pipe), c.sqrt, now)
                             else s.shown)
  {
    var r := Sample(c, s, v1, v2, v3, v4, v5, v6, now);
    if !LowPpg(v3, v4) {
      var s1 := Shifted(s, v2, v3);
      var s2 := Checked(s1.(watch := s1.watch.(noPerson := false)), c.sqrt, now);
      if !s2.watch.noPerson {
        assert s2.count == s.count && s2.pipe == s.pipe;
        assert r == Present(c, s2, v1, v2, v3, v4, v5, v6, now);
      }
    }
  }

  /** The displayed values change only with somebody present, and only on
      the sample that completes a cycle of 500. */
  lemma {:induction false} ShownChangesOnlyOnCommit(c: Config, s: MonitorState, v1: int, v2: int, v3: int, v4: int, v5: int, v6: int, now: int)
    requires SqrtOk(c.sqrt) && 0 <= s.count < CommitEvery
    ensures var r := Sample(c, s, v1, v2, v3, v4, v5, v6, now);
            r.shown != s.shown ==> !r.watch.noPerson && Commits(s.count, s.counthr)
  {
    AbsentTouchesNothing(c, s, v1, v2, v3, v4, v5, v6, now);
    PresentMeasures(c, s, v1, v2, v3, v4, v5, v6, now);
  }

  /** Every sample keeps the monitor's invariant: in particular the
      displayed heart rate stays unset or in 40..200, the respiration rate
      unset or in 6..40 and the SpO2 value unset or in 90..100. */
  lemma {:induction false} SampleKeepsInv(c: Config, s: MonitorState, v1: int, v2: int, v3: int, v4: int, v5: int, v6: int, now: int)
    requires SqrtOk(c.sqrt) && MonitorInv(s)
    ensures MonitorInv(Sample(c, s, v1, v2, v3, v4, v5, v6, now))
  {
    var r := Sample(c, s, v1, v2, v3, v4, v5, v6, now);
    AbsentTouchesNothing(c, s, v1, v2, v3, v4, v5, v6, now);
    PresentMeasures(c, s, v1, v2, v3, v4, v5, v6, now);
    if !r.watch.noPerson {
      MeasureKeepsInv(c, s.pipe, v2, v3, v4);
      if Commits(s.count, s.counthr) {
        CommitKeepsDisplayed(s.shown, r.pipe.heart.rate, r.pipe.breath.rate, WindowStats(r.pipe), c.sqrt, now);
      }
    }
  }

  /** Clear keeps the invariant and leaves both detectors without a rate. */
  lemma {:induction false} ClearedKeepsInv(s: MonitorState)
    requires MonitorInv(s)
    ensures MonitorInv(Cleared(s))
    ensures Cleared(s).pipe.heart.rate == 0 && Cleared(s).pipe.breath.rate == 0
  {
    InitialPipelineInv();
  }

  /** The live plots took one AddData step with v1 and the measurement's
      two filtered values: each series advanced, the cursor markers (when
      shown) moved to the slot just written, and the capacity, the cursor
      setting and the time range stayed. */
  twostate predicate Plotted(plots: Chart.ChasingPlot, v1: int, m: Measurement)
    requires old(plots.Valid())
    reads plots
  {
    && plots.maxPoints == old(plots.maxPoints)
    && Chart.Sweep(plots.series1, plots.writeIndex, plots.count)
       == Chart.Add(Chart.Sweep(old(plots.series1), old(plots.writeIndex), old(plots.count)), plots.maxPoints, v1)
    && Chart.Sweep(plots.series2, plots.writeIndex, plots.count)
       == Chart.Add(Chart.Sweep(old(plots.series2), old(plots.writeIndex), old(plots.count)), plots.maxPoints, m.bcgPlot)
    && Chart.Sweep(plots.series3, plots.writeIndex, plots.count)
       == Chart.Add(Chart.Sweep(old(plots.series3), old(plots.writeIndex), old(plots.count)), plots.maxPoints, m.ppgPlot)
    && plots.showCursorPoint == old(plots.showCursorPoint)
    && plots.timeRangeHours == old(plots.timeRangeHours)
    && plots.cursor1 == (if plots.showCursorPoint then [Chart.Point(old(plots.writeIndex), v1)] else old(plots.cursor1))
    && plots.cursor2 == (if plots.showCursorPoint then [Chart.Point(old(plots.writeIndex), m.bcgPlot)] else old(plots.cursor2))
    && plots.cursor3 == (if plots.showCursorPoint then [Chart.Point(old(plots.writeIndex), m.ppgPlot)] else old(plots.cursor3))
  }

  class Monitor {
    const cfg: Config
    const plots: Chart.ChasingPlot
    var bcg: array<real>
    var ppg: array<real>
    var totalSamples: int
    /** The presence check's flat-period start and the no-person flag. */
    var watch: Watch
    var pipe: Pipeline
    /** HRValue, RRValue, the pending heart-rate jump and the SpO2 reading. */
    var shown: Vitals
    var samples: seq<DataPoint>
    /** Measured samples since the last temperature refresh. */
    var count: int
    /** Temperature refreshes since the last commit. */
    var counthr: int
    var t1: real
    var t2: real

    ghost function State(): MonitorState
      reads this, bcg, ppg
    {
      MonitorState(bcg[..], ppg[..], totalSamples, watch, pipe, shown, samples, count, counthr, t1, t2)
    }

    ghost predicate Valid()
      reads this, plots, bcg, ppg
    {
      && plots.Valid()
      && SqrtOk(cfg.sqrt)
      && MonitorInv(State())
    }

    /** The start-up state: nobody in the chair, no values, empty chains,
        histories of zeros and a chart of maxPoints points over one hour. */
    constructor(c: Config, maxPoints: int)
      requires maxPoints > 0 && SqrtOk(c.sqrt)
      ensures Valid() && fresh(plots) && cfg == c
      ensures State() == MonitorState(Zeros(), Zeros(), 0, Watch(None, true), PipelineInitial(),
                                      Vitals(0, 0, None, SpO2.Initial()), [], 0, 0, 0.0, 0.0)
      ensures plots.maxPoints == maxPoints && plots.timeRangeHours == 1 && plots.showCursorPoint
      ensures plots.series1 == plots.series2 == plots.series3 == []
      ensures plots.cursor1 == plots.cursor2 == plots.cursor3 == []
      ensures plots.writeIndex == 0 && plots.count == 0
    {
      cfg := c;
      plots := new Chart.ChasingPlot(maxPoints);
      bcg := new real[HistoryLength](_ => 0.0);
      ppg := new real[HistoryLength](_ => 0.0);
      totalSamples, watch := 0, Watch(None, true);
      pipe := PipelineInitial();
      shown := Vitals(0, 0, None, SpO2.Initial());
      samples, count, counthr, t1, t2 := [], 0, 0, 0.0, 0.0;
      InitialPipelineInv();
    }

    /** The zero-filled history of a fresh monitor. */
    static function Zeros(): seq<real>
    {
      seq(HistoryLength, _ => 0.0)
    }

    /** One sample from the sensor: v1 ECG/BCG, v2 BCG, v3 red, v4 infrared,
        v5 and v6 raw temperatures; now is the current time in ticks. With
        somebody present, v1 and the two filtered signals go onto the live
        plots; otherwise the plots are left alone. */
    method AddSample(v1: int, v2: int, v3: int, v4: int, v5: int, v6: int, now: int)
      requires Valid()
      modifies this, plots
      ensures State() == Sample(cfg, old(State()), v1, v2, v3, v4, v5, v6, now)
      ensures watch.noPerson ==> unchanged(plots)
      ensures !watch.noPerson ==> Plotted(plots, v1, MeasureStep(cfg, old(pipe), v2, v3, v4))
      ensures Valid()
    {
      Shift(v2, v3);
      if v3 < PpgThreshold && v4 < PpgThreshold {
        Flag();
      } else {
        Attend(v1, v2, v3, v4, v5, v6, now);
      }
    }

    /** The PPG gate: the no-person flag is set. */
    method Flag()
      requires Valid()
      modifies this
      ensures State() == Flagged(old(State()))
      ensures Valid()
    {
      if !watch.noPerson {
        watch, count := watch.(noPerson := true), 0;
      }
    }

    /** A sample past the PPG gate: the flag is cleared, the presence check
        runs and, with somebody present, the sample is measured. */
    method Attend(v1: int, v2: int, v3: int, v4: int, v5: int, v6: int, now: int)
      requires Valid()
      modifies this, plots
      ensures State() == Attended(cfg, old(State()), v1, v2, v3, v4, v5, v6, now)
      ensures watch.noPerson ==> unchanged(plots)
      ensures !watch.noPerson ==> Plotted(plots, v1, MeasureStep(cfg, old(pipe), v2, v3, v4))
      ensures Valid()
    {
      watch := watch.(noPerson := false);
      CheckNoPerson(now);
      if watch.noPerson {
        return;
      }
      Record(v1, v2, v3, v4, v5, v6, now);
    }

    /** A sample with somebody present: measured, recorded and counted. */
    method Record(v1: int, v2: int, v3: int, v4: int, v5: int, v6: int, now: int)
      requires Valid()
      modifies this, plots
      ensures State() == Present(cfg, old(State()), v1, v2, v3, v4, v5, v6, now)
      ensures Plotted(plots, v1, MeasureStep(cfg, old(pipe), v2, v3, v4))
      ensures Valid()
    {
      Measure(v1, v2, v3, v4);
      samples := Last(SamplesCap, samples + [DataPoint(now, v1, v2, v3, v4, v5, v6)]);
      Tick(v3, v4, now);
    }

    /** The sample enters both histories. */
    method Shift(v2: int, v3: int)
      requires Valid()
      modifies this
      ensures State() == Shifted(old(State()), v2, v3)
      ensures Valid()
    {
      var b := PushBack(bcg, v2 as real);
      var p := PushBack(ppg, v3 as real);
      bcg, ppg, totalSamples := b, p, totalSamples + 1;
    }

    /** The presence check on the BCG history. */
    method CheckNoPerson(now: int)
      requires Valid()
      modifies this
      ensures State() == Checked(old(State()), cfg.sqrt, now)
      ensures Valid()
    {
      if totalSamples < FlatWindow {
        watch := Watch(None, false);
        return;
      }
      var flat := IsLowDeviation(bcg, FlatWindow, FlatThreshold, cfg.sqrt);
      if flat {
        var since := if watch.flatSince == None then now else watch.flatSince.value;
        if !watch.noPerson && now - since >= Debounce {
          watch, count := Watch(Some(since), true), 0;
        } else {
          watch := Watch(Some(since), watch.noPerson);
        }
      } else {
        watch := Watch(None, false);
      }
    }

    /** The measuring steps for a sample with somebody present, and the
        filtered signals onto the live plots. */
    method Measure(v1: int, v2: int, v3: int, v4: int)
      requires Valid()
      modifies this, plots
      ensures State() == Measured(cfg, old(State()), v2, v3, v4)
      ensures Plotted(plots, v1, MeasureStep(cfg, old(pipe), v2, v3, v4))
      ensures Valid()
    {
      var m := MeasureStep(cfg, pipe, v2, v3, v4);
      MeasureKeepsInv(cfg, pipe, v2, v3, v4);
      pipe := m.pipe;
      plots.AddData(v1, m.bcgPlot, m.ppgPlot);
    }

    /** Count the measured sample; every 100th refreshes the temperatures and
        every fifth refresh commits the displayed values. */
    method Tick(v3: int, v4: int, now: int)
      requires Valid()
      modifies this
      ensures State() == Ticked(old(State()), v3, v4, cfg.sqrt, now)
      ensures Valid()
    {
      if count + 1 < CommitEvery {
        count := count + 1;
      } else {
        Refresh(v3, v4, now);
      }
    }

    /** The 100th measured sample: the temperatures are refreshed, and the
        fifth refresh commits the displayed values. */
    method Refresh(v3: int, v4: int, now: int)
      requires Valid() && count == CommitEvery - 1
      modifies this
      ensures State() == Ticked(old(State()), v3, v4, cfg.sqrt, now)
      ensures Valid()
    {
      var v := shown;
      if counthr + 1 == CommitCycles {
        v := Commit(now);
      }
      count, counthr, t1, t2, shown := 0, TickCounthr(count, counthr), Temperature(v3), Temperature(v4), v;
    }

    /** The commit of the displayed values: the heart rate through the
        stabiliser, the respiration rate as estimated (each only once its
        detector has a rate) and the SpO2 reading from its windows. */
    method Commit(now: int) returns (v: Vitals)
      requires PipelineInv(pipe) && Displayed(shown)
      ensures v == CommitVitals(shown, pipe.heart.rate, pipe.breath.rate, WindowStats(pipe), cfg.sqrt, now)
      ensures Displayed(v)
    {
      var heartRate, breathRate := pipe.heart.rate, pipe.breath.rate;
      var hr, rr, pending := shown.hr, shown.rr, shown.pending;
      if heartRate > 0 {
        var o := Constrain(heartRate, hr, pending, now);
        hr, pending := o.value, o.pending;
      }
      if breathRate > 0 {
        rr := breathRate;
      }
      var reading := SpO2.Commit(WindowStats(pipe), shown.spo2, cfg.sqrt);
      v := Vitals(hr, rr, pending, reading);
      CommitKeepsDisplayed(shown, heartRate, breathRate, WindowStats(pipe), cfg.sqrt, now);
    }

    /** The Clear command: the plots are emptied and the state reset. */
    method Clear()
      requires Valid()
      modifies this, plots
      ensures State() == Cleared(old(State()))
      ensures Chart.Sweep(plots.series1, plots.writeIndex, plots.count) == Chart.Empty()
      ensures plots.series2 == [] && plots.series3 == []
      ensures plots.cursor1 == plots.cursor2 == plots.cursor3 == []
      ensures plots.maxPoints == old(plots.maxPoints) && plots.showCursorPoint == old(plots.showCursorPoint)
      ensures plots.timeRangeHours == old(plots.timeRangeHours)
      ensures Valid()
    {
      plots.Clear();
      ClearedKeepsInv(State());
      samples, watch, totalSamples := [], Watch(None, false), 0;
      pipe, shown := PipelineInitial().(red := pipe.red, ir := pipe.ir), shown.(pending := None);
    }
  }
}
