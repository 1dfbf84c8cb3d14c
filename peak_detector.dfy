/** The peak-interval rate estimator used twice by the monitor: once on the
    normalised PPG signal for the heart rate and once on the filtered BCG signal
    for the respiration rate. Both run the same algorithm with different
    constants (a Band):
    - an envelope, an exponential moving average of |v| with weight 0.1,
      and a threshold at 0.6 of that envelope;
    - while the signal is above the threshold, the largest value and its sample
      index become the candidate peak;
    - on the crossing back down, the candidate becomes a peak if it lies at
      least minDistance samples after the previous peak, and the interval
      between them is stored in a ring of the last `capacity` intervals when its
      rate (4800 / interval, i.e. 60 s x 80 samples/s) lies in [lo, hi];
    - the rate is then the rounded 4800 / (mean interval of the ring), kept only
      when it also lies in [lo, hi]. */
module PeakDetector {
  import opened Numeric
  import opened Ring

  /** Samples per minute at the 80 Hz stream rate. */
  const SamplesPerMinute: int := 4800
  /** int.MinValue / 4, the "no previous peak" index. */
  const NoPeak: int := -536870912

  /** The constants of one estimator. */
  datatype Band = Band(minDistance: int, capacity: nat, lo: int, hi: int)

  /** Heart rate: refractory 80 / 3 = 26 samples, 8 intervals, 40..200 bpm. */
  const HeartBand := Band(26, 8, 40, 200)
  /** Respiration: refractory 80 samples, 6 intervals, 6..40 breaths/min. */
  const BreathBand := Band(80, 6, 6, 40)

  predicate BandOk(b: Band)
  {
    0 < b.minDistance && 0 < b.capacity && 0 < b.lo <= b.hi
  }

  /** The rate of one interval of `ibi` samples, in events per minute. */
  function Rate(ibi: int): real
    requires ibi > 0
  {
    SamplesPerMinute as real / ibi as real
  }

  /** The interval is positive and its rate lies within the band. */
  predicate Plausible(b: Band, ibi: int)
  {
    ibi > 0 && b.lo as real <= Rate(ibi) && Rate(ibi) <= b.hi as real
  }

  /** Every stored interval is plausible. */
  predicate AllPlausible(b: Band, s: seq<int>)
  {
    forall k :: 0 <= k < |s| ==> Plausible(b, s[k])
  }

  /** The mean of the stored intervals, over at least one slot. */
  function MeanInterval(s: seq<int>): real
  {
    SumI(s) as real / Max(1, |s|) as real
  }

  /** The state of one estimator. */
  datatype Detector = Detector(
    envelope: real,
    isAbove: bool,
    candidateMax: real,
    candidateIndex: int,
    lastPeak: int,
    intervals: seq<int>,
    rate: int)

  /** The state after construction and after Clear. */
  function Initial(): Detector
  {
    Detector(0.0, false, 0.0, 0, NoPeak, [], 0)
  }

  /** The invariant of the estimator: at most `capacity` intervals, each of
      them plausible, and a rate that is either unset (0) or within the band. */
  predicate Inv(b: Band, d: Detector)
  {
    && BandOk(b)
    && |d.intervals| <= b.capacity
    && AllPlausible(b, d.intervals)
    && (d.rate == 0 || b.lo <= d.rate <= b.hi)
  }

  /** The envelope after a sample: it moves 10 % of the way to |v|. */
  function Envelope(e: real, v: real): real
  {
    0.9 * e + 0.1 * AbsR(v)
  }

  /** The threshold: 0.6 of the envelope. */
  function Threshold(e: real): real
  {
    0.6 * e
  }

  /** The rounded rate of a mean interval. A mean of zero would make the
      division infinite and the cast to int out of range, which the band check
      then rejects; 0 stands for that case (it lies below every band). */
  function RateOf(mean: real): int
  {
    if mean > 0.0 then RoundHalfEven(SamplesPerMinute as real / mean) else 0
  }

  /** One sample v, taken at sample index `index`. */
  function Step(b: Band, d: Detector, v: real, index: int): Detector
  {
    var e := Envelope(d.envelope, v);
    var d1 := d.(envelope := e);
    if v > Threshold(e) then
      if !d.isAbove then d1.(isAbove := true, candidateMax := v, candidateIndex := index)
      else if v > d.candidateMax then d1.(candidateMax := v, candidateIndex := index)
      else d1
    else if d.isAbove then
      Commit(b, d1).(isAbove := false)
    else
      d1
  }

  /** The crossing down: the candidate becomes a peak if it is far enough from
      the previous one, and its interval is recorded if plausible. */
  function Commit(b: Band, d: Detector): Detector
  {
    var ibi := d.candidateIndex - d.lastPeak;
    if ibi < b.minDistance then d
    else if !Plausible(b, ibi) then d.(lastPeak := d.candidateIndex)
    else Accept(b, d.(lastPeak := d.candidateIndex), ibi)
  }

  /** Record an interval and recompute the rate from the mean interval, keeping
      the old rate when the new one falls outside the band. */
  function Accept(b: Band, d: Detector, ibi: int): Detector
  {
    var w := Last(b.capacity, d.intervals + [ibi]);
    var r := RateOf(MeanInterval(w));
    d.(intervals := w, rate := if b.lo <= r <= b.hi then r else d.rate)
  }

  /** Recording a plausible interval keeps the invariant, and the band check on
      the rounded rate never rejects it: the rate always becomes the rounded
      rate of the new mean interval, which lies in the band. */
  lemma {:induction false} AcceptKeepsInv(b: Band, d: Detector, ibi: int)
    requires Inv(b, d) && Plausible(b, ibi)
    ensures var r := Accept(b, d, ibi);
            && Inv(b, r)
            && r.intervals == Last(b.capacity, d.intervals + [ibi]) && |r.intervals| > 0
            && MeanInterval(r.intervals) > 0.0
            && r.rate == RoundHalfEven(SamplesPerMinute as real / MeanInterval(r.intervals))
            && b.lo <= r.rate <= b.hi
  {
    var w := Last(b.capacity, d.intervals + [ibi]);
    PushPlausible(b, d.intervals, ibi);
    MeanRateInBand(b, w);
  }

  /** The crossing down keeps the invariant. */
  lemma {:induction false} CommitKeepsInv(b: Band, d: Detector)
    requires Inv(b, d)
    ensures Inv(b, Commit(b, d))
  {
    var ibi := d.candidateIndex - d.lastPeak;
    if ibi >= b.minDistance && Plausible(b, ibi) {
      PushPlausible(b, d.intervals, ibi);
    }
  }

  /** Every sample keeps the invariant: at most `capacity` intervals, all
      plausible, and a rate that is unset or within the band. */
  lemma {:induction false} StepKeepsInv(b: Band, d: Detector, v: real, index: int)
    requires Inv(b, d)
    ensures Inv(b, Step(b, d, v, index))
  {
    var e := Envelope(d.envelope, v);
    if !(v > Threshold(e)) && d.isAbove {
      CommitKeepsInv(b, d.(envelope := e));
    }
  }

  /** Appending a plausible interval and keeping the last `capacity` keeps
      every interval plausible and the window non-empty. */
  lemma {:induction false} PushPlausible(b: Band, s: seq<int>, ibi: int)
    requires BandOk(b) && AllPlausible(b, s) && Plausible(b, ibi)
    ensures var w := Last(b.capacity, s + [ibi]);
            AllPlausible(b, w) && 0 < |w| <= b.capacity
  {
    var t := s + [ibi];
    var w := Last(b.capacity, t);
    LastSuffix(b.capacity, t);
    forall k | 0 <= k < |w|
      ensures Plausible(b, w[k])
    {
      assert w[k] == t[|t| - |w| + k];
    }
  }

  /** A plausible interval lies between SamplesPerMinute / hi and
      SamplesPerMinute / lo, stated without division. */
  lemma {:induction false} PlausibleBounds(b: Band, ibi: int)
    requires BandOk(b)
    ensures Plausible(b, ibi) <==> ibi > 0 && b.lo * ibi <= SamplesPerMinute <= b.hi * ibi
  {
    if ibi > 0 {
      var x := ibi as real;
      assert Rate(ibi) * x == SamplesPerMinute as real;
      assert b.lo as real <= Rate(ibi) <==> b.lo as real * x <= Rate(ibi) * x;
      assert Rate(ibi) <= b.hi as real <==> Rate(ibi) * x <= b.hi as real * x;
    }
  }

  /** Summing the bounds of each plausible interval over a window. */
  lemma {:induction false} SumBounds(b: Band, s: seq<int>)
    requires BandOk(b) && AllPlausible(b, s)
    ensures b.lo * SumI(s) <= SamplesPerMinute * |s| <= b.hi * SumI(s)
    ensures |s| > 0 ==> SumI(s) > 0
  {
    if s != [] {
      var p := s[..|s| - 1];
      var x := s[|s| - 1];
      assert AllPlausible(b, p) by {
        forall k | 0 <= k < |p| ensures Plausible(b, p[k]) {
          assert p[k] == s[k];
        }
      }
      SumBounds(b, p);
      PlausibleBounds(b, x);
      assert SumI(s) == SumI(p) + x;
      Distribute(b.lo, SumI(p), x);
      Distribute(b.hi, SumI(p), x);
    }
  }

  lemma {:induction false} Distribute(a: int, y: int, z: int)
    ensures a * (y + z) == a * y + a * z
  {
  }

  /** A non-empty window of plausible intervals has a positive mean. */
  lemma {:induction false} MeanPositive(b: Band, w: seq<int>)
    requires BandOk(b) && AllPlausible(b, w) && |w| > 0
    ensures MeanInterval(w) > 0.0
  {
    SumBounds(b, w);
  }

  /** The rate of the mean of a non-empty window of plausible intervals lies in
      the band, so the rounded rate does too: the band check on the rounded
      rate never rejects it. */
  lemma {:induction false} MeanRateInBand(b: Band, w: seq<int>)
    requires BandOk(b) && AllPlausible(b, w) && |w| > 0
    ensures MeanInterval(w) > 0.0
    ensures b.lo as real <= SamplesPerMinute as real / MeanInterval(w) <= b.hi as real
    ensures b.lo <= RoundHalfEven(SamplesPerMinute as real / MeanInterval(w)) <= b.hi
    ensures RateOf(MeanInterval(w)) == RoundHalfEven(SamplesPerMinute as real / MeanInterval(w))
  {
    MeanRateBounds(b, w);
    RoundHalfEvenWithin(SamplesPerMinute as real / MeanInterval(w), b.lo, b.hi);
  }

  /** The unrounded half of MeanRateInBand. */
  lemma {:induction false} MeanRateBounds(b: Band, w: seq<int>)
    requires BandOk(b) && AllPlausible(b, w) && |w| > 0
    ensures MeanInterval(w) > 0.0
    ensures b.lo as real <= SamplesPerMinute as real / MeanInterval(w) <= b.hi as real
  {
    SumBounds(b, w);
    var n := |w| as real;
    var s := SumI(w) as real;
    var k := SamplesPerMinute as real;
    assert b.lo as real * s <= k * n <= b.hi as real * s by {
      IntMulReal(b.lo, SumI(w));
      IntMulReal(b.hi, SumI(w));
      IntMulReal(SamplesPerMinute, |w|);
    }
    RateOfMean(b.lo as real, b.hi as real, k, n, s);
  }

  lemma {:induction false} IntMulReal(a: int, c: int)
    ensures (a * c) as real == a as real * c as real
  {
  }

  /** lo * s <= k * n <= hi * s with s, n > 0 puts k / (s / n) in [lo, hi]. */
  lemma {:induction false} RateOfMean(lo: real, hi: real, k: real, n: real, s: real)
    requires n > 0.0 && s > 0.0 && lo * s <= k * n <= hi * s
    ensures lo <= k / (s / n) <= hi
  {
    var q := k / (s / n);
    assert q == k * n / s;
    assert q * s == k * n;
    LeByPositive(lo, q, s);
    LeByPositive(q, hi, s);
  }

  lemma {:induction false} LeByPositive(x: real, y: real, s: real)
    requires s > 0.0 && x * s <= y * s
    ensures x <= y
  {
  }

  /** Only a crossing down from above the threshold can create a peak, and a
      new peak lies at least minDistance samples after the previous one; the
      intervals and the rate change only together with the last peak. */
  lemma {:induction false} PeaksOnlyOnCrossingDown(b: Band, d: Detector, v: real, index: int)
    requires Inv(b, d)
    ensures var r := Step(b, d, v, index);
            (r.lastPeak != d.lastPeak || r.intervals != d.intervals || r.rate != d.rate) ==>
              && d.isAbove
              && v <= Threshold(r.envelope)
              && r.lastPeak == d.candidateIndex
              && r.lastPeak - d.lastPeak >= b.minDistance
              && !r.isAbove
  {
  }

  /** Above the threshold, the candidate is the largest value since the
      crossing up, and nothing else but the envelope moves. */
  lemma {:induction false} AboveTracksMaximum(b: Band, d: Detector, v: real, index: int)
    requires Inv(b, d)
    requires v > Threshold(Envelope(d.envelope, v))
    ensures var r := Step(b, d, v, index);
            && r.isAbove
            && r.candidateMax >= v
            && (d.isAbove ==> r.candidateMax >= d.candidateMax)
            && (r.candidateMax == v ==> r.candidateIndex == index || (d.isAbove && d.candidateMax == v))
            && r.lastPeak == d.lastPeak && r.intervals == d.intervals && r.rate == d.rate
  {
  }

  /** The first peak after a reset (no previous peak, non-negative sample index)
      only arms the detector: its interval is far outside every band, so the
      intervals and the rate stay as they were. */
  lemma {:induction false} FirstPeakOnlyArms(b: Band, d: Detector, v: real, index: int)
    requires Inv(b, d) && b.minDistance <= SamplesPerMinute
    requires d.lastPeak == NoPeak && d.candidateIndex >= 0
    requires d.isAbove && !(v > Threshold(Envelope(d.envelope, v)))
    ensures var r := Step(b, d, v, index);
            r.lastPeak == d.candidateIndex && r.intervals == d.intervals && r.rate == d.rate
  {
    var ibi := d.candidateIndex - NoPeak;
    PlausibleBounds(b, ibi);
    assert b.lo * ibi >= ibi;
  }

  /** The ring buffer of the last intervals (8 for the heart rate, 6 for the
      respiration rate): write at the write index, advance it modulo the
      capacity, count up to the capacity. */
  class IntervalRing {
    const ibi: array<int>
    var count: int
    var write: int
    /** The stored intervals, oldest first. */
    ghost var intervals: seq<int>

    ghost predicate Valid()
      reads this, ibi
    {
      Wf(ibi[..], write, count) && intervals == Contents(ibi[..], write, count)
    }

    constructor(capacity: int)
      requires capacity > 0
      ensures Valid() && fresh(ibi) && ibi.Length == capacity && intervals == []
    {
      ibi := new int[capacity](_ => 0);
      count, write := 0, 0;
      intervals := [];
    }

    /** Store an interval at the write index and advance it. */
    method Push(x: int)
      requires Valid()
      modifies this, ibi
      ensures Valid()
      ensures intervals == Last(ibi.Length, old(intervals) + [x])
    {
      ghost var b, w, c := ibi[..], write, count;
      Store(write, x);
      write, count := Next(write, ibi.Length), Min(count + 1, ibi.Length);
      intervals := Last(ibi.Length, intervals + [x]);
      Ring.Push(b, w, c, x);
    }

    /** ibi[i] := x, as a step of its own. */
    method Store(i: int, x: int)
      requires 0 <= i < ibi.Length
      modifies ibi
      ensures ibi[..] == old(ibi[..])[i := x]
    {
      ibi[i] := x;
    }

    /** The mean of the stored intervals: a loop over the first `count` slots,
        which hold exactly the window. */
    method Mean() returns (mean: real)
      requires Valid()
      ensures mean == MeanInterval(intervals)
    {
      var total := 0;
      var i := 0;
      while i < count
        invariant 0 <= i <= count
        invariant total == SumI(ibi[..i])
      {
        assert ibi[..i + 1][..i] == ibi[..i];
        total := total + ibi[i];
        i := i + 1;
      }
      SumContentsI(ibi[..], write, count);
      assert ibi[..][..count] == ibi[..count];
      mean := total as real / Max(1, count) as real;
    }

    method Clear()
      requires ibi.Length > 0
      modifies this, ibi
      ensures Valid() && intervals == []
    {
      count, write := 0, 0;
      forall k | 0 <= k < ibi.Length {
        ibi[k] := 0;
      }
      intervals := [];
    }
  }

  /** One estimator: its running state and its ring of intervals. */
  class PeakRate {
    const band: Band
    const ring: IntervalRing
    var envelope: real
    var isAbove: bool
    var candidateMax: real
    var candidateIndex: int
    var lastPeak: int
    var rate: int

    ghost function State(): Detector
      reads this, ring
    {
      Detector(envelope, isAbove, candidateMax, candidateIndex, lastPeak, ring.intervals, rate)
    }

    ghost predicate Valid()
      reads this, ring, ring.ibi
    {
      && ring.Valid()
      && ring.ibi.Length == band.capacity
      && Inv(band, State())
    }

    constructor(b: Band)
      requires BandOk(b)
      ensures Valid() && fresh(ring) && fresh(ring.ibi) && band == b && State() == Initial()
    {
      band := b;
      ring := new IntervalRing(b.capacity);
      envelope, isAbove, candidateMax, candidateIndex := 0.0, false, 0.0, 0;
      lastPeak, rate := NoPeak, 0;
    }

    /** Feed one sample taken at sample index `index`. */
    method Update(v: real, index: int)
      requires Valid()
      modifies this, ring, ring.ibi
      ensures State() == Step(band, old(State()), v, index)
      ensures Valid()
    {
      ghost var d := State();
      envelope := Envelope(envelope, v);
      var threshold := Threshold(envelope);
      if v > threshold {
        if !isAbove {
          isAbove, candidateMax, candidateIndex := true, v, index;
        } else if v > candidateMax {
          candidateMax, candidateIndex := v, index;
        }
      } else if isAbove {
        CommitPeak();
        isAbove := false;
      }
      StepKeepsInv(band, d, v, index);
    }

    /** The crossing down. */
    method CommitPeak()
      requires Valid()
      modifies this, ring, ring.ibi
      ensures State() == Commit(band, old(State()))
      ensures Valid()
    {
      ghost var d := State();
      var peak := candidateIndex;
      if peak - lastPeak >= band.minDistance {
        var interval := peak - lastPeak;
        lastPeak := peak;
        if interval > 0 {
          var instant := Rate(interval);
          if instant >= band.lo as real && instant <= band.hi as real {
            AcceptInterval(interval);
          }
        }
      }
      CommitKeepsInv(band, d);
    }

    /** Store a plausible interval and recompute the rate. */
    method AcceptInterval(x: int)
      requires Valid() && Plausible(band, x)
      modifies this, ring, ring.ibi
      ensures State() == Accept(band, old(State()), x)
      ensures Valid()
    {
      AcceptKeepsInv(band, State(), x);
      ring.Push(x);
      var mean := ring.Mean();
      var rounded := RoundHalfEven(SamplesPerMinute as real / mean);
      if band.lo <= rounded <= band.hi {
        rate := rounded;
      }
    }

    /** The reset in Clear. */
    method Clear()
      requires Valid()
      modifies this, ring, ring.ibi
      ensures State() == Initial()
      ensures Valid()
    {
      envelope, isAbove, candidateMax, candidateIndex := 0.0, false, 0.0, 0;
      lastPeak := NoPeak;
      ring.Clear();
      rate := 0;
    }
  }
}
