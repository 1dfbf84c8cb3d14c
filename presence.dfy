/** Detection of an empty chair from the BCG channel. The monitor keeps the last
    500 BCG samples (shifted in one by one); the channel counts as flat when the
    standard deviation of the last 50 of them is at most 10 ADC counts, and the
    chair is reported empty once it has been flat continuously for 2 seconds.
    Before 50 samples have arrived nothing is reported. */
module Presence {
  import opened Numeric
  import opened Wrappers
  import opened Ring

  /** The number of samples the deviation is computed over. */
  const FlatWindow: int := 50
  /** The largest standard deviation that still counts as flat. */
  const FlatThreshold: real := 10.0
  /** 2 seconds in ticks of 100 ns. */
  const Debounce: int := 20_000_000

  /** The population variance of s as the source computes it: the mean of the
      squares less the square of the mean, floored at zero. */
  function Variance(s: seq<real>): real
    requires |s| > 0
  {
    var n := |s| as real;
    var mean := SumR(s) / n;
    RealMax(0.0, SumSqR(s) / n - mean * mean)
  }

  /** The samples the deviation looks at: the last `window` of data. */
  function Tail(data: seq<real>, window: int): seq<real>
  {
    data[Clamp(|data| - window, 0, |data|)..]
  }

  /** The flatness test: more than one sample, and a standard deviation at most
      the threshold. */
  ghost predicate Flat(data: seq<real>, window: int, threshold: real, sqrt: real -> real)
  {
    var s := Tail(data, window);
    |s| > 1 && sqrt(Variance(s)) <= threshold
  }

  /** A window of equal samples has variance zero. */
  lemma {:induction false} ConstantSums(s: seq<real>, c: real)
    requires forall k :: 0 <= k < |s| ==> s[k] == c
    ensures SumR(s) == |s| as real * c
    ensures SumSqR(s) == |s| as real * (c * c)
  {
    if s != [] {
      var p := s[..|s| - 1];
      assert forall k :: 0 <= k < |p| ==> p[k] == c by {
        forall k | 0 <= k < |p| ensures p[k] == c {
          assert p[k] == s[k];
        }
      }
      ConstantSums(p, c);
    }
  }

  /** A channel that holds one value over the whole window is flat, whatever
      the (non-negative) threshold. */
  lemma {:induction false} ConstantIsFlat(data: seq<real>, window: int, threshold: real, sqrt: real -> real, c: real)
    requires SqrtOk(sqrt) && 0.0 <= threshold
    requires |Tail(data, window)| > 1
    requires forall k :: 0 <= k < |data| ==> data[k] == c
    ensures Flat(data, window, threshold, sqrt)
  {
    var s := Tail(data, window);
    assert forall k :: 0 <= k < |s| ==> s[k] == c by {
      forall k | 0 <= k < |s| ensures s[k] == c {
        assert s[k] == data[Clamp(|data| - window, 0, |data|) + k];
      }
    }
    ConstantSums(s, c);
    var n := |s| as real;
    assert SumR(s) / n == c;
    assert SumSqR(s) / n == c * c;
    SqrtSign(sqrt, Variance(s));
  }

  /** Comparing the standard deviation with the threshold is comparing the
      variance with the squared threshold. */
  lemma {:induction false} FlatIsVarianceBound(data: seq<real>, window: int, threshold: real, sqrt: real -> real)
    requires SqrtOk(sqrt) && 0.0 <= threshold && |Tail(data, window)| > 1
    ensures Flat(data, window, threshold, sqrt) <==> Variance(Tail(data, window)) <= threshold * threshold
  {
    SqrtAtMost(sqrt, Variance(Tail(data, window)), threshold);
  }

  /** Shift the samples left by one and put v last: a new array of the same
      length holding the newest samples. */
  method PushBack(a: array<real>, v: real) returns (r: array<real>)
    requires a.Length > 0
    ensures fresh(r) && r.Length == a.Length
    ensures r[..] == Last(a.Length, a[..] + [v])
  {
    r := new real[a.Length];
    var i := 1;
    while i < a.Length
      invariant 1 <= i <= a.Length
      invariant r[..i - 1] == a[1..i]
    {
      r[i - 1] := a[i];
      assert r[..i] == r[..i - 1] + [r[i - 1]];
      i := i + 1;
    }
    r[a.Length - 1] := v;
    assert r[..] == r[..a.Length - 1] + [v];
  }

  /** The flatness test as a loop over the last `window` samples. */
  method IsLowDeviation(data: array<real>, window: int, threshold: real, sqrt: real -> real)
    returns (low: bool)
    ensures low == Flat(data[..], window, threshold, sqrt)
  {
    var start := Max(0, data.Length - window);
    var n := data.Length - start;
    if n <= 1 {
      return false;
    }
    ghost var t := Tail(data[..], window);
    assert t == data[start..];
    var sum, sumSq := 0.0, 0.0;
    var i := start;
    while i < data.Length
      invariant start <= i <= data.Length
      invariant sum == SumR(data[start..i]) && sumSq == SumSqR(data[start..i])
    {
      var v := data[i];
      assert data[start..i + 1][..i - start] == data[start..i];
      sum := sum + v;
      sumSq := sumSq + v * v;
      i := i + 1;
    }
    assert data[start..i] == t;
    var mean := sum / n as real;
    var variance := RealMax(0.0, sumSq / n as real - mean * mean);
    assert variance == Variance(t);
    var std := sqrt(variance);
    low := std <= threshold;
  }

  /** What the presence check keeps between samples. */
  datatype Watch = Watch(flatSince: Option<int>, noPerson: bool)

  /** The presence check after a new sample: too few samples so far clears
      everything; a flat window starts (or continues) the flat period and
      reports the chair empty once the period has lasted the debounce time; a
      window that is not flat ends the period and reports someone present. */
  function Check(w: Watch, totalSamples: int, flat: bool, now: int): Watch
  {
    if totalSamples < FlatWindow then Watch(None, false)
    else if flat then
      var since := if w.flatSince.Some? then w.flatSince.value else now;
      Watch(Some(since), w.noPerson || now - since >= Debounce)
    else Watch(None, false)
  }

  /** The chair is reported empty only after a flat period of at least the
      debounce time, and only when enough samples have arrived; a window that
      is not flat always reports someone present. */
  lemma {:induction false} EmptyOnlyAfterDebounce(w: Watch, totalSamples: int, flat: bool, now: int)
    ensures var r := Check(w, totalSamples, flat, now);
            && (r.noPerson && !w.noPerson ==>
                  && flat && totalSamples >= FlatWindow
                  && r.flatSince.Some? && now - r.flatSince.value >= Debounce)
            && (!flat ==> !r.noPerson && r.flatSince == None)
            && (r.flatSince.Some? <==> flat && totalSamples >= FlatWindow)
  {
  }

  /** A flat period keeps the time it started. */
  lemma {:induction false} FlatPeriodKeepsStart(w: Watch, totalSamples: int, now: int, since: int)
    requires w.flatSince == Some(since) && totalSamples >= FlatWindow
    ensures Check(w, totalSamples, true, now).flatSince == Some(since)
  {
  }
}
