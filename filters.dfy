/** The sliding windows of the vital-sign pipeline that keep running sums: the
    moving averages that smooth the PPG (5 samples) and BCG (7 samples) signals,
    and the windows with sum and sum of squares behind the PPG z-score
    normalisation and the SpO2 red/ir statistics (160 samples each). Each is a
    ring buffer in the discipline of the Ring module: the slots not yet written
    hold zero, so the running sums are the sums of the window. */
module Filters {
  import opened Numeric
  import opened Ring

  /** The mean of a non-empty window. */
  function Mean(s: seq<real>): real
    requires |s| > 0
  {
    SumR(s) / |s| as real
  }

  /** Slots from count on still hold zero. */
  ghost predicate ZeroTail(buf: seq<real>, count: int)
  {
    forall k :: 0 <= k < |buf| && count <= k ==> buf[k] == 0.0
  }

  /** Writing at the write index of a filling buffer leaves the tail beyond the
      new count untouched. */
  lemma {:induction false} PushZeroTail(buf: seq<real>, idx: int, count: int, x: real)
    requires Wf(buf, idx, count) && ZeroTail(buf, count)
    ensures ZeroTail(buf[idx := x], Min(count + 1, |buf|))
  {
  }

  /** With a zero tail, the sums of the whole buffer are those of the window. */
  lemma {:induction false} WindowSums(buf: seq<real>, idx: int, count: int)
    requires Wf(buf, idx, count) && ZeroTail(buf, count)
    ensures SumR(Contents(buf, idx, count)) == SumR(buf)
    ensures SumSqR(Contents(buf, idx, count)) == SumSqR(buf)
  {
    SumContentsR(buf, idx, count);
  }

  /** A ring whose write index and count follow the ring discipline, whose
      unwritten slots hold zero, whose window is w, and whose running sum is the
      sum of both the buffer and the window. */
  ghost predicate RingSum(b: seq<real>, i: int, c: int, w: seq<real>, sum: real)
  {
    && Wf(b, i, c) && ZeroTail(b, c)
    && w == Contents(b, i, c)
    && sum == SumR(b) && sum == SumR(w)
  }

  /** RingSum with a running sum of squares as well. */
  ghost predicate RingStats(b: seq<real>, i: int, c: int, w: seq<real>, sum: real, sumSq: real)
  {
    RingSum(b, i, c, w, sum) && sumSq == SumSqR(b) && sumSq == SumSqR(w)
  }

  /** One write keeps RingSum, with the window advanced by x. */
  lemma {:induction false} PushSum(b: seq<real>, i: int, c: int, w: seq<real>, sum: real, x: real)
    requires RingSum(b, i, c, w, sum)
    ensures RingSum(b[i := x], Next(i, |b|), Min(c + 1, |b|), Last(|b|, w + [x]), sum - b[i] + x)
  {
    Ring.Push(b, i, c, x);
    PushZeroTail(b, i, c, x);
    SumRUpdate(b, i, x);
    WindowSums(b[i := x], Next(i, |b|), Min(c + 1, |b|));
  }

  /** One write keeps RingStats, with the window advanced by x; `out` is the
      overwritten value and sum', sumSq' the updated running sums. */
  lemma {:induction false} PushStats(b: seq<real>, i: int, c: int, w: seq<real>, sum: real, sumSq: real,
                  x: real, out: real, sum': real, sumSq': real)
    requires RingStats(b, i, c, w, sum, sumSq) && out == b[i]
    requires sum' == sum - out + x && sumSq' == sumSq - out * out + x * x
    ensures RingStats(b[i := x], Next(i, |b|), Min(c + 1, |b|), Last(|b|, w + [x]), sum', sumSq')
  {
    var b', i', c', w' := b[i := x], Next(i, |b|), Min(c + 1, |b|), Last(|b|, w + [x]);
    PushSum(b, i, c, w, sum, x);
    SumSqRUpdate(b, i, x);
    WindowSums(b', i', c');
    assert sumSq' == SumSqR(b');
  }

  /** A buffer of zeros is an empty ring. */
  lemma {:induction false} EmptyRing(b: seq<real>)
    requires |b| > 0 && forall k :: 0 <= k < |b| ==> b[k] == 0.0
    ensures RingStats(b, 0, 0, [], 0.0, 0.0)
  {
    SumRZeros(b);
  }

  /** A moving average: a ring of the last buf.Length values and their running
      sum. */
  class MovingAverage {
    const buf: array<real>
    var idx: int
    var count: int
    var sum: real
    /** The values in the window, oldest first. */
    ghost var window: seq<real>

    ghost predicate Valid()
      reads this, buf
    {
      RingSum(buf[..], idx, count, window, sum)
    }

    constructor(capacity: int)
      requires capacity > 0
      ensures Valid() && fresh(buf) && buf.Length == capacity && window == []
    {
      buf := new real[capacity](_ => 0.0);
      idx, count, sum := 0, 0, 0.0;
      window := [];
      new;
      EmptyRing(buf[..]);
    }

    /** Add a value and return the mean of the window, which now holds the last
        buf.Length values. */
    method Push(y: real) returns (mean: real)
      requires Valid()
      modifies this, buf
      ensures Valid()
      ensures window == Last(buf.Length, old(window) + [y])
      ensures |window| > 0 && mean == Mean(window)
    {
      ghost var b, i, c, w, s0 := buf[..], idx, count, window, sum;
      var outgoing := buf[idx];
      Store(idx, y);
      idx, count, sum := Next(idx, buf.Length), Min(count + 1, buf.Length), sum - outgoing + y;
      window := Last(buf.Length, window + [y]);
      PushSum(b, i, c, w, s0, y);
      mean := sum / count as real;
    }

    /** buf[i] := x, as a step of its own. */
    method Store(i: int, x: real)
      requires 0 <= i < buf.Length
      modifies buf
      ensures buf[..] == old(buf[..])[i := x]
    {
      buf[i] := x;
    }

    /** The reset in Clear: zero the buffer, the index, the count and the sum. */
    method Clear()
      requires buf.Length > 0
      modifies this, buf
      ensures Valid() && window == []
    {
      forall k | 0 <= k < buf.Length {
        buf[k] := 0.0;
      }
      idx, count, sum := 0, 0, 0.0;
      window := [];
      EmptyRing(buf[..]);
    }
  }

  /** A window with running sum and sum of squares. */
  class StatWindow {
    const buf: array<real>
    var idx: int
    var count: int
    var sum: real
    var sumSq: real
    /** The values in the window, oldest first. */
    ghost var window: seq<real>

    ghost predicate Valid()
      reads this, buf
    {
      RingStats(buf[..], idx, count, window, sum, sumSq)
    }

    constructor(capacity: int)
      requires capacity > 0
      ensures Valid() && fresh(buf) && buf.Length == capacity && window == []
    {
      buf := new real[capacity](_ => 0.0);
      idx, count, sum, sumSq := 0, 0, 0.0, 0.0;
      window := [];
      new;
      EmptyRing(buf[..]);
    }

    /** Subtract the outgoing value, store the incoming one and add it. */
    method Push(x: real)
      requires Valid()
      modifies this, buf
      ensures Valid()
      ensures window == Last(buf.Length, old(window) + [x])
      ensures sum == SumR(window) && sumSq == SumSqR(window)
    {
      ghost var b, i, c, w, s0, q0 := buf[..], idx, count, window, sum, sumSq;
      var outgoing := buf[idx];
      Store(idx, x);
      idx, count := Next(idx, buf.Length), Min(count + 1, buf.Length);
      sum, sumSq := sum - outgoing + x, sumSq - outgoing * outgoing + x * x;
      window := Last(buf.Length, window + [x]);
      PushStats(b, i, c, w, s0, q0, x, outgoing, sum, sumSq);
    }

    /** buf[i] := x, as a step of its own. */
    method Store(i: int, x: real)
      requires 0 <= i < buf.Length
      modifies buf
      ensures buf[..] == old(buf[..])[i := x]
    {
      buf[i] := x;
    }

    method Clear()
      requires buf.Length > 0
      modifies this, buf
      ensures Valid() && window == []
    {
      forall k | 0 <= k < buf.Length {
        buf[k] := 0.0;
      }
      idx, count, sum, sumSq := 0, 0, 0.0, 0.0;
      window := [];
      EmptyRing(buf[..]);
    }
  }
}
