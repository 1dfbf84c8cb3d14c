/** The chart model's bookkeeping (ChartModel): three live series drawn in
    "chasing" mode, where a write cursor sweeps across a fixed number of x slots
    and overwrites the oldest point once every slot is filled; the CSV header
    lookup used when history is loaded; the manual y-axis adjustments; and the
    time window of the history plot. */
module Chart {
  import opened Numeric

  /** A data point: the x slot and the sample value (short or uint in the source,
      stored exactly as a double). */
  datatype Point = Point(x: int, y: int)

  /** One series together with the write cursor and the fill count it is drawn
      with. */
  datatype Sweep = Sweep(points: seq<Point>, writeIndex: int, count: int)

  /** The bookkeeping invariant of a series of capacity cap: at most cap points,
      as many points as the count, the cursor on a slot, the cursor equal to the
      count until the series is full, and every point sitting at its own slot. */
  ghost predicate SweepOk(sw: Sweep, cap: int)
  {
    && 0 < cap
    && 0 <= sw.count <= cap
    && |sw.points| == sw.count
    && 0 <= sw.writeIndex < cap
    && (sw.count < cap ==> sw.writeIndex == sw.count)
    && forall k :: 0 <= k < |sw.points| ==> sw.points[k].x == k
  }

  /** The state after Clear. */
  function Empty(): Sweep
  {
    Sweep([], 0, 0)
  }

  /** One AddData step on one series: append while not full, otherwise overwrite
      the slot under the cursor; the cursor then advances and wraps to 0 at the
      capacity. The step keeps the bookkeeping invariant. */
  function Add(sw: Sweep, cap: int, v: int): (r: Sweep)
    requires SweepOk(sw, cap)
    ensures SweepOk(r, cap)
    ensures r.count == Min(sw.count + 1, cap)
  {
    var p := Point(sw.writeIndex, v);
    var pts := if sw.count < cap then sw.points + [p] else sw.points[sw.writeIndex := p];
    var c := if sw.count < cap then sw.count + 1 else sw.count;
    var w := if sw.writeIndex + 1 >= cap then 0 else sw.writeIndex + 1;
    Sweep(pts, w, c)
  }

  /** The series after the values vals were added, in order, to a cleared one. */
  function Run(vals: seq<int>, cap: int): (r: Sweep)
    requires cap > 0
    ensures SweepOk(r, cap)
  {
    if vals == [] then Empty()
    else Add(Run(vals[..|vals| - 1], cap), cap, vals[|vals| - 1])
  }

  /** j is the latest of n values written to slot k: it went to slot k, and the
      cursor has not come back to k since. */
  predicate IsLastWrite(n: int, cap: int, k: int, j: int)
    requires cap > 0
  {
    0 <= j < n && j % cap == k && n - cap <= j
  }

  lemma {:induction false} ModUnique(a: int, cap: int, q: int, r: int)
    requires cap > 0 && a == q * cap + r && 0 <= r < cap
    ensures a % cap == r && a / cap == q
  {
    var q', r' := a / cap, a % cap;
    assert a == q' * cap + r';
    if q > q' {
      MulLe(q' + 1, q, cap);
      assert false;
    }
    if q < q' {
      MulLe(q + 1, q', cap);
      assert false;
    }
  }

  /** Two values less than cap apart with the same slot are equal. */
  lemma {:induction false} SameResidue(a: int, b: int, cap: int)
    requires cap > 0 && 0 <= a <= b < a + cap && a % cap == b % cap
    ensures a == b
  {
    var q, r, d := a / cap, a % cap, b - a;
    assert b == q * cap + (r + d);
    if r + d < cap {
      ModUnique(b, cap, q, r + d);
    } else {
      assert b == (q + 1) * cap + (r + d - cap);
      ModUnique(b, cap, q + 1, r + d - cap);
    }
  }

  /** The index of the latest of n values that went to slot k. */
  function LastWrite(n: int, cap: int, k: int): (j: int)
    requires cap > 0 && 0 <= k < n && k < cap
    ensures IsLastWrite(n, cap, k, j)
  {
    var t := n - 1 - k;
    var q := t / cap;
    assert t == q * cap + t % cap;
    ModUnique(k + cap * q, cap, q, k);
    k + cap * q
  }

  /** The cursor position after one more value. */
  lemma {:induction false} ModSucc(m: int, cap: int)
    requires m >= 0 && cap > 0
    ensures (m + 1) % cap == if m % cap + 1 >= cap then 0 else m % cap + 1
  {
    var q, r := m / cap, m % cap;
    if r + 1 >= cap {
      assert m + 1 == (q + 1) * cap + 0;
      ModUnique(m + 1, cap, q + 1, 0);
    } else {
      assert m + 1 == q * cap + (r + 1);
      ModUnique(m + 1, cap, q, r + 1);
    }
  }

  /** The invariant step: slot k shows the latest value written to it. */
  lemma {:induction false} RunLatest(vals: seq<int>, cap: int)
    requires cap > 0
    ensures var r := Run(vals, cap);
            && r.count == Min(|vals|, cap)
            && r.writeIndex == |vals| % cap
            && forall k, j :: 0 <= k < r.count && IsLastWrite(|vals|, cap, k, j) ==> r.points[k].y == vals[j]
    decreases |vals|
  {
    if vals != [] {
      var m := |vals| - 1;
      var init := vals[..m];
      var prev := Run(init, cap);
      RunLatest(init, cap);
      ModSucc(m, cap);
      var w := prev.writeIndex;
      if m < cap {
        ModUnique(m, cap, 0, m);
      }
      var r := Run(vals, cap);
      forall k, j | 0 <= k < r.count && IsLastWrite(|vals|, cap, k, j)
        ensures r.points[k].y == vals[j]
      {
        if k == w {
          SameResidue(j, m, cap);
        } else {
          assert j != m;
          assert IsLastWrite(m, cap, k, j);
          assert init[j] == vals[j];
        }
      }
    }
  }

  /** After n values have been added to a cleared series, min(n, cap) slots are
      filled, the cursor is at n mod cap, and slot k holds the latest value that
      was written to it, the one at index k + cap * ((n - 1 - k) / cap). */
  lemma {:induction false} RunSlots(vals: seq<int>, cap: int)
    requires cap > 0
    ensures var r := Run(vals, cap);
            && r.count == Min(|vals|, cap)
            && r.writeIndex == |vals| % cap
            && forall k :: 0 <= k < r.count ==> r.points[k] == Point(k, vals[LastWrite(|vals|, cap, k)])
  {
    var r := Run(vals, cap);
    RunLatest(vals, cap);
    forall k | 0 <= k < r.count
      ensures r.points[k] == Point(k, vals[LastWrite(|vals|, cap, k)])
    {
      var j := LastWrite(|vals|, cap, k);
      assert r.points[k].y == vals[j];
      assert r.points[k].x == k;
    }
  }

  /** The ASCII upper-case of a character (the invariant culture's case mapping
      restricted to ASCII). */
  function Upper(c: char): char
  {
    if 'a' <= c <= 'z' then (c as int - 32) as char else c
  }

  /** string.Equals with OrdinalIgnoreCase. */
  predicate EqualsIgnoreCase(a: string, b: string)
  {
    |a| == |b| && forall i :: 0 <= i < |a| ==> Upper(a[i]) == Upper(b[i])
  }

  /** c occurs in h at position p, ignoring case. */
  predicate MatchAt(h: string, c: string, p: int)
  {
    0 <= p <= |h| - |c| && EqualsIgnoreCase(h[p..p + |c|], c)
  }

  /** string.Contains with OrdinalIgnoreCase. */
  predicate ContainsIgnoreCase(h: string, c: string)
  {
    exists p :: 0 <= p <= |h| - |c| && MatchAt(h, c, p)
  }

  predicate AnyEqual(h: string, candidates: seq<string>)
  {
    exists m :: 0 <= m < |candidates| && EqualsIgnoreCase(h, candidates[m])
  }

  predicate AnyContained(h: string, candidates: seq<string>)
  {
    exists m :: 0 <= m < |candidates| && ContainsIgnoreCase(h, candidates[m])
  }

  predicate NoEqual(headers: seq<string>, candidates: seq<string>)
  {
    forall i :: 0 <= i < |headers| ==> !AnyEqual(headers[i], candidates)
  }

  predicate NoContained(headers: seq<string>, candidates: seq<string>)
  {
    forall i :: 0 <= i < |headers| ==> !AnyContained(headers[i], candidates)
  }

  /** r is the lowest header index equal to some candidate. */
  predicate FirstEqual(headers: seq<string>, candidates: seq<string>, r: int)
  {
    0 <= r < |headers| && AnyEqual(headers[r], candidates)
    && forall i :: 0 <= i < r ==> !AnyEqual(headers[i], candidates)
  }

  /** r is the lowest header index containing some candidate. */
  predicate FirstContaining(headers: seq<string>, candidates: seq<string>, r: int)
  {
    0 <= r < |headers| && AnyContained(headers[r], candidates)
    && forall i :: 0 <= i < r ==> !AnyContained(headers[i], candidates)
  }

  /** A string that equals a candidate also contains it. */
  lemma {:induction false} EqualContains(h: string, c: string)
    requires EqualsIgnoreCase(h, c)
    ensures ContainsIgnoreCase(h, c)
  {
    assert h[0..|c|] == h;
    assert MatchAt(h, c, 0);
  }

  /** FindHeaderIndex: an exact (case-insensitive) match anywhere beats any
      substring match; within a pass the lowest header index wins; -1 exactly
      when no header even contains a candidate. */
  method FindHeaderIndex(headers: seq<string>, candidates: seq<string>) returns (r: int)
    ensures -1 <= r < |headers|
    ensures !NoEqual(headers, candidates) ==> FirstEqual(headers, candidates, r)
    ensures NoEqual(headers, candidates) && !NoContained(headers, candidates) ==> FirstContaining(headers, candidates, r)
    ensures r == -1 <==> NoContained(headers, candidates)
  {
    for i := 0 to |headers|
      invariant forall i' :: 0 <= i' < i ==> !AnyEqual(headers[i'], candidates)
    {
      for m := 0 to |candidates|
        invariant forall m' :: 0 <= m' < m ==> !EqualsIgnoreCase(headers[i], candidates[m'])
      {
        if EqualsIgnoreCase(headers[i], candidates[m]) {
          EqualContains(headers[i], candidates[m]);
          return i;
        }
      }
    }
    for i := 0 to |headers|
      invariant forall i' :: 0 <= i' < i ==> !AnyContained(headers[i'], candidates)
    {
      for m := 0 to |candidates|
        invariant forall m' :: 0 <= m' < m ==> !ContainsIgnoreCase(headers[i], candidates[m'])
      {
        if ContainsIgnoreCase(headers[i], candidates[m]) {
          return i;
        }
      }
    }
    return -1;
  }

  /** A y axis: the shown range and the absolute bounds that lock panning. */
  datatype Axis = Axis(minimum: real, maximum: real, absoluteMinimum: real, absoluteMaximum: real)

  const MinRange: real := 10.0

  /** EnsureMinRange: the smallest change to Maximum that makes the range at least
      minRange; Minimum is kept. */
  function EnsureMinRange(a: Axis, minRange: real): (r: Axis)
    ensures r.minimum == a.minimum
    ensures r.maximum - r.minimum >= minRange
    ensures r.maximum >= a.maximum
    ensures r.maximum > a.maximum ==> r.maximum - r.minimum == minRange
    ensures r.absoluteMinimum == a.absoluteMinimum && r.absoluteMaximum == a.absoluteMaximum
  {
    if a.maximum - a.minimum < minRange then a.(maximum := a.minimum + minRange) else a
  }

  /** Locking copies the shown range into the absolute bounds. `locked` is the
      source's `pm != PlotValue3` guard: plots 1 and 2 are locked, while plot 3,
      adjusted through IncreasePlot3YMax and its siblings, keeps its absolute
      bounds. */
  function Lock(a: Axis, locked: bool): Axis
  {
    if locked then a.(absoluteMinimum := a.minimum, absoluteMaximum := a.maximum) else a
  }

  /** AdjustYMax: move Maximum by delta, then widen back to the minimum range. */
  function AdjustYMax(a: Axis, delta: real, increase: bool, locked: bool): (r: Axis)
    ensures r.minimum == a.minimum
    ensures r.maximum - r.minimum >= MinRange
    ensures var wanted := if increase then a.maximum + delta else a.maximum - delta;
            && (wanted - a.minimum >= MinRange ==> r.maximum == wanted)
            && (wanted - a.minimum < MinRange ==> r.maximum == a.minimum + MinRange)
    ensures locked ==> r.absoluteMinimum == r.minimum && r.absoluteMaximum == r.maximum
    ensures !locked ==> r.absoluteMinimum == a.absoluteMinimum && r.absoluteMaximum == a.absoluteMaximum
  {
    var moved := a.(maximum := if increase then a.maximum + delta else a.maximum - delta);
    Lock(EnsureMinRange(moved, MinRange), locked)
  }

  /** AdjustYMin: move Minimum by delta; raising it too close to Maximum pushes
      Maximum up to keep the minimum range. */
  function AdjustYMin(a: Axis, delta: real, increase: bool, locked: bool): (r: Axis)
    ensures r.minimum == if increase then a.minimum + delta else a.minimum - delta
    ensures r.maximum - r.minimum >= MinRange
    ensures r.maximum >= a.maximum
    ensures r.maximum > a.maximum ==> r.maximum - r.minimum == MinRange
    ensures locked ==> r.absoluteMinimum == r.minimum && r.absoluteMaximum == r.maximum
    ensures !locked ==> r.absoluteMinimum == a.absoluteMinimum && r.absoluteMaximum == a.absoluteMaximum
  {
    var moved := a.(minimum := if increase then a.minimum + delta else a.minimum - delta);
    Lock(EnsureMinRange(moved, MinRange), locked)
  }

  /** Lowering Maximum by delta and raising it again restores it, as long as the
      lowered range still keeps the minimum width. */
  lemma {:induction false} AdjustYMaxUndo(a: Axis, delta: real, locked: bool)
    requires delta >= 0.0 && a.maximum - delta - a.minimum >= MinRange
    ensures AdjustYMax(AdjustYMax(a, delta, false, locked), delta, true, locked).maximum == a.maximum
    ensures AdjustYMax(AdjustYMax(a, delta, false, locked), delta, true, locked).minimum == a.minimum
  {
  }

  /** Lowering Minimum never moves Maximum once the range is at least the minimum. */
  lemma {:induction false} LowerMinKeepsMax(a: Axis, delta: real, locked: bool)
    requires delta >= 0.0 && a.maximum - a.minimum >= MinRange
    ensures AdjustYMin(a, delta, false, locked).maximum == a.maximum
  {
  }

  const TicksPerHour: int := 36_000_000_000

  /** A time interval in ticks. */
  datatype Window = Window(start: int, end: int)

  /** The history plot's time window: for 24 hours, local midnight to the next
      midnight; otherwise the last max(1, h) whole hours ending with the current
      one. midnight and hourStart are the current day's and hour's starts. */
  function TimeWindow(hours: int, midnight: int, hourStart: int): (w: Window)
    requires midnight <= hourStart < midnight + 24 * TicksPerHour
    ensures w.end - w.start == Max(1, Clamp(hours, 0, 24)) * TicksPerHour
    ensures w.start <= hourStart < w.end
    ensures Clamp(hours, 0, 24) == 24 ==> w.start == midnight
    ensures Clamp(hours, 0, 24) < 24 ==> w.end == hourStart + TicksPerHour
  {
    var hoursClamped := Clamp(hours, 0, 24);
    var effective := Max(1, hoursClamped);
    if hoursClamped == 24 then Window(midnight, midnight + 24 * TicksPerHour)
    else Window(hourStart - (effective - 1) * TicksPerHour, hourStart + TicksPerHour)
  }

  /** The chart's live-series state (the OxyPlot series and axes themselves are
      not modelled). */
  class ChasingPlot {
    var series1: seq<Point>
    var series2: seq<Point>
    var series3: seq<Point>
    var cursor1: seq<Point>
    var cursor2: seq<Point>
    var cursor3: seq<Point>
    var writeIndex: int
    var count: int
    var maxPoints: int
    var showCursorPoint: bool
    var timeRangeHours: int

    ghost predicate Valid()
      reads this
    {
      && SweepOk(Sweep(series1, writeIndex, count), maxPoints)
      && SweepOk(Sweep(series2, writeIndex, count), maxPoints)
      && SweepOk(Sweep(series3, writeIndex, count), maxPoints)
      && 0 <= timeRangeHours <= 24
    }

    constructor(maxPoints: int)
      requires maxPoints > 0
      ensures Valid()
      ensures series1 == series2 == series3 == [] && cursor1 == cursor2 == cursor3 == []
      ensures writeIndex == 0 && count == 0 && this.maxPoints == maxPoints
      ensures showCursorPoint && timeRangeHours == 1
    {
      series1, series2, series3 := [], [], [];
      cursor1, cursor2, cursor3 := [], [], [];
      writeIndex, count := 0, 0;
      this.maxPoints := maxPoints;
      showCursorPoint := true;
      timeRangeHours := 1;
    }

    /** AddData: every series takes one Add step with its own value; the cursor
        markers move to the slot just written when they are shown. */
    method AddData(v1: int, v2: int, v3: int)
      requires Valid()
      modifies this
      ensures maxPoints == old(maxPoints)
      ensures Sweep(series1, writeIndex, count) == Add(Sweep(old(series1), old(writeIndex), old(count)), maxPoints, v1)
      ensures Sweep(series2, writeIndex, count) == Add(Sweep(old(series2), old(writeIndex), old(count)), maxPoints, v2)
      ensures Sweep(series3, writeIndex, count) == Add(Sweep(old(series3), old(writeIndex), old(count)), maxPoints, v3)
      ensures Valid()
      ensures cursor1 == if showCursorPoint then [Point(old(writeIndex), v1)] else old(cursor1)
      ensures cursor2 == if showCursorPoint then [Point(old(writeIndex), v2)] else old(cursor2)
      ensures cursor3 == if showCursorPoint then [Point(old(writeIndex), v3)] else old(cursor3)
      ensures showCursorPoint == old(showCursorPoint) && timeRangeHours == old(timeRangeHours)
    {
      if showCursorPoint {
        cursor1, cursor2, cursor3 := [Point(writeIndex, v1)], [Point(writeIndex, v2)], [Point(writeIndex, v3)];
      }
      AddPoints(v1, v2, v3);
    }

    /** The series part of AddData: one Add step per series. */
    method AddPoints(v1: int, v2: int, v3: int)
      requires Valid()
      modifies this
      ensures maxPoints == old(maxPoints) && showCursorPoint == old(showCursorPoint)
      ensures Sweep(series1, writeIndex, count) == Add(Sweep(old(series1), old(writeIndex), old(count)), maxPoints, v1)
      ensures Sweep(series2, writeIndex, count) == Add(Sweep(old(series2), old(writeIndex), old(count)), maxPoints, v2)
      ensures Sweep(series3, writeIndex, count) == Add(Sweep(old(series3), old(writeIndex), old(count)), maxPoints, v3)
      ensures Valid()
      ensures timeRangeHours == old(timeRangeHours)
      ensures cursor1 == old(cursor1) && cursor2 == old(cursor2) && cursor3 == old(cursor3)
    {
      var s1 := Place(series1, writeIndex, count, maxPoints, v1);
      var s2 := Place(series2, writeIndex, count, maxPoints, v2);
      var s3 := Place(series3, writeIndex, count, maxPoints, v3);
      var c := if count < maxPoints then count + 1 else count;
      var w := writeIndex + 1;
      if w >= maxPoints {
        w := 0;
      }
      series1, series2, series3, count, writeIndex := s1, s2, s3, c, w;
    }

    /** One series' points after AddData: appended while the series is not
        full, otherwise the slot under the cursor overwritten. */
    static method Place(pts: seq<Point>, wi: int, c: int, cap: int, v: int) returns (r: seq<Point>)
      requires SweepOk(Sweep(pts, wi, c), cap)
      ensures r == Add(Sweep(pts, wi, c), cap, v).points
    {
      if c < cap {
        r := pts + [Point(wi, v)];
      } else {
        r := pts[wi := Point(wi, v)];
      }
    }

    /** Clear: every series and cursor marker emptied, cursor and count back to 0. */
    method Clear()
      requires maxPoints > 0 && 0 <= timeRangeHours <= 24
      modifies this
      ensures Valid()
      ensures Sweep(series1, writeIndex, count) == Empty()
      ensures series2 == series3 == [] && cursor1 == cursor2 == cursor3 == []
      ensures maxPoints == old(maxPoints) && showCursorPoint == old(showCursorPoint)
      ensures timeRangeHours == old(timeRangeHours)
    {
      series1, series2, series3 := [], [], [];
      cursor1, cursor2, cursor3 := [], [], [];
      writeIndex, count := 0, 0;
    }

    /** ChangeCapacity: a non-positive or unchanged capacity is ignored; any other
        one is installed and the chart cleared. */
    method ChangeCapacity(newCapacity: int)
      requires Valid()
      modifies this
      ensures Valid()
      ensures newCapacity <= 0 || newCapacity == old(maxPoints) ==> unchanged(this)
      ensures newCapacity > 0 && newCapacity != old(maxPoints) ==>
                && maxPoints == newCapacity
                && Sweep(series1, writeIndex, count) == Empty()
                && series2 == series3 == [] && cursor1 == cursor2 == cursor3 == []
                && showCursorPoint == old(showCursorPoint) && timeRangeHours == old(timeRangeHours)
    {
      if newCapacity <= 0 {
        return;
      }
      if newCapacity == maxPoints {
        return;
      }
      maxPoints := newCapacity;
      Clear();
    }

    /** SetTimeRangeHours: the stored range is the argument clamped to [0, 24]. */
    method SetTimeRangeHours(hours: int)
      requires Valid()
      modifies this
      ensures Valid()
      ensures timeRangeHours == Clamp(hours, 0, 24)
      ensures series1 == old(series1) && series2 == old(series2) && series3 == old(series3)
      ensures cursor1 == old(cursor1) && cursor2 == old(cursor2) && cursor3 == old(cursor3)
      ensures writeIndex == old(writeIndex) && count == old(count)
      ensures maxPoints == old(maxPoints) && showCursorPoint == old(showCursorPoint)
    {
      timeRangeHours := Clamp(hours, 0, 24);
    }
  }
}
