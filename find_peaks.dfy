/** The breathing-rate peak finder (the static class FindPeaks): strict local
    maxima above the mean are picked greedily from left to right, at least
    minDistance apart; when more than two are found, a rate derived from their
    spacing is written into a five-slot history ring. */
module FindPeaks {
  import opened Numeric

  const HistoryLength: nat := 5
  const DefaultMinDistance: int := 100

  /** The arithmetic mean of the data (the empty case never reaches a comparison). */
  function Mean(data: seq<real>): real
  {
    if |data| == 0 then 0.0 else SumR(data) / |data| as real
  }

  /** Index i is a strict local maximum above the mean. */
  predicate IsCandidate(data: seq<real>, avg: real, i: int)
  {
    1 <= i < |data| - 1 && data[i] > avg && data[i] > data[i - 1] && data[i] > data[i + 1]
  }

  /** The greedy pick from index i on, the last accepted peak being at last. */
  function Greedy(data: seq<real>, avg: real, md: int, i: nat, last: int): seq<int>
    decreases |data| - i
  {
    if i + 1 >= |data| then []
    else if IsCandidate(data, avg, i) && i - last >= md then [i] + Greedy(data, avg, md, i + 1, i)
    else Greedy(data, avg, md, i + 1, last)
  }

  /** The peaks FindPeak selects in data for a given minimum distance. */
  function Peaks(data: seq<real>, md: int): seq<int>
  {
    Greedy(data, Mean(data), md, 1, -md)
  }

  predicate Increasing(r: seq<int>)
  {
    forall k :: 0 <= k < |r| - 1 ==> r[k] < r[k + 1]
  }

  /** Consecutive picks are at least md apart. */
  predicate Spaced(r: seq<int>, md: int)
  {
    forall k :: 0 <= k < |r| - 1 ==> r[k + 1] - r[k] >= md
  }

  /** Every selected index lies in [1, n - 2], the indices increase strictly, each
      is a strict local maximum above the mean, and picks are minDistance apart
      (the first one counted from the starting lastPeak). */
  lemma {:induction false} GreedyShape(data: seq<real>, avg: real, md: int, i: nat, last: int)
    requires 1 <= i
    ensures var r := Greedy(data, avg, md, i, last);
            && (forall k :: 0 <= k < |r| ==> i <= r[k] <= |data| - 2 && IsCandidate(data, avg, r[k]))
            && Increasing(r) && Spaced(r, md)
            && (|r| > 0 ==> r[0] - last >= md)
    decreases |data| - i
  {
    if i + 1 < |data| {
      GreedyShape(data, avg, md, i + 1, if IsCandidate(data, avg, i) && i - last >= md then i else last);
    }
  }

  /** The last pick before index j, or last if there is none. */
  function PrevPick(r: seq<int>, last: int, j: int): int
  {
    if r == [] || r[0] >= j then last else PrevPick(r[1..], r[0], j)
  }

  /** Exactly the candidates at least md after the previous pick are picked: a
      rejected maximum does not count as the previous pick for later ones. */
  lemma {:induction false} GreedyExact(data: seq<real>, avg: real, md: int, i: nat, last: int, j: int)
    requires 1 <= i <= j && IsCandidate(data, avg, j)
    ensures var r := Greedy(data, avg, md, i, last);
            j in r <==> j - PrevPick(r, last, j) >= md
    decreases |data| - i
  {
    var r := Greedy(data, avg, md, i, last);
    var take := IsCandidate(data, avg, i) && i - last >= md;
    var next := if take then i else last;
    var r' := Greedy(data, avg, md, i + 1, next);
    GreedyShape(data, avg, md, i + 1, next);
    if j == i {
      assert j !in r';
      assert PrevPick(r', next, j) == next;
    } else {
      GreedyExact(data, avg, md, i + 1, next, j);
    }
  }

  /** The summing loop of FindPeak. */
  method Average(data: seq<real>) returns (avg: real)
    ensures avg == Mean(data)
  {
    avg := 0.0;
    for i := 0 to |data|
      invariant avg == SumR(data[..i])
    {
      assert data[..i + 1][..i] == data[..i];
      avg := avg + data[i];
    }
    assert data[..|data|] == data;
    if |data| > 0 {
      avg := avg / |data| as real;
    }
  }

  /** The selection loop of FindPeak. */
  method SelectPeaks(data: seq<real>, avg: real, md: int) returns (rPeaks: seq<int>)
    ensures rPeaks == Greedy(data, avg, md, 1, -md)
  {
    rPeaks := [];
    var lastPeak := -md;
    var i := 1;
    while i < |data| - 1
      invariant 1 <= i
      invariant rPeaks + Greedy(data, avg, md, i, lastPeak) == Greedy(data, avg, md, 1, -md)
      decreases |data| - i
    {
      if data[i] > avg && data[i] > data[i - 1] && data[i] > data[i + 1] {
        if i - lastPeak >= md {
          assert rPeaks + Greedy(data, avg, md, i, lastPeak)
              == (rPeaks + [i]) + Greedy(data, avg, md, i + 1, i);
          rPeaks := rPeaks + [i];
          lastPeak := i;
        }
      }
      i := i + 1;
    }
    assert rPeaks + [] == rPeaks;
  }

  lemma {:induction false} IncreasingSpan(r: seq<int>, a: int, b: int)
    requires Increasing(r) && 0 <= a <= b < |r|
    ensures r[b] - r[a] >= b - a
    decreases b - a
  {
    if a < b {
      IncreasingSpan(r, a + 1, b);
    }
  }

  lemma {:induction false} SpacedSpan(r: seq<int>, md: int, a: int, b: int)
    requires Spaced(r, md) && 0 <= a <= b < |r|
    ensures r[b] - r[a] >= (b - a) * md
    decreases b - a
  {
    if a < b {
      SpacedSpan(r, md, a + 1, b);
    }
  }

  /** The average spacing from the second peak to the last, in samples, with the
      integer division of the source. */
  function Interval(r: seq<int>): int
    requires |r| > 2
  {
    (r[|r| - 1] - r[1]) / (|r| - 2)
  }

  /** Picked peaks are at least one sample apart on average, and at least
      minDistance apart when that is positive. */
  lemma {:induction false} IntervalBounds(data: seq<real>, md: int)
    requires |Peaks(data, md)| > 2
    ensures Interval(Peaks(data, md)) >= Max(1, md)
  {
    var r := Peaks(data, md);
    GreedyShape(data, Mean(data), md, 1, -md);
    var n := |r| - 2;
    IncreasingSpan(r, 1, |r| - 1);
    SpacedSpan(r, md, 1, |r| - 1);
    var span := r[|r| - 1] - r[1];
    DivLowerBound(span, n, Max(1, md));
  }

  lemma {:induction false} DivLowerBound(a: int, b: int, m: int)
    requires b > 0 && a >= b * m
    ensures a / b >= m
  {
    if a / b < m {
      MulLe(a / b + 1, m, b);
      assert false;
    }
  }

  /** (int)(60 / (interval * 0.0256)): the rate for an interval given in samples. */
  function RateOf(interval: int): (rate: int)
    requires interval >= 1
    ensures 0 <= rate <= 2343
    ensures rate == 600000 / (256 * interval)
  {
    var x := 60.0 / (interval as real * 0.0256);
    assert x == 600000.0 / (256 * interval) as real;
    FloorOfQuotient(600000, 256 * interval);
    x.Floor
  }

  /** Truncating a quotient of positive integers is integer division. */
  lemma {:induction false} FloorOfQuotient(a: nat, b: nat)
    requires b > 0
    ensures (a as real / b as real).Floor == a / b
  {
    var q, m := a / b, a % b;
    assert a as real / b as real == q as real + m as real / b as real;
    assert 0.0 <= m as real / b as real < 1.0;
  }

  /** The rate FindPeak stores for the peaks of data. */
  function PeakRate(data: seq<real>, md: int): (rate: int)
    requires |Peaks(data, md)| > 2
    ensures 0 <= rate <= 2343
  {
    IntervalBounds(data, md);
    RateOf(Interval(Peaks(data, md)))
  }

  /** The peak finder's state: the rate history ring and its write index. */
  class PeakFinder {
    var history: array<int>
    var index: int
    var minDistance: int

    ghost predicate Valid()
      reads this
    {
      history.Length == HistoryLength && 0 <= index < HistoryLength
    }

    constructor()
      ensures Valid() && fresh(history)
      ensures history[..] == [0, 0, 0, 0, 0] && index == 0
      ensures minDistance == DefaultMinDistance
    {
      history := new int[HistoryLength](_ => 0);
      index := 0;
      minDistance := DefaultMinDistance;
    }

    /** FindPeak: with more than two peaks, the rate from their spacing goes into
        the slot at index, and index advances, wrapping from 5 to 0; otherwise
        nothing changes. */
    method FindPeak(data: seq<real>)
      requires Valid()
      modifies this, history
      ensures Valid() && history == old(history) && minDistance == old(minDistance)
      ensures var r := Peaks(data, minDistance);
              if |r| > 2 then
                && history[..] == old(history[..])[old(index) := PeakRate(data, minDistance)]
                && index == (old(index) + 1) % HistoryLength
              else
                history[..] == old(history[..]) && index == old(index)
    {
      var avg := Average(data);
      var rPeaks := SelectPeaks(data, avg, minDistance);
      if |rPeaks| > 2 {
        IntervalBounds(data, minDistance);
        history[index] := RateOf((rPeaks[|rPeaks| - 1] - rPeaks[1]) / (|rPeaks| - 2));
        index := index + 1;
        if index == HistoryLength {
          index := 0;
        }
      }
    }
  }
}
