/** The alternative heart-rate / breathing-rate estimator (the static class HRRR):
    a five-slot history of rates is sorted in place, values outside the IQR fences
    are dropped, the rest is averaged with integer division, and a hysteresis
    decides whether the displayed value follows the new average. */
module Hrrr {
  import opened Numeric

  /** The length of both history arrays the estimator reads. */
  const HistoryLength: nat := 5
  const HrBand: nat := 4
  const BrBand: nat := 2

  predicate Sorted(s: seq<int>)
  {
    forall i, j :: 0 <= i < j < |s| ==> s[i] <= s[j]
  }

  lemma {:induction false} ConsSorted(a: int, r: seq<int>)
    requires Sorted(r) && forall y :: y in r ==> a <= y
    ensures Sorted([a] + r)
  {
    var t := [a] + r;
    forall i, j | 0 <= i < j < |t|
      ensures t[i] <= t[j]
    {
      if i == 0 {
        assert t[j] in r;
      } else {
        assert t[i] == r[i - 1] && t[j] == r[j - 1];
      }
    }
  }

  /** x in front of a sorted s that it does not exceed keeps it sorted. */
  lemma {:induction false} InsertHead(x: int, s: seq<int>)
    requires Sorted(s) && (s == [] || x <= s[0])
    ensures Sorted([x] + s)
  {
    forall y | y in s
      ensures x <= y
    {
      var k :| 0 <= k < |s| && s[k] == y;
    }
    ConsSorted(x, s);
  }

  /** s[0] in front of x inserted into the rest of s keeps the order and the values. */
  lemma {:induction false} InsertBehind(x: int, s: seq<int>, rest: seq<int>)
    requires Sorted(s) && s != [] && s[0] < x
    requires Sorted(rest) && multiset(rest) == multiset(s[1..]) + multiset{x}
    ensures Sorted([s[0]] + rest)
    ensures multiset([s[0]] + rest) == multiset(s) + multiset{x}
  {
    assert s == [s[0]] + s[1..];
    forall y | y in rest
      ensures s[0] <= y
    {
      assert y in multiset(rest);
      assert y == x || y in s[1..];
    }
    ConsSorted(s[0], rest);
  }

  function Insert(x: int, s: seq<int>): (r: seq<int>)
    requires Sorted(s)
    ensures Sorted(r)
    ensures multiset(r) == multiset(s) + multiset{x}
  {
    if s == [] || x <= s[0] then
      InsertHead(x, s);
      [x] + s
    else
      var rest := Insert(x, s[1..]);
      InsertBehind(x, s, rest);
      [s[0]] + rest
  }

  /** Array.Sort on ints: the ascending rearrangement of s. */
  function SortSeq(s: seq<int>): (r: seq<int>)
    ensures Sorted(r)
    ensures multiset(r) == multiset(s)
    ensures |r| == |s|
  {
    if s == [] then []
    else
      assert s == [s[0]] + s[1..];
      Insert(s[0], SortSeq(s[1..]))
  }

  /** Array.Sort(arr): the caller's array is left sorted. */
  method SortArray(a: array<int>)
    modifies a
    ensures a[..] == SortSeq(old(a[..]))
  {
    var s := SortSeq(a[..]);
    forall i | 0 <= i < a.Length {
      a[i] := s[i];
    }
  }

  lemma {:induction false} MulNonneg(a: real, b: real)
    requires a >= 0.0 && b >= 0.0
    ensures a * b >= 0.0
  {
  }

  /** (int)(p / 100 * (n - 1)): the lower rank of the p-th percentile. */
  function RankIndex(n: nat, p: real): (i: nat)
    requires n > 0 && 0.0 <= p <= 100.0
    ensures i < n
    ensures i as real <= p / 100.0 * (n - 1) as real < i as real + 1.0
  {
    var x := p / 100.0 * (n - 1) as real;
    MulNonneg(p / 100.0, (n - 1) as real);
    MulNonneg(1.0 - p / 100.0, (n - 1) as real);
    x.Floor
  }

  predicate Between(r: real, x: real, y: real)
  {
    (x <= r <= y) || (y <= r <= x)
  }

  lemma {:induction false} Convex(x: real, y: real, f: real)
    requires 0.0 <= f <= 1.0
    ensures Between(x * (1.0 - f) + y * f, x, y)
  {
    var r := x * (1.0 - f) + y * f;
    assert r - x == (y - x) * f;
    assert y - r == (y - x) * (1.0 - f);
    if x <= y {
      MulNonneg(y - x, f);
      MulNonneg(y - x, 1.0 - f);
    } else {
      MulNonneg(x - y, f);
      MulNonneg(x - y, 1.0 - f);
    }
  }

  /** GetPercentile: linear interpolation between the two ranks around
      p / 100 * (n - 1); at the last rank, that element itself. */
  function Percentile(a: seq<int>, p: real): (r: real)
    requires |a| > 0 && 0.0 <= p <= 100.0
    ensures var i := RankIndex(|a|, p);
            Between(r, a[i] as real, a[Min(i + 1, |a| - 1)] as real)
    ensures var i := RankIndex(|a|, p);
            i as real == p / 100.0 * (|a| - 1) as real ==> r == a[i] as real
  {
    var x := p / 100.0 * (|a| - 1) as real;
    var i := RankIndex(|a|, p);
    var frac := x - i as real;
    if i + 1 < |a| then
      Convex(a[i] as real, a[i + 1] as real, frac);
      a[i] as real * (1.0 - frac) + a[i + 1] as real * frac
    else
      a[i] as real
  }

  /** For five values the quartiles fall exactly on ranks 1 and 3. */
  lemma {:induction false} Quartiles5(a: seq<int>)
    requires |a| == HistoryLength
    ensures Percentile(a, 25.0) == a[1] as real
    ensures Percentile(a, 75.0) == a[3] as real
  {
    assert RankIndex(5, 25.0) == 1;
    assert RankIndex(5, 75.0) == 3;
  }

  /** The values of s within [lo, hi], in their original order. */
  function Keep(s: seq<int>, lo: real, hi: real): (r: seq<int>)
    ensures |r| <= |s|
  {
    if s == [] then []
    else
      var rest := Keep(s[1..], lo, hi);
      if lo <= s[0] as real <= hi then [s[0]] + rest else rest
  }

  /** Keep retains every value of s in range, with its multiplicity, and nothing
      else. */
  lemma {:induction false} KeepCount(s: seq<int>, lo: real, hi: real)
    ensures forall x {:trigger multiset(Keep(s, lo, hi))[x]} ::
              multiset(Keep(s, lo, hi))[x] == if lo <= x as real <= hi then multiset(s)[x] else 0
    decreases |s|
  {
    if s != [] {
      assert s == [s[0]] + s[1..];
      KeepCount(s[1..], lo, hi);
    }
  }

  lemma {:induction false} KeepMembers(s: seq<int>, lo: real, hi: real)
    ensures forall x :: x in Keep(s, lo, hi) <==> x in s && lo <= x as real <= hi
  {
    KeepCount(s, lo, hi);
    forall x
      ensures x in Keep(s, lo, hi) <==> x in s && lo <= x as real <= hi
    {
      assert x in Keep(s, lo, hi) <==> multiset(Keep(s, lo, hi))[x] > 0;
      assert x in s <==> multiset(s)[x] > 0;
    }
  }

  /** Filtering a sorted sequence leaves it sorted. */
  lemma {:induction false} KeepSorted(s: seq<int>, lo: real, hi: real)
    requires Sorted(s)
    ensures Sorted(Keep(s, lo, hi))
    decreases |s|
  {
    if s != [] {
      var rest := Keep(s[1..], lo, hi);
      KeepSorted(s[1..], lo, hi);
      if lo <= s[0] as real <= hi {
        KeepMembers(s[1..], lo, hi);
        forall y | y in rest
          ensures s[0] <= y
        {
          var k :| 0 <= k < |s[1..]| && s[1..][k] == y;
          assert s[k + 1] == y;
        }
        ConsSorted(s[0], rest);
      }
    }
  }

  /** The fences q1 - 1.5 IQR and q3 + 1.5 IQR of a sorted array. */
  function LowerFence(s: seq<int>): real
    requires |s| > 0
  {
    var q1, q3 := Percentile(s, 25.0), Percentile(s, 75.0);
    q1 - 1.5 * (q3 - q1)
  }

  function UpperFence(s: seq<int>): real
    requires |s| > 0
  {
    var q1, q3 := Percentile(s, 25.0), Percentile(s, 75.0);
    q3 + 1.5 * (q3 - q1)
  }

  /** What RemoveOutliersUsingIQR returns for the (already sorted) array s. */
  function IqrFilter(s: seq<int>): (r: seq<int>)
    requires |s| > 0
  {
    Keep(s, LowerFence(s), UpperFence(s))
  }

  /** On five sorted values the fences always enclose ranks 1 to 3, so the
      filter keeps the three middle values and is never empty. */
  lemma {:induction false} IqrKeepsMiddle(s: seq<int>)
    requires |s| == HistoryLength && Sorted(s)
    ensures s[1] in IqrFilter(s) && s[2] in IqrFilter(s) && s[3] in IqrFilter(s)
    ensures |IqrFilter(s)| > 0
    ensures Sorted(IqrFilter(s))
  {
    Quartiles5(s);
    assert s[1] <= s[2] <= s[3];
    KeepMembers(s, LowerFence(s), UpperFence(s));
    KeepSorted(s, LowerFence(s), UpperFence(s));
  }

  /** RemoveOutliersUsingIQR: sorts the caller's array in place, then returns its
      values within the IQR fences. */
  method RemoveOutliersUsingIQR(arr: array<int>) returns (kept: seq<int>)
    requires arr.Length > 0
    modifies arr
    ensures arr[..] == SortSeq(old(arr[..]))
    ensures kept == IqrFilter(arr[..])
  {
    SortArray(arr);
    kept := KeepWithinFences(arr[..]);
  }

  /** The second half of RemoveOutliersUsingIQR: the quartiles, the fences 1.5
      interquartile ranges beyond them, and the values between the fences. */
  method KeepWithinFences(s: seq<int>) returns (kept: seq<int>)
    requires |s| > 0
    ensures kept == IqrFilter(s)
  {
    var q1 := Percentile(s, 25.0);
    var q3 := Percentile(s, 75.0);
    var iqr := q3 - q1;
    var lowerBound := q1 - 1.5 * iqr;
    var upperBound := q3 + 1.5 * iqr;
    kept := Keep(s, lowerBound, upperBound);
  }

  /** The heart-rate average: the kept values' sum divided by their number. */
  function HrAverage(s: seq<int>): int
    requires |s| == HistoryLength && Sorted(s)
  {
    IqrKeepsMiddle(s);
    var kept := IqrFilter(s);
    TruncDiv(SumI(kept), |kept|)
  }

  /** The breathing-rate average divides by one more than the number of kept values. */
  function BrAverage(s: seq<int>): int
    requires |s| == HistoryLength && Sorted(s)
  {
    var kept := IqrFilter(s);
    TruncDiv(SumI(kept), |kept| + 1)
  }

  lemma {:induction false} KeptWithin(s: seq<int>)
    requires |s| == HistoryLength && Sorted(s)
    ensures forall k :: 0 <= k < |IqrFilter(s)| ==> s[0] <= IqrFilter(s)[k] <= s[4]
  {
    var kept := IqrFilter(s);
    KeepMembers(s, LowerFence(s), UpperFence(s));
    forall k | 0 <= k < |kept|
      ensures s[0] <= kept[k] <= s[4]
    {
      assert kept[k] in kept;
      var j :| 0 <= j < |s| && s[j] == kept[k];
    }
  }

  /** The heart-rate average never leaves the range of the history. */
  lemma {:induction false} HrAverageWithin(s: seq<int>)
    requires |s| == HistoryLength && Sorted(s)
    ensures s[0] <= HrAverage(s) <= s[HistoryLength - 1]
  {
    IqrKeepsMiddle(s);
    KeptWithin(s);
    var kept := IqrFilter(s);
    SumIBounds(kept, s[0], s[4]);
    TruncDivWithin(SumI(kept), |kept|, s[0], s[4]);
  }

  /** With a non-negative history the breathing-rate average stays between 0 and
      the largest rate (dividing by one more than the count only lowers it). */
  lemma {:induction false} BrAverageWithin(s: seq<int>)
    requires |s| == HistoryLength && Sorted(s) && s[0] >= 0
    ensures 0 <= BrAverage(s) <= s[HistoryLength - 1]
  {
    KeptWithin(s);
    var kept := IqrFilter(s);
    SumIBounds(kept, s[0], s[4]);
    assert |kept| * s[4] <= (|kept| + 1) * s[4];
    MulLe(0, s[0], |kept| + 1);
    TruncDivWithin(SumI(kept), |kept| + 1, 0, s[4]);
  }

  /** The displayed value after a new average v, given the two previous averages. */
  function Hysteresis(v: int, current: int, prev1: int, prev2: int, band: nat): (r: int)
    ensures r == v || r == current
    ensures Abs(v - prev1) <= band ==> r == v
    ensures Abs(v - prev1) > band && Abs(v - prev2) > band ==> r == v
    ensures Abs(v - prev1) > band && Abs(v - prev2) <= band ==> r == current
  {
    if v < prev1 - band || v > prev1 + band then
      if v < prev2 - band || v > prev2 + band then v else current
    else v
  }

  /** Once an average has been seen, the same average next time is shown. */
  lemma {:induction false} RepeatShown(v: int, current: int, prev2: int, band: nat)
    ensures Hysteresis(v, current, v, prev2, band) == v
  {
  }

  /** The summing loop of UpdateHR and UpdateBR. */
  method Total(arr: seq<int>) returns (t: int)
    ensures t == SumI(arr)
  {
    t := 0;
    for i := 0 to |arr|
      invariant t == SumI(arr[..i])
    {
      assert arr[..i + 1][..i] == arr[..i];
      t := t + arr[i];
    }
    assert arr[..|arr|] == arr;
  }

  /** The averaging half of UpdateHR: sort the history in place, drop the
      outliers and average the rest. */
  method HrMean(history: array<int>) returns (avg: int)
    requires history.Length == HistoryLength
    modifies history
    ensures history[..] == SortSeq(old(history[..]))
    ensures avg == HrAverage(history[..])
  {
    var arr := RemoveOutliersUsingIQR(history);
    IqrKeepsMiddle(history[..]);
    var total := Total(arr);
    avg := TruncDiv(total, |arr|);
  }

  /** The averaging half of UpdateBR, with its divisor one larger. */
  method BrMean(history: array<int>) returns (avg: int)
    requires history.Length == HistoryLength
    modifies history
    ensures history[..] == SortSeq(old(history[..]))
    ensures avg == BrAverage(history[..])
  {
    var arr := RemoveOutliersUsingIQR(history);
    var total := Total(arr);
    avg := TruncDiv(total, |arr| + 1);
  }

  /** The estimator's state: the last average, the displayed value and the two
      previous averages, for heart rate and for breathing rate. */
  class Estimator {
    var hrValue: int
    var currentHR: int
    var prevHR1: int
    var prevHR2: int
    var brValue: int
    var currentBR: int
    var prevBR1: int
    var prevBR2: int

    constructor()
      ensures hrValue == 0 && currentHR == 0 && prevHR1 == 0 && prevHR2 == 0
      ensures brValue == 0 && currentBR == 0 && prevBR1 == 0 && prevBR2 == 0
    {
      hrValue, currentHR, prevHR1, prevHR2 := 0, 0, 0, 0;
      brValue, currentBR, prevBR1, prevBR2 := 0, 0, 0, 0;
    }

    /** UpdateHR over the five-slot heart-rate history (sorted in place). */
    method UpdateHR(history: array<int>) returns (r: int)
      requires history.Length == HistoryLength
      modifies this, history
      ensures history[..] == SortSeq(old(history[..]))
      ensures hrValue == HrAverage(SortSeq(old(history[..])))
      ensures currentHR == Hysteresis(hrValue, old(currentHR), old(prevHR1), old(prevHR2), HrBand)
      ensures prevHR1 == hrValue && prevHR2 == old(prevHR1) && r == currentHR
      ensures brValue == old(brValue) && currentBR == old(currentBR)
      ensures prevBR1 == old(prevBR1) && prevBR2 == old(prevBR2)
    {
      var hrTemp := HrMean(history);
      r := ShowHr(hrTemp);
    }

    /** The hysteresis half of UpdateHR. */
    method ShowHr(hrTemp: int) returns (r: int)
      modifies this
      ensures hrValue == hrTemp && prevHR1 == hrTemp && prevHR2 == old(prevHR1)
      ensures currentHR == Hysteresis(hrTemp, old(currentHR), old(prevHR1), old(prevHR2), HrBand)
      ensures r == currentHR
      ensures brValue == old(brValue) && currentBR == old(currentBR)
      ensures prevBR1 == old(prevBR1) && prevBR2 == old(prevBR2)
    {
      var shown := Hysteresis(hrTemp, currentHR, prevHR1, prevHR2, HrBand);
      hrValue, currentHR, prevHR2, prevHR1 := hrTemp, shown, prevHR1, hrTemp;
      r := shown;
    }

    /** UpdateBR over the peak finder's five-slot history (sorted in place). */
    method UpdateBR(history: array<int>) returns (r: int)
      requires history.Length == HistoryLength
      modifies this, history
      ensures history[..] == SortSeq(old(history[..]))
      ensures brValue == BrAverage(SortSeq(old(history[..])))
      ensures currentBR == Hysteresis(brValue, old(currentBR), old(prevBR1), old(prevBR2), BrBand)
      ensures prevBR1 == brValue && prevBR2 == old(prevBR1) && r == currentBR
      ensures hrValue == old(hrValue) && currentHR == old(currentHR)
      ensures prevHR1 == old(prevHR1) && prevHR2 == old(prevHR2)
    {
      var brTemp := BrMean(history);
      r := ShowBr(brTemp);
    }

    /** The hysteresis half of UpdateBR. */
    method ShowBr(brTemp: int) returns (r: int)
      modifies this
      ensures brValue == brTemp && prevBR1 == brTemp && prevBR2 == old(prevBR1)
      ensures currentBR == Hysteresis(brTemp, old(currentBR), old(prevBR1), old(prevBR2), BrBand)
      ensures r == currentBR
      ensures hrValue == old(hrValue) && currentHR == old(currentHR)
      ensures prevHR1 == old(prevHR1) && prevHR2 == old(prevHR2)
    {
      var shown := Hysteresis(brTemp, currentBR, prevBR1, prevBR2, BrBand);
      brValue, currentBR, prevBR2, prevBR1 := brTemp, shown, prevBR1, brTemp;
      r := shown;
    }
  }
}
