/** Integer and real helpers that make the source's arithmetic explicit:
    Math.Round (to even), Math.Clamp, C#'s truncating integer division and sums. */
module Numeric {

  function Abs(x: int): (r: nat)
    ensures r == x || r == -x
  {
    if x < 0 then -x else x
  }

  function AbsR(x: real): (r: real)
    ensures r >= 0.0 && (r == x || r == -x)
  {
    if x < 0.0 then -x else x
  }

  function Min(a: int, b: int): int { if a <= b then a else b }

  function Max(a: int, b: int): int { if a >= b then a else b }

  function Sign(x: int): int { if x > 0 then 1 else if x < 0 then -1 else 0 }

  /** Math.Clamp(x, lo, hi) for lo <= hi. */
  function Clamp(x: int, lo: int, hi: int): (r: int)
    requires lo <= hi
    ensures lo <= r <= hi
    ensures lo <= x <= hi ==> r == x
    ensures x < lo ==> r == lo
    ensures x > hi ==> r == hi
  {
    if x < lo then lo else if x > hi then hi else x
  }

  function ClampR(x: real, lo: real, hi: real): (r: real)
    requires lo <= hi
    ensures lo <= r <= hi
    ensures lo <= x <= hi ==> r == x
    ensures x < lo ==> r == lo
    ensures x > hi ==> r == hi
  {
    if x < lo then lo else if x > hi then hi else x
  }

  /** Math.Round(x) with the default MidpointRounding.ToEven. */
  function RoundHalfEven(x: real): int
  {
    var f := x.Floor;
    var d := x - f as real;
    if d < 0.5 then f
    else if d > 0.5 then f + 1
    else if f % 2 == 0 then f else f + 1
  }

  /** Rounding moves a value by at most one half, and ties go to an even integer. */
  lemma {:induction false} RoundHalfEvenClose(x: real)
    ensures -0.5 <= RoundHalfEven(x) as real - x <= 0.5
    ensures RoundHalfEven(x) as real - x == 0.5 || x - RoundHalfEven(x) as real == 0.5
            ==> RoundHalfEven(x) % 2 == 0
  {
  }

  /** Rounding a value that lies between two integers stays between them. */
  lemma {:induction false} RoundHalfEvenWithin(x: real, lo: int, hi: int)
    requires lo as real <= x <= hi as real
    ensures lo <= RoundHalfEven(x) <= hi
  {
    var f := x.Floor;
    assert lo <= f;
    if f == hi {
      assert x == hi as real;
    }
  }

  /** C#'s integer division by a positive divisor, which truncates toward zero
      (Dafny's `/` is Euclidean, so the two differ for a negative dividend). */
  function TruncDiv(a: int, b: int): int
    requires b > 0
  {
    if a >= 0 then a / b else -((-a) / b)
  }

  /** The quotient rounds toward zero: down for a non-negative dividend, up for a
      negative one. */
  lemma {:induction false} TruncDivBounds(a: int, b: int)
    requires b > 0
    ensures var q := TruncDiv(a, b);
            && (a >= 0 ==> q * b <= a < q * b + b)
            && (a < 0 ==> q * b - b < a <= q * b)
  {
  }

  lemma {:induction false} MulLe(x: int, y: int, b: int)
    requires x <= y && b > 0
    ensures x * b <= y * b
  {
  }

  /** A truncated quotient of a sum of b values in [lo, hi] by b lies in [lo, hi]. */
  lemma {:induction false} TruncDivWithin(a: int, b: int, lo: int, hi: int)
    requires b > 0 && b * lo <= a <= b * hi
    ensures lo <= TruncDiv(a, b) <= hi
  {
    var q := TruncDiv(a, b);
    TruncDivBounds(a, b);
    if q > hi {
      MulLe(hi + 1, q, b);
      assert false;
    }
    if q < lo {
      MulLe(q + 1, lo, b);
      assert false;
    }
  }

  function SumI(s: seq<int>): int
  {
    if s == [] then 0 else SumI(s[..|s| - 1]) + s[|s| - 1]
  }

  function SumR(s: seq<real>): real
  {
    if s == [] then 0.0 else SumR(s[..|s| - 1]) + s[|s| - 1]
  }

  function SumSqR(s: seq<real>): real
  {
    if s == [] then 0.0 else SumSqR(s[..|s| - 1]) + s[|s| - 1] * s[|s| - 1]
  }

  lemma {:induction false} SumIAppend(a: seq<int>, b: seq<int>)
    ensures SumI(a + b) == SumI(a) + SumI(b)
    decreases |b|
  {
    if b == [] {
      assert a + b == a;
    } else {
      assert (a + b)[..|a + b| - 1] == a + b[..|b| - 1];
      SumIAppend(a, b[..|b| - 1]);
    }
  }

  lemma {:induction false} SumRAppend(a: seq<real>, b: seq<real>)
    ensures SumR(a + b) == SumR(a) + SumR(b)
    decreases |b|
  {
    if b == [] {
      assert a + b == a;
    } else {
      assert (a + b)[..|a + b| - 1] == a + b[..|b| - 1];
      SumRAppend(a, b[..|b| - 1]);
    }
  }

  lemma {:induction false} SumSqRAppend(a: seq<real>, b: seq<real>)
    ensures SumSqR(a + b) == SumSqR(a) + SumSqR(b)
    decreases |b|
  {
    if b == [] {
      assert a + b == a;
    } else {
      assert (a + b)[..|a + b| - 1] == a + b[..|b| - 1];
      SumSqRAppend(a, b[..|b| - 1]);
    }
  }

  /** Overwriting one element changes the sum by the difference. */
  lemma {:induction false} SumIUpdate(s: seq<int>, i: int, x: int)
    requires 0 <= i < |s|
    ensures SumI(s[i := x]) == SumI(s) - s[i] + x
  {
    assert s == s[..i] + [s[i]] + s[i + 1..];
    assert s[i := x] == s[..i] + [x] + s[i + 1..];
    SumIAppend(s[..i] + [s[i]], s[i + 1..]);
    SumIAppend(s[..i], [s[i]]);
    SumIAppend(s[..i] + [x], s[i + 1..]);
    SumIAppend(s[..i], [x]);
  }

  lemma {:induction false} SumRUpdate(s: seq<real>, i: int, x: real)
    requires 0 <= i < |s|
    ensures SumR(s[i := x]) == SumR(s) - s[i] + x
  {
    assert s == s[..i] + [s[i]] + s[i + 1..];
    assert s[i := x] == s[..i] + [x] + s[i + 1..];
    SumRAppend(s[..i] + [s[i]], s[i + 1..]);
    SumRAppend(s[..i], [s[i]]);
    SumRAppend(s[..i] + [x], s[i + 1..]);
    SumRAppend(s[..i], [x]);
  }

  lemma {:induction false} SumSqRUpdate(s: seq<real>, i: int, x: real)
    requires 0 <= i < |s|
    ensures SumSqR(s[i := x]) == SumSqR(s) - s[i] * s[i] + x * x
  {
    assert s == s[..i] + [s[i]] + s[i + 1..];
    assert s[i := x] == s[..i] + [x] + s[i + 1..];
    SumSqRAppend(s[..i] + [s[i]], s[i + 1..]);
    SumSqRAppend(s[..i], [s[i]]);
    SumSqRAppend(s[..i] + [x], s[i + 1..]);
    SumSqRAppend(s[..i], [x]);
  }

  /** A sequence of zeros sums to zero. */
  lemma {:induction false} SumRZeros(s: seq<real>)
    requires forall k :: 0 <= k < |s| ==> s[k] == 0.0
    ensures SumR(s) == 0.0 && SumSqR(s) == 0.0
  {
    if s != [] {
      SumRZeros(s[..|s| - 1]);
    }
  }

  lemma {:induction false} SumIZeros(s: seq<int>)
    requires forall k :: 0 <= k < |s| ==> s[k] == 0
    ensures SumI(s) == 0
  {
    if s != [] {
      SumIZeros(s[..|s| - 1]);
    }
  }

  /** Sums of integer sequences whose elements lie in [lo, hi]. */
  lemma {:induction false} SumIBounds(s: seq<int>, lo: int, hi: int)
    requires forall k :: 0 <= k < |s| ==> lo <= s[k] <= hi
    ensures |s| * lo <= SumI(s) <= |s| * hi
  {
    if s != [] {
      SumIBounds(s[..|s| - 1], lo, hi);
    }
  }

  function RealMax(a: real, b: real): real
  {
    if a >= b then a else b
  }

  /** The square root the source takes from its math library, as a parameter:
      non-negative, and squaring back to its argument on non-negative input. */
  ghost predicate SqrtOk(sqrt: real -> real)
  {
    forall x :: 0.0 <= x ==> 0.0 <= Root(sqrt, x) && Root(sqrt, x) * Root(sqrt, x) == x
  }

  /** sqrt(x), under a name of its own: the facts SqrtOk states are found
      only through this name, that is, in the lemmas below. */
  function Root(sqrt: real -> real, x: real): real
  {
    sqrt(x)
  }

  /** A square root of zero is zero, and of a positive number is positive. */
  lemma {:induction false} SqrtSign(sqrt: real -> real, x: real)
    requires SqrtOk(sqrt) && 0.0 <= x
    ensures x == 0.0 ==> sqrt(x) == 0.0
    ensures x > 0.0 ==> sqrt(x) > 0.0
  {
    var r := Root(sqrt, x);
    assert 0.0 <= r && r * r == x;
    if r > 0.0 {
      MulStrict(0.0, r);
    }
  }

  /** For non-negative numbers, comparing square roots is comparing squares. */
  lemma {:induction false} SqrtAtMost(sqrt: real -> real, x: real, t: real)
    requires SqrtOk(sqrt) && 0.0 <= x && 0.0 <= t
    ensures sqrt(x) <= t <==> x <= t * t
  {
    var r := Root(sqrt, x);
    assert 0.0 <= r && r * r == x;
    if r <= t {
      assert r * r <= t * t by { MulMono(r, t); }
    } else {
      assert t * t < r * r by { MulStrict(t, r); }
    }
  }

  lemma {:induction false} MulMono(a: real, b: real)
    requires 0.0 <= a <= b
    ensures a * a <= b * b
  {
    assert a * a <= a * b;
    assert a * b <= b * b;
  }

  lemma {:induction false} MulStrict(a: real, b: real)
    requires 0.0 <= a < b
    ensures a * a < b * b
  {
    var d, e := b - a, b + a;
    assert d > 0.0 && e > 0.0;
    assert d * e > 0.0;
    assert d * e == b * b - a * a;
  }
}
