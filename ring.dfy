/** The fixed-capacity ring buffers of the vital-sign pipeline (smoothing, z-score,
    SpO2 red/ir and the two interval buffers) all follow one discipline: write at
    the write index, advance it modulo the capacity, and count up to the capacity.
    This module gives their contents in arrival order and the facts the running
    sums rely on. */
module Ring {
  import opened Numeric

  /** The last n elements of s (all of s when it is not longer than n). */
  function Last<T>(n: nat, s: seq<T>): (r: seq<T>)
    ensures |r| == Min(n, |s|)
  {
    if |s| <= n then s else s[|s| - n..]
  }

  /** Last(n, s) is a suffix of s: what it drops is a prefix. */
  lemma {:induction false} LastSuffix<T>(n: nat, s: seq<T>)
    ensures s == s[..|s| - |Last(n, s)|] + Last(n, s)
    ensures forall k :: 0 <= k < |Last(n, s)| ==> Last(n, s)[k] == s[|s| - |Last(n, s)| + k]
  {
    if |s| > n {
      assert s == s[..|s| - n] + s[|s| - n..];
    }
  }

  /** The index/count discipline of a ring buffer of capacity |buf|: while it is
      filling, the write index equals the count. */
  ghost predicate Wf<T>(buf: seq<T>, idx: int, count: int)
  {
    && |buf| > 0
    && 0 <= count <= |buf|
    && 0 <= idx < |buf|
    && (count < |buf| ==> idx == count)
  }

  /** The buffered elements, oldest first. */
  ghost function Contents<T>(buf: seq<T>, idx: int, count: int): (r: seq<T>)
    requires Wf(buf, idx, count)
    ensures |r| == count
  {
    if count < |buf| then buf[..count] else buf[idx..] + buf[..idx]
  }

  /** The write index after idx: one on, wrapping to 0 at the capacity. */
  function Next(idx: int, capacity: int): int
  {
    if idx + 1 >= capacity then 0 else idx + 1
  }

  /** Writing x at the write index, advancing the index modulo the capacity and
      counting up to the capacity keeps the discipline and appends x to the
      window, dropping the oldest element once the buffer is full. */
  lemma {:induction false} Push<T>(buf: seq<T>, idx: int, count: int, x: T)
    requires Wf(buf, idx, count)
    ensures Wf(buf[idx := x], Next(idx, |buf|), Min(count + 1, |buf|))
    ensures Contents(buf[idx := x], Next(idx, |buf|), Min(count + 1, |buf|))
            == Last(|buf|, Contents(buf, idx, count) + [x])
  {
    if count < |buf| {
      PushFilling(buf, idx, count, x);
    } else {
      PushFull(buf, idx, x);
    }
  }

  lemma {:induction false} PushFilling<T>(buf: seq<T>, idx: int, count: int, x: T)
    requires Wf(buf, idx, count) && count < |buf|
    ensures var i := Next(idx, |buf|);
            Wf(buf[idx := x], i, count + 1)
            && Contents(buf[idx := x], i, count + 1) == Contents(buf, idx, count) + [x]
  {
    var b := buf[idx := x];
    if count + 1 < |buf| {
      assert b[..count + 1] == buf[..count] + [x];
    } else {
      assert b[0..] + b[..0] == b;
      assert b == buf[..count] + [x];
    }
  }

  lemma {:induction false} PushFull<T>(buf: seq<T>, idx: int, x: T)
    requires Wf(buf, idx, |buf|)
    ensures var i := Next(idx, |buf|);
            Wf(buf[idx := x], i, |buf|)
            && Contents(buf[idx := x], i, |buf|) == (Contents(buf, idx, |buf|) + [x])[1..]
  {
    var b := buf[idx := x];
    var nw := Contents(buf, idx, |buf|) + [x];
    assert nw == buf[idx..] + buf[..idx] + [x];
    if idx + 1 < |buf| {
      assert b[idx + 1..] == buf[idx + 1..];
      assert b[..idx + 1] == buf[..idx] + [x];
      assert nw[1..] == buf[idx + 1..] + buf[..idx] + [x];
    } else {
      assert b[0..] + b[..0] == b;
      assert b == buf[..idx] + [x];
      assert nw[1..] == buf[..idx] + [x];
    }
  }

  /** The window sums to the whole buffer when the unused slots hold zero. */
  lemma {:induction false} SumContentsR(buf: seq<real>, idx: int, count: int)
    requires Wf(buf, idx, count)
    requires forall k :: count <= k < |buf| ==> buf[k] == 0.0
    ensures SumR(Contents(buf, idx, count)) == SumR(buf)
    ensures SumSqR(Contents(buf, idx, count)) == SumSqR(buf)
  {
    if count < |buf| {
      assert buf == buf[..count] + buf[count..];
      SumRAppend(buf[..count], buf[count..]);
      SumSqRAppend(buf[..count], buf[count..]);
      SumRZeros(buf[count..]);
    } else {
      assert buf == buf[..idx] + buf[idx..];
      SumRAppend(buf[..idx], buf[idx..]);
      SumRAppend(buf[idx..], buf[..idx]);
      SumSqRAppend(buf[..idx], buf[idx..]);
      SumSqRAppend(buf[idx..], buf[..idx]);
    }
  }

  lemma {:induction false} SumContentsI(buf: seq<int>, idx: int, count: int)
    requires Wf(buf, idx, count)
    ensures SumI(Contents(buf, idx, count)) == SumI(buf[..count])
  {
    if count == |buf| {
      assert buf[..count] == buf[..idx] + buf[idx..];
      SumIAppend(buf[..idx], buf[idx..]);
      SumIAppend(buf[idx..], buf[..idx]);
    }
  }
}
