/** The BLE backend's frame resynchroniser (blebackend/blebackend.py).
    Notifications from the chair append raw bytes to one global buffer; the parser
    scans it for 20-byte frames
      [0x02, tag, 16 payload bytes, XOR of bytes 0..17, 0x03]
    and forwards each good frame's 16-byte payload to the TCP clients. */
module BleFrame {

  const SOF: bv8 := 0x02
  const EOF: bv8 := 0x03
  const PayloadLength: nat := 16
  const FrameLength: nat := 20

  /** reduce(operator.xor, s): the XOR of all bytes of s. */
  function XorAll(s: seq<bv8>): bv8
  {
    if s == [] then 0 else XorAll(s[..|s| - 1]) ^ s[|s| - 1]
  }

  /** A frame that passes all three checks of process_buffer. */
  ghost predicate ValidFrame(f: seq<bv8>)
  {
    && |f| == FrameLength
    && f[0] == SOF
    && f[FrameLength - 1] == EOF
    && f[18] == XorAll(f[..18])
  }

  /** The 20 bytes of buf starting at index at form a valid frame. */
  ghost predicate FrameAt(buf: seq<bv8>, at: nat)
  {
    && at + FrameLength <= |buf|
    && buf[at] == SOF
    && buf[at + FrameLength - 1] == EOF
    && buf[at + 18] == XorAll(buf[at..at + 18])
  }

  lemma {:induction false} FrameAtIsValid(buf: seq<bv8>, at: nat)
    requires FrameAt(buf, at)
    ensures ValidFrame(buf[at..at + FrameLength])
  {
    assert buf[at..at + FrameLength][..18] == buf[at..at + 18];
  }

  ghost predicate AllFramesAt(buf: seq<bv8>, starts: seq<nat>)
  {
    forall k :: 0 <= k < |starts| ==> FrameAt(buf, starts[k])
  }

  /** Frame positions that increase by at least a frame length: frames do not overlap. */
  ghost predicate Spaced(starts: seq<nat>)
  {
    forall k :: 0 <= k < |starts| - 1 ==> starts[k] + FrameLength <= starts[k + 1]
  }

  /** No byte of s equals b. */
  predicate Absent(s: seq<bv8>, b: bv8)
  {
    forall k :: 0 <= k < |s| ==> s[k] != b
  }

  /** bytearray.find(b): the first index of b in s, or -1. */
  function Find(s: seq<bv8>, b: bv8): (r: int)
    ensures -1 <= r < |s|
    ensures r == -1 <==> Absent(s, b)
    ensures r >= 0 ==> s[r] == b && forall k :: 0 <= k < r ==> s[k] != b
  {
    if s == [] then -1
    else if s[0] == b then 0
    else
      var r := Find(s[1..], b);
      if r == -1 then -1 else r + 1
  }

  /** Outcome of parsing buf from some offset: what remains in the buffer is
      buf[restAt..], and a frame was accepted at each index in starts. */
  datatype Scan = Scan(restAt: nat, starts: seq<nat>)

  /** What one call of process_buffer does to buf[off..], with every position
      given as an index into buf: the remaining buffer is a suffix, and every
      accepted frame lies in the consumed part. Bytes before the first 0x02 are
      dropped; without a 0x02 the buffer is left as it is. */
  function ParseAt(buf: seq<bv8>, off: nat): (r: Scan)
    requires off <= |buf|
    decreases |buf| - off, 1
    ensures off <= r.restAt <= |buf|
    ensures forall k :: 0 <= k < |r.starts| ==>
              off <= r.starts[k] && r.starts[k] + FrameLength <= r.restAt
  {
    if |buf| - off < FrameLength then Scan(off, [])
    else
      var i := Find(buf[off..], SOF);
      if i < 0 then Scan(off, []) else ParseCandidate(buf, off + i)
  }

  /** The rest of the loop once the buffer begins at a 0x02 at index at: a short
      buffer is kept; a bad end byte drops one byte; a bad checksum drops the 20
      bytes and sends nothing; a good frame is sent and dropped. */
  function ParseCandidate(buf: seq<bv8>, at: nat): (r: Scan)
    requires at <= |buf|
    decreases |buf| - at, 0
    ensures at <= r.restAt <= |buf|
    ensures forall k :: 0 <= k < |r.starts| ==>
              at <= r.starts[k] && r.starts[k] + FrameLength <= r.restAt
  {
    if |buf| - at < FrameLength then Scan(at, [])
    else if buf[at + FrameLength - 1] != EOF then ParseAt(buf, at + 1)
    else if buf[at + 18] != XorAll(buf[at..at + 18]) then ParseAt(buf, at + FrameLength)
    else
      var r := ParseAt(buf, at + FrameLength);
      Scan(r.restAt, [at] + r.starts)
  }

  /** A buffer that already begins with 0x02 loses nothing to the junk scan. */
  lemma {:induction false} AtStartByte(buf: seq<bv8>, at: nat)
    requires at < |buf| && buf[at] == SOF
    ensures ParseAt(buf, at) == ParseCandidate(buf, at)
  {
    assert buf[at..][0] == SOF;
    assert Find(buf[at..], SOF) == 0;
  }

  /** A buffer that begins with a good frame at index at: the frame is
      accepted and parsing goes on after it. */
  lemma {:induction false} GoodFrameStep(buf: seq<bv8>, at: nat)
    requires FrameAt(buf, at)
    ensures var r := ParseAt(buf, at + FrameLength);
            ParseAt(buf, at) == Scan(r.restAt, [at] + r.starts)
  {
    AtStartByte(buf, at);
  }

  /** Without a start byte nothing is deleted and nothing is sent. */
  lemma {:induction false} NoStartByte(buf: seq<bv8>, off: nat)
    requires off <= |buf| && Absent(buf[off..], SOF)
    ensures ParseAt(buf, off) == Scan(off, [])
  {
  }

  /** On return the buffer is shorter than a frame or holds no start byte. */
  lemma {:induction false} ParseLeavesNoFrame(buf: seq<bv8>, off: nat)
    requires off <= |buf|
    ensures var r := ParseAt(buf, off);
            |buf| - r.restAt < FrameLength || Absent(buf[r.restAt..], SOF)
    decreases |buf| - off, 1
  {
    if |buf| - off >= FrameLength {
      var i := Find(buf[off..], SOF);
      if i >= 0 {
        CandidateLeavesNoFrame(buf, off + i);
      }
    }
  }

  lemma {:induction false} CandidateLeavesNoFrame(buf: seq<bv8>, at: nat)
    requires at <= |buf|
    ensures var r := ParseCandidate(buf, at);
            |buf| - r.restAt < FrameLength || Absent(buf[r.restAt..], SOF)
    decreases |buf| - at, 0
  {
    if |buf| - at >= FrameLength {
      if buf[at + FrameLength - 1] != EOF {
        ParseLeavesNoFrame(buf, at + 1);
      } else {
        ParseLeavesNoFrame(buf, at + FrameLength);
      }
    }
  }

  /** Every accepted frame passed all three checks, and frames are accepted in
      order without overlapping. */
  lemma {:induction false} ParseFramesValid(buf: seq<bv8>, off: nat)
    requires off <= |buf|
    ensures AllFramesAt(buf, ParseAt(buf, off).starts)
    ensures Spaced(ParseAt(buf, off).starts)
    decreases |buf| - off, 1
  {
    if |buf| - off >= FrameLength {
      var i := Find(buf[off..], SOF);
      if i >= 0 {
        CandidateFramesValid(buf, off + i);
      }
    }
  }

  lemma {:induction false} CandidateFramesValid(buf: seq<bv8>, at: nat)
    requires at <= |buf|
    requires at < |buf| ==> buf[at] == SOF
    ensures AllFramesAt(buf, ParseCandidate(buf, at).starts)
    ensures Spaced(ParseCandidate(buf, at).starts)
    decreases |buf| - at, 0
  {
    if |buf| - at >= FrameLength {
      if buf[at + FrameLength - 1] != EOF {
        ParseFramesValid(buf, at + 1);
      } else if buf[at + 18] != XorAll(buf[at..at + 18]) {
        ParseFramesValid(buf, at + FrameLength);
      } else {
        ParseFramesValid(buf, at + FrameLength);
        ConsFrame(buf, at, ParseAt(buf, at + FrameLength).starts);
      }
    }
  }

  lemma {:induction false} ConsFrame(buf: seq<bv8>, at: nat, rest: seq<nat>)
    requires FrameAt(buf, at) && AllFramesAt(buf, rest) && Spaced(rest)
    requires forall k :: 0 <= k < |rest| ==> at + FrameLength <= rest[k]
    ensures AllFramesAt(buf, [at] + rest) && Spaced([at] + rest)
  {
    var st := [at] + rest;
    forall k | 0 <= k < |st|
      ensures FrameAt(buf, st[k])
    {
      if k > 0 {
        assert st[k] == rest[k - 1];
      }
    }
    forall k | 0 <= k < |st| - 1
      ensures st[k] + FrameLength <= st[k + 1]
    {
      if k > 0 {
        assert st[k] == rest[k - 1] && st[k + 1] == rest[k];
      }
    }
  }

  lemma {:induction false} AppendAssoc<T>(a: seq<T>, b: seq<T>, c: seq<T>)
    ensures a + (b + c) == (a + b) + c
  {
  }

  /** Every frame position leaves room for a whole frame in a buffer of length n. */
  ghost predicate FramesWithin(starts: seq<nat>, n: nat)
  {
    forall k :: 0 <= k < |starts| ==> starts[k] + FrameLength <= n
  }

  /** The payloads (bytes 2..17) of the frames at the given positions, in order. */
  ghost function PayloadsAt(buf: seq<bv8>, starts: seq<nat>): (ps: seq<seq<bv8>>)
    requires FramesWithin(starts, |buf|)
    ensures |ps| == |starts|
  {
    if starts == [] then []
    else
      var at := starts[|starts| - 1];
      PayloadsAt(buf, starts[..|starts| - 1]) + [buf[at + 2..at + 2 + PayloadLength]]
  }

  lemma {:induction false} PayloadsAtSnoc(buf: seq<bv8>, starts: seq<nat>, at: nat)
    requires FramesWithin(starts, |buf|) && at + FrameLength <= |buf|
    ensures FramesWithin(starts + [at], |buf|)
    ensures PayloadsAt(buf, starts + [at])
            == PayloadsAt(buf, starts) + [buf[at + 2..at + 2 + PayloadLength]]
  {
    var s := starts + [at];
    assert s[..|s| - 1] == starts;
    assert s[|s| - 1] == at;
  }

  lemma {:induction false} PayloadsAtCons(buf: seq<bv8>, at: nat, starts: seq<nat>)
    requires FramesWithin(starts, |buf|) && at + FrameLength <= |buf|
    ensures FramesWithin([at] + starts, |buf|)
    ensures PayloadsAt(buf, [at] + starts)
            == [buf[at + 2..at + 2 + PayloadLength]] + PayloadsAt(buf, starts)
    decreases |starts|
  {
    assert forall k :: 0 < k < |[at] + starts| ==> ([at] + starts)[k] == starts[k - 1];
    if starts != [] {
      var init := starts[..|starts| - 1];
      var last := starts[|starts| - 1];
      PayloadsAtCons(buf, at, init);
      assert ([at] + starts)[..|starts|] == [at] + init;
    }
  }

  /** The module-level state of the backend: the receive buffer and, standing
      for the TCP fan-out, the payloads sent so far. */
  class BleBackend {
    var dataBuffer: seq<bv8>
    var sent: seq<seq<bv8>>

    constructor ()
      ensures dataBuffer == [] && sent == []
    {
      dataBuffer := [];
      sent := [];
    }

    /** process_buffer: consume every complete frame in the buffer. */
    method ProcessBuffer()
      modifies this
      ensures var r := ParseAt(old(dataBuffer), 0);
              && dataBuffer == old(dataBuffer)[r.restAt..]
              && sent == old(sent) + PayloadsAt(old(dataBuffer), r.starts)
    {
      ghost var buf := dataBuffer;
      ghost var goal := ParseAt(buf, 0);
      ghost var off: nat := 0;
      ghost var done: seq<nat> := [];
      while |dataBuffer| >= FrameLength
        invariant off <= |buf| && dataBuffer == buf[off..]
        invariant FramesWithin(done, |buf|)
        invariant goal.restAt == ParseAt(buf, off).restAt
        invariant goal.starts == done + ParseAt(buf, off).starts
        invariant sent == old(sent) + PayloadsAt(buf, done)
        decreases |dataBuffer|
      {
        ghost var at;
        var found;
        found, at := DropJunk(buf, off);
        if !found {
          assert done + [] == done;
          return;
        }
        if |dataBuffer| < FrameLength {
          assert ParseCandidate(buf, at) == Scan(at, []);
          assert done + [] == done;
          off := at;
          return;
        }
        ghost var next, took := CheckFrame(buf, at);
        if took {
          ghost var r := ParseAt(buf, next);
          PayloadsAtSnoc(buf, done, at);
          AppendAssoc(done, [at], r.starts);
          done := done + [at];
        }
        off := next;
      }
      assert ParseAt(buf, off) == Scan(off, []);
      assert done + [] == done;
    }

    /** The start of one pass of the loop of process_buffer: find the first 0x02
        and drop the bytes before it; without one, the buffer is left as it is and
        parsing stops. */
    method DropJunk(ghost buf: seq<bv8>, ghost off: nat) returns (found: bool, ghost at: nat)
      requires off <= |buf| && |buf| - off >= FrameLength && dataBuffer == buf[off..]
      modifies this
      ensures sent == old(sent)
      ensures !found ==> dataBuffer == old(dataBuffer) && ParseAt(buf, off) == Scan(off, [])
      ensures found ==> && off <= at < |buf| && buf[at] == SOF && dataBuffer == buf[at..]
                        && ParseAt(buf, off) == ParseCandidate(buf, at)
    {
      var sofIndex := Find(dataBuffer, SOF);
      if sofIndex == -1 {
        return false, off;
      }
      at := off + sofIndex;
      if sofIndex > 0 {
        dataBuffer := dataBuffer[sofIndex..];
      }
      found := true;
    }

    /** One pass of the loop of process_buffer once the buffer begins with 0x02 and
        holds a whole frame: a bad end byte drops one byte, a bad checksum drops
        the frame, a good frame is sent and dropped. The ghost results say where
        the buffer now starts in buf and whether a payload was sent. */
    method CheckFrame(ghost buf: seq<bv8>, ghost at: nat) returns (ghost next: nat, ghost took: bool)
      requires at + FrameLength <= |buf| && buf[at] == SOF
      requires dataBuffer == buf[at..]
      modifies this
      ensures at < next <= |buf| && dataBuffer == buf[next..]
      ensures took ==> next == at + FrameLength
      ensures took ==> var r := ParseAt(buf, next);
                       ParseCandidate(buf, at) == Scan(r.restAt, [at] + r.starts)
      ensures took ==> sent == old(sent) + [buf[at + 2..at + 2 + PayloadLength]]
      ensures !took ==> ParseCandidate(buf, at) == ParseAt(buf, next) && sent == old(sent)
    {
      if dataBuffer[FrameLength - 1] != EOF {
        dataBuffer := dataBuffer[1..];
        return at + 1, false;
      }
      var frame := dataBuffer[..FrameLength];
      var payload := frame[2..2 + PayloadLength];
      var checksumReceived := frame[18];
      var checksumCalculated := XorAll(frame[..18]);
      assert frame[..18] == buf[at..at + 18];
      if checksumReceived != checksumCalculated {
        dataBuffer := dataBuffer[FrameLength..];
        return at + FrameLength, false;
      }
      sent := sent + [payload];
      dataBuffer := dataBuffer[FrameLength..];
      assert payload == buf[at + 2..at + 2 + PayloadLength];
      return at + FrameLength, true;
    }

    /** notification_handler: append the notified bytes, then parse. */
    method NotificationHandler(data: seq<bv8>)
      modifies this
      ensures var whole := old(dataBuffer) + data;
              var r := ParseAt(whole, 0);
              && dataBuffer == whole[r.restAt..]
              && sent == old(sent) + PayloadsAt(whole, r.starts)
    {
      dataBuffer := dataBuffer + data;
      ProcessBuffer();
    }
  }

  /** What the chair sends: the unchecked byte 1 and the payload. */
  datatype Packet = Packet(tag: bv8, payload: seq<bv8>)

  /** The frame that carries a packet, as the firmware builds it. */
  function EncodeFrame(p: Packet): (f: seq<bv8>)
    requires |p.payload| == PayloadLength
    ensures |f| == FrameLength
  {
    var head := [SOF, p.tag] + p.payload;
    head + [XorAll(head), EOF]
  }

  function EncodeAll(ps: seq<Packet>): (s: seq<bv8>)
    requires forall k :: 0 <= k < |ps| ==> |ps[k].payload| == PayloadLength
    ensures |s| == FrameLength * |ps|
  {
    if ps == [] then [] else EncodeFrame(ps[0]) + EncodeAll(ps[1..])
  }

  function PayloadsOf(ps: seq<Packet>): (r: seq<seq<bv8>>)
    ensures |r| == |ps|
  {
    if ps == [] then [] else [ps[0].payload] + PayloadsOf(ps[1..])
  }

  /** A frame built by EncodeFrame passes all three checks where it lies. */
  lemma {:induction false} EncodedFrameAt(pre: seq<bv8>, p: Packet, post: seq<bv8>)
    requires |p.payload| == PayloadLength
    ensures var buf := pre + EncodeFrame(p) + post;
            && FrameAt(buf, |pre|)
            && buf[|pre| + 2..|pre| + 2 + PayloadLength] == p.payload
  {
    var f := EncodeFrame(p);
    var buf := pre + f + post;
    var at := |pre|;
    assert buf[at..at + FrameLength] == f;
    assert f[..18] == [SOF, p.tag] + p.payload;
    assert buf[at..at + 18] == f[..18];
    assert buf[at + 2..at + 2 + PayloadLength] == f[2..18];
  }

  /** Round trip: a stream of well-formed frames, after any bytes already parsed,
      is consumed completely and yields exactly the packets' payloads. */
  lemma {:induction false} ParseEncoded(pre: seq<bv8>, ps: seq<Packet>)
    requires forall k :: 0 <= k < |ps| ==> |ps[k].payload| == PayloadLength
    ensures var buf := pre + EncodeAll(ps);
            var r := ParseAt(buf, |pre|);
            && r.restAt == |buf|
            && PayloadsAt(buf, r.starts) == PayloadsOf(ps)
    decreases |ps|
  {
    var buf := pre + EncodeAll(ps);
    if ps == [] {
      assert |buf| - |pre| == 0;
    } else {
      var f := EncodeFrame(ps[0]);
      var post := EncodeAll(ps[1..]);
      var pre' := pre + f;
      assert buf == pre + f + post;
      assert buf == pre' + post;
      ParseEncoded(pre', ps[1..]);
      var at := |pre|;
      EncodedFrameAt(pre, ps[0], post);
      GoodFrameStep(buf, at);
      var r' := ParseAt(buf, |pre'|);
      PayloadsAtCons(buf, at, r'.starts);
    }
  }

  /** Resynchronisation: bytes without a 0x02 in front of a stream of frames are
      dropped, and every packet is still delivered. */
  lemma {:induction false} SkipsJunk(junk: seq<bv8>, ps: seq<Packet>)
    requires Absent(junk, SOF)
    requires 0 < |ps| && forall k :: 0 <= k < |ps| ==> |ps[k].payload| == PayloadLength
    ensures var buf := junk + EncodeAll(ps);
            var r := ParseAt(buf, 0);
            && r.restAt == |buf|
            && PayloadsAt(buf, r.starts) == PayloadsOf(ps)
  {
    var buf := junk + EncodeAll(ps);
    var at := |junk|;
    assert EncodeAll(ps) == EncodeFrame(ps[0]) + EncodeAll(ps[1..]);
    assert buf[at] == SOF;
    assert buf[0..][..at] == junk;
    FindAfterAbsent(buf, at);
    assert ParseAt(buf, 0) == ParseCandidate(buf, at);
    AtStartByte(buf, at);
    ParseEncoded(junk, ps);
  }

  lemma {:induction false} FindAfterAbsent(s: seq<bv8>, at: nat)
    requires at < |s| && s[at] == SOF && Absent(s[..at], SOF)
    ensures Find(s, SOF) == at
  {
    if at > 0 {
      assert s[1..][..at - 1] == s[..at][1..];
      assert Absent(s[..at][1..], SOF);
      FindAfterAbsent(s[1..], at - 1);
    }
  }
}
