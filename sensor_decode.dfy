/** The sensor client's read-and-decode step (TcpSensorClient.RunAsync, once
    connected): bytes are accumulated into a 16-byte buffer until it is full, the
    block is decoded into six fields, and one payload event fires per block. A
    read of zero bytes means the server closed the connection and ends the
    session with an error. */
module SensorClient {
  import opened Numeric

  const BlockLength: nat := 16

  /** An octet of the byte stream. */
  newtype byte = x: int | 0 <= x < 256

  /** 256^n: the number of values an n-byte unsigned field can hold. */
  function Pow256(n: nat): (r: nat)
    ensures r >= 1
  {
    if n == 0 then 1 else 256 * Pow256(n - 1)
  }

  /** The unsigned little-endian value of bs (BitConverter on a little-endian host). */
  function LE(bs: seq<byte>): (r: nat)
    ensures r < Pow256(|bs|)
    ensures |bs| == 2 ==> r < 0x1_0000
    ensures |bs| == 4 ==> r < 0x1_0000_0000
  {
    if bs == [] then 0 else bs[0] as int + 256 * LE(bs[1..])
  }

  /** The n little-endian bytes of v. */
  function ToLE(v: nat, n: nat): (bs: seq<byte>)
    requires v < Pow256(n)
    ensures |bs| == n
  {
    if n == 0 then [] else [(v % 256) as byte] + ToLE(v / 256, n - 1)
  }

  lemma {:induction false} DivMod256(lo: int, hi: int)
    requires 0 <= lo < 256
    ensures (lo + 256 * hi) % 256 == lo && (lo + 256 * hi) / 256 == hi
  {
  }

  lemma {:induction false} DivBound256(v: nat, p: nat)
    requires v < 256 * p
    ensures v / 256 < p
  {
  }

  lemma {:induction false} LEToLE(v: nat, n: nat)
    requires v < Pow256(n)
    ensures LE(ToLE(v, n)) == v
    decreases n
  {
    if n > 0 {
      var q, m := v / 256, v % 256;
      DivBound256(v, Pow256(n - 1));
      DivMod256(m, q);
      LEToLE(q, n - 1);
      var t := ToLE(v, n);
      assert t[0] as int == m;
      assert t[1..] == ToLE(q, n - 1);
      assert LE(t) == m + 256 * q;
    }
  }

  lemma {:induction false} ToLELE(bs: seq<byte>)
    ensures ToLE(LE(bs), |bs|) == bs
    decreases |bs|
  {
    if bs != [] {
      DivMod256(bs[0] as int, LE(bs[1..]));
      ToLELE(bs[1..]);
      assert (LE(bs) % 256) as byte == bs[0];
    }
  }

  /** The two's-complement reading of a 16-bit unsigned value (short). */
  function Signed16(u: nat): (v: int)
    requires u < 0x1_0000
    ensures -0x8000 <= v < 0x8000
    ensures v >= 0 ==> v == u
    ensures v < 0 ==> v == u - 0x1_0000
  {
    if u >= 0x8000 then u - 0x1_0000 else u
  }

  function Unsigned16(v: int): (u: nat)
    requires -0x8000 <= v < 0x8000
    ensures u < 0x1_0000
    ensures Signed16(u) == v
  {
    if v < 0 then v + 0x1_0000 else v
  }

  /** The six values of one block, in the order the payload event delivers them. */
  datatype Payload = Payload(v1: int, v2: int, v3: int, v4: int, v5: int, v6: int)

  /** The ranges of short, short, uint, uint, ushort and ushort. */
  predicate InRange(p: Payload)
  {
    && -32768 <= p.v1 < 32768
    && -32768 <= p.v2 < 32768
    && 0 <= p.v3 < 0x1_0000_0000
    && 0 <= p.v4 < 0x1_0000_0000
    && 0 <= p.v5 < 0x1_0000
    && 0 <= p.v6 < 0x1_0000
  }

  /** The field decode: v2 is the signed 16-bit value at bytes 0..1 and v1 the one
      at bytes 2..3; v3 and v4 are unsigned 32-bit at bytes 4..7 and 8..11; v5 and
      v6 unsigned 16-bit at bytes 12..13 and 14..15. */
  function Decode(b: seq<byte>): (p: Payload)
    requires |b| == BlockLength
    ensures InRange(p)
  {
    Payload(
      Signed16(LE(b[2..4])),
      Signed16(LE(b[0..2])),
      LE(b[4..8]),
      LE(b[8..12]),
      LE(b[12..14]),
      LE(b[14..16]))
  }

  /** The block a sender lays out for a payload, the inverse of Decode. */
  function Encode(p: Payload): (b: seq<byte>)
    requires InRange(p)
    ensures |b| == BlockLength
  {
    ToLE(Unsigned16(p.v2), 2) + ToLE(Unsigned16(p.v1), 2)
      + ToLE(p.v3, 4) + ToLE(p.v4, 4) + ToLE(p.v5, 2) + ToLE(p.v6, 2)
  }

  /** Every payload in range survives the trip through the wire format. */
  lemma {:induction false} DecodeEncode(p: Payload)
    requires InRange(p)
    ensures Decode(Encode(p)) == p
  {
    var b := Encode(p);
    var u2, u1 := Unsigned16(p.v2), Unsigned16(p.v1);
    assert b[0..2] == ToLE(u2, 2);
    assert b[2..4] == ToLE(u1, 2);
    assert b[4..8] == ToLE(p.v3, 4);
    assert b[8..12] == ToLE(p.v4, 4);
    assert b[12..14] == ToLE(p.v5, 2);
    assert b[14..16] == ToLE(p.v6, 2);
    LEToLE(u2, 2);
    LEToLE(u1, 2);
    LEToLE(p.v3, 4);
    LEToLE(p.v4, 4);
    LEToLE(p.v5, 2);
    LEToLE(p.v6, 2);
  }

  /** Decode loses nothing: every one of the 16 bytes is read by exactly one field. */
  lemma {:induction false} EncodeDecode(b: seq<byte>)
    requires |b| == BlockLength
    ensures Encode(Decode(b)) == b
  {
    var p := Decode(b);
    FieldRoundTrip(b[0..2]);
    FieldRoundTrip(b[2..4]);
    ToLELE(b[4..8]);
    ToLELE(b[8..12]);
    ToLELE(b[12..14]);
    ToLELE(b[14..16]);
    assert ToLE(Unsigned16(p.v2), 2) == b[0..2];
    assert ToLE(Unsigned16(p.v1), 2) == b[2..4];
    assert b == b[0..2] + b[2..4] + b[4..8] + b[8..12] + b[12..14] + b[14..16];
  }

  lemma {:induction false} FieldRoundTrip(bs: seq<byte>)
    requires |bs| == 2
    ensures ToLE(Unsigned16(Signed16(LE(bs))), 2) == bs
  {
    assert Pow256(2) == 0x1_0000;
    assert Unsigned16(Signed16(LE(bs))) == LE(bs);
    ToLELE(bs);
  }

  /** One payload per whole 16-byte block of the stream, in order; a trailing
      partial block yields nothing. */
  function DecodeBlocks(s: seq<byte>): (ps: seq<Payload>)
    ensures |ps| == |s| / BlockLength
    decreases |s|
  {
    if |s| < BlockLength then [] else [Decode(s[..BlockLength])] + DecodeBlocks(s[BlockLength..])
  }

  function EncodeAll(ps: seq<Payload>): (s: seq<byte>)
    requires forall k :: 0 <= k < |ps| ==> InRange(ps[k])
    ensures |s| == BlockLength * |ps|
  {
    if ps == [] then [] else Encode(ps[0]) + EncodeAll(ps[1..])
  }

  /** A stream of encoded payloads is decoded back into exactly those payloads. */
  lemma {:induction false} DecodeBlocksEncodeAll(ps: seq<Payload>)
    requires forall k :: 0 <= k < |ps| ==> InRange(ps[k])
    ensures DecodeBlocks(EncodeAll(ps)) == ps
    decreases |ps|
  {
    if ps != [] {
      var s := EncodeAll(ps);
      assert s[..BlockLength] == Encode(ps[0]);
      assert s[BlockLength..] == EncodeAll(ps[1..]);
      DecodeEncode(ps[0]);
      DecodeBlocksEncodeAll(ps[1..]);
    }
  }

  /** The connected network stream, as far as the client sees it: the bytes the
      server still sends before it closes, and how many bytes each successive read
      delivers at most (how the network happens to split the stream). */
  class Socket {
    var remaining: seq<byte>
    var chunks: seq<nat>

    constructor(data: seq<byte>, chunks: seq<nat>)
      ensures remaining == data && this.chunks == chunks
    {
      remaining := data;
      this.chunks := chunks;
    }

    /** ReadAsync into buffer[offset..offset + count]: at least one byte unless the
        stream has ended, never more than asked for; 0 only at the end. */
    method Read(buffer: array<byte>, offset: nat, count: nat) returns (r: nat)
      requires 0 < count && offset + count <= buffer.Length
      modifies this, buffer
      ensures r <= count && r <= |old(remaining)|
      ensures r == 0 <==> old(remaining) == []
      ensures remaining == old(remaining)[r..]
      ensures chunks == if old(chunks) == [] then [] else old(chunks)[1..]
      ensures buffer[..] == old(buffer[..offset]) + old(remaining)[..r] + old(buffer[offset + r..])
    {
      var limit := if chunks == [] then count else Max(1, chunks[0]);
      r := Min(Min(count, limit), |remaining|);
      forall i | offset <= i < offset + r {
        buffer[i] := remaining[i - offset];
      }
      remaining := remaining[r..];
      if chunks != [] {
        chunks := chunks[1..];
      }
    }
  }

  /** The inner accumulate loop: read until 16 bytes are in the buffer. However the
      network splits the stream, the result is the next 16 bytes of the stream; if
      the stream ends first, the session fails (ok is false) and nothing is
      decoded. */
  method ReadBlock(sock: Socket, buffer: array<byte>) returns (ok: bool)
    requires buffer.Length == BlockLength
    modifies sock, buffer
    ensures ok <==> |old(sock.remaining)| >= BlockLength
    ensures ok ==> buffer[..] == old(sock.remaining)[..BlockLength]
                   && sock.remaining == old(sock.remaining)[BlockLength..]
    ensures !ok ==> sock.remaining == []
  {
    ghost var s := sock.remaining;
    var read := 0;
    while read < BlockLength
      invariant 0 <= read <= BlockLength && read <= |s|
      invariant buffer[..read] == s[..read]
      invariant sock.remaining == s[read..]
      decreases BlockLength - read
    {
      var r := sock.Read(buffer, read, BlockLength - read);
      if r == 0 {
        return false;
      }
      assert buffer[..read + r] == s[..read] + s[read..][..r];
      read := read + r;
    }
    return true;
  }

  /** The streaming loop of one session: one payload event per 16-byte block, in
      stream order, until the server closes the connection. */
  method Stream(sock: Socket, buffer: array<byte>) returns (events: seq<Payload>)
    requires buffer.Length == BlockLength
    modifies sock, buffer
    ensures events == DecodeBlocks(old(sock.remaining))
    ensures |events| == |old(sock.remaining)| / BlockLength
    ensures sock.remaining == []
  {
    ghost var s := sock.remaining;
    events := [];
    while true
      invariant DecodeBlocks(s) == events + DecodeBlocks(sock.remaining)
      decreases |sock.remaining|
    {
      ghost var before := sock.remaining;
      var ok := ReadBlock(sock, buffer);
      if !ok {
        assert DecodeBlocks(before) == [];
        assert events + [] == events;
        return;
      }
      var p := Decode(buffer[..]);
      assert DecodeBlocks(before) == [p] + DecodeBlocks(sock.remaining);
      events := events + [p];
    }
  }
}
