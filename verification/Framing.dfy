/**
 The wire format: frames of a 4-byte big-endian length and that many bytes. A connection is
 read in chunks the peer and the kernel choose; the methods below are proved to deliver
 what the stream says, for every choice of chunks.
 */
module Framing {
  import opened Basics

  newtype byte = x: int | 0 <= x < 256

  const LIMIT: nat := 0x10000
  const MAGIC: nat := 0x55484d49

  // ---- lengths ----------------------------------------------------------------------

  /** binary.BigEndian.PutUint32(uint32(n)), most significant byte first; the length wraps at 32 bits. */
  function PutUint32(n: nat): (b: seq<byte>)
    ensures |b| == 4
  {
    var m0 := n % 0x1_0000_0000;
    var m1 := m0 / 0x100;
    var m2 := m1 / 0x100;
    var m3 := m2 / 0x100;
    [m3 as byte, (m2 % 0x100) as byte, (m1 % 0x100) as byte, (m0 % 0x100) as byte]
  }

  function Uint32(b: seq<byte>): nat
    requires |b| == 4
  {
    ((b[0] as nat * 0x100 + b[1] as nat) * 0x100 + b[2] as nat) * 0x100 + b[3] as nat
  }

  lemma Uint32Inverse(n: nat)
    ensures Uint32(PutUint32(n)) == n % 0x1_0000_0000
  {
  }

  lemma Digit(high: nat, low: nat)
    requires low < 0x100
    ensures (high * 0x100 + low) / 0x100 == high && (high * 0x100 + low) % 0x100 == low
  {
  }

  lemma PutUint32Inverse(b: seq<byte>)
    requires |b| == 4
    ensures PutUint32(Uint32(b)) == b && Uint32(b) < 0x1_0000_0000
  {
    var m3 := b[0] as nat;
    var m2 := m3 * 0x100 + b[1] as nat;
    var m1 := m2 * 0x100 + b[2] as nat;
    var m0 := m1 * 0x100 + b[3] as nat;
    Digit(m1, b[3] as nat);
    Digit(m2, b[2] as nat);
    Digit(m3, b[1] as nat);
    assert m0 < 0x1_0000_0000 && m0 % 0x1_0000_0000 == m0;
  }

  /** Big-endian: the most significant byte comes first. */
  lemma BigEndian(b: seq<byte>)
    requires |b| == 4
    ensures Uint32(b) == b[0] as nat * 0x100_0000 + b[1] as nat * 0x1_0000 + b[2] as nat * 0x100 + b[3] as nat
  {
  }

  // ---- frames -----------------------------------------------------------------------

  datatype Read = Read(data: seq<byte>, rest: seq<byte>) | Broken

  /** What ConnWriteWithSize puts on the wire. */
  function Frame(message: seq<byte>): seq<byte> {
    PutUint32(|message|) + message
  }

  /** ConnRead: exactly `n` bytes or nothing. */
  function Take(stream: seq<byte>, n: nat): Read {
    if |stream| < n then Broken else Read(stream[..n], stream[n..])
  }

  /** ConnReadWithSize: an empty or oversized frame, or one cut short, ends the stream. */
  function ReadFrame(stream: seq<byte>): Read {
    if |stream| < 4 then Broken
    else
      var size := Uint32(stream[..4]);
      if size == 0 || size > LIMIT then Broken else Take(stream[4..], size)
  }

  predicate Sendable(message: seq<byte>) { 1 <= |message| <= LIMIT }

  /** The format is unambiguous: a frame is read back exactly when it was written, for the
      lengths the reader accepts. */
  lemma ReadFrameInverse(stream: seq<byte>, message: seq<byte>, rest: seq<byte>)
    ensures ReadFrame(stream) == Read(message, rest) <==> Sendable(message) && stream == Frame(message) + rest
  {
    if Sendable(message) && stream == Frame(message) + rest {
      FrameWritten(message, rest);
    }
    if ReadFrame(stream) == Read(message, rest) {
      PutUint32Inverse(stream[..4]);
      assert stream == stream[..4] + stream[4..];
      assert stream[4..] == message + rest;
    }
  }

  lemma FrameWritten(message: seq<byte>, rest: seq<byte>)
    requires Sendable(message)
    ensures ReadFrame(Frame(message) + rest) == Read(message, rest)
  {
    var stream := Frame(message) + rest;
    assert stream[..4] == PutUint32(|message|);
    Uint32Inverse(|message|);
    assert stream[4..] == message + rest;
  }

  /** A message survives exactly when its length is 1 to 0x10000: the empty one is refused
      by the reader, a longer one is refused or, past 32 bits, cut short. */
  lemma RoundTrip(message: seq<byte>, rest: seq<byte>)
    ensures ReadFrame(Frame(message) + rest) == Read(message, rest) <==> 1 <= |message| <= 0x10000
  {
    ReadFrameInverse(Frame(message) + rest, message, rest);
  }

  lemma ReadFrameShrinks(stream: seq<byte>)
    ensures ReadFrame(stream).Read? ==> |ReadFrame(stream).rest| < |stream| && Sendable(ReadFrame(stream).data)
  {
  }

  /** All frames up to the first failure: what ConnReadLoop delivers before its nil. */
  function Frames(stream: seq<byte>): seq<seq<byte>>
    decreases |stream|
  {
    ReadFrameShrinks(stream);
    match ReadFrame(stream)
    case Broken => []
    case Read(data, rest) => [data] + Frames(rest)
  }

  function Written(messages: seq<seq<byte>>): seq<byte> {
    if messages == [] then [] else Frame(messages[0]) + Written(messages[1..])
  }

  lemma FramesCons(message: seq<byte>, stream: seq<byte>)
    requires Sendable(message)
    ensures Frames(Frame(message) + stream) == [message] + Frames(stream)
  {
    FrameWritten(message, stream);
  }

  /** Messages written one after another are read back one after another, whatever follows. */
  lemma {:induction false} AllRoundTrip(messages: seq<seq<byte>>, rest: seq<byte>)
    requires forall m :: m in messages ==> Sendable(m)
    ensures Frames(Written(messages) + rest) == messages + Frames(rest)
  {
    if messages == [] {
      assert Written(messages) + rest == rest;
    } else {
      var head, tail := Frame(messages[0]), Written(messages[1..]);
      Associate(head, tail, rest);
      FramesCons(messages[0], tail + rest);
      AllRoundTrip(messages[1..], rest);
      Associate([messages[0]], messages[1..], Frames(rest));
      assert [messages[0]] + messages[1..] == messages;
    }
  }

  /** Conversely nothing is made up: what is delivered, written again, is how the stream began,
      and what is left cannot be read. */
  lemma {:induction false} NothingInvented(stream: seq<byte>)
    ensures Written(Frames(stream)) <= stream
    ensures ReadFrame(stream[|Written(Frames(stream))|..]).Broken?
    decreases |stream|
  {
    ReadFrameShrinks(stream);
    match ReadFrame(stream)
    case Broken => assert stream[0..] == stream;
    case Read(data, rest) =>
      NothingInvented(rest);
      ReadFrameInverse(stream, data, rest);
      var w := Written(Frames(rest));
      assert Frames(stream)[1..] == Frames(rest);
      assert Written(Frames(stream)) == Frame(data) + w;
      assert stream[|Frame(data) + w|..] == rest[|w|..];
  }

  // ---- commands ---------------------------------------------------------------------

  datatype Command = Command(commType: seq<byte>, data: seq<byte>, rest: seq<byte>) | NoCommand

  function CommandBytes(commType: seq<byte>, data: seq<byte>): seq<byte> {
    PutUint32(MAGIC) + Frame(commType) + Frame(data)
  }

  /** ReadCommand: the magic code, then two frames. */
  function ParseCommand(stream: seq<byte>): Command {
    if |stream| < 4 || Uint32(stream[..4]) != MAGIC then NoCommand
    else match ReadFrame(stream[4..])
      case Broken => NoCommand
      case Read(t, rest) =>
        match ReadFrame(rest)
        case Broken => NoCommand
        case Read(d, rest') => Command(t, d, rest')
  }

  /** The bytes of a command: "UHMI", then type and data, each after its length. */
  lemma CommandLayout(commType: seq<byte>, data: seq<byte>)
    ensures PutUint32(MAGIC) == ['U' as int as byte, 'H' as int as byte, 'M' as int as byte, 'I' as int as byte]
    ensures CommandBytes(commType, data) ==
      ['U' as int as byte, 'H' as int as byte, 'M' as int as byte, 'I' as int as byte]
      + PutUint32(|commType|) + commType + PutUint32(|data|) + data
    ensures |commType| < 0x1_0000_0000 ==> Uint32(PutUint32(|commType|)) == |commType|
    ensures |data| < 0x1_0000_0000 ==> Uint32(PutUint32(|data|)) == |data|
  {
    Uint32Inverse(|commType|);
    Uint32Inverse(|data|);
    assert PutUint32(MAGIC) == [0x55, 0x48, 0x4d, 0x49];
    Associate(PutUint32(MAGIC), PutUint32(|commType|), commType);
    Associate(PutUint32(MAGIC) + PutUint32(|commType|) + commType, PutUint32(|data|), data);
  }

  lemma Split4(head: seq<byte>, tail: seq<byte>)
    requires |head| == 4
    ensures (head + tail)[..4] == head && (head + tail)[4..] == tail
  {
  }

  lemma ParseParts(magic: seq<byte>, frames: seq<byte>, t: Read, d: Read)
    requires |magic| == 4 && Uint32(magic) == MAGIC
    requires t.Read? && d.Read? && ReadFrame(frames) == t && ReadFrame(t.rest) == d
    ensures ParseCommand(magic + frames) == Command(t.data, d.data, d.rest)
  {
    Split4(magic, frames);
  }

  lemma CommandWritten(commType: seq<byte>, data: seq<byte>, rest: seq<byte>)
    requires Sendable(commType) && Sendable(data)
    ensures ParseCommand(CommandBytes(commType, data) + rest) == Command(commType, data, rest)
  {
    var magic, t, d := PutUint32(MAGIC), Frame(commType), Frame(data);
    Associate(magic + t, d, rest);
    Associate(magic, t, d + rest);
    Uint32Inverse(MAGIC);
    FrameWritten(commType, d + rest);
    FrameWritten(data, rest);
    ParseParts(magic, t + (d + rest), Read(commType, d + rest), Read(data, rest));
  }

  lemma CommandRead(stream: seq<byte>)
    requires ParseCommand(stream).Command?
    ensures var c := ParseCommand(stream);
      Sendable(c.commType) && Sendable(c.data) && stream == CommandBytes(c.commType, c.data) + c.rest
  {
    var c := ParseCommand(stream);
    var magic, t, d := PutUint32(MAGIC), Frame(c.commType), Frame(c.data);
    PutUint32Inverse(stream[..4]);
    var after := ReadFrame(stream[4..]).rest;
    ReadFrameInverse(stream[4..], c.commType, after);
    ReadFrameInverse(after, c.data, c.rest);
    assert stream == magic + (t + (d + c.rest));
    Associate(magic, t, d + c.rest);
    Associate(magic + t, d, c.rest);
  }

  /** ReadCommand accepts exactly what SendCommand writes and leaves the rest untouched. */
  lemma CommandInverse(stream: seq<byte>, commType: seq<byte>, data: seq<byte>, rest: seq<byte>)
    ensures ParseCommand(stream) == Command(commType, data, rest)
      <==> Sendable(commType) && Sendable(data) && stream == CommandBytes(commType, data) + rest
  {
    if Sendable(commType) && Sendable(data) { CommandWritten(commType, data, rest); }
    if ParseCommand(stream).Command? { CommandRead(stream); }
  }

  // ---- the connection ---------------------------------------------------------------

  /** A TCP connection: `inbound` is what will still arrive before it breaks, `outbound` what
      has been written; writes can only fail when it is not `reliable`. */
  class Conn {
    const reliable: bool
    var inbound: seq<byte>
    var outbound: seq<byte>

    constructor (inbound: seq<byte>, reliable: bool)
      ensures this.inbound == inbound && this.reliable == reliable && outbound == []
    {
      this.inbound := inbound;
      this.reliable := reliable;
      outbound := [];
    }

    /** net.Conn.Read into buf[from..]: any positive number of the bytes that are there, and
        an error once there are none. */
    method ReadInto(buf: array<byte>, from: nat) returns (n: nat, failed: bool)
      requires from < buf.Length
      modifies this`inbound, buf
      ensures failed <==> old(inbound) == []
      ensures failed ==> n == 0 && inbound == []
      ensures !failed ==> 1 <= n <= buf.Length - from && n <= |old(inbound)|
      ensures !failed ==> buf[from..from + n] == old(inbound)[..n] && inbound == old(inbound)[n..]
      ensures buf[..from] == old(buf[..from])
    {
      if inbound == [] {
        return 0, true;
      }
      n :| 1 <= n <= buf.Length - from && n <= |inbound|;
      failed := false;
      forall k | 0 <= k < n {
        buf[from + k] := inbound[k];
      }
      assert buf[from..from + n] == inbound[..n];
      assert buf[..from] == old(buf[..from]);
      inbound := inbound[n..];
    }

    /** ConnWrite: all of it, or an error after some of it; writing nothing is an error too. */
    method Write(message: seq<byte>) returns (ok: bool)
      modifies this`outbound
      ensures ok ==> message != [] && outbound == old(outbound) + message
      ensures reliable ==> (ok <==> message != [])
      ensures old(outbound) <= outbound <= old(outbound) + message
    {
      var written :| 0 <= written <= |message| && (reliable ==> written == |message|);
      outbound := outbound + message[..written];
      ok := written == |message| && message != [];
    }
  }

  /** ConnRead */
  method ConnRead(conn: Conn, bufSize: nat) returns (r: Option<seq<byte>>)
    modifies conn`inbound
    ensures r == (match Take(old(conn.inbound), bufSize) case Broken => None case Read(data, _) => Some(data))
    ensures conn.inbound == match Take(old(conn.inbound), bufSize) case Broken => [] case Read(_, rest) => rest
  {
    var buf := new byte[bufSize];
    var total := 0;
    ghost var stream := conn.inbound;
    while total < bufSize
      invariant total <= bufSize && total <= |stream|
      invariant buf[..total] == stream[..total] && conn.inbound == stream[total..]
    {
      var n, failed := conn.ReadInto(buf, total);
      if failed {
        return None;
      }
      assert buf[..total + n] == stream[..total] + stream[total..][..n];
      total := total + n;
    }
    assert buf[..] == buf[..bufSize];
    return Some(buf[..]);
  }

  /** ConnReadWithSize */
  method ConnReadWithSize(conn: Conn) returns (r: Option<seq<byte>>)
    modifies conn`inbound
    ensures r == (match ReadFrame(old(conn.inbound)) case Broken => None case Read(data, _) => Some(data))
    ensures r.Some? ==> conn.inbound == ReadFrame(old(conn.inbound)).rest
  {
    var szBuf := ConnRead(conn, 4);
    if szBuf.None? {
      return None;
    }
    var recvSize := Uint32(szBuf.value);
    if recvSize == 0 || recvSize > LIMIT {
      return None;
    }
    r := ConnRead(conn, recvSize);
  }

  /** ConnReadLoop; `delivered` is what it sends on rcvChan before the final nil. */
  method ConnReadLoop(conn: Conn) returns (delivered: seq<seq<byte>>)
    modifies conn`inbound
    ensures delivered == Frames(old(conn.inbound))
  {
    delivered := [];
    ghost var stream := conn.inbound;
    while true
      invariant Frames(stream) == delivered + Frames(conn.inbound)
      decreases |conn.inbound|
    {
      ReadFrameShrinks(conn.inbound);
      var buf := ConnReadWithSize(conn);
      if buf.None? {
        return;
      }
      delivered := delivered + [buf.value];
    }
  }

  /** ConnWriteWithSize: the whole frame, or an error after part of it. An empty message is
      always an error, with its header on the wire. */
  method ConnWriteWithSize(conn: Conn, message: seq<byte>) returns (ok: bool)
    modifies conn`outbound
    ensures ok ==> message != [] && conn.outbound == old(conn.outbound) + Frame(message)
    ensures conn.reliable ==> (ok <==> message != [])
    ensures old(conn.outbound) <= conn.outbound <= old(conn.outbound) + Frame(message)
  {
    ok := conn.Write(PutUint32(|message|));
    if ok {
      ok := conn.Write(message);
    }
  }

  /** SendCommand */
  method SendCommand(conn: Conn, commType: seq<byte>, command: seq<byte>) returns (ok: bool)
    modifies conn`outbound
    ensures ok ==> commType != [] && command != []
                   && conn.outbound == old(conn.outbound) + CommandBytes(commType, command)
    ensures conn.reliable ==> (ok <==> commType != [] && command != [])
    ensures old(conn.outbound) <= conn.outbound <= old(conn.outbound) + CommandBytes(commType, command)
  {
    ok := conn.Write(PutUint32(MAGIC));
    if ok {
      ok := ConnWriteWithSize(conn, commType);
    }
    if ok {
      ok := ConnWriteWithSize(conn, command);
    }
  }

  /** ReadCommand */
  method ReadCommand(conn: Conn) returns (commType: seq<byte>, command: seq<byte>, ok: bool)
    modifies conn`inbound
    ensures ok <==> ParseCommand(old(conn.inbound)).Command?
    ensures ok ==> ParseCommand(old(conn.inbound)) == Command(commType, command, conn.inbound)
  {
    commType, command := [], [];
    var magic := ConnRead(conn, 4);
    if magic.None? || Uint32(magic.value) != MAGIC {
      return [], [], false;
    }
    var t := ConnReadWithSize(conn);
    if t.None? {
      return [], [], false;
    }
    var d := ConnReadWithSize(conn);
    if d.None? {
      return [], [], false;
    }
    return t.value, d.value, true;
  }
}
