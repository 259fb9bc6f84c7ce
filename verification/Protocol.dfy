/**
 The binary wire protocol (transport/protocol.go): one type byte, a 4-byte big-endian length, the payload.
 A connection hands out its bytes in arbitrary short pieces and may stop at any point.
 */
module Protocol {
  import opened FileMetadata

  const MSG_REGISTER: Byte := 1
  const MSG_PEER_INFO: Byte := 2
  const MSG_FILE_LIST: Byte := 3
  const MSG_FILE_META: Byte := 4
  const MSG_CHUNK: Byte := 5

  const STATUS_OK: Byte := 0
  const STATUS_ERROR: Byte := 1

  const MAX_PAYLOAD_SIZE: nat := 64 * 1024 * 1024
  const TWO32: nat := 0x1_0000_0000

  datatype Message = Message(msgType: Byte, payload: Bytes)

  datatype ReadResult = Received(message: Message) | HeaderCut | TooLarge(length: nat) | PayloadCut

  function BigEndian(n: nat): (b: Bytes)
    requires n < TWO32
    ensures |b| == 4
  {
    [n / 0x100_0000, n / 0x1_0000 % 0x100, n / 0x100 % 0x100, n % 0x100]
  }

  function FromBigEndian(b: Bytes): (n: nat)
    requires |b| == 4
    ensures n < TWO32
  {
    b[0] as int * 0x100_0000 + b[1] as int * 0x1_0000 + b[2] as int * 0x100 + b[3] as int
  }

  lemma BigEndianInverse(n: nat)
    requires n < TWO32
    ensures FromBigEndian(BigEndian(n)) == n
  {
    assert n / 0x100 == n / 0x1_0000 * 0x100 + n / 0x100 % 0x100;
    assert n / 0x1_0000 == n / 0x100_0000 * 0x100 + n / 0x1_0000 % 0x100;
  }

  lemma NestedDivision(n: nat)
    ensures n / 0x1_0000 == n / 0x100 / 0x100 && n / 0x100_0000 == n / 0x1_0000 / 0x100
  {
  }

  lemma LastByte(high: nat, low: Byte)
    ensures (high * 0x100 + low as int) / 0x100 == high && (high * 0x100 + low as int) % 0x100 == low as int
  {
  }

  lemma FromBigEndianInverse(b: Bytes)
    requires |b| == 4
    ensures BigEndian(FromBigEndian(b)) == b
  {
    var n := FromBigEndian(b);
    var high := b[0] as int * 0x100 + b[1] as int;
    NestedDivision(n);
    LastByte(high * 0x100 + b[2] as int, b[3]);
    LastByte(high, b[2]);
    LastByte(b[0] as int, b[1]);
  }

  function Header(m: Message): (h: Bytes)
    ensures |h| == 5
  {
    [m.msgType] + BigEndian(|m.payload| % TWO32)
  }

  /** The bytes `WriteMessage` puts on the wire. The length field is `uint32(len(payload))`, which wraps. */
  function Frame(m: Message): Bytes {
    Header(m) + m.payload
  }

  /** What `ReadMessage` makes of a byte stream: its result and the bytes it leaves unread. */
  function Parse(b: Bytes): (ReadResult, Bytes) {
    if |b| < 5 then (HeaderCut, [])
    else
      var n := FromBigEndian(b[1..5]);
      if n > MAX_PAYLOAD_SIZE then (TooLarge(n), b[5..])
      else if |b| - 5 < n then (PayloadCut, [])
      else (Received(Message(b[0], b[5..5 + n])), b[5 + n..])
  }

  /** One end of a TCP connection. */
  class Conn {
    /** Bytes that will still be delivered before end-of-file, a reset or the deadline. */
    var incoming: Bytes
    /** Bytes accepted for sending so far, and how many more will be accepted before writes fail. */
    var outgoing: Bytes
    var room: nat

    constructor (incoming: Bytes, room: nat)
      ensures this.incoming == incoming && this.outgoing == [] && this.room == room
    {
      this.incoming, this.outgoing, this.room := incoming, [], room;
    }

    /** `conn.Read`: at least one byte, but any number up to the space left in the buffer. */
    method Read(buf: array<Byte>, from: nat) returns (n: nat, ok: bool)
      requires from < buf.Length
      modifies this`incoming, buf
      ensures ok <==> old(incoming) != []
      ensures ok ==> 1 <= n <= |old(incoming)| && from + n <= buf.Length
      ensures ok ==> buf[..] == old(buf[..from]) + old(incoming)[..n] + old(buf[..])[from + n..]
      ensures ok ==> incoming == old(incoming)[n..]
      ensures !ok ==> n == 0 && incoming == [] && buf[..] == old(buf[..])
    {
      if incoming == [] {
        return 0, false;
      }
      n :| 1 <= n <= |incoming| && from + n <= buf.Length;
      forall i | 0 <= i < n {
        buf[from + i] := incoming[i];
      }
      incoming := incoming[n..];
      return n, true;
    }

    /** `io.ReadFull`: reads until the buffer is full, whatever the sizes of the short reads. */
    method ReadFull(buf: array<Byte>) returns (ok: bool)
      modifies this`incoming, buf
      ensures ok <==> |old(incoming)| >= buf.Length
      ensures ok ==> buf[..] == old(incoming)[..buf.Length] && incoming == old(incoming)[buf.Length..]
      ensures !ok ==> incoming == []
    {
      var filled := 0;
      while filled < buf.Length
        invariant 0 <= filled <= buf.Length && filled <= |old(incoming)|
        invariant buf[..filled] == old(incoming)[..filled]
        invariant incoming == old(incoming)[filled..]
      {
        var n, more := Read(buf, filled);
        if !more {
          return false;
        }
        assert buf[..filled + n] == old(incoming)[..filled + n];
        filled := filled + n;
      }
      assert buf[..] == buf[..filled];
      return true;
    }

    /** `conn.Write`: on failure a strict prefix has already left. */
    method Write(data: Bytes) returns (ok: bool)
      modifies this`outgoing, this`room
      ensures ok <==> |data| <= old(room)
      ensures ok ==> outgoing == old(outgoing) + data && room == old(room) - |data|
      ensures !ok ==> outgoing == old(outgoing) + data[..old(room)] && room == 0
    {
      if |data| <= room {
        outgoing, room := outgoing + data, room - |data|;
        return true;
      }
      outgoing, room := outgoing + data[..room], 0;
      return false;
    }
  }

  /** `binary.BigEndian.PutUint32(header[1:5], n)` */
  method PutUint32(header: array<Byte>, n: nat)
    requires header.Length == 5 && n < TWO32
    modifies header
    ensures header[..] == [old(header[0])] + BigEndian(n)
  {
    header[1] := n / 0x100_0000;
    header[2] := n / 0x1_0000 % 0x100;
    header[3] := n / 0x100 % 0x100;
    header[4] := n % 0x100;
  }

  /** Succeeds exactly when the connection takes the whole frame; otherwise a strict prefix of the frame is sent. */
  method WriteMessage(conn: Conn, m: Message) returns (ok: bool)
    modifies conn`outgoing, conn`room
    ensures ok <==> |Frame(m)| <= old(conn.room)
    ensures ok ==> conn.outgoing == old(conn.outgoing) + Frame(m) && conn.room == old(conn.room) - |Frame(m)|
    ensures !ok ==> conn.outgoing == old(conn.outgoing) + Frame(m)[..old(conn.room)]
  {
    var header := new Byte[5];
    header[0] := m.msgType;
    PutUint32(header, |m.payload| % TWO32);
    assert header[..] == Header(m);
    ok := conn.Write(header[..]);
    if !ok {
      return false;
    }
    if |m.payload| > 0 {
      ok := conn.Write(m.payload);
    }
  }

  /** Refines `Parse` under every fragmentation of the incoming bytes. */
  method ReadMessage(conn: Conn) returns (r: ReadResult)
    modifies conn`incoming
    ensures (r, conn.incoming) == Parse(old(conn.incoming))
  {
    ghost var all := conn.incoming;
    var header := new Byte[5];
    var ok := conn.ReadFull(header);
    if !ok {
      return HeaderCut;
    }
    var msgType := header[0];
    assert header[1..5] == all[1..5];
    var payloadLen := FromBigEndian(header[1..5]);
    if payloadLen > MAX_PAYLOAD_SIZE {
      return TooLarge(payloadLen);
    }
    var payload := new Byte[payloadLen];
    if payloadLen > 0 {
      ok := conn.ReadFull(payload);
      if !ok {
        return PayloadCut;
      }
    }
    assert payload[..] == all[5..5 + payloadLen];
    assert conn.incoming == all[5 + payloadLen..];
    return Received(Message(msgType, payload[..]));
  }
}

/** What the framing guarantees about whole streams of messages. */
module Framing {
  import opened FileMetadata
  import opened Protocol

  predicate Fits(m: Message) {
    |m.payload| <= MAX_PAYLOAD_SIZE
  }

  lemma HeaderFields(m: Message, suffix: Bytes)
    ensures var b := Frame(m) + suffix;
            && |b| >= 5 && b[0] == m.msgType && FromBigEndian(b[1..5]) == |m.payload| % TWO32
            && b[5..] == m.payload + suffix
  {
    var b := Frame(m) + suffix;
    assert b == Header(m) + (m.payload + suffix);
    assert b[1..5] == BigEndian(|m.payload| % TWO32);
    BigEndianInverse(|m.payload| % TWO32);
  }

  /**
   Reading back a written message returns it and leaves exactly the bytes behind it if and only if
   the payload is within the limit. Above 2^32 - 1 bytes the wrapped length field can make a reader
   accept a truncated payload.
   */
  lemma RoundTripIffFits(m: Message, suffix: Bytes)
    ensures Parse(Frame(m) + suffix) == (Received(m), suffix) <==> Fits(m)
  {
    HeaderFields(m, suffix);
    var b := Frame(m) + suffix;
    var n := |m.payload| % TWO32;
    if n <= MAX_PAYLOAD_SIZE {
      assert b[5..5 + n] == b[5..][..n] && b[5 + n..] == b[5..][n..];
    }
  }

  /** Exactly what a reader sees when the payload is too large for the limit. */
  lemma OversizedMessage(m: Message, suffix: Bytes)
    requires !Fits(m)
    ensures var n := |m.payload| % TWO32;
            Parse(Frame(m) + suffix).0 == if n > MAX_PAYLOAD_SIZE then TooLarge(n)
                                          else Received(Message(m.msgType, m.payload[..n]))
  {
    HeaderFields(m, suffix);
    var b := Frame(m) + suffix;
    var n := |m.payload| % TWO32;
    if n <= MAX_PAYLOAD_SIZE {
      assert b[5..5 + n] == b[5..][..n];
    }
  }

  /** Acceptance is canonical: an accepted stream starts with the frame of the message that was read. */
  lemma ParseIsCanonical(b: Bytes)
    requires Parse(b).0.Received?
    ensures Fits(Parse(b).0.message)
    ensures b == Frame(Parse(b).0.message) + Parse(b).1
  {
    var n := FromBigEndian(b[1..5]);
    FromBigEndianInverse(b[1..5]);
    assert n % TWO32 == n;
    assert b == [b[0]] + b[1..5] + b[5..5 + n] + b[5 + n..];
  }

  /** No strict prefix of a frame is accepted: a cut connection never yields a message. */
  lemma StrictPrefixRejected(m: Message, k: nat)
    requires Fits(m) && k < |Frame(m)|
    ensures Parse(Frame(m)[..k]).0 == if k < 5 then HeaderCut else PayloadCut
  {
    HeaderFields(m, []);
    assert Frame(m) + [] == Frame(m);
    if k >= 5 {
      assert Frame(m)[..k][1..5] == Frame(m)[1..5];
    }
  }

  /** The code is prefix-free, hence injective. */
  lemma FramesPrefixFree(m: Message, m': Message, suffix: Bytes, suffix': Bytes)
    requires Fits(m) && Fits(m') && Frame(m) + suffix == Frame(m') + suffix'
    ensures m == m' && suffix == suffix'
  {
    RoundTripIffFits(m, suffix);
    RoundTripIffFits(m', suffix');
  }

  function Frames(ms: seq<Message>): Bytes {
    if ms == [] then [] else Frame(ms[0]) + Frames(ms[1..])
  }

  /** Reads messages until the stream ends; the flag tells whether it ended cleanly between two messages. */
  function ParseAll(b: Bytes): (seq<Message>, bool)
    decreases |b|
  {
    if b == [] then ([], true)
    else
      match Parse(b).0
      case Received(m) => (var rest := ParseAll(Parse(b).1); ([m] + rest.0, rest.1))
      case _ => ([], false)
  }

  /** The iterated reader ends cleanly with `ms` exactly on the concatenation of the frames of `ms`. */
  lemma {:induction false} StreamRoundTrip(ms: seq<Message>)
    requires forall i :: 0 <= i < |ms| ==> Fits(ms[i])
    ensures ParseAll(Frames(ms)) == (ms, true)
  {
    if ms != [] {
      RoundTripIffFits(ms[0], Frames(ms[1..]));
      StreamRoundTrip(ms[1..]);
      assert ms == [ms[0]] + ms[1..];
    }
  }

  lemma {:induction false} StreamIsCanonical(b: Bytes)
    requires ParseAll(b).1
    ensures Frames(ParseAll(b).0) == b
    ensures forall i :: 0 <= i < |ParseAll(b).0| ==> Fits(ParseAll(b).0[i])
    decreases |b|
  {
    if b != [] {
      ParseIsCanonical(b);
      StreamIsCanonical(Parse(b).1);
      assert ParseAll(b).0[1..] == ParseAll(Parse(b).1).0;
    }
  }

  /** Reads messages from a connection until it is drained. */
  method ReadAll(conn: Conn) returns (ms: seq<Message>, clean: bool)
    modifies conn`incoming
    ensures (ms, clean) == ParseAll(old(conn.incoming))
  {
    ms := [];
    assert ms + ParseAll(conn.incoming).0 == ParseAll(conn.incoming).0;
    while conn.incoming != []
      invariant ParseAll(old(conn.incoming)) == (ms + ParseAll(conn.incoming).0, ParseAll(conn.incoming).1)
      decreases |conn.incoming|
    {
      ghost var before := conn.incoming;
      var r := ReadMessage(conn);
      if !r.Received? {
        assert ms + ParseAll(before).0 == ms;
        return ms, false;
      }
      assert ms + ([r.message] + ParseAll(conn.incoming).0) == ms + [r.message] + ParseAll(conn.incoming).0;
      ms := ms + [r.message];
    }
    assert ms + [] == ms;
    return ms, true;
  }

  /** The value of four bytes, the most significant first. */
  function Value(b3: Byte, b2: Byte, b1: Byte, b0: Byte): nat {
    ((b3 as int * 256 + b2 as int) * 256 + b1 as int) * 256 + b0 as int
  }

  /**
   The layout on the wire: the type in one byte, then the length of the payload in four, most significant first and
   modulo 2^32, then the payload itself.
   */
  lemma FrameLayout(m: Message)
    ensures var b := Frame(m);
            && |b| == 5 + |m.payload|
            && b[0] == m.msgType
            && Value(b[1], b[2], b[3], b[4]) == |m.payload| % 0x1_0000_0000
            && b[5..] == m.payload
  {
    HeaderFields(m, []);
    assert Frame(m) + [] == Frame(m) && m.payload + [] == m.payload;
    assert Frame(m)[1..5] == [Frame(m)[1], Frame(m)[2], Frame(m)[3], Frame(m)[4]];
  }

  /** The requests and responses without a payload, byte for byte, and the limit of 64 MiB. */
  lemma WireConstants(m: Message)
    ensures Frame(Message(MSG_REGISTER, [])) == [1, 0, 0, 0, 0] && Frame(Message(MSG_PEER_INFO, [])) == [2, 0, 0, 0, 0]
    ensures Frame(Message(MSG_FILE_LIST, [])) == [3, 0, 0, 0, 0] && Frame(Message(MSG_FILE_META, [])) == [4, 0, 0, 0, 0]
    ensures Frame(Message(MSG_CHUNK, [])) == [5, 0, 0, 0, 0]
    ensures Frame(Message(STATUS_OK, [])) == [0, 0, 0, 0, 0] && Frame(Message(STATUS_ERROR, [])) == [1, 0, 0, 0, 0]
    ensures Parse(Frame(m)) == (Received(m), []) <==> |m.payload| <= 67_108_864
  {
    assert Frame(m) + [] == Frame(m);
    RoundTripIffFits(m, []);
  }
}
