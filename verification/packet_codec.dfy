/** The packet framing of the byte stream: how packets are written, and how a stream that arrives in
    arbitrary pieces is cut into packets again. */
module PacketCodec {
  import opened Basics

  const HEADER_SIZE := 20

  type byte = b: int | 0 <= b < 256

  datatype Packet = Packet(msgId: uint32, seqId: uint32, playerId: int64, body: seq<byte>)

  // ----- big-endian numbers

  /** The n lowest bytes of a number, the highest of them first. */
  function BigEndian(value: int, n: nat): (bytes: seq<byte>)
    ensures |bytes| == n
    decreases n, value
  {
    if n == 0 then [] else BigEndian(value / 256, n - 1) + [value % 256]
  }

  function FromBigEndian(bytes: seq<byte>): (value: nat) {
    if bytes == [] then 0 else FromBigEndian(bytes[..|bytes| - 1]) * 256 + bytes[|bytes| - 1]
  }

  function Pow256(n: nat): nat { if n == 0 then 1 else 256 * Pow256(n - 1) }

  lemma {:induction false} ReadsWhatWasWritten(value: int, n: nat)
    requires 0 <= value < Pow256(n)
    ensures FromBigEndian(BigEndian(value, n)) == value
  {
    if n > 0 {
      ReadsWhatWasWritten(value / 256, n - 1);
      assert BigEndian(value, n)[..n - 1] == BigEndian(value / 256, n - 1);
    }
  }

  lemma {:induction false} WritesWhatWasRead(bytes: seq<byte>)
    ensures 0 <= FromBigEndian(bytes) < Pow256(|bytes|)
    ensures BigEndian(FromBigEndian(bytes), |bytes|) == bytes
  {
    if bytes != [] {
      var n := |bytes| - 1;
      WritesWhatWasRead(bytes[..n]);
      assert FromBigEndian(bytes) / 256 == FromBigEndian(bytes[..n]);
      assert FromBigEndian(bytes) % 256 == bytes[n];
      assert bytes == bytes[..n] + [bytes[n]];
    }
  }

  lemma Widths()
    ensures Pow256(4) == TWO_TO_32 && Pow256(8) == TWO_TO_64
  {
    assert Pow256(2) == 0x1_0000;
    assert Pow256(6) == Pow256(4) * Pow256(2);
  }

  function ReadU32BE(bytes: seq<byte>): (value: uint32)
    requires |bytes| == 4
  {
    Widths();
    WritesWhatWasRead(bytes);
    FromBigEndian(bytes)
  }

  function ReadU64BE(bytes: seq<byte>): (value: nat)
    requires |bytes| == 8
    ensures value < TWO_TO_64
  {
    Widths();
    WritesWhatWasRead(bytes);
    FromBigEndian(bytes)
  }

  /** Two's complement: the player id as an unsigned number, and back. */
  function AsUnsigned(n: int64): (u: nat)
    ensures u < TWO_TO_64
  {
    if n < 0 then n + TWO_TO_64 else n
  }

  function AsSigned(u: nat): (n: int64)
    requires u < TWO_TO_64
    ensures AsUnsigned(n) == u
  {
    if u < 0x8000_0000_0000_0000 then u else u - TWO_TO_64
  }

  // ----- the bytes of a packet

  function HeaderOf(packet: Packet, length: int): (header: seq<byte>)
    ensures |header| == HEADER_SIZE
  {
    BigEndian(length, 4) + BigEndian(packet.msgId, 4) + BigEndian(packet.seqId, 4) +
    BigEndian(AsUnsigned(packet.playerId), 8)
  }

  function BytesOf(packet: Packet): (bytes: seq<byte>)
    ensures |bytes| == HEADER_SIZE + |packet.body|
  {
    HeaderOf(packet, HEADER_SIZE + |packet.body|) + packet.body
  }

  /** Where a packet's bytes hold what: its length with the header in the first four bytes, then the message id, the
      sequence number and the player id in two's complement, each with its highest byte first, and then the body. */
  lemma WhereThingsAre(packet: Packet)
    requires HEADER_SIZE + |packet.body| < TWO_TO_32
    ensures
      var bytes := BytesOf(packet);
      && |bytes| == 20 + |packet.body|
      && FromBigEndian(bytes[0..4]) == |bytes|
      && FromBigEndian(bytes[4..8]) == packet.msgId
      && FromBigEndian(bytes[8..12]) == packet.seqId
      && FromBigEndian(bytes[12..20]) == packet.playerId + (if packet.playerId < 0 then TWO_TO_64 else 0)
      && bytes[20..] == packet.body
  {
    var length := HEADER_SIZE + |packet.body|;
    var bytes := BytesOf(packet);
    Widths();
    ReadsWhatWasWritten(length, 4);
    ReadsWhatWasWritten(packet.msgId, 4);
    ReadsWhatWasWritten(packet.seqId, 4);
    ReadsWhatWasWritten(AsUnsigned(packet.playerId), 8);
    assert bytes[0..4] == BigEndian(length, 4);
    assert bytes[4..8] == BigEndian(packet.msgId, 4);
    assert bytes[8..12] == BigEndian(packet.seqId, 4);
    assert bytes[12..20] == BigEndian(AsUnsigned(packet.playerId), 8);
  }

  /** The bytes of a number count the higher the earlier they come. */
  lemma FirstByteIsHighest(high: byte, low: seq<byte>)
    ensures FromBigEndian([high] + low) == high * Pow256(|low|) + FromBigEndian(low)
  {
    if low != [] {
      var n := |low| - 1;
      assert ([high] + low)[..n + 1] == [high] + low[..n];
      FirstByteIsHighest(high, low[..n]);
      HigherByOne(high, Pow256(n), FromBigEndian(low[..n]));
    }
  }

  lemma HigherByOne(high: int, weight: int, low: int)
    ensures (high * weight + low) * 256 == high * (256 * weight) + low * 256
  {
  }

  function BytesOfAll(packets: seq<Packet>): seq<byte> {
    if packets == [] then [] else BytesOf(packets[0]) + BytesOfAll(packets[1..])
  }

  function LengthOf(bytes: seq<byte>): uint32
    requires |bytes| >= HEADER_SIZE
  {
    ReadU32BE(bytes[..4])
  }

  /** The packet at the front of the bytes, which hold all of it. */
  function PacketOf(bytes: seq<byte>): Packet
    requires |bytes| >= HEADER_SIZE && HEADER_SIZE <= LengthOf(bytes) <= |bytes|
  {
    Packet(ReadU32BE(bytes[4..8]), ReadU32BE(bytes[8..12]), AsSigned(ReadU64BE(bytes[12..20])),
           bytes[HEADER_SIZE..LengthOf(bytes)])
  }

  // ----- cutting a stream into packets

  /** The packets of a stream and the bytes that are left over, or the packets before a header that
      names an impossible length. */
  datatype Framing = Framed(packets: seq<Packet>, rest: seq<byte>) | Malformed(packets: seq<Packet>)

  function After(first: seq<Packet>, framing: Framing): Framing {
    match framing
    case Framed(packets, rest) => Framed(first + packets, rest)
    case Malformed(packets) => Malformed(first + packets)
  }

  function Parse(bytes: seq<byte>, maxSize: uint32): Framing
    decreases |bytes|
  {
    if |bytes| < HEADER_SIZE then Framed([], bytes)
    else
      var length := LengthOf(bytes);
      if length < HEADER_SIZE || length > maxSize then Malformed([])
      else if |bytes| < length then Framed([], bytes)
      else After([PacketOf(bytes)], Parse(bytes[length..], maxSize))
  }

  lemma AfterAfter(a: seq<Packet>, b: seq<Packet>, framing: Framing)
    ensures After(a, After(b, framing)) == After(a + b, framing)
    ensures After([], framing) == framing
  {
    assert a + (b + framing.packets) == (a + b) + framing.packets;
    assert [] + framing.packets == framing.packets;
  }

  /** The bytes begin with a complete packet of an allowed length. */
  ghost predicate StartsWithPacket(bytes: seq<byte>, maxSize: uint32) {
    |bytes| >= HEADER_SIZE && HEADER_SIZE <= LengthOf(bytes) <= |bytes| && LengthOf(bytes) <= maxSize
  }

  lemma ParseStep(bytes: seq<byte>, maxSize: uint32)
    requires StartsWithPacket(bytes, maxSize)
    ensures Parse(bytes, maxSize) == After([PacketOf(bytes)], Parse(bytes[LengthOf(bytes)..], maxSize))
  {
  }

  lemma ParseStops(bytes: seq<byte>, maxSize: uint32)
    requires !StartsWithPacket(bytes, maxSize)
    ensures Parse(bytes, maxSize) == Framed([], bytes) || Parse(bytes, maxSize) == Malformed([])
  {
  }

  /** More bytes at the end change nothing about the packets that are already complete. */
  lemma {:induction false} ParseExtends(a: seq<byte>, b: seq<byte>, maxSize: uint32)
    ensures Parse(a + b, maxSize) ==
            match Parse(a, maxSize)
            case Malformed(packets) => Malformed(packets)
            case Framed(packets, rest) => After(packets, Parse(rest + b, maxSize))
    decreases |a|
  {
    if |a| < HEADER_SIZE {
      AfterAfter([], [], Parse(a + b, maxSize));
    } else {
      var length := LengthOf(a);
      assert (a + b)[..4] == a[..4];
      if length < HEADER_SIZE || length > maxSize {
      } else if |a| < length {
        AfterAfter([], [], Parse(a + b, maxSize));
      } else {
        FrontPacket(a, b);
        assert (a + b)[length..] == a[length..] + b;
        ParseExtends(a[length..], b, maxSize);
        var inner := Parse(a[length..], maxSize);
        if inner.Framed? {
          AfterAfter([PacketOf(a)], inner.packets, Parse(inner.rest + b, maxSize));
        }
      }
    }
  }

  lemma FrontPacket(a: seq<byte>, b: seq<byte>)
    requires |a| >= HEADER_SIZE && HEADER_SIZE <= LengthOf(a) <= |a|
    ensures LengthOf(a + b) == LengthOf(a) && PacketOf(a + b) == PacketOf(a)
  {
    assert (a + b)[..4] == a[..4];
    assert (a + b)[4..8] == a[4..8];
    assert (a + b)[8..12] == a[8..12];
    assert (a + b)[12..20] == a[12..20];
    assert (a + b)[HEADER_SIZE..LengthOf(a)] == a[HEADER_SIZE..LengthOf(a)];
  }

  function Flatten(chunks: seq<seq<byte>>): seq<byte> {
    if chunks == [] then [] else chunks[0] + Flatten(chunks[1..])
  }

  /** What a connection delivers that gets its bytes in these chunks, on top of those it has kept. */
  function Feed(kept: seq<byte>, chunks: seq<seq<byte>>, maxSize: uint32): Framing
    decreases |chunks|
  {
    if chunks == [] then Framed([], kept)
    else
      match Parse(kept + chunks[0], maxSize)
      case Malformed(packets) => Malformed(packets)
      case Framed(packets, rest) => After(packets, Feed(rest, chunks[1..], maxSize))
  }

  /** What is kept after a parse holds no complete packet. */
  lemma {:induction false} RestIsIncomplete(bytes: seq<byte>, maxSize: uint32)
    requires Parse(bytes, maxSize).Framed?
    ensures
      var rest := Parse(bytes, maxSize).rest;
      && Parse(rest, maxSize) == Framed([], rest)
      && |rest| <= |bytes|
      && (|rest| < HEADER_SIZE || |rest| < maxSize)
    decreases |bytes|
  {
    if StartsWithPacket(bytes, maxSize) {
      ParseStep(bytes, maxSize);
      RestIsIncomplete(bytes[LengthOf(bytes)..], maxSize);
    } else {
      ParseStops(bytes, maxSize);
    }
  }

  lemma {:induction false} FeedIsParse(kept: seq<byte>, chunks: seq<seq<byte>>, maxSize: uint32)
    requires Parse(kept, maxSize) == Framed([], kept)
    ensures Feed(kept, chunks, maxSize) == Parse(kept + Flatten(chunks), maxSize)
    decreases |chunks|
  {
    if chunks == [] {
      assert kept + [] == kept;
    } else {
      var first := kept + chunks[0];
      assert kept + Flatten(chunks) == first + Flatten(chunks[1..]);
      ParseExtends(first, Flatten(chunks[1..]), maxSize);
      var parsed := Parse(first, maxSize);
      if parsed.Framed? {
        RestIsIncomplete(first, maxSize);
        FeedIsParse(parsed.rest, chunks[1..], maxSize);
      }
    }
  }

  /** The pieces in which a stream arrives do not matter: every split of it gives the same packets and
      the same leftover as the stream in one piece, and is malformed exactly when the stream is. */
  lemma ChunksDoNotMatter(chunks: seq<seq<byte>>, maxSize: uint32)
    ensures Feed([], chunks, maxSize) == Parse(Flatten(chunks), maxSize)
    ensures
      var fed := Feed([], chunks, maxSize);
      fed.Framed? ==> |fed.rest| < HEADER_SIZE || |fed.rest| < maxSize
  {
    FeedIsParse([], chunks, maxSize);
    assert [] + Flatten(chunks) == Flatten(chunks);
    if Parse(Flatten(chunks), maxSize).Framed? {
      RestIsIncomplete(Flatten(chunks), maxSize);
    }
  }

  // ----- writing and reading are inverse

  lemma HeaderSlices(packet: Packet, length: uint32, tail: seq<byte>)
    ensures
      var bytes := HeaderOf(packet, length) + tail;
      && bytes[..4] == BigEndian(length, 4)
      && bytes[4..8] == BigEndian(packet.msgId, 4)
      && bytes[8..12] == BigEndian(packet.seqId, 4)
      && bytes[12..20] == BigEndian(AsUnsigned(packet.playerId), 8)
      && bytes[20..] == tail
  {
  }

  lemma U32IsReadBack(value: uint32)
    ensures ReadU32BE(BigEndian(value, 4)) == value
  {
    Widths();
    ReadsWhatWasWritten(value, 4);
  }

  lemma U64IsReadBack(value: nat)
    requires value < TWO_TO_64
    ensures ReadU64BE(BigEndian(value, 8)) == value
  {
    Widths();
    ReadsWhatWasWritten(value, 8);
  }

  lemma HeaderFields(packet: Packet, length: uint32, tail: seq<byte>)
    ensures
      var bytes := HeaderOf(packet, length) + tail;
      && LengthOf(bytes) == length
      && ReadU32BE(bytes[4..8]) == packet.msgId && ReadU32BE(bytes[8..12]) == packet.seqId
      && ReadU64BE(bytes[12..20]) == AsUnsigned(packet.playerId)
  {
    HeaderSlices(packet, length, tail);
    U32IsReadBack(length);
    U32IsReadBack(packet.msgId);
    U32IsReadBack(packet.seqId);
    U64IsReadBack(AsUnsigned(packet.playerId));
  }

  lemma PacketAtFront(packet: Packet, tail: seq<byte>)
    requires HEADER_SIZE + |packet.body| < TWO_TO_32
    ensures LengthOf(BytesOf(packet) + tail) == HEADER_SIZE + |packet.body|
    ensures PacketOf(BytesOf(packet) + tail) == packet
    ensures (BytesOf(packet) + tail)[HEADER_SIZE + |packet.body|..] == tail
  {
    var length := HEADER_SIZE + |packet.body|;
    Rejoined(HeaderOf(packet, length), packet.body, tail);
    HeaderFields(packet, length, packet.body + tail);
    HeaderSlices(packet, length, packet.body + tail);
    Middle(HeaderOf(packet, length), packet.body, tail);
  }

  lemma Middle<T>(front: seq<T>, middle: seq<T>, rest: seq<T>)
    ensures (front + (middle + rest))[|front|..|front| + |middle|] == middle
    ensures (front + (middle + rest))[|front| + |middle|..] == rest
  {
  }

  /** A packet that fits is read back from the front of a stream. */
  lemma PacketIsReadBack(packet: Packet, tail: seq<byte>, maxSize: uint32)
    requires HEADER_SIZE + |packet.body| <= maxSize
    ensures Parse(BytesOf(packet) + tail, maxSize) == After([packet], Parse(tail, maxSize))
  {
    PacketAtFront(packet, tail);
    ParseStep(BytesOf(packet) + tail, maxSize);
  }

  /** Decoding concatenated encodings gives the packets back, with nothing left over. */
  lemma {:induction false} PacketsAreReadBack(packets: seq<Packet>, maxSize: uint32)
    requires forall i :: 0 <= i < |packets| ==> HEADER_SIZE + |packets[i].body| <= maxSize
    ensures Parse(BytesOfAll(packets), maxSize) == Framed(packets, [])
    decreases |packets|
  {
    if packets != [] {
      PacketsAreReadBack(packets[1..], maxSize);
      PacketIsReadBack(packets[0], BytesOfAll(packets[1..]), maxSize);
      assert [packets[0]] + packets[1..] == packets;
    }
  }

  lemma FrontIsWrittenBack(bytes: seq<byte>)
    requires |bytes| >= HEADER_SIZE && HEADER_SIZE <= LengthOf(bytes) <= |bytes|
    ensures BytesOf(PacketOf(bytes)) == bytes[..LengthOf(bytes)]
  {
    var packet, length := PacketOf(bytes), LengthOf(bytes);
    WritesWhatWasRead(bytes[..4]);
    WritesWhatWasRead(bytes[4..8]);
    WritesWhatWasRead(bytes[8..12]);
    WritesWhatWasRead(bytes[12..20]);
    assert |packet.body| == length - HEADER_SIZE;
    assert bytes[..length] == bytes[..4] + bytes[4..8] + bytes[8..12] + bytes[12..20] + bytes[HEADER_SIZE..length];
  }

  /** No byte is lost or made up: the packets of a stream, written again, and the leftover are the stream. */
  lemma {:induction false} StreamIsConserved(bytes: seq<byte>, maxSize: uint32)
    requires Parse(bytes, maxSize).Framed?
    ensures BytesOfAll(Parse(bytes, maxSize).packets) + Parse(bytes, maxSize).rest == bytes
    decreases |bytes|
  {
    if StartsWithPacket(bytes, maxSize) {
      ParseStep(bytes, maxSize);
      FrontIsWrittenBack(bytes);
      var length := LengthOf(bytes);
      StreamIsConserved(bytes[length..], maxSize);
      FramingIsConserved(PacketOf(bytes), Parse(bytes[length..], maxSize), bytes, length);
    } else {
      ParseStops(bytes, maxSize);
    }
  }

  lemma FramingIsConserved(first: Packet, framing: Framing, bytes: seq<byte>, length: nat)
    requires framing.Framed? && length <= |bytes|
    requires BytesOf(first) == bytes[..length] && BytesOfAll(framing.packets) + framing.rest == bytes[length..]
    ensures
      var whole := After([first], framing);
      BytesOfAll(whole.packets) + whole.rest == bytes
  {
    FirstBytes(first, framing.packets);
    Rejoined(BytesOf(first), BytesOfAll(framing.packets), framing.rest);
    Parted(bytes, length);
  }

  lemma Parted<T>(whole: seq<T>, n: nat)
    requires n <= |whole|
    ensures whole[..n] + whole[n..] == whole
  {
  }

  lemma FirstBytes(first: Packet, packets: seq<Packet>)
    ensures BytesOfAll([first] + packets) == BytesOf(first) + BytesOfAll(packets)
  {
    assert ([first] + packets)[1..] == packets;
  }

  // ----- malformed streams

  ghost predicate AllFit(packets: seq<Packet>, maxSize: uint32) {
    forall i :: 0 <= i < |packets| ==> HEADER_SIZE + |packets[i].body| <= maxSize
  }

  /** A header that names a length below its own or above the allowed one. */
  ghost predicate BadHeader(bytes: seq<byte>, maxSize: uint32) {
    |bytes| >= HEADER_SIZE && !(HEADER_SIZE <= FromBigEndian(bytes[..4]) <= maxSize)
  }

  lemma {:induction false} BadHeaderIsFound(packets: seq<Packet>, rest: seq<byte>, maxSize: uint32)
    requires AllFit(packets, maxSize) && BadHeader(rest, maxSize)
    ensures Parse(BytesOfAll(packets) + rest, maxSize) == Malformed(packets)
    decreases |packets|
  {
    if packets == [] {
      assert BytesOfAll(packets) + rest == rest;
    } else {
      BadHeaderIsFound(packets[1..], rest, maxSize);
      Rejoined(BytesOf(packets[0]), BytesOfAll(packets[1..]), rest);
      PacketIsReadBack(packets[0], BytesOfAll(packets[1..]) + rest, maxSize);
      assert [packets[0]] + packets[1..] == packets;
    }
  }

  /** What a malformed stream looks like: the rest begins with the bad header. */
  lemma {:induction false} BadHeaderWasThere(bytes: seq<byte>, maxSize: uint32) returns (rest: seq<byte>)
    requires Parse(bytes, maxSize).Malformed?
    ensures
      var packets := Parse(bytes, maxSize).packets;
      AllFit(packets, maxSize) && BadHeader(rest, maxSize) && bytes == BytesOfAll(packets) + rest
    decreases |bytes|
  {
    if StartsWithPacket(bytes, maxSize) {
      ParseStep(bytes, maxSize);
      FrontIsWrittenBack(bytes);
      var length := LengthOf(bytes);
      var tail := Parse(bytes[length..], maxSize);
      rest := BadHeaderWasThere(bytes[length..], maxSize);
      FramingIsConserved(PacketOf(bytes), Framed(tail.packets, rest), bytes, length);
      assert |PacketOf(bytes).body| == length - HEADER_SIZE;
    } else {
      rest := bytes;
      assert BytesOfAll([]) + bytes == bytes;
    }
  }

  /** A stream is malformed exactly if, behind packets that are not too long, there is a header that names a length
      below its own or above the allowed one. */
  lemma MalformedIsABadHeader(bytes: seq<byte>, maxSize: uint32)
    ensures
      Parse(bytes, maxSize).Malformed? <==>
      exists packets, rest ::
        AllFit(packets, maxSize) && BadHeader(rest, maxSize) && bytes == BytesOfAll(packets) + rest
  {
    if Parse(bytes, maxSize).Malformed? {
      var rest := BadHeaderWasThere(bytes, maxSize);
    }
    forall packets, rest | AllFit(packets, maxSize) && BadHeader(rest, maxSize) && bytes == BytesOfAll(packets) + rest
      ensures Parse(bytes, maxSize).Malformed?
    {
      BadHeaderIsFound(packets, rest, maxSize);
    }
  }

  // ----- the codec

  /** Writes the number into four bytes of the buffer. */
  method WriteU32BE(dst: array<byte>, at: nat, value: uint32)
    requires at + 4 <= dst.Length
    modifies dst
    ensures dst[..] == old(dst[..at]) + BigEndian(value, 4) + old(dst[at + 4..])
  {
    FourBytes(value);
    dst[at] := value / 0x100_0000 % 256;
    dst[at + 1] := value / 0x1_0000 % 256;
    dst[at + 2] := value / 0x100 % 256;
    dst[at + 3] := value % 256;
  }

  lemma FourBytes(value: int)
    ensures BigEndian(value, 4) == [value / 0x100_0000 % 256, value / 0x1_0000 % 256, value / 0x100 % 256, value % 256]
  {
    Divided(value);
    OneMoreByte(value, 3);
    OneMoreByte(value / 256, 2);
    OneMoreByte(value / 0x1_0000, 1);
    OneMoreByte(value / 0x100_0000, 0);
  }

  lemma OneMoreByte(value: int, n: nat)
    ensures BigEndian(value, n + 1) == BigEndian(value / 256, n) + [value % 256]
  {
  }

  lemma Divided(value: int)
    ensures value / 256 / 256 == value / 0x1_0000
    ensures value / 0x1_0000 / 256 == value / 0x100_0000
  {
  }

  method WriteU64BE(dst: array<byte>, at: nat, value: nat)
    requires at + 8 <= dst.Length && value < TWO_TO_64
    modifies dst
    ensures dst[..] == old(dst[..at]) + BigEndian(value, 8) + old(dst[at + 8..])
  {
    EightBytes(value);
    var high, low := value / TWO_TO_32, value % TWO_TO_32;
    WriteU32BE(dst, at, high);
    Middle(dst[..at], BigEndian(high, 4), old(dst[at + 4..]));
    assert dst[..at + 4] == old(dst[..at]) + BigEndian(high, 4);
    assert dst[at + 8..] == old(dst[at + 8..]);
    WriteU32BE(dst, at + 4, low);
    Rejoined(old(dst[..at]), BigEndian(high, 4), BigEndian(low, 4));
  }

  lemma EightBytes(value: nat)
    requires value < TWO_TO_64
    ensures BigEndian(value, 8) == BigEndian(value / TWO_TO_32, 4) + BigEndian(value % TWO_TO_32, 4)
  {
    Widths();
    var high, low := value / TWO_TO_32, value % TWO_TO_32;
    assert high * TWO_TO_32 + low == value;
    Recombined(high, low, 4);
  }

  lemma Recombined(high: nat, low: nat, n: nat)
    requires high < Pow256(n) && low < Pow256(n)
    ensures BigEndian(high * Pow256(n) + low, n + n) == BigEndian(high, n) + BigEndian(low, n)
  {
    ReadsWhatWasWritten(high, n);
    ReadsWhatWasWritten(low, n);
    Joined(BigEndian(high, n), BigEndian(low, n));
    WritesWhatWasRead(BigEndian(high, n) + BigEndian(low, n));
  }

  lemma Shifted(high: int, power: int, low: int)
    ensures (high * power + low) * 256 == high * (256 * power) + low * 256
  {
  }

  lemma {:induction false} Joined(high: seq<byte>, low: seq<byte>)
    ensures FromBigEndian(high + low) == FromBigEndian(high) * Pow256(|low|) + FromBigEndian(low)
    decreases |low|
  {
    if low == [] {
      assert high + low == high;
    } else {
      var n := |low| - 1;
      assert (high + low)[..|high + low| - 1] == high + low[..n];
      Joined(high, low[..n]);
      Shifted(FromBigEndian(high), Pow256(n), FromBigEndian(low[..n]));
    }
  }

  method WriteHeader(buffer: array<byte>, packet: Packet, length: uint32)
    requires HEADER_SIZE <= buffer.Length
    modifies buffer
    ensures buffer[..] == HeaderOf(packet, length) + old(buffer[HEADER_SIZE..])
  {
    ghost var was := buffer[..];
    ghost var front := BigEndian(length, 4);
    WriteU32BE(buffer, 0, length);
    assert buffer[..] == front + was[4..];
    NextPart(front, BigEndian(packet.msgId, 4), was);
    WriteU32BE(buffer, 4, packet.msgId);
    front := front + BigEndian(packet.msgId, 4);
    NextPart(front, BigEndian(packet.seqId, 4), was);
    WriteU32BE(buffer, 8, packet.seqId);
    front := front + BigEndian(packet.seqId, 4);
    NextPart(front, BigEndian(AsUnsigned(packet.playerId), 8), was);
    WriteU64BE(buffer, 12, AsUnsigned(packet.playerId));
  }

  /** Writing one more part behind those already written. */
  lemma NextPart<T>(front: seq<T>, part: seq<T>, was: seq<T>)
    requires |front| + |part| <= |was|
    ensures
      var now := front + was[|front|..];
      && |now| == |was|
      && now[..|front|] + part + now[|front| + |part|..] == (front + part) + was[|front + part|..]
  {
  }

  method CopyBody(buffer: array<byte>, body: seq<byte>)
    requires buffer.Length == HEADER_SIZE + |body|
    modifies buffer
    ensures buffer[..] == old(buffer[..HEADER_SIZE]) + body
  {
    for i := 0 to |body|
      invariant buffer[..HEADER_SIZE] == old(buffer[..HEADER_SIZE])
      invariant buffer[HEADER_SIZE..HEADER_SIZE + i] == body[..i]
    {
      buffer[HEADER_SIZE + i] := body[i];
    }
    assert buffer[..] == buffer[..HEADER_SIZE] + buffer[HEADER_SIZE..HEADER_SIZE + |body|];
  }

  /** The length that goes into the header: it is computed in 32 bits. */
  function WrappedLength(packet: Packet): uint32 {
    (HEADER_SIZE + |packet.body|) % TWO_TO_32
  }

  predicate AllowedLength(length: uint32, maxSize: uint32) {
    HEADER_SIZE <= length <= maxSize
  }

  /** If room is made for the packet, it is enough. */
  predicate CopyFits(packet: Packet, maxSize: uint32) {
    AllowedLength(WrappedLength(packet), maxSize) ==> HEADER_SIZE + |packet.body| <= WrappedLength(packet)
  }

  /** Room is made for less than the packet exactly if its length does not fit into 32 bits and wraps round
      to an allowed one. */
  lemma CopyFitsUnlessWrapped(packet: Packet, maxSize: uint32)
    ensures CopyFits(packet, maxSize) <==>
            || HEADER_SIZE + |packet.body| < TWO_TO_32
            || !AllowedLength((HEADER_SIZE + |packet.body|) % TWO_TO_32, maxSize)
  {
    assert HEADER_SIZE + |packet.body| < TWO_TO_32 ==> WrappedLength(packet) == HEADER_SIZE + |packet.body|;
  }

  /** A body of 2^32 bytes is such a case: room is made for a packet without a body. */
  lemma LongBodyDoesNotFit(packet: Packet, maxSize: uint32)
    requires |packet.body| == TWO_TO_32 && HEADER_SIZE <= maxSize
    ensures WrappedLength(packet) == HEADER_SIZE && !CopyFits(packet, maxSize)
  {
  }

  /** Writes a packet, unless it is longer than allowed. */
  method Encode(packet: Packet, maxSize: uint32) returns (ok: bool, out: seq<byte>)
    requires CopyFits(packet, maxSize)
    ensures ok <==> HEADER_SIZE + |packet.body| <= maxSize
    ensures ok ==> out == BytesOf(packet)
  {
    var length := WrappedLength(packet);
    if !AllowedLength(length, maxSize) {
      return false, [];
    }
    var buffer := new byte[length](_ => 0);
    WriteHeader(buffer, packet, length);
    CopyBody(buffer, packet.body);
    ok, out := true, buffer[..];
  }

  /** Cuts all complete packets off the front of the buffer and keeps the rest. A header that names an
      impossible length makes it give up, with the buffer as it was. */
  method Decode(buffer: seq<byte>, maxSize: uint32) returns (ok: bool, packets: seq<Packet>, rest: seq<byte>)
    ensures ok <==> Parse(buffer, maxSize).Framed?
    ensures packets == Parse(buffer, maxSize).packets
    ensures rest == if ok then Parse(buffer, maxSize).rest else buffer
  {
    var offset := 0;
    var base := buffer;
    packets := [];
    AfterAfter([], [], Parse(buffer, maxSize));
    while |buffer| - offset >= HEADER_SIZE
      invariant 0 <= offset <= |buffer| && base == buffer[offset..]
      invariant Parse(buffer, maxSize) == After(packets, Parse(base, maxSize))
    {
      var length := LengthOf(base);
      if length < HEADER_SIZE || length > maxSize {
        return false, packets, buffer;
      }
      if |buffer| - offset < length {
        break;
      }
      DecodeStep(Parse(buffer, maxSize), packets, base, maxSize);
      packets := packets + [PacketOf(base)];
      offset := offset + length;
      base := base[length..];
    }
    IncompleteStays(base, maxSize);
    ok := true;
    rest := buffer[offset..];
  }

  lemma DecodeStep(whole: Framing, packets: seq<Packet>, base: seq<byte>, maxSize: uint32)
    requires StartsWithPacket(base, maxSize) && whole == After(packets, Parse(base, maxSize))
    ensures whole == After(packets + [PacketOf(base)], Parse(base[LengthOf(base)..], maxSize))
  {
    ParseStep(base, maxSize);
    AfterAfter(packets, [PacketOf(base)], Parse(base[LengthOf(base)..], maxSize));
  }

  lemma IncompleteStays(bytes: seq<byte>, maxSize: uint32)
    requires |bytes| < HEADER_SIZE || (HEADER_SIZE <= LengthOf(bytes) <= maxSize && |bytes| < LengthOf(bytes))
    ensures Parse(bytes, maxSize) == Framed([], bytes)
  {
  }

  /** The receiving half of a connection. */
  class TcpConnection {
    const maxSize: uint32
    var readBuffer: seq<byte>

    constructor (maxSize: uint32)
      ensures this.maxSize == maxSize && readBuffer == []
    {
      this.maxSize, readBuffer := maxSize, [];
    }

    /** Takes in what has arrived and hands out the packets that are complete now. */
    method ReadAvailablePackets(chunk: seq<byte>) returns (ok: bool, packets: seq<Packet>)
      modifies this
      ensures ok <==> Parse(old(readBuffer) + chunk, maxSize).Framed?
      ensures ok ==> Parse(old(readBuffer) + chunk, maxSize) == Framed(packets, readBuffer)
      ensures !ok ==> Parse(old(readBuffer) + chunk, maxSize) == Malformed(packets)
      ensures !ok ==> readBuffer == old(readBuffer) + chunk
    {
      readBuffer := readBuffer + chunk;
      ok, packets, readBuffer := Decode(readBuffer, maxSize);
    }
  }
}
