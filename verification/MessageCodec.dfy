/** The wire format of messages inside a packet: `write_message` and
    `messages_from_packet` of src/shared/message_queue.rs. */
module MessageCodec {
  import opened Bytes

  /** Ordering ids run from 0 up to this number and then start over. */
  const MAX_ORDER_ID := 4096

  const MESSAGE_HEADER_BYTES := 4

  datatype MessageKind = Instant | Reliable | Ordered

  /** Every order id in the program fits twelve bits: the sender's counter
      starts over at `MAX_ORDER_ID` and the parser assembles twelve bits. */
  type OrderId = x: int | 0 <= x < MAX_ORDER_ID

  datatype Message = Message(kind: MessageKind, order: OrderId, size: U16, data: seq<Byte>)

  function KindCode(kind: MessageKind): Nibble {
    match kind
    case Instant => 0
    case Reliable => 1
    case Ordered => 2
  }

  function KindOf(code: Nibble): Option<MessageKind> {
    if code == 0 then Some(Instant)
    else if code == 1 then Some(Reliable)
    else if code == 2 then Some(Ordered)
    else None
  }

  function OrderHigh(order: OrderId): Nibble { order / 0x100 }

  function OrderLow(order: OrderId): Byte { order % 0x100 }

  function Order(high: Nibble, low: Byte): OrderId {
    (high as int) * 0x100 + low as int
  }

  /** Bytes 0 and 1 hold bits 8..11 of the order id, the kind, and the low byte
      of the order id; bytes 2 and 3 hold the size. */
  function Encode(m: Message): (b: seq<Byte>)
    ensures |b| == MESSAGE_HEADER_BYTES + |m.data|
  {
    [Nibbles(OrderHigh(m.order), KindCode(m.kind)), OrderLow(m.order), HighByte(m.size), LowByte(m.size)] + m.data
  }

  function Serialize(ms: seq<Message>): seq<Byte> {
    if ms == [] then [] else Encode(ms[0]) + Serialize(ms[1..])
  }

  /** Where the first message of `b` ends: a size beyond the packet is clipped. */
  function FirstEnd(b: seq<Byte>): (end: nat)
    requires |b| >= MESSAGE_HEADER_BYTES
    ensures MESSAGE_HEADER_BYTES <= end <= |b|
  {
    Min(MESSAGE_HEADER_BYTES + Word(b[2], b[3]), |b|)
  }

  /** The message a header announces, unless its kind is unknown. */
  function Decode(b0: Byte, b1: Byte, b2: Byte, b3: Byte, data: seq<Byte>): (ms: seq<Message>)
    ensures |ms| <= 1
  {
    var kind := KindOf(LowNibble(b0));
    if kind.None? then [] else [Message(kind.value, Order(HighNibble(b0), b1), Word(b2, b3), data)]
  }

  function First(b: seq<Byte>): (ms: seq<Message>)
    requires |b| >= MESSAGE_HEADER_BYTES
  {
    Decode(b[0], b[1], b[2], b[3], b[MESSAGE_HEADER_BYTES..FirstEnd(b)])
  }

  function Parse(b: seq<Byte>): seq<Message> {
    if |b| < MESSAGE_HEADER_BYTES then [] else First(b) + Parse(b[FirstEnd(b)..])
  }

  /** The bytes of a message: the upper four bits of its order id over the four bits
      of its kind, the lower eight bits of the order id, the size with its high byte
      first, and the data. */
  lemma WireFormat(m: Message, b: seq<Byte>)
    requires b == Encode(m)
    ensures |b| == 4 + |m.data| && b[4..] == m.data
    ensures b[0] == (m.order / 256) * 16 + (if m.kind == Instant then 0 else if m.kind == Reliable then 1 else 2)
    ensures b[1] == m.order % 256 && b[2] == m.size / 256 && b[3] == m.size % 256
  {
  }

  lemma ParseUnfolds(b: seq<Byte>)
    ensures |b| < 4 ==> Parse(b) == []
    ensures |b| >= 4 ==> Parse(b) == Decode(b[0], b[1], b[2], b[3], b[4..FirstEnd(b)]) + Parse(b[FirstEnd(b)..])
  {
  }

  lemma EndFormat(b: seq<Byte>)
    requires |b| >= 4
    ensures var size := 256 * (b[2] as int) + b[3]; FirstEnd(b) == if 4 + size <= |b| then 4 + size else |b|
  {
  }

  lemma DecodeFormat(b0: Byte, b1: Byte, b2: Byte, b3: Byte, data: seq<Byte>)
    ensures
      var kind := if b0 % 16 == 0 then Instant else if b0 % 16 == 1 then Reliable else Ordered;
      Decode(b0, b1, b2, b3, data) ==
      if b0 % 16 <= 2 then [Message(kind, (b0 as int) / 16 * 256 + b1, 256 * (b2 as int) + b3, data)] else []
  {
  }

  /** What parsing makes of any bytes: nothing of fewer than four, and otherwise a
      message by the same layout, unless its kind is unknown, with as much of its
      data as there is, and then the messages of what follows it. */
  lemma ParseFormat(b: seq<Byte>)
    ensures |b| < 4 ==> Parse(b) == []
    ensures |b| >= 4 ==>
              var size := 256 * (b[2] as int) + b[3];
              var end := if 4 + size <= |b| then 4 + size else |b|;
              var kind := if b[0] % 16 == 0 then Instant else if b[0] % 16 == 1 then Reliable else Ordered;
              Parse(b) ==
              (if b[0] % 16 <= 2 then [Message(kind, (b[0] as int) / 16 * 256 + b[1], size, b[4..end])] else []) + Parse(b[end..])
  {
    hide Parse, Decode, FirstEnd, Word;
    ParseUnfolds(b);
    if |b| >= 4 {
      EndFormat(b);
      DecodeFormat(b[0], b[1], b[2], b[3], b[4..FirstEnd(b)]);
    }
  }

  /** Parsing from the middle of a packet, in the packet's own indices. */
  lemma ParseAt(packet: seq<Byte>, index: nat, end: nat)
    requires index + MESSAGE_HEADER_BYTES <= |packet|
    requires end == Min(index + 4 + Word(packet[index + 2], packet[index + 3]), |packet|)
    ensures Parse(packet[index..]) ==
            Decode(packet[index], packet[index + 1], packet[index + 2], packet[index + 3], packet[index + 4..end])
            + Parse(packet[end..])
  {
    var rest := packet[index..];
    assert rest[FirstEnd(rest)..] == packet[end..];
    assert rest[4..FirstEnd(rest)] == packet[index + 4..end];
  }

  /** The parsing loop, over an index that may step past the end of the packet. */
  method MessagesFromPacket(packet: seq<Byte>) returns (messages: seq<Message>)
    ensures messages == Parse(packet)
  {
    var available := |packet|;
    var index := 0;
    messages := [];
    assert packet[0..] == packet;
    while index < available && available - index >= MESSAGE_HEADER_BYTES
      invariant 0 <= index
      invariant messages + Parse(packet[Min(index, available)..]) == Parse(packet)
      decreases available - index
    {
      var size := Word(packet[index + 2], packet[index + 3]);
      var end := Min(index + MESSAGE_HEADER_BYTES + size, available);
      var found := Decode(packet[index], packet[index + 1], packet[index + 2], packet[index + 3],
                          packet[index + MESSAGE_HEADER_BYTES..end]);
      ParseAt(packet, index, end);
      messages := messages + found;
      index := index + size + MESSAGE_HEADER_BYTES;
    }
  }

  lemma {:induction false} SerializeAppend(a: seq<Message>, b: seq<Message>)
    ensures Serialize(a + b) == Serialize(a) + Serialize(b)
  {
    if a == [] {
      assert a + b == b;
    } else {
      assert (a + b)[1..] == a[1..] + b;
      SerializeAppend(a[1..], b);
    }
  }

  // ----- what survives the wire -----

  /** A message whose sixteen-bit size is the length of its data. */
  predicate Framed(m: Message) {
    m.size == |m.data|
  }

  /** Every message framed, except that the last may announce more than it carries. */
  predicate Transportable(ms: seq<Message>) {
    ms == [] ||
    ((if |ms| == 1 then |ms[0].data| <= ms[0].size else Framed(ms[0])) &&
     Transportable(ms[1..]))
  }

  /** What the parser sees first in an encoded message followed by `tail`. */
  lemma ParseEncoded(m: Message, tail: seq<Byte>)
    ensures var b := Encode(m) + tail;
            var end := FirstEnd(b);
            end == Min(4 + m.size, |b|) &&
            Parse(b) == [Message(m.kind, m.order, m.size, b[4..end])] + Parse(b[end..])
  {
    var b := Encode(m) + tail;
    assert b[..4] == Encode(m)[..4];
    assert LowNibble(b[0]) == KindCode(m.kind);
    assert Order(HighNibble(b[0]), b[1]) == m.order;
    assert Word(b[2], b[3]) == m.size;
  }

  /** Parsing inverts serialising exactly on the transportable lists. */
  lemma {:induction false} ParseSerialize(ms: seq<Message>)
    ensures Parse(Serialize(ms)) == ms <==> Transportable(ms)
  {
    if ms != [] {
      var m, rest := ms[0], ms[1..];
      var tail := Serialize(rest);
      var b := Encode(m) + tail;
      ParseEncoded(m, tail);
      ParseSerialize(rest);
      if rest == [] {
        assert b == Encode(m);
        if |m.data| <= m.size {
          assert b[4..FirstEnd(b)] == m.data && b[FirstEnd(b)..] == [];
        } else {
          assert |b[4..FirstEnd(b)]| < |m.data|;
        }
      } else {
        assert |tail| >= 4;
        if m.size == |m.data| {
          assert b[4..FirstEnd(b)] == m.data && b[FirstEnd(b)..] == tail;
          assert Parse(b)[1..] == Parse(tail);
        } else {
          assert |b[4..FirstEnd(b)]| != |m.data|;
        }
      }
    }
  }

  lemma {:induction false} FramedTransportable(ms: seq<Message>)
    requires forall m | m in ms :: Framed(m)
    ensures Transportable(ms)
    ensures Parse(Serialize(ms)) == ms
  {
    if ms == [] {
    } else {
      assert ms[0] in ms;
      FramedTransportable(ms[1..]);
    }
    ParseSerialize(ms);
  }

  /** A packet in which every header has a known kind and no bytes are left over. */
  predicate WellPacked(b: seq<Byte>) {
    b == [] || (|b| >= MESSAGE_HEADER_BYTES && First(b) != [] && WellPacked(b[FirstEnd(b)..]))
  }

  lemma ReencodeHeader(b0: Byte, b1: Byte, b2: Byte, b3: Byte, data: seq<Byte>, m: Message)
    requires Decode(b0, b1, b2, b3, data) == [m]
    ensures Encode(m) == [b0, b1, b2, b3] + data
  {
    KindCodeOf(LowNibble(b0));
    assert Nibbles(HighNibble(b0), LowNibble(b0)) == b0;
    assert OrderHigh(m.order) == HighNibble(b0) && OrderLow(m.order) == b1;
    assert HighByte(m.size) == b2 && LowByte(m.size) == b3;
  }

  lemma KindCodeOf(code: Nibble)
    requires KindOf(code).Some?
    ensures KindCode(KindOf(code).value) == code
  {
  }

  /** One header with a known kind is re-encoded to the bytes it was read from. */
  lemma ReencodeFirst(b: seq<Byte>)
    requires |b| >= MESSAGE_HEADER_BYTES && First(b) != []
    ensures Encode(First(b)[0]) == b[..FirstEnd(b)]
  {
    var m := First(b)[0];
    ReencodeHeader(b[0], b[1], b[2], b[3], m.data, m);
    assert b[..4] == [b[0], b[1], b[2], b[3]];
    assert b[..FirstEnd(b)] == b[..4] + b[4..FirstEnd(b)];
  }

  /** Serialising a parse, one header further. */
  lemma SerializeParseStep(b: seq<Byte>)
    requires |b| >= MESSAGE_HEADER_BYTES
    ensures var rest := Serialize(Parse(b[FirstEnd(b)..]));
            Serialize(Parse(b)) == if First(b) == [] then rest else b[..FirstEnd(b)] + rest
  {
    if First(b) == [] {
      assert Parse(b) == Parse(b[FirstEnd(b)..]);
    } else {
      ReencodeFirst(b);
      assert Parse(b)[1..] == Parse(b[FirstEnd(b)..]);
    }
  }

  lemma {:induction false} SerializeParseLength(b: seq<Byte>)
    ensures |Serialize(Parse(b))| <= |b|
    ensures |Serialize(Parse(b))| == |b| ==> WellPacked(b)
  {
    if |b| >= MESSAGE_HEADER_BYTES {
      SerializeParseLength(b[FirstEnd(b)..]);
      SerializeParseStep(b);
    }
  }

  /** Serialising inverts parsing exactly on the well-packed byte strings. */
  lemma {:induction false} SerializeParse(b: seq<Byte>)
    ensures Serialize(Parse(b)) == b <==> WellPacked(b)
  {
    SerializeParseLength(b);
    if WellPacked(b) && b != [] {
      SerializeParse(b[FirstEnd(b)..]);
      SerializeParseStep(b);
      assert b == b[..FirstEnd(b)] + b[FirstEnd(b)..];
    }
  }

  /** Whatever the bytes, only the last parsed message can be cut short, and a
      second trip over the wire changes nothing. */
  lemma {:induction false} ParsedAreTransportable(b: seq<Byte>)
    ensures Transportable(Parse(b))
    ensures Parse(Serialize(Parse(b))) == Parse(b)
  {
    if |b| >= MESSAGE_HEADER_BYTES {
      var rest := b[FirstEnd(b)..];
      ParsedAreTransportable(rest);
      if First(b) == [] {
        assert Parse(b) == Parse(rest);
      } else {
        assert Parse(b)[1..] == Parse(rest);
        FirstSize(b);
      }
    }
    ParseSerialize(Parse(b));
  }

  lemma FirstSize(b: seq<Byte>)
    requires |b| >= MESSAGE_HEADER_BYTES && First(b) != []
    ensures |First(b)[0].data| <= First(b)[0].size
    ensures |b[FirstEnd(b)..]| > 0 ==> Framed(First(b)[0])
  {
  }
}
