/** A connection that is not closing can build a header that looks like a
    closure: when it does, what its peer makes of it, and how it comes about. */
module Collision {
  import opened Bytes
  import opened AckHeader
  import opened RateLimiting
  import opened Connections
  import opened Sessions
  import opened SessionTraces

  // ----- when the bytes coincide -----

  /** Words of `width` bits are told apart by their bits. */
  lemma {:induction false} SameBits(a: nat, b: nat, width: nat)
    requires a < Pow2(width) && b < Pow2(width)
    requires forall bit: nat | bit < width :: TestBit(a, bit) <==> TestBit(b, bit)
    ensures a == b
  {
    if width > 0 {
      assert TestBit(a, 0) <==> TestBit(b, 0);
      forall bit: nat | bit < width - 1
        ensures TestBit(a / 2, bit) <==> TestBit(b / 2, bit)
      {
        assert TestBit(a, bit + 1) <==> TestBit(b, bit + 1);
      }
      SameBits(a / 2, b / 2, width - 1);
    }
  }

  /** The numbers that a header with ack number 128 can speak of in its field. */
  predicate Behind(num: Byte) {
    num != 128 && Distance(128, num) <= MAX_ACK_BITS
  }

  /** The received numbers are, of those, the ones at an odd distance. */
  predicate EverySecond(recvAcks: seq<Byte>) {
    forall num: Byte | Behind(num) :: num in recvAcks <==> Distance(128, num) % 2 == 1
  }

  lemma FieldBits(recvAcks: seq<Byte>, num: Byte)
    requires Behind(num)
    ensures TestBit(AckField(recvAcks, 128), SeqBitIndex(num, 128)) <==> num in recvAcks
    ensures TestBit(0x5555_5555, SeqBitIndex(num, 128)) <==> Distance(128, num) % 2 == 1
    ensures SeqBitIndex(num, 128) == Distance(128, num) - 1
  {
    hide TestBit, AckField, Distance, SeqBitIndex;
    BitIndexIsDistance(num, 128);
    AckFieldExact(recvAcks, 128, num);
    ClosureAcks(num);
  }

  lemma NumberOfBit(bit: nat) returns (num: Byte)
    requires bit < MAX_ACK_BITS
    ensures Behind(num) && Distance(128, num) == bit + 1
  {
    num := 127 - bit;
  }

  lemma FieldCollidesIff(recvAcks: seq<Byte>)
    ensures AckField(recvAcks, 128) == 0x5555_5555 <==> EverySecond(recvAcks)
  {
    hide TestBit, AckField, Distance;
    forall num: Byte | Behind(num)
      ensures TestBit(AckField(recvAcks, 128), SeqBitIndex(num, 128)) <==> num in recvAcks
      ensures TestBit(0x5555_5555, SeqBitIndex(num, 128)) <==> Distance(128, num) % 2 == 1
    {
      FieldBits(recvAcks, num);
    }
    if EverySecond(recvAcks) {
      forall bit: nat | bit < MAX_ACK_BITS
        ensures TestBit(AckField(recvAcks, 128), bit) <==> TestBit(0x5555_5555, bit)
      {
        var num := NumberOfBit(bit);
        FieldBits(recvAcks, num);
      }
      WordWidth();
      SameBits(AckField(recvAcks, 128), 0x5555_5555, 32);
    }
  }

  lemma ClosureBytes()
    ensures BigEndian(0x5555_5555) == [85, 85, 85, 85] && FromBigEndian(85, 85, 85, 85) == 0x5555_5555
  {
  }

  lemma ClosureWord(field: U32)
    ensures BigEndian(field) == [85, 85, 85, 85] <==> field == 0x5555_5555
  {
    hide BigEndian, FromBigEndian;
    BigEndianRoundTrip(field);
    ClosureBytes();
  }

  /** An open connection that is not closing builds the closure bytes exactly when
      its next number is 0, the last one it accepted is 128, and of the 32 numbers
      before that it remembers those at an odd distance and no others. */
  lemma HeaderCollidesIff(c: Conn)
    requires c.state != Closing
    ensures AckBytes(c) == CLOSURE_PACKET_DATA <==> c.localNum == 0 && c.remoteNum == 128 && EverySecond(c.recvAcks)
  {
    hide AckField, EverySecond, BigEndian;
    var field := AckField(c.recvAcks, c.remoteNum);
    ClosureWord(field);
    FieldCollidesIff(c.recvAcks);
    assert CLOSURE_PACKET_DATA == [0, 128] + [85, 85, 85, 85];
    assert AckBytes(c)[2..] == BigEndian(field) && CLOSURE_PACKET_DATA[2..] == [85, 85, 85, 85];
    assert AckBytes(c)[0] == c.localNum && AckBytes(c)[1] == c.remoteNum;
  }

  /** What a connected peer makes of a packet with such a header: it closes, and
      judges and delivers nothing of the packet. */
  lemma CollisionClosesPeer(cfg: ValidConfig, c: Conn, peer: Conn, packet: seq<Byte>, now: int)
    requires packet == NextPacket(cfg, c) && peer.state == Connected
    ensures AckBytes(c) == CLOSURE_PACKET_DATA <==>
            Received(cfg, peer, packet, now) ==
            (peer.(state := Closed, events := peer.events + [ClosedEvent(true)]), false)
  {
    hide AckBytes, SeqIsMoreRecent, Absorb;
    PacketHeader(cfg, c, packet);
  }

  // ----- how it comes about -----

  /** A packet that carries nothing but its number. */
  function Bare(cfg: ValidConfig, num: Byte): (packet: seq<Byte>)
    ensures |packet| == PACKET_HEADER_SIZE
  {
    cfg.protocolHeader + BigEndian(0) + [num, 0, 0, 0, 0, 0]
  }

  function Arrivals(cfg: ValidConfig, nums: seq<Byte>, now: int): (actions: seq<Action>)
    ensures |actions| == |nums|
  {
    if nums == [] then [] else Arrivals(cfg, nums[..|nums| - 1], now) + [ReceivePacket(Bare(cfg, nums[|nums| - 1]), now)]
  }

  /** Every number is more recent than the one before it. */
  predicate Rising(nums: seq<Byte>) {
    forall k | 0 < k < |nums| :: SeqIsMoreRecent(nums[k], nums[k - 1])
  }

  lemma BareHeader(cfg: ValidConfig, num: Byte)
    ensures var packet := Bare(cfg, num);
            packet[..4] == cfg.protocolHeader && packet[8] == num && packet[8..14] != CLOSURE_PACKET_DATA
  {
    assert Bare(cfg, num)[8..14] == [num, 0, 0, 0, 0, 0];
    assert [num, 0, 0, 0, 0, 0][1] != CLOSURE_PACKET_DATA[1];
  }

  /** A connection that has heard something, and has sent nothing yet. */
  predicate OnlyHeard(c: Conn, nums: seq<Byte>, now: int) {
    && c.state == (if nums == [] then Connecting else Connected)
    && c.localNum == 0 && c.inFlight == [] && c.limiter == Fresh(now) && c.lastReceive == c.lastSend == now
  }

  lemma ArrivalHeard(cfg: ValidConfig, c: Conn, nums: seq<Byte>, num: Byte, now: int, r: (Conn, bool))
    requires OnlyHeard(c, nums, now) && r == Received(cfg, c, Bare(cfg, num), now)
    requires nums != [] ==> SeqIsMoreRecent(num, c.remoteNum)
    ensures r.1 && OnlyHeard(r.0, nums + [num], now)
  {
    hide SeqIsMoreRecent, Bare;
    BareHeader(cfg, num);
    ReceivedShape(cfg, c, Bare(cfg, num), now, r);
    ReceivedLife(cfg, c, Bare(cfg, num), now, r);
  }

  lemma ArrivalStep(cfg: ValidConfig, s: Session, num: Byte, now: int, t: Session)
    requires OnlyHeard(s.conn, s.accepted, now) && RemembersAccepted(s)
    requires s.accepted != [] ==> SeqIsMoreRecent(num, s.accepted[|s.accepted| - 1])
    requires t == Act(cfg, s, ReceivePacket(Bare(cfg, num), now))
    ensures OnlyHeard(t.conn, s.accepted + [num], now) && t.accepted == s.accepted + [num]
  {
    hide Received, Newest, OnlyHeard, SeqIsMoreRecent;
    ArrivalHeard(cfg, s.conn, s.accepted, num, now, Received(cfg, s.conn, Bare(cfg, num), now));
    BareHeader(cfg, num);
  }

  lemma ArrivalsLast(cfg: ValidConfig, nums: seq<Byte>, now: int, s: Session)
    requires nums != []
    ensures
      var init, num := nums[..|nums| - 1], nums[|nums| - 1];
      Run(cfg, s, Arrivals(cfg, nums, now)) ==
      Act(cfg, Run(cfg, s, Arrivals(cfg, init, now)), ReceivePacket(Bare(cfg, num), now))
  {
    var actions := Arrivals(cfg, nums[..|nums| - 1], now);
    assert Arrivals(cfg, nums, now)[..|actions|] == actions;
  }

  lemma NothingHeard(cfg: ValidConfig, now: int)
    ensures var t := Run(cfg, NewSession(0, 0, now), Arrivals(cfg, [], now)); OnlyHeard(t.conn, [], now) && t.accepted == []
  {
  }

  lemma RunRemembers(cfg: ValidConfig, actions: seq<Action>, now: int, t: Session)
    requires t == Run(cfg, NewSession(0, 0, now), actions)
    ensures RemembersAccepted(t)
  {
    NewSessionStarts(0, 0, now);
    AckQueueIsNewest(cfg, NewSession(0, 0, now), actions, t);
  }

  lemma RisingInit(nums: seq<Byte>)
    requires Rising(nums) && nums != []
    ensures
      var init := nums[..|nums| - 1];
      Rising(init) && init + [nums[|nums| - 1]] == nums &&
      (init != [] ==> SeqIsMoreRecent(nums[|nums| - 1], init[|init| - 1]))
  {
  }

  lemma {:induction false} AllHeard(cfg: ValidConfig, nums: seq<Byte>, now: int, s: Session, t: Session)
    requires Rising(nums) && s == NewSession(0, 0, now) && t == Run(cfg, s, Arrivals(cfg, nums, now))
    ensures OnlyHeard(t.conn, nums, now) && t.accepted == nums
  {
    hide Act, Run, OnlyHeard, RemembersAccepted, SeqIsMoreRecent, Arrivals, Rising;
    if nums == [] {
      NothingHeard(cfg, now);
    } else {
      var init, num := nums[..|nums| - 1], nums[|nums| - 1];
      var before := Run(cfg, s, Arrivals(cfg, init, now));
      RisingInit(nums);
      ArrivalsLast(cfg, nums, now, s);
      AllHeard(cfg, init, now, s, before);
      RunRemembers(cfg, Arrivals(cfg, init, now), now, before);
      ArrivalStep(cfg, before, num, now, t);
    }
  }

  /** 97, 99, and so on up to 127, and then 128: every second packet was lost. */
  const HEARD: seq<Byte> := seq(16, k requires 0 <= k < 16 => 97 + 2 * k) + [128]

  lemma HeardRises()
    ensures Rising(HEARD)
  {
  }

  lemma HeardIsEverySecond()
    ensures EverySecond(Newest(HEARD))
  {
    forall num: Byte | Behind(num)
      ensures num in Newest(HEARD) <==> Distance(128, num) % 2 == 1
    {
      NewestHas(num);
    }
  }

  lemma NewestHas(num: Byte)
    requires Behind(num)
    ensures num in Newest(HEARD) <==> Distance(128, num) % 2 == 1
  {
    var newest := Newest(HEARD);
    assert |newest| == 17 && newest[0] == 128;
    assert forall k | 1 <= k < 17 :: newest[k] == HEARD[16 - k] == 97 + 2 * (16 - k);
    assert Distance(128, num) == 128 - num;
    if Distance(128, num) % 2 == 1 {
      assert newest[(129 - num) / 2] == num;
    }
  }

  /** A new connection hears 97, 99, .., 127 and 128 and then sends its first
      packet: its peer, if connected, takes that for a closure and closes. */
  lemma FirstPacketCloses(cfg: ValidConfig, now: int, peer: Conn, t: Session, packet: seq<Byte>)
    requires t == Run(cfg, NewSession(0, 0, now), Arrivals(cfg, HEARD, now))
    requires packet == NextPacket(cfg, t.conn) && peer.state == Connected
    ensures t.conn.state == Connected && Transmitted(cfg, t.conn, now, 0, true).1 == Some(packet)
    ensures Received(cfg, peer, packet, now) ==
            (peer.(state := Closed, events := peer.events + [ClosedEvent(true)]), false)
  {
    hide EverySecond, HEARD, Newest, AckBytes, NextPacket, Rising;
    HeardRises();
    HeardIsEverySecond();
    HeardNonEmpty();
    AllHeard(cfg, HEARD, now, NewSession(0, 0, now), t);
    RunRemembers(cfg, Arrivals(cfg, HEARD, now), now, t);
    HeaderCollidesIff(t.conn);
    CollisionClosesPeer(cfg, t.conn, peer, packet, now);
    SendsAtOnce(cfg, t.conn, HEARD, now);
  }

  lemma HeardNonEmpty()
    ensures HEARD != [] && HEARD[|HEARD| - 1] == 128
  {
  }

  lemma SendsAtOnce(cfg: ValidConfig, c: Conn, nums: seq<Byte>, now: int)
    requires OnlyHeard(c, nums, now)
    ensures Transmitted(cfg, c, now, 0, true).1 == Some(NextPacket(cfg, c))
  {
    hide Updated, Track, NextPacket, NextSplit;
    TransmittedShape(cfg, c, now, 0, true, Transmitted(cfg, c, now, 0, true));
    FreshSends(now);
  }
}
