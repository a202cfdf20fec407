/** What leaves a connection in a packet, and what the call that built it leaves behind. */
module Outgoing {
  import opened Bytes
  import opened MessageCodec
  import opened PacketFill
  import opened MessageQueues
  import opened AckHeader
  import opened Connections
  import opened Sessions
  import opened Loss
  import opened Lifetimes

  /** A packet starts with the protocol's header and the id. A closing connection
      adds the closure bytes and nothing else, and keeps its messages; any other
      adds its own number, the last accepted one, and bits that acknowledge
      exactly the remembered numbers at most thirty-two behind that. */
  lemma PacketIs(cfg: ValidConfig, c: Conn, now: int, rtt: nat, ok: bool, r: (Conn, Option<seq<Byte>>), packet: seq<Byte>)
    requires r == Transmitted(cfg, c, now, rtt, ok) && r.1 == Some(packet)
    ensures |packet| >= 14 && packet[..4] == cfg.protocolHeader
    ensures FromBigEndian(packet[4], packet[5], packet[6], packet[7]) == c.id
    ensures c.state == Closing ==>
              && packet[8..] == [0, 128, 85, 85, 85, 85]
              && r.0.queue == c.queue.(inbox := c.queue.inbox.(recv := []))
    ensures c.state != Closing ==>
              && packet[8] == c.localNum && packet[9] == c.remoteNum
              && forall num: Byte :: Acknowledges(packet, num) <==>
                                     num == c.remoteNum || (num in c.recvAcks && 1 <= Distance(c.remoteNum, num) <= 32)
  {
    hide Transmitted, AckField, SeqWasAcked, Serialize, BigEndian, Distance;
    TransmittedShape(cfg, c, now, rtt, ok, r);
    PacketHeader(cfg, c, packet);
    PacketNamesConnection(cfg, c, packet);
    if c.state == Closing {
      ClosingPacketIs(cfg, c, packet);
    } else {
      AckBytesAre(cfg, c, packet);
      forall num: Byte
        ensures Acknowledges(packet, num) <==> num == c.remoteNum || (num in c.recvAcks && 1 <= Distance(c.remoteNum, num) <= 32)
      {
        AckHeaderExact(c.recvAcks, c.remoteNum, num);
      }
    }
  }

  lemma ClosingPacketIs(cfg: ValidConfig, c: Conn, packet: seq<Byte>)
    requires c.state == Closing && packet == NextPacket(cfg, c)
    ensures |packet| >= 14 && packet[8..] == [0, 128, 85, 85, 85, 85]
    ensures AfterPack(c.queue, NextSplit(cfg, c)) == c.queue
  {
    assert Serialize(NextSplit(cfg, c).out) == [];
    assert packet == Header(cfg, c);
  }

  lemma AckBytesAre(cfg: ValidConfig, c: Conn, packet: seq<Byte>)
    requires c.state != Closing && packet == NextPacket(cfg, c) && |packet| >= 14
    ensures packet[8] == c.localNum && packet[9] == c.remoteNum
    ensures
      var b := BigEndian(AckField(c.recvAcks, c.remoteNum));
      packet[10] == b[0] && packet[11] == b[1] && packet[12] == b[2] && packet[13] == b[3]
  {
    hide AckField, BigEndian;
    PacketHeader(cfg, c, packet);
    var six := packet[8..14];
    assert packet[8] == six[0] && packet[9] == six[1];
    assert packet[10] == six[2] && packet[11] == six[3] && packet[12] == six[4] && packet[13] == six[5];
  }

  /** A packet is within its limit and full: no front message of any kind that it
      leaves in the queue would still have fitted. */
  lemma PacketIsFull(cfg: ValidConfig, c: Conn, now: int, rtt: nat, ok: bool, r: (Conn, Option<seq<Byte>>), kind: MessageKind)
    requires MessageQueues.Valid(c.queue) && SessionFramed(c) && c.state != Closing
    requires r == Transmitted(cfg, c, now, rtt, ok) && r.1.Some?
    ensures |r.1.value| <= cfg.packetMaxSize
    ensures QueueOf(r.0.queue, kind) == [] || |r.1.value| + Cost(QueueOf(r.0.queue, kind)[0]) > cfg.packetMaxSize
  {
    hide Transmitted, Pack, Costs, Serialize, AllFramed;
    TransmittedShape(cfg, c, now, rtt, ok, r);
    var s := NextSplit(cfg, c);
    PackGuarantees(c.queue.i, c.queue.r, c.queue.o, cfg.packetMaxSize - PACKET_HEADER_SIZE, cfg.quotas);
    NextPacketCarries(cfg, c, s, r.1.value);
    OutIsFramed(s.out);
    CostsAreBytes(s.out);
    assert |r.1.value| == PACKET_HEADER_SIZE + Costs(s.out);
  }

  lemma OutIsFramed(ms: seq<Message>)
    requires AllFramed(ms)
    ensures forall m | m in ms :: Framed(m)
  {
  }

  /** Received messages that nobody took are gone once a packet is built. */
  lemma BuildingDismisses(cfg: ValidConfig, c: Conn, now: int, rtt: nat, ok: bool, r: (Conn, Option<seq<Byte>>))
    requires r == Transmitted(cfg, c, now, rtt, ok)
    ensures r.0.queue.inbox.recv == if r.1.Some? then [] else c.queue.inbox.recv
  {
    hide Transmitted;
    TransmittedShape(cfg, c, now, rtt, ok, r);
  }

  // ----- the numbers over whole runs -----

  /** The packets built and accepted since the last start are counted, modulo the
      width of the counters, and numbered by that count. */
  predicate Counted(s: Session) {
    s.conn.recvPackets == |s.accepted| % 0x1_0000_0000 && s.conn.localNum == s.conn.sentPackets % 256
  }

  lemma OneMore(n: nat, v: U32)
    ensures v == n % 0x1_0000_0000 ==> Succ32(v) == (n + 1) % 0x1_0000_0000
    ensures NextNum(v % 256) == Succ32(v) % 256
  {
  }

  lemma ActCounted(cfg: ValidConfig, s: Session, a: Action, t: Session)
    requires Counted(s) && t == Act(cfg, s, a)
    ensures Counted(t)
  {
    hide Received, Transmitted, Succ32, NextNum;
    OneMore(|s.accepted|, s.conn.recvPackets);
    OneMore(0, s.conn.sentPackets);
    match a
    case ReceivePacket(packet, now) =>
      ReceivedCounts(cfg, s.conn, packet, now, Received(cfg, s.conn, packet, now));
      ReceivedShape(cfg, s.conn, packet, now, Received(cfg, s.conn, packet, now));
    case SendPacket(now, rtt, ok) =>
      TransmittedShape(cfg, s.conn, now, rtt, ok, Transmitted(cfg, s.conn, now, rtt, ok));
      TransmittedTimes(cfg, s.conn, now, rtt, ok, Transmitted(cfg, s.conn, now, rtt, ok));
    case _ =>
  }

  lemma {:induction false} AlwaysCounted(cfg: ValidConfig, s: Session, actions: seq<Action>, t: Session)
    requires Counted(s) && t == Run(cfg, s, actions)
    ensures Counted(t)
  {
    if actions != [] {
      hide Act, Counted;
      var before := Run(cfg, s, actions[..|actions| - 1]);
      AlwaysCounted(cfg, s, actions[..|actions| - 1], before);
      ActCounted(cfg, before, actions[|actions| - 1], t);
    }
  }
}
