/** Which tracked packets an accepted packet acknowledges, which it finds lost, and
    what becomes of them; in the terms of the header and the clock alone. */
module Loss {
  import opened Bytes
  import opened MessageCodec
  import opened PacketFill
  import opened MessageQueues
  import opened AckHeader
  import opened Connections
  import opened Sessions

  /** The header of `packet` acknowledges the number `num`. */
  predicate Acknowledges(packet: seq<Byte>, num: Byte)
    requires |packet| >= PACKET_HEADER_SIZE
  {
    SeqWasAcked(num, packet[9], FromBigEndian(packet[10], packet[11], packet[12], packet[13]))
  }

  predicate TooOld(cfg: ValidConfig, e: SentPacketAck, now: int) {
    now - e.time > cfg.packetDropThreshold
  }

  lemma VerdictIs(cfg: ValidConfig, e: SentPacketAck, packet: seq<Byte>, now: int)
    requires |packet| >= PACKET_HEADER_SIZE && e.state == Unknown
    ensures
      var v := Verdict(e, ReadAcks(cfg, packet, now));
      && (v == Acked <==> Acknowledges(packet, e.num))
      && (v == Dropped <==> !Acknowledges(packet, e.num) && TooOld(cfg, e, now))
      && (v == Unknown <==> !Acknowledges(packet, e.num) && !TooOld(cfg, e, now))
  {
    hide SeqWasAcked;
  }

  lemma EntryIsPending(c: Conn, e: SentPacketAck)
    requires Connections.Valid(c) && e in c.inFlight
    ensures EntryValid(e)
  {
    var k :| 0 <= k < |c.inFlight| && c.inFlight[k] == e;
  }

  /** A packet stays tracked through an accepted packet exactly if that neither
      acknowledges it nor finds it too old. */
  lemma StaysInFlightIff(cfg: ValidConfig, c: Conn, packet: seq<Byte>, now: int, r: (Conn, bool), e: SentPacketAck)
    requires Connections.Valid(c) && r == Received(cfg, c, packet, now) && r.1 && e in c.inFlight
    ensures |packet| >= PACKET_HEADER_SIZE
    ensures e in r.0.inFlight <==> !Acknowledges(packet, e.num) && now - e.time <= cfg.packetDropThreshold
  {
    hide Received, Acknowledges, Connections.Valid;
    ReceivedShape(cfg, c, packet, now, r);
    EntryIsPending(c, e);
    VerdictIs(cfg, e, packet, now);
    PendingMember(c.inFlight, ReadAcks(cfg, packet, now), e);
  }

  lemma {:induction false} LostIsListed(es: seq<SentPacketAck>, h: AckInfo, e: SentPacketAck)
    requires e in es && Verdict(e, h) == Dropped && e.packet.Some?
    ensures e.packet.value in Packets(es, h, Dropped)
  {
    if e != es[|es| - 1] {
      LostIsListed(es[..|es| - 1], h, e);
    }
  }

  lemma {:induction false} LostIsReported(packets: seq<seq<Byte>>, packet: seq<Byte>)
    requires packet in packets
    ensures PacketLostEvent(Payload(packet)) in LostEvents(packets)
  {
    if packet != packets[|packets| - 1] {
      LostIsReported(packets[..|packets| - 1], packet);
    }
  }

  lemma {:induction false} ContentHas(packets: seq<seq<Byte>>, packet: seq<Byte>, kind: MessageKind)
    requires packet in packets
    ensures multiset(Project(Parse(Payload(packet)), kind)) <= Content(packets, kind)
  {
    if packet != packets[|packets| - 1] {
      ContentHas(packets[..|packets| - 1], packet, kind);
    }
  }

  /** The messages of `packet` that have to arrive are in the send queues. */
  ghost predicate Requeued(q: Queue, packet: seq<Byte>) {
    multiset(Project(Parse(Payload(packet)), Reliable)) <= multiset(q.r) &&
    multiset(Project(Parse(Payload(packet)), Ordered)) <= multiset(q.o)
  }

  lemma LostIsRequeued(q: Queue, packets: seq<seq<Byte>>, packet: seq<Byte>, inbox: Queue)
    requires packet in packets && inbox == RequeueAll(q, packets).(inbox := inbox.inbox)
    ensures Requeued(inbox, packet)
  {
    ContentHas(packets, packet, Reliable);
    ContentHas(packets, packet, Ordered);
    RequeueAllContent(q, packets, Reliable);
    RequeueAllContent(q, packets, Ordered);
  }

  /** A tracked packet that an accepted packet does not acknowledge and finds too
      old is reported lost, and its reliable and ordered messages are queued again. */
  lemma LostIsSentAgain(cfg: ValidConfig, c: Conn, packet: seq<Byte>, now: int, r: (Conn, bool), e: SentPacketAck)
    requires Connections.Valid(c) && r == Received(cfg, c, packet, now) && r.1 && e in c.inFlight
    requires |packet| >= PACKET_HEADER_SIZE && !Acknowledges(packet, e.num) && now - e.time > cfg.packetDropThreshold
    ensures e.packet.Some? && e !in r.0.inFlight
    ensures PacketLostEvent(Payload(e.packet.value)) in r.0.events && Requeued(r.0.queue, e.packet.value)
  {
    hide Received, Acknowledges, Connections.Valid, Requeued, RequeueAll, LostEvents, Packets, Verdict;
    var h := ReadAcks(cfg, packet, now);
    StaysInFlightIff(cfg, c, packet, now, r, e);
    ReceivedShape(cfg, c, packet, now, r);
    ReceivedLife(cfg, c, packet, now, r);
    EntryIsPending(c, e);
    VerdictIs(cfg, e, packet, now);
    LostIsListed(c.inFlight, h, e);
    LostIsReported(Packets(c.inFlight, h, Dropped), e.packet.value);
    LostIsRequeued(c.queue, Packets(c.inFlight, h, Dropped), e.packet.value, r.0.queue);
  }

  /** The payloads of the packets lost, in the order they were sent. */
  function LostPayloads(cfg: ValidConfig, es: seq<SentPacketAck>, packet: seq<Byte>, now: int): seq<seq<Byte>>
    requires |packet| >= PACKET_HEADER_SIZE
  {
    if es == [] then []
    else
      var e := es[|es| - 1];
      LostPayloads(cfg, es[..|es| - 1], packet, now) +
      if !Acknowledges(packet, e.num) && TooOld(cfg, e, now) && e.packet.Some? then [Payload(e.packet.value)] else []
  }

  function LossReports(payloads: seq<seq<Byte>>): seq<Event> {
    seq(|payloads|, k requires 0 <= k < |payloads| => PacketLostEvent(payloads[k]))
  }

  lemma OneMoreLost(packets: seq<seq<Byte>>, packet: seq<Byte>)
    ensures LostEvents(packets + [packet]) == LostEvents(packets) + [PacketLostEvent(Payload(packet))]
  {
    assert (packets + [packet])[..|packets|] == packets;
  }

  lemma OneMoreReport(payloads: seq<seq<Byte>>, payload: seq<Byte>)
    ensures LossReports(payloads + [payload]) == LossReports(payloads) + [PacketLostEvent(payload)]
  {
  }

  lemma {:induction false} LossesAreReported(cfg: ValidConfig, es: seq<SentPacketAck>, packet: seq<Byte>, now: int)
    requires |packet| >= PACKET_HEADER_SIZE && InFlightValid(es)
    ensures LostEvents(Packets(es, ReadAcks(cfg, packet, now), Dropped)) == LossReports(LostPayloads(cfg, es, packet, now))
  {
    if es == [] {
      assert LossReports([]) == [];
    } else {
      hide Acknowledges, TooOld, Verdict, Payload, ReadAcks, LossReports, LostEvents;
      var init, e := es[..|es| - 1], es[|es| - 1];
      var h := ReadAcks(cfg, packet, now);
      InitValid(es);
      LossesAreReported(cfg, init, packet, now);
      VerdictIs(cfg, e, packet, now);
      if Verdict(e, h) == Dropped {
        OneMoreReport(LostPayloads(cfg, init, packet, now), Payload(e.packet.value));
        OneMoreLost(Packets(init, h, Dropped), e.packet.value);
      } else {
        assert Packets(es, h, Dropped) == Packets(init, h, Dropped);
        assert LostPayloads(cfg, es, packet, now) == LostPayloads(cfg, init, packet, now);
      }
    }
  }

  // ----- the counters -----

  function AckedAt(es: seq<SentPacketAck>, packet: seq<Byte>): set<nat>
    requires |packet| >= PACKET_HEADER_SIZE
  {
    set k: nat | k < |es| && Acknowledges(packet, es[k].num)
  }

  function LostAt(cfg: ValidConfig, es: seq<SentPacketAck>, packet: seq<Byte>, now: int): set<nat>
    requires |packet| >= PACKET_HEADER_SIZE
  {
    set k: nat | k < |es| && !Acknowledges(packet, es[k].num) && TooOld(cfg, es[k], now)
  }

  lemma AckedStep(es: seq<SentPacketAck>, packet: seq<Byte>)
    requires |packet| >= PACKET_HEADER_SIZE && es != []
    ensures
      var last := |es| - 1;
      |AckedAt(es, packet)| == |AckedAt(es[..last], packet)| + if Acknowledges(packet, es[last].num) then 1 else 0
  {
    hide Acknowledges;
    var last := |es| - 1;
    var init := es[..last];
    assert forall k: nat | k < last :: init[k] == es[k];
    assert AckedAt(es, packet) == AckedAt(init, packet) + if Acknowledges(packet, es[last].num) then {last as nat} else {};
  }

  lemma LostStep(cfg: ValidConfig, es: seq<SentPacketAck>, packet: seq<Byte>, now: int)
    requires |packet| >= PACKET_HEADER_SIZE && es != []
    ensures
      var last := |es| - 1;
      |LostAt(cfg, es, packet, now)| ==
      |LostAt(cfg, es[..last], packet, now)| + if !Acknowledges(packet, es[last].num) && TooOld(cfg, es[last], now) then 1 else 0
  {
    hide Acknowledges, TooOld;
    var last := |es| - 1;
    var init := es[..last];
    assert forall k: nat | k < last :: init[k] == es[k];
    assert LostAt(cfg, es, packet, now) == LostAt(cfg, init, packet, now) +
           if !Acknowledges(packet, es[last].num) && TooOld(cfg, es[last], now) then {last as nat} else {};
  }

  lemma {:induction false} CountsAreSizes(cfg: ValidConfig, es: seq<SentPacketAck>, packet: seq<Byte>, now: int)
    requires |packet| >= PACKET_HEADER_SIZE && forall k | 0 <= k < |es| :: es[k].state == Unknown
    ensures Count(es, ReadAcks(cfg, packet, now), Acked) == |AckedAt(es, packet)|
    ensures Count(es, ReadAcks(cfg, packet, now), Dropped) == |LostAt(cfg, es, packet, now)|
  {
    if es == [] {
      assert AckedAt(es, packet) == {} && LostAt(cfg, es, packet, now) == {};
    } else {
      hide Acknowledges, TooOld, Verdict, ReadAcks, AckedAt, LostAt;
      CountsAreSizes(cfg, es[..|es| - 1], packet, now);
      VerdictIs(cfg, es[|es| - 1], packet, now);
      AckedStep(es, packet);
      LostStep(cfg, es, packet, now);
    }
  }

  lemma AllPending(c: Conn)
    requires Connections.Valid(c)
    ensures forall k | 0 <= k < |c.inFlight| :: c.inFlight[k].state == Unknown
  {
  }

  /** An accepted packet counts every packet it acknowledges, and every one it
      finds lost, once each; establishing the connection clears the losses. */
  lemma CountersAreExact(cfg: ValidConfig, c: Conn, packet: seq<Byte>, now: int, r: (Conn, bool))
    requires Connections.Valid(c) && r == Received(cfg, c, packet, now) && r.1 && |packet| >= PACKET_HEADER_SIZE
    ensures r.0.ackedPackets == (c.ackedPackets + |AckedAt(c.inFlight, packet)|) % 0x1_0000_0000
    ensures r.0.lostPackets ==
            ((if c.state == Connecting then 0 else c.lostPackets) + |LostAt(cfg, c.inFlight, packet, now)|) % 0x1_0000_0000
    ensures r.0.recvPackets == (c.recvPackets + 1) % 0x1_0000_0000
  {
    hide Received, Acknowledges, Plus32, Succ32, Count, AckedAt, LostAt, ReadAcks, Pending, RequeueAll, PushAck, Packets;
    var before: U32 := if c.state == Connecting then 0 else c.lostPackets;
    ReceivedShape(cfg, c, packet, now, r);
    ReceivedCounts(cfg, c, packet, now, r);
    AllPending(c);
    CountsAreSizes(cfg, c.inFlight, packet, now);
    Plus32IsModulo(c.ackedPackets, |AckedAt(c.inFlight, packet)|);
    Plus32IsModulo(before, |LostAt(cfg, c.inFlight, packet, now)|);
    SuccIsModulo(c.recvPackets);
  }

  // ----- from sending a packet to sending its messages again -----

  /** A packet that is built and whose number is free is tracked under the clock of
      the call that built it. */
  lemma TrackedSince(cfg: ValidConfig, c: Conn, now: int, rtt: nat, ok: bool, r: (Conn, Option<seq<Byte>>))
    requires r == Transmitted(cfg, c, now, rtt, ok) && r.1.Some? && !Tracked(c, c.localNum)
    ensures r.0.inFlight == c.inFlight + [SentPacketAck(c.localNum, now, Unknown, r.1)]
  {
    hide Transmitted, Tracked;
    TransmittedShape(cfg, c, now, rtt, ok, r);
  }

  /** The action does not decide about the tracked packet `e`: it is no reset, and
      no packet accepted that acknowledges `e` or finds it too old. */
  ghost predicate LeavesOpen(cfg: ValidConfig, s: Session, a: Action, e: SentPacketAck) {
    && !a.Reset?
    && (a.ReceivePacket? && Received(cfg, s.conn, a.packet, a.now).1 ==>
          |a.packet| >= PACKET_HEADER_SIZE && !Acknowledges(a.packet, e.num) && !TooOld(cfg, e, a.now))
  }

  ghost predicate StaysOpen(cfg: ValidConfig, s: Session, actions: seq<Action>, e: SentPacketAck) {
    actions == [] ||
    (StaysOpen(cfg, s, actions[..|actions| - 1], e) &&
     LeavesOpen(cfg, Run(cfg, s, actions[..|actions| - 1]), actions[|actions| - 1], e))
  }

  lemma ActLeavesOpen(cfg: ValidConfig, s: Session, a: Action, e: SentPacketAck, t: Session)
    requires Connections.Valid(s.conn) && e in s.conn.inFlight && LeavesOpen(cfg, s, a, e) && t == Act(cfg, s, a)
    ensures e in t.conn.inFlight
  {
    hide Received, Transmitted, Acknowledges;
    if a.ReceivePacket? {
      var r := Received(cfg, s.conn, a.packet, a.now);
      ReceivedShape(cfg, s.conn, a.packet, a.now, r);
      if r.1 {
        StaysInFlightIff(cfg, s.conn, a.packet, a.now, r, e);
      }
    } else if a.SendPacket? {
      TransmittedShape(cfg, s.conn, a.now, a.rtt, a.ok, Transmitted(cfg, s.conn, a.now, a.rtt, a.ok));
    }
  }

  lemma {:induction false} RunLeavesOpen(cfg: ValidConfig, s: Session, actions: seq<Action>, e: SentPacketAck, t: Session)
    requires Connections.Valid(s.conn) && e in s.conn.inFlight && StaysOpen(cfg, s, actions, e) && t == Run(cfg, s, actions)
    ensures Connections.Valid(t.conn) && e in t.conn.inFlight
  {
    RunValid(cfg, s, actions);
    if actions != [] {
      hide Act, LeavesOpen, Connections.Valid;
      var before := Run(cfg, s, actions[..|actions| - 1]);
      RunLeavesOpen(cfg, s, actions[..|actions| - 1], e, before);
      ActLeavesOpen(cfg, before, actions[|actions| - 1], e, t);
    }
  }

  /** Over every run: a packet is built and tracked, time passes without anything
      accepted that decides about it, and then the first accepted packet that comes
      later than the threshold after it was sent, and does not acknowledge it,
      queues its reliable and ordered messages again and reports it lost. */
  lemma LossIsRepaired(cfg: ValidConfig, s: Session, sentAt: int, rtt: nat, ok: bool, wait: seq<Action>, packet: seq<Byte>, now: int,
                       lost: seq<Byte>, t1: Session, t2: Session, t3: Session)
    requires Connections.Valid(s.conn) && !Tracked(s.conn, s.conn.localNum)
    requires Transmitted(cfg, s.conn, sentAt, rtt, ok).1 == Some(lost)
    requires t1 == Act(cfg, s, SendPacket(sentAt, rtt, ok)) && t2 == Run(cfg, t1, wait)
    requires StaysOpen(cfg, t1, wait, SentPacketAck(s.conn.localNum, sentAt, Unknown, Some(lost)))
    requires t3 == Act(cfg, t2, ReceivePacket(packet, now)) && Received(cfg, t2.conn, packet, now).1
    requires |packet| >= PACKET_HEADER_SIZE && !Acknowledges(packet, s.conn.localNum) && now - sentAt > cfg.packetDropThreshold
    ensures PacketLostEvent(Payload(lost)) in t3.conn.events && Requeued(t3.conn.queue, lost)
  {
    hide Received, Transmitted, Acknowledges, Tracked, Requeued, StaysOpen, Connections.Valid;
    var e := SentPacketAck(s.conn.localNum, sentAt, Unknown, Some(lost));
    TrackedSince(cfg, s.conn, sentAt, rtt, ok, Transmitted(cfg, s.conn, sentAt, rtt, ok));
    ActValid(cfg, s, SendPacket(sentAt, rtt, ok));
    RunLeavesOpen(cfg, t1, wait, e, t2);
    LostIsSentAgain(cfg, t2.conn, packet, now, Received(cfg, t2.conn, packet, now), e);
  }
}
