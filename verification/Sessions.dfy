/** Whole runs of one connection: everything that can be done to it, in any
    order, and what holds after every such run. */
module Sessions {
  import opened Bytes
  import opened MessageCodec
  import opened PacketFill
  import opened MessageQueues
  import opened AckHeader
  import opened Connections

  datatype Action =
    | SendMessage(kind: MessageKind, data: seq<Byte>)
    | ReceivePacket(packet: seq<Byte>, now: int)
    | SendPacket(now: int, rtt: nat, ok: bool)
    | TakeEvents
    | Close
    | Reset(now: int)

  /** A connection with the history since its last reset: the messages given to
      `send`, the bytes of the packets acknowledged, the bytes of the packets not
      tracked because their number was still in use, the accepted sequence
      numbers, and all events handed out. */
  datatype Session = Session(
    conn: Conn,
    given: seq<Message>,
    acked: seq<seq<Byte>>,
    skipped: seq<seq<Byte>>,
    accepted: seq<Byte>,
    log: seq<Event>)

  function NewSession(id: U32, peer: nat, now: int): Session {
    Session(NewConn(id, peer, now), [], [], [], [], [])
  }

  /** The packets a received packet acknowledges, if it is accepted. */
  ghost function AckedBy(cfg: ValidConfig, c: Conn, packet: seq<Byte>, now: int): seq<seq<Byte>> {
    if Received(cfg, c, packet, now).1 then Packets(c.inFlight, ReadAcks(cfg, packet, now), Acked) else []
  }

  function SkippedBy(cfg: ValidConfig, c: Conn, now: int, rtt: nat, ok: bool): seq<seq<Byte>> {
    var sent := Transmitted(cfg, c, now, rtt, ok).1;
    if sent.Some? && Tracked(c, c.localNum) then [sent.value] else []
  }

  ghost function Act(cfg: ValidConfig, s: Session, a: Action): Session {
    var c := s.conn;
    match a
    case SendMessage(kind, data) =>
      s.(conn := SentMessage(c, kind, data), given := s.given + [MakeMessage(kind, c.queue.localOrder, data)])
    case ReceivePacket(packet, now) =>
      var r := Received(cfg, c, packet, now);
      s.(conn := r.0, acked := s.acked + AckedBy(cfg, c, packet, now),
         accepted := if r.1 then s.accepted + [packet[8]] else s.accepted)
    case SendPacket(now, rtt, ok) =>
      s.(conn := Transmitted(cfg, c, now, rtt, ok).0, skipped := s.skipped + SkippedBy(cfg, c, now, rtt, ok))
    case TakeEvents =>
      s.(conn := Drained(c).0, log := s.log + c.events)
    case Close =>
      s.(conn := CloseRequested(c))
    case Reset(now) =>
      Session(Restarted(c, now), [], [], [], [], s.log)
  }

  ghost function Run(cfg: ValidConfig, s: Session, actions: seq<Action>): Session {
    if actions == [] then s else Act(cfg, Run(cfg, s, actions[..|actions| - 1]), actions[|actions| - 1])
  }

  predicate ActionsAre(actions: seq<Action>, p: Action -> bool) {
    actions == [] || (ActionsAre(actions[..|actions| - 1], p) && p(actions[|actions| - 1]))
  }

  lemma {:induction false} RunValid(cfg: ValidConfig, s: Session, actions: seq<Action>)
    requires Connections.Valid(s.conn)
    ensures Connections.Valid(Run(cfg, s, actions).conn)
  {
    if actions != [] {
      RunValid(cfg, s, actions[..|actions| - 1]);
      ActValid(cfg, Run(cfg, s, actions[..|actions| - 1]), actions[|actions| - 1]);
    }
  }

  lemma ActValid(cfg: ValidConfig, s: Session, a: Action)
    requires Connections.Valid(s.conn)
    ensures Connections.Valid(Act(cfg, s, a).conn)
  {
    match a
    case ReceivePacket(packet, now) => ReceivedKeepsValid(cfg, s.conn, packet, now);
    case SendPacket(now, rtt, ok) => TransmittedKeepsValid(cfg, s.conn, now, rtt, ok);
    case Reset(now) => RestartedValid(s.conn, now);
    case _ =>
  }

  // ----- conservation of reliable and ordered messages -----

  function QueueOf(q: Queue, kind: MessageKind): seq<Message> {
    match kind
    case Instant => q.i
    case Reliable => q.r
    case Ordered => q.o
  }

  /** The messages of one kind in the payloads of some packets. */
  function Content(packets: seq<seq<Byte>>, kind: MessageKind): multiset<Message> {
    if packets == [] then multiset{}
    else Content(packets[..|packets| - 1], kind) + multiset(Project(Parse(Payload(packets[|packets| - 1])), kind))
  }

  /** The bytes of the tracked packets. */
  function TrackedBytes(es: seq<SentPacketAck>): seq<seq<Byte>> {
    if es == [] then []
    else TrackedBytes(es[..|es| - 1]) + if es[|es| - 1].packet.Some? then [es[|es| - 1].packet.value] else []
  }

  lemma {:induction false} ContentAppend(a: seq<seq<Byte>>, b: seq<seq<Byte>>, kind: MessageKind)
    ensures Content(a + b, kind) == Content(a, kind) + Content(b, kind)
  {
    if b == [] {
      assert a + b == a;
    } else {
      assert (a + b)[..|a + b| - 1] == a + b[..|b| - 1];
      ContentAppend(a, b[..|b| - 1], kind);
    }
  }

  lemma ContentOne(packet: seq<Byte>, kind: MessageKind)
    ensures Content([packet], kind) == multiset(Project(Parse(Payload(packet)), kind))
  {
    assert |[packet][..0]| == 0;
  }

  lemma {:induction false} ReversedSame<T>(s: seq<T>)
    ensures multiset(Reversed(s)) == multiset(s)
  {
    if s != [] {
      ReversedSame(s[1..]);
      assert s == [s[0]] + s[1..];
    }
  }

  /** What goes back to the queue is what the lost packets carried. */
  lemma {:induction false} RequeueAllContent(q: Queue, packets: seq<seq<Byte>>, kind: MessageKind)
    requires kind != Instant
    ensures multiset(QueueOf(RequeueAll(q, packets), kind)) == multiset(QueueOf(q, kind)) + Content(packets, kind)
  {
    if packets != [] {
      var init := packets[..|packets| - 1];
      var ms := Parse(Payload(packets[|packets| - 1]));
      RequeueAllContent(q, init, kind);
      RequeueReverses(RequeueAll(q, init), ms);
      ReversedSame(Project(ms, kind));
    }
  }

  /** The content of the pending, acknowledged and lost packets. */
  datatype Parts = Parts(pending: multiset<Message>, acked: multiset<Message>, dropped: multiset<Message>)

  function PartsOf(es: seq<SentPacketAck>, h: AckInfo, kind: MessageKind): Parts {
    Parts(Content(TrackedBytes(Pending(es, h)), kind), Content(Packets(es, h, Acked), kind), Content(Packets(es, h, Dropped), kind))
  }

  function Total(p: Parts): multiset<Message> {
    p.pending + p.acked + p.dropped
  }

  function AddPart(p: Parts, x: multiset<Message>, s: PacketState): Parts {
    match s
    case Unknown => p.(pending := p.pending + x)
    case Acked => p.(acked := p.acked + x)
    case Dropped => p.(dropped := p.dropped + x)
  }

  lemma TotalAdd(p: Parts, x: multiset<Message>, s: PacketState)
    ensures Total(AddPart(p, x, s)) == Total(p) + x
  {
  }

  lemma TrackedAppend(es: seq<SentPacketAck>, e: SentPacketAck)
    requires EntryValid(e)
    ensures TrackedBytes(es + [e]) == TrackedBytes(es) + [e.packet.value]
  {
    assert (es + [e])[..|es|] == es;
  }

  /** One more entry adds its content to the part of its verdict, and to no other. */
  lemma PartsStep(es: seq<SentPacketAck>, h: AckInfo, kind: MessageKind, before: Parts, after: Parts, x: multiset<Message>)
    requires es != [] && EntryValid(es[|es| - 1]) && x == Content([es[|es| - 1].packet.value], kind)
    requires before == PartsOf(es[..|es| - 1], h, kind) && after == PartsOf(es, h, kind)
    ensures after == AddPart(before, x, Verdict(es[|es| - 1], h))
  {
    var init, e := es[..|es| - 1], es[|es| - 1];
    var bytes := [e.packet.value];
    assert Verdict(e, h) != Unknown ==> Pending(es, h) == Pending(init, h);
    assert Verdict(e, h) != Acked ==> Packets(es, h, Acked) == Packets(init, h, Acked);
    assert Verdict(e, h) != Dropped ==> Packets(es, h, Dropped) == Packets(init, h, Dropped);
    match Verdict(e, h)
    case Unknown =>
      TrackedAppend(Pending(init, h), e);
      ContentAppend(TrackedBytes(Pending(init, h)), bytes, kind);
    case Acked => ContentAppend(Packets(init, h, Acked), bytes, kind);
    case Dropped => ContentAppend(Packets(init, h, Dropped), bytes, kind);
  }

  lemma TrackedContentStep(es: seq<SentPacketAck>, kind: MessageKind, before: multiset<Message>, after: multiset<Message>,
                           x: multiset<Message>)
    requires es != [] && EntryValid(es[|es| - 1]) && x == Content([es[|es| - 1].packet.value], kind)
    requires before == Content(TrackedBytes(es[..|es| - 1]), kind) && after == Content(TrackedBytes(es), kind)
    ensures after == before + x
  {
    ContentAppend(TrackedBytes(es[..|es| - 1]), [es[|es| - 1].packet.value], kind);
  }

  lemma InitValid(es: seq<SentPacketAck>)
    requires InFlightValid(es) && es != []
    ensures EntryValid(es[|es| - 1]) && InFlightValid(es[..|es| - 1])
  {
  }

  lemma PartitionStep(es: seq<SentPacketAck>, h: AckInfo, kind: MessageKind, p: Parts, t: multiset<Message>)
    requires es != [] && EntryValid(es[|es| - 1]) && p == PartsOf(es, h, kind) && t == Content(TrackedBytes(es), kind)
    requires Content(TrackedBytes(es[..|es| - 1]), kind) == Total(PartsOf(es[..|es| - 1], h, kind))
    ensures t == Total(p)
  {
    var init, e := es[..|es| - 1], es[|es| - 1];
    var x := Content([e.packet.value], kind);
    TrackedContentStep(es, kind, Content(TrackedBytes(init), kind), t, x);
    PartsStep(es, h, kind, PartsOf(init, h, kind), p, x);
    TotalAdd(PartsOf(init, h, kind), x, Verdict(e, h));
  }

  /** Every tracked packet is acknowledged, lost or still pending. */
  lemma {:induction false} VerdictsPartition(es: seq<SentPacketAck>, h: AckInfo, kind: MessageKind, p: Parts, t: multiset<Message>)
    requires InFlightValid(es) && p == PartsOf(es, h, kind) && t == Content(TrackedBytes(es), kind)
    ensures t == Total(p)
  {
    if es != [] {
      var init := es[..|es| - 1];
      InitValid(es);
      VerdictsPartition(init, h, kind, PartsOf(init, h, kind), Content(TrackedBytes(init), kind));
      PartitionStep(es, h, kind, p, t);
    }
  }

  lemma {:induction false} VerdictsCount(es: seq<SentPacketAck>, h: AckInfo)
    requires InFlightValid(es)
    ensures |es| == |Pending(es, h)| + Count(es, h, Acked) + Count(es, h, Dropped)
  {
    if es != [] {
      assert EntryValid(es[|es| - 1]) && InFlightValid(es[..|es| - 1]);
      VerdictsCount(es[..|es| - 1], h);
    }
  }

  predicate AllFramed(ms: seq<Message>) {
    forall m | m in ms :: Framed(m)
  }

  predicate PacketsFramed(packets: seq<seq<Byte>>) {
    forall p | p in packets :: AllFramed(Parse(Payload(p)))
  }

  /** Every message that can still be serialised describes itself. */
  predicate SessionFramed(c: Conn) {
    AllFramed(c.queue.i) && AllFramed(c.queue.r) && AllFramed(c.queue.o) && PacketsFramed(TrackedBytes(c.inFlight))
  }

  /** Each message of the kind that was given to `send` is, with order id, size
      and data intact, in exactly one of four places: the send queue, a tracked
      packet, an acknowledged packet, or a packet that was not tracked. */
  ghost predicate Conserved(s: Session, kind: MessageKind) {
    multiset(Project(s.given, kind)) ==
    multiset(QueueOf(s.conn.queue, kind)) + Content(TrackedBytes(s.conn.inFlight), kind) + Content(s.acked, kind) + Content(s.skipped, kind)
  }

  // ----- what the operations change -----

  /** An accepted packet leaves the pending entries, in order, and puts the
      messages of the lost ones back; any other packet changes neither. */
  lemma ReceivedShape(cfg: ValidConfig, c: Conn, packet: seq<Byte>, now: int, r: (Conn, bool))
    requires r == Received(cfg, c, packet, now)
    ensures r.1 ==> |packet| >= PACKET_HEADER_SIZE
    ensures r.1 ==>
              var h := ReadAcks(cfg, packet, now);
              var q := RequeueAll(c.queue, Packets(c.inFlight, h, Dropped));
              r.0.inFlight == Pending(c.inFlight, h) && r.0.queue == q.(inbox := r.0.queue.inbox) &&
              r.0.ackedPackets == Plus32(c.ackedPackets, Count(c.inFlight, h, Acked)) &&
              r.0.lostPackets == Plus32(if c.state == Connecting then 0 else c.lostPackets, Count(c.inFlight, h, Dropped)) &&
              r.0.recvAcks == PushAck(c.recvAcks, packet[8]) && r.0.remoteNum == packet[8]
    ensures !r.1 ==> r.0 == c.(state := r.0.state, events := r.0.events)
    ensures r.0.sentPackets == c.sentPackets && r.0.localNum == c.localNum && r.0.limiter == c.limiter
  {
    hide Parse, DeliverAll, RequeueAll, Plus32, Count, Packets, Verdict, PushAck, LostEvents, Payload;
    if r.1 {
      RetainJudged(c.inFlight, ReadAcks(cfg, packet, now));
    }
  }

  lemma ReceivedCounts(cfg: ValidConfig, c: Conn, packet: seq<Byte>, now: int, r: (Conn, bool))
    requires r == Received(cfg, c, packet, now)
    ensures r.0.recvPackets == if r.1 then Succ32(c.recvPackets) else c.recvPackets
    ensures r.0.lastReceive == (if r.1 then now else c.lastReceive) && r.0.lastSend == c.lastSend
  {
    hide Parse, DeliverAll, RequeueAll, JudgeAll, Retain, PushAck, Plus32, Count, LostEvents, Packets, FromBigEndian, SeqIsMoreRecent;
  }

  lemma {:induction false} RequeueAllOrder(q: Queue, packets: seq<seq<Byte>>)
    ensures RequeueAll(q, packets).localOrder == q.localOrder
  {
    if packets != [] {
      var init, last := packets[..|packets| - 1], packets[|packets| - 1];
      RequeueAllOrder(q, init);
      RequeueReverses(RequeueAll(q, init), Parse(Payload(last)));
    }
  }

  lemma AbsorbedInbox(cfg: ValidConfig, c: Conn, packet: seq<Byte>, now: int, r: (Conn, bool))
    requires r == Received(cfg, c, packet, now)
    ensures r.0.queue.inbox == if r.1 then DeliverAll(c.queue.inbox, Parse(Payload(packet))) else c.queue.inbox
    ensures r.0.queue.localOrder == c.queue.localOrder
  {
    if r.1 {
      var gate := ReceiveState(cfg, c, packet);
      var d := ApplyHeader(cfg, gate.0, packet, now);
      RequeueAllInbox(c.queue, Packets(c.inFlight, ReadAcks(cfg, packet, now), Dropped));
      RequeueAllOrder(c.queue, Packets(c.inFlight, ReadAcks(cfg, packet, now), Dropped));
      assert gate.0.queue == c.queue && d.queue.inbox == c.queue.inbox && d.queue.localOrder == c.queue.localOrder;
      assert r.0 == ApplyPayload(d, packet);
    }
  }

  /** A packet that is built takes its messages off the queues and is tracked
      unless its number still is; nothing else touches queues or packets. */
  lemma TransmittedShape(cfg: ValidConfig, c: Conn, now: int, rtt: nat, ok: bool, r: (Conn, Option<seq<Byte>>))
    requires r == Transmitted(cfg, c, now, rtt, ok)
    ensures r.1.None? ==> r.0.queue == c.queue && r.0.inFlight == c.inFlight && r.0.sentPackets == c.sentPackets && r.0.localNum == c.localNum
    ensures r.1.Some? ==>
              var s := NextSplit(cfg, c);
              r.1.value == NextPacket(cfg, c) && r.0.inFlight == Track(c, r.1.value, now) &&
              r.0.queue == AfterPack(c.queue, s).(inbox := c.queue.inbox.(recv := [])) &&
              r.0.sentPackets == Succ32(c.sentPackets) && r.0.localNum == NextNum(c.localNum) && r.0.state == c.state
    ensures r.0.ackedPackets == c.ackedPackets && r.0.lostPackets == c.lostPackets
    ensures r.0.recvAcks == c.recvAcks && r.0.remoteNum == c.remoteNum
  {
    var gate := SendState(cfg, c, now);
    if r.1.Some? {
      assert gate == (c, true);
      var checked := Congest(c, now, rtt);
      SamePacket(cfg, c, checked);
      assert r == (Emit(cfg, checked, now, ok), Some(NextPacket(cfg, checked)));
    }
  }

  /** The next packet depends on neither the limiter nor the events. */
  lemma SamePacket(cfg: ValidConfig, c: Conn, d: Conn)
    requires d == c.(limiter := d.limiter, events := d.events)
    ensures NextSplit(cfg, d) == NextSplit(cfg, c) && NextPacket(cfg, d) == NextPacket(cfg, c)
  {
    assert AckBytes(d) == AckBytes(c);
    assert Header(cfg, d) == Header(cfg, c);
  }

  // ----- each action conserves -----

  lemma {:induction false} ProjectMember(ms: seq<Message>, m: Message)
    requires m in ms
    ensures m in Project(ms, m.kind)
  {
    if m != ms[0] {
      assert m in ms[1..];
      ProjectMember(ms[1..], m);
    }
  }

  /** A split of framed queues is framed, and its bytes parse back to it. */
  lemma SplitFramed(s: Split, i: seq<Message>, r: seq<Message>, o: seq<Message>)
    requires FifoSplit(s, i, r, o) && AllFramed(i) && AllFramed(r) && AllFramed(o)
    ensures AllFramed(s.out) && AllFramed(s.i) && AllFramed(s.r) && AllFramed(s.o)
    ensures Parse(Serialize(s.out)) == s.out
  {
    forall m | m in s.out
      ensures Framed(m)
    {
      ProjectMember(s.out, m);
    }
    assert forall m | m in s.i :: m in i;
    assert forall m | m in s.r :: m in r;
    assert forall m | m in s.o :: m in o;
    FramedTransportable(s.out);
  }

  lemma NextSplitIsFifo(cfg: ValidConfig, c: Conn, s: Split)
    requires MessageQueues.Valid(c.queue) && s == NextSplit(cfg, c)
    ensures FifoSplit(s, c.queue.i, c.queue.r, c.queue.o)
  {
    if c.state == Closing {
      assert [] + c.queue.i == c.queue.i && [] + c.queue.r == c.queue.r && [] + c.queue.o == c.queue.o;
    } else {
      PackGuarantees(c.queue.i, c.queue.r, c.queue.o, cfg.packetMaxSize - PACKET_HEADER_SIZE, cfg.quotas);
    }
  }

  /** The payload of the next packet parses to exactly the messages that leave the queues. */
  lemma NextPacketCarries(cfg: ValidConfig, c: Conn, s: Split, packet: seq<Byte>)
    requires MessageQueues.Valid(c.queue) && SessionFramed(c)
    requires s == NextSplit(cfg, c) && packet == NextPacket(cfg, c)
    ensures Parse(Payload(packet)) == s.out
    ensures FifoSplit(s, c.queue.i, c.queue.r, c.queue.o)
    ensures AllFramed(s.out) && AllFramed(s.i) && AllFramed(s.r) && AllFramed(s.o)
  {
    NextSplitIsFifo(cfg, c, s);
    SplitFramed(s, c.queue.i, c.queue.r, c.queue.o);
    assert Payload(packet) == Serialize(s.out);
  }

  /** Room in the packet: the payload never exceeds what the configuration allows. */
  lemma NextPacketFits(cfg: ValidConfig, c: Conn)
    requires MessageQueues.Valid(c.queue) && SessionFramed(c)
    ensures |NextPacket(cfg, c)| <= cfg.packetMaxSize
  {
    hide Pack, Serialize, FifoSplit;
    var s := NextSplit(cfg, c);
    assert Costs(s.out) <= cfg.packetMaxSize - PACKET_HEADER_SIZE by {
      if c.state != Closing {
        PackGuarantees(c.queue.i, c.queue.r, c.queue.o, cfg.packetMaxSize - PACKET_HEADER_SIZE, cfg.quotas);
      }
    }
    assert AllFramed(s.out) by {
      NextPacketCarries(cfg, c, s, NextPacket(cfg, c));
    }
    CostsAreBytes(s.out);
  }

  // ----- what a packet tells its receiver -----

  lemma PacketHeader(cfg: ValidConfig, c: Conn, packet: seq<Byte>)
    requires packet == NextPacket(cfg, c)
    ensures |packet| >= PACKET_HEADER_SIZE && packet[..4] == cfg.protocolHeader
    ensures packet[4..8] == BigEndian(c.id) && packet[8..14] == AckBytes(c)
  {
  }

  /** Every packet is filed under the id of the connection that built it. */
  lemma PacketNamesConnection(cfg: ValidConfig, c: Conn, packet: seq<Byte>)
    requires packet == NextPacket(cfg, c)
    ensures IdFromPacket(cfg, packet) == Some(c.id)
  {
    PacketHeader(cfg, c, packet);
    BigEndianRoundTrip(c.id);
    var b := packet[4..8];
    assert packet[4] == b[0] && packet[5] == b[1] && packet[6] == b[2] && packet[7] == b[3];
  }

  /** A packet of a closing connection closes a connected peer, which judges and
      delivers nothing of it; a peer that is over ignores it. But it is accepted,
      header and all, exactly if the peer is closing or connecting, and a
      connecting peer takes it for the start of the connection. */
  lemma ClosingPacketAcceptedIff(cfg: ValidConfig, c: Conn, peer: Conn, packet: seq<Byte>, now: int, r: (Conn, bool))
    requires c.state == Closing && packet == NextPacket(cfg, c) && r == Received(cfg, peer, packet, now)
    ensures r.1 <==> peer.state == Closing || peer.state == Connecting
    ensures peer.state == Connecting ==> r.0.state == Connected
    ensures peer.state == Connected ==> r.0 == peer.(state := Closed, events := peer.events + [ClosedEvent(true)])
    ensures !Open(peer) ==> r.0 == peer
  {
    PacketHeader(cfg, c, packet);
  }

  lemma ClosureHeader(cfg: ValidConfig, c: Conn, packet: seq<Byte>, now: int)
    requires c.state == Closing && packet == NextPacket(cfg, c) && |packet| >= PACKET_HEADER_SIZE
    ensures ReadAcks(cfg, packet, now) == AckInfo(128, 0x5555_5555, now, cfg.packetDropThreshold)
  {
    PacketHeader(cfg, c, packet);
    var b := packet[8..14];
    assert packet[9] == b[1] && packet[10] == b[2] && packet[11] == b[3] && packet[12] == b[4] && packet[13] == b[5];
    assert FromBigEndian(85, 85, 85, 85) == 0x5555_5555;
  }

  /** To a peer that accepts it the closure data acknowledges number 128 and the
      numbers at an odd distance of at most 31 behind it, and no others. */
  lemma ClosureReadAsAcks(cfg: ValidConfig, c: Conn, packet: seq<Byte>, now: int, e: SentPacketAck)
    requires c.state == Closing && packet == NextPacket(cfg, c) && |packet| >= PACKET_HEADER_SIZE && e.state == Unknown
    ensures Verdict(e, ReadAcks(cfg, packet, now)) == Acked <==>
            e.num == 128 || (Distance(128, e.num) % 2 == 1 && Distance(128, e.num) < MAX_ACK_BITS)
  {
    ClosureHeader(cfg, c, packet, now);
    ClosureAcks(e.num);
  }

  /** So the peer drops from its tracked packets, as if acknowledged, exactly the
      ones with these numbers. */
  lemma ClosureForgets(cfg: ValidConfig, c: Conn, peer: Conn, packet: seq<Byte>, now: int, e: SentPacketAck, r: (Conn, bool))
    requires c.state == Closing && packet == NextPacket(cfg, c) && r == Received(cfg, peer, packet, now)
    requires Connections.Valid(peer) && (peer.state == Closing || peer.state == Connecting)
    requires e in peer.inFlight && now - e.time <= cfg.packetDropThreshold
    ensures e !in r.0.inFlight <==>
            e.num == 128 || (Distance(128, e.num) % 2 == 1 && Distance(128, e.num) < MAX_ACK_BITS)
  {
    hide Received, SeqWasAcked, Distance;
    PacketHeader(cfg, c, packet);
    ClosingPacketAcceptedIff(cfg, c, peer, packet, now, r);
    ReceivedShape(cfg, peer, packet, now, r);
    ClosureReadAsAcks(cfg, c, packet, now, e);
    ClosureHeader(cfg, c, packet, now);
    PendingMember(peer.inFlight, ReadAcks(cfg, packet, now), e);
  }

  lemma {:induction false} PendingMember(es: seq<SentPacketAck>, h: AckInfo, e: SentPacketAck)
    ensures e in Pending(es, h) <==> e in es && Verdict(e, h) == Unknown
  {
    if es != [] {
      PendingMember(es[..|es| - 1], h, e);
      assert e in es <==> e in es[..|es| - 1] || e == es[|es| - 1];
    }
  }

  lemma SendPacketConserves(cfg: ValidConfig, s: Session, now: int, rtt: nat, ok: bool, kind: MessageKind, t: Session)
    requires Connections.Valid(s.conn) && SessionFramed(s.conn) && Conserved(s, kind)
    requires t == Act(cfg, s, SendPacket(now, rtt, ok))
    ensures Conserved(t, kind)
  {
    hide Transmitted, NextSplit, NextPacket, Track;
    var c := s.conn;
    var r := Transmitted(cfg, c, now, rtt, ok);
    TransmittedShape(cfg, c, now, rtt, ok, r);
    if r.1.None? {
      assert s.skipped + [] == s.skipped;
    } else {
      var x := Content([r.1.value], kind);
      QueueLoses(cfg, c, r.1.value, r.0.queue, kind, x);
      PacketGains(cfg, s, now, rtt, ok, t, kind, x);
      Rebalance(multiset(QueueOf(c.queue, kind)), Content(TrackedBytes(c.inFlight), kind), Content(s.acked, kind), Content(s.skipped, kind),
                multiset(QueueOf(t.conn.queue, kind)), Content(TrackedBytes(t.conn.inFlight), kind), Content(t.skipped, kind), x);
    }
  }

  lemma Rebalance(q: multiset<Message>, i: multiset<Message>, a: multiset<Message>, s: multiset<Message>,
                  q': multiset<Message>, i': multiset<Message>, s': multiset<Message>, x: multiset<Message>)
    requires q == x + q' && ((s' == s + x && i' == i) || (s' == s && i' == i + x))
    ensures q + i + a + s == q' + i' + a + s'
  {
  }

  lemma QueueLoses(cfg: ValidConfig, c: Conn, packet: seq<Byte>, q: Queue, kind: MessageKind, x: multiset<Message>)
    requires MessageQueues.Valid(c.queue) && SessionFramed(c) && packet == NextPacket(cfg, c) && x == Content([packet], kind)
    requires q == AfterPack(c.queue, NextSplit(cfg, c)).(inbox := q.inbox)
    ensures multiset(QueueOf(c.queue, kind)) == x + multiset(QueueOf(q, kind))
  {
    var split := NextSplit(cfg, c);
    NextPacketCarries(cfg, c, split, packet);
    ContentOne(packet, kind);
    assert QueueOf(c.queue, kind) == Project(split.out, kind) + QueueOf(q, kind);
  }

  lemma PacketGains(cfg: ValidConfig, s: Session, now: int, rtt: nat, ok: bool, t: Session, kind: MessageKind, x: multiset<Message>)
    requires t == Act(cfg, s, SendPacket(now, rtt, ok))
    requires var sent := Transmitted(cfg, s.conn, now, rtt, ok).1; sent.Some? && x == Content([sent.value], kind)
    ensures var c := s.conn;
            if Tracked(c, c.localNum) then
              Content(t.skipped, kind) == Content(s.skipped, kind) + x && t.conn.inFlight == c.inFlight
            else
              t.skipped == s.skipped && Content(TrackedBytes(t.conn.inFlight), kind) == Content(TrackedBytes(c.inFlight), kind) + x
  {
    hide Transmitted, NextSplit, AfterPack, Serialize;
    var c := s.conn;
    var r := Transmitted(cfg, c, now, rtt, ok);
    TransmittedShape(cfg, c, now, rtt, ok, r);
    if Tracked(c, c.localNum) {
      ContentAppend(s.skipped, [r.1.value], kind);
    } else {
      assert t.skipped == s.skipped + [] == s.skipped;
      TrackedAppend(c.inFlight, SentPacketAck(c.localNum, now, Unknown, r.1));
      ContentAppend(TrackedBytes(c.inFlight), [r.1.value], kind);
    }
  }

  lemma Rejoin(q: multiset<Message>, a: multiset<Message>, s: multiset<Message>, p: Parts)
    ensures q + Total(p) + a + s == (q + p.dropped) + p.pending + (a + p.acked) + s
  {
  }

  lemma ReceivePacketConserves(cfg: ValidConfig, s: Session, packet: seq<Byte>, now: int, kind: MessageKind, t: Session)
    requires Connections.Valid(s.conn) && Conserved(s, kind) && kind != Instant
    requires t == Act(cfg, s, ReceivePacket(packet, now))
    ensures Conserved(t, kind)
  {
    hide Received, RequeueAll, Packets, Verdict;
    var c := s.conn;
    var r := Received(cfg, c, packet, now);
    ReceivedShape(cfg, c, packet, now, r);
    if r.1 {
      var h := ReadAcks(cfg, packet, now);
      VerdictsPartition(c.inFlight, h, kind, PartsOf(c.inFlight, h, kind), Content(TrackedBytes(c.inFlight), kind));
      RequeueAllContent(c.queue, Packets(c.inFlight, h, Dropped), kind);
      ContentAppend(s.acked, Packets(c.inFlight, h, Acked), kind);
      Rejoin(multiset(QueueOf(c.queue, kind)), Content(s.acked, kind), Content(s.skipped, kind), PartsOf(c.inFlight, h, kind));
    } else {
      assert s.acked + [] == s.acked;
    }
  }

  lemma SendMessageConserves(s: Session, cfg: ValidConfig, k: MessageKind, data: seq<Byte>, kind: MessageKind, t: Session)
    requires Conserved(s, kind) && t == Act(cfg, s, SendMessage(k, data))
    ensures Conserved(t, kind)
  {
    var m := MakeMessage(k, s.conn.queue.localOrder, data);
    ProjectAppend(s.given, [m], kind);
    assert Project([m], kind) == if k == kind then [m] else [];
  }

  // ----- framing over runs -----

  lemma {:induction false} PacketsSubset(es: seq<SentPacketAck>, h: AckInfo, s: PacketState)
    ensures forall p | p in Packets(es, h, s) :: p in TrackedBytes(es)
  {
    if es != [] {
      PacketsSubset(es[..|es| - 1], h, s);
    }
  }

  lemma {:induction false} PendingTracked(es: seq<SentPacketAck>, h: AckInfo)
    ensures forall p | p in TrackedBytes(Pending(es, h)) :: p in TrackedBytes(es)
  {
    if es != [] {
      var init, e := es[..|es| - 1], es[|es| - 1];
      PendingTracked(init, h);
      if Verdict(e, h) == Unknown {
        assert Pending(es, h)[..|Pending(init, h)|] == Pending(init, h);
      } else {
        assert Pending(es, h) == Pending(init, h);
      }
    }
  }

  lemma {:induction false} RequeueAllFramed(q: Queue, packets: seq<seq<Byte>>)
    requires AllFramed(q.i) && AllFramed(q.r) && AllFramed(q.o) && PacketsFramed(packets)
    ensures var t := RequeueAll(q, packets); AllFramed(t.i) && AllFramed(t.r) && AllFramed(t.o)
  {
    if packets != [] {
      var init, last := packets[..|packets| - 1], packets[|packets| - 1];
      assert last in packets && forall p | p in init :: p in packets;
      RequeueAllFramed(q, init);
      RequeueFramed(RequeueAll(q, init), Parse(Payload(last)));
    }
  }

  lemma {:induction false} RequeueFramed(q: Queue, ms: seq<Message>)
    requires AllFramed(q.i) && AllFramed(q.r) && AllFramed(q.o) && AllFramed(ms)
    ensures var t := Requeue(q, ms); AllFramed(t.i) && AllFramed(t.r) && AllFramed(t.o)
    decreases |ms|
  {
    if ms != [] {
      assert ms[0] in ms && forall m | m in ms[1..] :: m in ms;
      var q' := match ms[0].kind
        case Instant => q
        case Reliable => q.(r := [ms[0]] + q.r)
        case Ordered => q.(o := [ms[0]] + q.o);
      RequeueFramed(q', ms[1..]);
    }
  }

  predicate SmallPayload(a: Action) {
    a.SendMessage? ==> |a.data| < 0x1_0000
  }

  lemma ActFramed(cfg: ValidConfig, s: Session, a: Action, t: Session)
    requires Connections.Valid(s.conn) && SessionFramed(s.conn) && SmallPayload(a)
    requires t == Act(cfg, s, a)
    ensures SessionFramed(t.conn)
  {
    hide Received, Transmitted, NextSplit, RequeueAll, Packets;
    var c := s.conn;
    match a
    case ReceivePacket(packet, now) =>
      var r := Received(cfg, c, packet, now);
      ReceivedShape(cfg, c, packet, now, r);
      if r.1 {
        var h := ReadAcks(cfg, packet, now);
        PacketsSubset(c.inFlight, h, Dropped);
        PendingTracked(c.inFlight, h);
        RequeueAllFramed(c.queue, Packets(c.inFlight, h, Dropped));
      }
    case SendPacket(now, rtt, ok) =>
      var r := Transmitted(cfg, c, now, rtt, ok);
      TransmittedShape(cfg, c, now, rtt, ok, r);
      if r.1.Some? {
        NextPacketCarries(cfg, c, NextSplit(cfg, c), r.1.value);
        if !Tracked(c, c.localNum) {
          TrackedAppend(c.inFlight, SentPacketAck(c.localNum, now, Unknown, r.1));
        }
      }
    case _ =>
  }

  lemma ActConserves(cfg: ValidConfig, s: Session, a: Action, kind: MessageKind, t: Session)
    requires Connections.Valid(s.conn) && SessionFramed(s.conn) && Conserved(s, kind) && kind != Instant
    requires t == Act(cfg, s, a)
    ensures Conserved(t, kind)
  {
    hide Received, Transmitted, SessionFramed;
    if a.SendMessage? {
      SendMessageConserves(s, cfg, a.kind, a.data, kind, t);
    } else if a.ReceivePacket? {
      ReceivePacketConserves(cfg, s, a.packet, a.now, kind, t);
    } else if a.SendPacket? {
      SendPacketConserves(cfg, s, a.now, a.rtt, a.ok, kind, t);
    }
  }

  /** Over every run of sending, receiving, packet loss, closing and resetting,
      no reliable or ordered message is lost or duplicated by its sender. */
  lemma {:induction false} Conservation(cfg: ValidConfig, s: Session, actions: seq<Action>, kind: MessageKind, t: Session)
    requires Connections.Valid(s.conn) && SessionFramed(s.conn) && Conserved(s, kind) && kind != Instant
    requires ActionsAre(actions, SmallPayload) && t == Run(cfg, s, actions)
    ensures Conserved(t, kind) && SessionFramed(t.conn)
  {
    if actions != [] {
      var init, a := actions[..|actions| - 1], actions[|actions| - 1];
      var before := Run(cfg, s, init);
      Conservation(cfg, s, init, kind, before);
      RunValid(cfg, s, init);
      ActFramed(cfg, before, a, t);
      ActConserves(cfg, before, a, kind, t);
    }
  }

  lemma NewSessionConserves(id: U32, peer: nat, now: int, kind: MessageKind)
    ensures var s := NewSession(id, peer, now);
            Connections.Valid(s.conn) && SessionFramed(s.conn) && Conserved(s, kind)
  {
    assert NewSession(id, peer, now).conn == Restarted(NewConn(id, peer, now), now);
    RestartedValid(NewConn(id, peer, now), now);
  }
}
