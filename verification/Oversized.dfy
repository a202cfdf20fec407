/** Payloads that do not fit their sixteen-bit size: `send` takes them and
    truncates the size. */
module Oversized {
  import opened Bytes
  import opened MessageCodec
  import opened PacketFill
  import opened MessageQueues
  import opened RateLimiting
  import opened Connections
  import opened Sessions

  const SIZES := 0x1_0000

  lemma OneTransportable(m: Message)
    ensures Transportable([m]) <==> |m.data| <= m.size
    ensures |Encode(m)| == |m.data| + MESSAGE_HEADER_BYTES
  {
    assert [m][1..] == [];
  }

  /** A message survives the wire, and is charged what it takes, exactly if its
      payload is shorter than 65536 bytes. */
  lemma PayloadSurvivesIff(kind: MessageKind, order: OrderId, data: seq<Byte>, m: Message)
    requires m == MakeMessage(kind, order, data)
    ensures Parse(Serialize([m])) == [m] <==> |data| < SIZES
    ensures Cost(m) == |Encode(m)| <==> |data| < SIZES
  {
    hide Parse, Serialize, Transportable, Encode;
    ParseSerialize([m]);
    OneTransportable(m);
  }

  lemma {:induction false} ParsedSizes(b: seq<Byte>, m: Message)
    requires m in Parse(b)
    ensures |m.data| < SIZES
  {
    if |b| >= MESSAGE_HEADER_BYTES {
      if m in First(b) {
        FirstSize(b);
      } else {
        ParsedSizes(b[FirstEnd(b)..], m);
      }
    }
  }

  lemma {:induction false} ProjectPartOf(ms: seq<Message>, kind: MessageKind, m: Message)
    requires m in Project(ms, kind)
    ensures m in ms
  {
    if m != ms[0] || ms[0].kind != kind {
      ProjectPartOf(ms[1..], kind, m);
    }
  }

  /** No packet ever parses to an oversized message. */
  lemma {:induction false} NotInPackets(packets: seq<seq<Byte>>, kind: MessageKind, m: Message)
    requires |m.data| >= SIZES
    ensures m !in Content(packets, kind)
  {
    if packets != [] {
      var ms := Parse(Payload(packets[|packets| - 1]));
      NotInPackets(packets[..|packets| - 1], kind, m);
      if m in Project(ms, kind) {
        ProjectPartOf(ms, kind, m);
        ParsedSizes(Payload(packets[|packets| - 1]), m);
      }
    }
  }

  /** So an oversized message is conserved only as long as it has not been sent. */
  lemma OversizedStaysQueued(s: Session, kind: MessageKind, m: Message)
    requires Conserved(s, kind) && |m.data| >= SIZES
    ensures multiset(Project(s.given, kind))[m] == multiset(QueueOf(s.conn.queue, kind))[m]
  {
    NotInPackets(TrackedBytes(s.conn.inFlight), kind, m);
    NotInPackets(s.acked, kind, m);
    NotInPackets(s.skipped, kind, m);
  }

  /** The first attempt of a connection to send builds a packet. */
  lemma FirstAttempt(cfg: ValidConfig, c: Conn, now: int, r: (Conn, Option<seq<Byte>>))
    requires c.state == Connecting && c.lastReceive == now && c.limiter == Fresh(now) && r == Transmitted(cfg, c, now, 0, true)
    ensures r.1.Some? && r.0.queue == AfterPack(c.queue, NextSplit(cfg, c)).(inbox := r.0.queue.inbox)
  {
    hide Updated, Track, NextPacket, NextSplit;
    TransmittedShape(cfg, c, now, 0, true, r);
    assert SendState(cfg, c, now) == (c, true);
    FreshSends(now);
  }

  /** A single message that fits leaves the queues with the next packet. */
  lemma AloneIsSent(cfg: ValidConfig, c: Conn, m: Message)
    requires c.state == Connecting && MessageQueues.Valid(c.queue) && Cost(m) <= cfg.packetMaxSize - PACKET_HEADER_SIZE
    requires c.queue == Enqueue(EMPTY_QUEUE, m.kind, m.data) && m == MakeMessage(m.kind, 0, m.data)
    ensures var s := NextSplit(cfg, c); s.i == [] && s.r == [] && s.o == []
  {
    assert [] + [m] == [m];
    assert Costs([m]) == Cost(m) + Costs([]);
    AllSentIfAllFits(c.queue.i, c.queue.r, c.queue.o, cfg.packetMaxSize - PACKET_HEADER_SIZE, cfg.quotas);
  }

  lemma GoneIsNotConserved(t: Session, m: Message)
    requires |m.data| >= SIZES && t.given == [m] && QueueOf(t.conn.queue, m.kind) == []
    ensures !Conserved(t, m.kind)
  {
    assert Project([m], m.kind) == [m] + [];
    assert multiset(Project([m], m.kind))[m] == 1;
    if Conserved(t, m.kind) {
      OversizedStaysQueued(t, m.kind, m);
    }
  }

  lemma AfterSend(cfg: ValidConfig, id: U32, peer: nat, now: int, m: Message, s: Session)
    requires m == MakeMessage(m.kind, 0, m.data)
    requires s == Act(cfg, NewSession(id, peer, now), SendMessage(m.kind, m.data))
    ensures s.given == [m] && s.conn.queue == Enqueue(EMPTY_QUEUE, m.kind, m.data) && MessageQueues.Valid(s.conn.queue)
    ensures s.conn.state == Connecting && s.conn.lastReceive == now && s.conn.limiter == Fresh(now)
  {
    assert [] + [m] == [m];
  }

  /** One message, one attempt to send. */
  lemma OversizedIsLost(cfg: ValidConfig, id: U32, peer: nat, now: int, kind: MessageKind, data: seq<Byte>, s: Session, t: Session)
    requires |data| >= SIZES && Cost(MakeMessage(kind, 0, data)) <= cfg.packetMaxSize - PACKET_HEADER_SIZE
    requires s == Act(cfg, NewSession(id, peer, now), SendMessage(kind, data)) && t == Act(cfg, s, SendPacket(now, 0, true))
    ensures !Conserved(t, kind)
  {
    var m := MakeMessage(kind, 0, data);
    AfterSend(cfg, id, peer, now, m, s);
    hide Conserved, NextSplit, Transmitted, Enqueue, MessageQueues.Valid, Cost;
    FirstAttempt(cfg, s.conn, now, Transmitted(cfg, s.conn, now, 0, true));
    AloneIsSent(cfg, s.conn, m);
    GoneIsNotConserved(t, m);
  }

  lemma OneAction(cfg: ValidConfig, s: Session, a: Action)
    ensures Run(cfg, s, [a]) == Act(cfg, s, a)
    ensures SmallPayload(a) ==> ActionsAre([a], SmallPayload)
  {
    assert [a][..0] == [];
  }

  /** A message that fits a packet is conserved, whatever happens after it was
      given to `send`, exactly if its payload is shorter than 65536 bytes. */
  lemma ConservedIffSmall(cfg: ValidConfig, id: U32, peer: nat, now: int, kind: MessageKind, data: seq<Byte>, s: Session)
    requires kind != Instant && Cost(MakeMessage(kind, 0, data)) <= cfg.packetMaxSize - PACKET_HEADER_SIZE
    requires s == Act(cfg, NewSession(id, peer, now), SendMessage(kind, data))
    ensures |data| < SIZES <==>
            forall actions | ActionsAre(actions, SmallPayload) :: Conserved(Run(cfg, s, actions), kind)
  {
    if |data| < SIZES {
      var start := NewSession(id, peer, now);
      NewSessionConserves(id, peer, now, kind);
      ActFramed(cfg, start, SendMessage(kind, data), s);
      ActValid(cfg, start, SendMessage(kind, data));
      ActConserves(cfg, start, SendMessage(kind, data), kind, s);
      forall actions | ActionsAre(actions, SmallPayload)
        ensures Conserved(Run(cfg, s, actions), kind)
      {
        Conservation(cfg, s, actions, kind, Run(cfg, s, actions));
      }
    } else {
      var send := SendPacket(now, 0, true);
      OversizedIsLost(cfg, id, peer, now, kind, data, s, Act(cfg, s, send));
      OneAction(cfg, s, send);
      assert !Conserved(Run(cfg, s, [send]), kind);
    }
  }
}
