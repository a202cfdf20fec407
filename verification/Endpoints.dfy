/** Two connections and a network between them that may lose, duplicate and
    reorder packets: every packet ever built may arrive at any time, any number
    of times, or never. Packets are known by their unbounded numbers; the
    endpoints only see the bytes. Neither endpoint is closed or reset. */
module Endpoints {
  import opened Bytes
  import opened MessageCodec
  import opened AckHeader
  import opened RateLimiting
  import opened Connections
  import opened Sessions
  import opened SessionTraces

  /** A packet of the receiver, with the packet numbers it had accepted when it
      built the packet. */
  datatype Answer = Answer(packet: seq<Byte>, accepted: seq<nat>)

  /** The sender, the receiver, the sender's packets by number, the numbers of
      its tracked packets, the numbers it saw acknowledged, the numbers the
      receiver accepted, and the receiver's packets. */
  datatype World = World(
    a: Session,
    b: Session,
    packets: seq<seq<Byte>>,
    flight: seq<nat>,
    confirmed: seq<nat>,
    accepted: seq<nat>,
    answers: seq<Answer>)

  datatype Step =
    | SenderSays(kind: MessageKind, data: seq<Byte>)
    | SenderSends(now: int, rtt: nat, ok: bool)
    | SenderGets(k: nat, now: int)
    | SenderTakesEvents
    | ReceiverSays(kind: MessageKind, data: seq<Byte>)
    | ReceiverSends(now: int, rtt: nat, ok: bool)
    | ReceiverGets(n: nat, now: int)
    | ReceiverTakesEvents

  function NewWorld(now: int): World {
    World(NewSession(0, 1, now), NewSession(0, 0, now), [], [], [], [], [])
  }

  /** The numbers of the entries that get the verdict `s`. */
  function Select(es: seq<SentPacketAck>, numbers: seq<nat>, h: AckInfo, s: PacketState): seq<nat>
    requires |es| == |numbers|
  {
    if es == [] then []
    else
      var last := |es| - 1;
      Select(es[..last], numbers[..last], h, s) + if Verdict(es[last], h) == s then [numbers[last]] else []
  }

  /** Only packets that exist can arrive. */
  predicate Possible(w: World, step: Step) {
    (step.SenderGets? ==> step.k < |w.answers|) && (step.ReceiverGets? ==> step.n < |w.packets|)
  }

  ghost function Next(cfg: ValidConfig, w: World, step: Step): World
    requires Possible(w, step) && |w.flight| == |w.a.conn.inFlight|
  {
    match step
    case SenderSays(kind, data) => w.(a := Act(cfg, w.a, SendMessage(kind, data)))
    case SenderSends(now, rtt, ok) =>
      var sent := Transmitted(cfg, w.a.conn, now, rtt, ok).1;
      var a := Act(cfg, w.a, SendPacket(now, rtt, ok));
      if sent.None? then w.(a := a)
      else
        w.(a := a, packets := w.packets + [sent.value],
           flight := if Tracked(w.a.conn, w.a.conn.localNum) then w.flight else w.flight + [|w.packets|])
    case SenderGets(k, now) =>
      var packet := w.answers[k].packet;
      var a := Act(cfg, w.a, ReceivePacket(packet, now));
      if !Received(cfg, w.a.conn, packet, now).1 then w.(a := a)
      else
        var h := ReadAcks(cfg, packet, now);
        w.(a := a, flight := Select(w.a.conn.inFlight, w.flight, h, Unknown),
           confirmed := w.confirmed + Select(w.a.conn.inFlight, w.flight, h, Acked))
    case SenderTakesEvents => w.(a := Act(cfg, w.a, TakeEvents))
    case ReceiverSays(kind, data) => w.(b := Act(cfg, w.b, SendMessage(kind, data)))
    case ReceiverSends(now, rtt, ok) =>
      var sent := Transmitted(cfg, w.b.conn, now, rtt, ok).1;
      var b := Act(cfg, w.b, SendPacket(now, rtt, ok));
      if sent.None? then w.(b := b) else w.(b := b, answers := w.answers + [Answer(sent.value, w.accepted)])
    case ReceiverGets(n, now) =>
      var b := Act(cfg, w.b, ReceivePacket(w.packets[n], now));
      if !Received(cfg, w.b.conn, w.packets[n], now).1 then w.(b := b) else w.(b := b, accepted := w.accepted + [n])
    case ReceiverTakesEvents => w.(b := Act(cfg, w.b, TakeEvents))
  }

  // ----- bytes and numbers -----

  function Seqs(numbers: seq<nat>): (r: seq<Byte>)
    ensures |r| == |numbers|
  {
    seq(|numbers|, k requires 0 <= k < |numbers| => Seq(numbers[k]))
  }

  /** The entries are those of the packets with these numbers. */
  predicate FlightLinked(es: seq<SentPacketAck>, numbers: seq<nat>, packets: seq<seq<Byte>>) {
    |es| == |numbers| &&
    forall k | 0 <= k < |es| ::
      numbers[k] < |packets| && es[k].num == Seq(numbers[k]) && es[k].packet == Some(packets[numbers[k]])
  }

  /** A header that was built when `accepted` were the accepted numbers. */
  predicate HeaderOf(packet: seq<Byte>, accepted: seq<nat>) {
    |packet| >= PACKET_HEADER_SIZE &&
    packet[9] == (if accepted == [] then 0 else Seq(accepted[|accepted| - 1])) &&
    FromBigEndian(packet[10], packet[11], packet[12], packet[13]) == AckField(Newest(Seqs(accepted)), packet[9])
  }

  predicate SenderLinked(w: World) {
    && Connections.Valid(w.a.conn) && w.a.conn.state != Closing
    && w.a.conn.localNum == Seq(|w.packets|)
    && FlightLinked(w.a.conn.inFlight, w.flight, w.packets)
    && forall n | 0 <= n < |w.packets| :: |w.packets[n]| >= PACKET_HEADER_SIZE && w.packets[n][8] == Seq(n)
  }

  predicate ReceiverLinked(w: World) {
    && Connections.Valid(w.b.conn) && w.b.conn.state != Closing
    && RemembersAccepted(w.b) && w.b.accepted == Seqs(w.accepted)
    && (forall k | 0 <= k < |w.accepted| :: w.accepted[k] < |w.packets|)
    && forall k | 0 <= k < |w.answers| :: HeaderOf(w.answers[k].packet, w.answers[k].accepted) && w.answers[k].accepted <= w.accepted
  }

  predicate Linked(w: World) {
    SenderLinked(w) && ReceiverLinked(w)
  }

  lemma NextPacketBytes(cfg: ValidConfig, c: Conn, packet: seq<Byte>)
    requires c.state != Closing && packet == NextPacket(cfg, c)
    ensures |packet| >= PACKET_HEADER_SIZE && packet[8] == c.localNum && packet[9] == c.remoteNum
    ensures FromBigEndian(packet[10], packet[11], packet[12], packet[13]) == AckField(c.recvAcks, c.remoteNum)
  {
    var field := AckField(c.recvAcks, c.remoteNum);
    BigEndianRoundTrip(field);
    assert packet[8..14] == [c.localNum, c.remoteNum] + BigEndian(field);
    assert packet[10] == packet[8..14][2] && packet[11] == packet[8..14][3];
    assert packet[12] == packet[8..14][4] && packet[13] == packet[8..14][5];
    assert packet[8] == packet[8..14][0] && packet[9] == packet[8..14][1];
  }

  lemma StateNotClosing(cfg: ValidConfig, c: Conn, packet: seq<Byte>, now: int, rtt: nat, ok: bool)
    requires c.state != Closing
    ensures Received(cfg, c, packet, now).0.state != Closing && Transmitted(cfg, c, now, rtt, ok).0.state != Closing
  {
    hide Received, Transmitted;
    ReceivedLife(cfg, c, packet, now, Received(cfg, c, packet, now));
    TransmittedLife(cfg, c, now, rtt, ok, Transmitted(cfg, c, now, rtt, ok));
  }

  lemma {:induction false} SelectLinked(es: seq<SentPacketAck>, numbers: seq<nat>, packets: seq<seq<Byte>>, h: AckInfo)
    requires FlightLinked(es, numbers, packets)
    ensures FlightLinked(Pending(es, h), Select(es, numbers, h, Unknown), packets)
  {
    if es != [] {
      SelectLinked(es[..|es| - 1], numbers[..|es| - 1], packets, h);
    }
  }

  /** What the packets built by an open connection look like. */
  lemma SendFacts(cfg: ValidConfig, c: Conn, now: int, rtt: nat, ok: bool, r: (Conn, Option<seq<Byte>>))
    requires Connections.Valid(c) && c.state != Closing && r == Transmitted(cfg, c, now, rtt, ok)
    ensures Connections.Valid(r.0) && r.0.state != Closing
    ensures r.0.recvAcks == c.recvAcks && r.0.remoteNum == c.remoteNum
    ensures r.1.None? ==> r.0.inFlight == c.inFlight && r.0.localNum == c.localNum
    ensures r.1.Some? ==>
              var packet := r.1.value;
              |packet| >= PACKET_HEADER_SIZE && packet[8] == c.localNum && packet[9] == c.remoteNum &&
              FromBigEndian(packet[10], packet[11], packet[12], packet[13]) == AckField(c.recvAcks, c.remoteNum) &&
              r.0.inFlight == Track(c, packet, now) && r.0.localNum == NextNum(c.localNum)
  {
    TransmittedShape(cfg, c, now, rtt, ok, r);
    TransmittedKeepsValid(cfg, c, now, rtt, ok);
    StateNotClosing(cfg, c, [], now, rtt, ok);
    if r.1.Some? {
      NextPacketBytes(cfg, c, r.1.value);
    }
  }

  lemma FlightGrows(es: seq<SentPacketAck>, numbers: seq<nat>, packets: seq<seq<Byte>>, packet: seq<Byte>, now: int)
    requires FlightLinked(es, numbers, packets)
    ensures FlightLinked(es, numbers, packets + [packet])
    ensures FlightLinked(es + [SentPacketAck(Seq(|packets|), now, Unknown, Some(packet))], numbers + [|packets|], packets + [packet])
  {
  }

  /** One more packet of the sender, from the facts about it alone. */
  lemma SenderGrows(w: World, w': World, packet: seq<Byte>, now: int)
    requires SenderLinked(w) && |packet| >= PACKET_HEADER_SIZE && packet[8] == w.a.conn.localNum
    requires Connections.Valid(w'.a.conn) && w'.a.conn.state != Closing
    requires w'.a.conn.inFlight == Track(w.a.conn, packet, now) && w'.a.conn.localNum == NextNum(w.a.conn.localNum)
    requires w'.packets == w.packets + [packet]
    requires w'.flight == if Tracked(w.a.conn, w.a.conn.localNum) then w.flight else w.flight + [|w.packets|]
    ensures SenderLinked(w')
  {
    hide FlightLinked, Connections.Valid, Seq;
    var n := |w.packets|;
    SeqNext(n);
    FlightGrows(w.a.conn.inFlight, w.flight, w.packets, packet, now);
    forall k | 0 <= k <= n
      ensures |w'.packets[k]| >= PACKET_HEADER_SIZE && w'.packets[k][8] == Seq(k)
    {
      assert w'.packets[k] == if k < n then w.packets[k] else packet;
    }
  }

  lemma SenderSendsLinked(cfg: ValidConfig, w: World, now: int, rtt: nat, ok: bool, w': World)
    requires SenderLinked(w) && w' == Next(cfg, w, SenderSends(now, rtt, ok))
    ensures SenderLinked(w') && w'.b == w.b && w'.accepted == w.accepted && w'.answers == w.answers && w.packets <= w'.packets
  {
    hide Transmitted, Track;
    var r := Transmitted(cfg, w.a.conn, now, rtt, ok);
    SendFacts(cfg, w.a.conn, now, rtt, ok, r);
    if r.1.Some? {
      SenderGrows(w, w', r.1.value, now);
    }
  }

  lemma ReceiveFacts(cfg: ValidConfig, c: Conn, packet: seq<Byte>, now: int, r: (Conn, bool))
    requires Connections.Valid(c) && c.state != Closing && r == Received(cfg, c, packet, now)
    ensures Connections.Valid(r.0) && r.0.state != Closing && r.0.localNum == c.localNum
    ensures r.1 ==> |packet| >= PACKET_HEADER_SIZE && r.0.inFlight == Pending(c.inFlight, ReadAcks(cfg, packet, now))
    ensures r.1 ==> r.0.recvAcks == PushAck(c.recvAcks, packet[8]) && r.0.remoteNum == packet[8]
    ensures !r.1 ==> r.0.inFlight == c.inFlight && r.0.recvAcks == c.recvAcks && r.0.remoteNum == c.remoteNum
  {
    ReceivedShape(cfg, c, packet, now, r);
    ReceivedKeepsValid(cfg, c, packet, now);
    StateNotClosing(cfg, c, packet, now, 0, true);
  }

  lemma SenderGetsLinked(cfg: ValidConfig, w: World, k: nat, now: int, w': World)
    requires SenderLinked(w) && k < |w.answers| && w' == Next(cfg, w, SenderGets(k, now))
    ensures SenderLinked(w') && w'.b == w.b && w'.accepted == w.accepted && w'.answers == w.answers && w'.packets == w.packets
  {
    hide Received, FlightLinked, Select;
    var c, packet := w.a.conn, w.answers[k].packet;
    var r := Received(cfg, c, packet, now);
    ReceiveFacts(cfg, c, packet, now, r);
    if r.1 {
      SelectLinked(c.inFlight, w.flight, w.packets, ReadAcks(cfg, packet, now));
    }
  }

  /** One more answer of the receiver, from the facts about it alone. */
  lemma ReceiverAnswers(w: World, w': World, packet: seq<Byte>)
    requires ReceiverLinked(w) && |packet| >= PACKET_HEADER_SIZE && packet[9] == w.b.conn.remoteNum
    requires FromBigEndian(packet[10], packet[11], packet[12], packet[13]) == AckField(w.b.conn.recvAcks, w.b.conn.remoteNum)
    requires Connections.Valid(w'.b.conn) && w'.b.conn.state != Closing
    requires w'.b.conn.recvAcks == w.b.conn.recvAcks && w'.b.conn.remoteNum == w.b.conn.remoteNum
    requires w'.b.accepted == w.b.accepted && w'.accepted == w.accepted && w'.packets == w.packets
    requires w'.answers == w.answers + [Answer(packet, w.accepted)]
    ensures ReceiverLinked(w')
  {
    assert HeaderOf(packet, w.accepted);
  }

  lemma ReceiverSendsLinked(cfg: ValidConfig, w: World, now: int, rtt: nat, ok: bool, w': World)
    requires ReceiverLinked(w) && |w.flight| == |w.a.conn.inFlight| && w' == Next(cfg, w, ReceiverSends(now, rtt, ok))
    ensures ReceiverLinked(w') && w'.a == w.a && w'.flight == w.flight && w'.packets == w.packets
  {
    hide Transmitted, Track;
    var r := Transmitted(cfg, w.b.conn, now, rtt, ok);
    SendFacts(cfg, w.b.conn, now, rtt, ok, r);
    if r.1.Some? {
      ReceiverAnswers(w, w', r.1.value);
    }
  }

  /** One more number of the receiver, from the facts about its packet alone. */
  lemma ReceiverHears(w: World, w': World, n: nat, num: Byte)
    requires ReceiverLinked(w) && n < |w.packets| && num == Seq(n)
    requires Connections.Valid(w'.b.conn) && w'.b.conn.state != Closing
    requires w'.b.conn.recvAcks == PushAck(w.b.conn.recvAcks, num) && w'.b.conn.remoteNum == num
    requires w'.b.accepted == w.b.accepted + [num] && w'.accepted == w.accepted + [n]
    requires w'.answers == w.answers && w'.packets == w.packets
    ensures ReceiverLinked(w')
  {
    PushNewest(w.b.accepted, num);
    assert Seqs(w.accepted + [n]) == w.b.accepted + [num];
    assert w.accepted <= w'.accepted;
  }

  lemma ReceiverGetsLinked(cfg: ValidConfig, w: World, n: nat, now: int, w': World)
    requires Linked(w) && n < |w.packets| && w' == Next(cfg, w, ReceiverGets(n, now))
    ensures ReceiverLinked(w') && w'.a == w.a && w'.flight == w.flight && w'.packets == w.packets
  {
    hide Received;
    var r := Received(cfg, w.b.conn, w.packets[n], now);
    ReceiveFacts(cfg, w.b.conn, w.packets[n], now, r);
    if r.1 {
      ReceiverHears(w, w', n, w.packets[n][8]);
    }
  }

  lemma SenderKeeps(w: World, w': World)
    requires SenderLinked(w) && w'.a == w.a && w'.flight == w.flight && w'.packets == w.packets
    ensures SenderLinked(w')
  {
  }

  lemma ReceiverKeeps(w: World, w': World)
    requires ReceiverLinked(w) && w'.b == w.b && w'.accepted == w.accepted && w'.answers == w.answers && w.packets <= w'.packets
    ensures ReceiverLinked(w')
  {
  }

  lemma NextLinked(cfg: ValidConfig, w: World, step: Step, w': World)
    requires Linked(w) && Possible(w, step) && w' == Next(cfg, w, step)
    ensures Linked(w')
  {
    assert |w.flight| == |w.a.conn.inFlight|;
    hide Next, SenderLinked, ReceiverLinked;
    if step.SenderSends? {
      SenderSendsLinked(cfg, w, step.now, step.rtt, step.ok, w');
      ReceiverKeeps(w, w');
    } else if step.SenderGets? {
      SenderGetsLinked(cfg, w, step.k, step.now, w');
      ReceiverKeeps(w, w');
    } else if step.ReceiverSends? {
      ReceiverSendsLinked(cfg, w, step.now, step.rtt, step.ok, w');
      SenderKeeps(w, w');
    } else if step.ReceiverGets? {
      ReceiverGetsLinked(cfg, w, step.n, step.now, w');
      SenderKeeps(w, w');
    } else {
      LocalLinked(cfg, w, step, w');
    }
  }

  lemma SenderSame(w: World, w': World)
    requires SenderLinked(w) && Connections.Valid(w'.a.conn) && w'.a.conn.state != Closing
    requires w'.a.conn.inFlight == w.a.conn.inFlight && w'.a.conn.localNum == w.a.conn.localNum
    requires w'.flight == w.flight && w'.packets == w.packets
    ensures SenderLinked(w')
  {
  }

  lemma ReceiverSame(w: World, w': World)
    requires ReceiverLinked(w) && Connections.Valid(w'.b.conn) && w'.b.conn.state != Closing
    requires w'.b.conn.recvAcks == w.b.conn.recvAcks && w'.b.conn.remoteNum == w.b.conn.remoteNum
    requires w'.b.accepted == w.b.accepted && w'.accepted == w.accepted
    requires w'.answers == w.answers && w'.packets == w.packets
    ensures ReceiverLinked(w')
  {
  }

  lemma SaidValid(c: Conn, kind: MessageKind, data: seq<Byte>)
    requires Connections.Valid(c)
    ensures Connections.Valid(SentMessage(c, kind, data)) && Connections.Valid(Drained(c).0)
  {
  }

  /** Sending a message or taking events touches nothing of this. */
  lemma LocalLinked(cfg: ValidConfig, w: World, step: Step, w': World)
    requires Linked(w) && Possible(w, step) && w' == Next(cfg, w, step)
    requires step.SenderSays? || step.SenderTakesEvents? || step.ReceiverSays? || step.ReceiverTakesEvents?
    ensures Linked(w')
  {
    var (kind, data) := if step.SenderSays? || step.ReceiverSays? then (step.kind, step.data) else (Instant, []);
    SaidValid(w.a.conn, kind, data);
    SaidValid(w.b.conn, kind, data);
    SenderSame(w, w');
    ReceiverSame(w, w');
  }

  // ----- accepted packets are strictly newer -----

  /** A connected receiver takes a packet within 127 numbers of the newest
      accepted one exactly if it is newer, unless it looks like a closure. */
  lemma AcceptedIffNewer(cfg: ValidConfig, w: World, n: nat, now: int)
    requires Linked(w) && n < |w.packets| && w.accepted != [] && w.b.conn.state == Connected
    requires -128 < n - w.accepted[|w.accepted| - 1] < 128
    requires w.packets[n][..4] == cfg.protocolHeader
    ensures Received(cfg, w.b.conn, w.packets[n], now).1 <==>
            n > w.accepted[|w.accepted| - 1] && w.packets[n][8..14] != CLOSURE_PACKET_DATA
  {
    MoreRecentIsNewer(n, w.accepted[|w.accepted| - 1]);
  }

  predicate Increasing(numbers: seq<nat>) {
    forall j, k | 0 <= j < k < |numbers| :: numbers[j] < numbers[k]
  }

  /** The accepted numbers increase, so none is processed twice; before the first
      one the receiver is still connecting. */
  predicate InOrderOfNumber(w: World) {
    Increasing(w.accepted) && (w.b.conn.state == Connecting ==> w.accepted == [])
  }

  /** An arriving packet is within 127 numbers of the newest accepted one. */
  predicate NotStale(w: World, step: Step) {
    step.ReceiverGets? && w.accepted != [] ==> -128 < step.n - w.accepted[|w.accepted| - 1] < 128
  }

  lemma AcceptanceNeedsOpen(cfg: ValidConfig, c: Conn, packet: seq<Byte>, now: int)
    requires c.state != Closing && Received(cfg, c, packet, now).1
    ensures c.state == Connecting || (c.state == Connected && SeqIsMoreRecent(packet[8], c.remoteNum))
  {
    hide Received;
    ReceivedLife(cfg, c, packet, now, Received(cfg, c, packet, now));
  }

  lemma StaysConnected(cfg: ValidConfig, c: Conn, packet: seq<Byte>, now: int, rtt: nat, ok: bool)
    ensures Received(cfg, c, packet, now).0.state == Connecting ==> !Received(cfg, c, packet, now).1 && c.state == Connecting
    ensures Transmitted(cfg, c, now, rtt, ok).0.state == Connecting ==> c.state == Connecting
  {
    hide Received, Transmitted;
    ReceivedLife(cfg, c, packet, now, Received(cfg, c, packet, now));
    TransmittedLife(cfg, c, now, rtt, ok, Transmitted(cfg, c, now, rtt, ok));
  }

  lemma IncreasingAppend(numbers: seq<nat>, n: nat)
    requires Increasing(numbers) && (numbers != [] ==> n > numbers[|numbers| - 1])
    ensures Increasing(numbers + [n])
  {
  }

  lemma AcceptedIsNewer(cfg: ValidConfig, w: World, n: nat, now: int)
    requires Linked(w) && InOrderOfNumber(w) && n < |w.packets| && NotStale(w, ReceiverGets(n, now))
    requires Received(cfg, w.b.conn, w.packets[n], now).1
    ensures w.accepted != [] ==> n > w.accepted[|w.accepted| - 1]
  {
    AcceptanceNeedsOpen(cfg, w.b.conn, w.packets[n], now);
    if w.accepted != [] {
      MoreRecentIsNewer(n, w.accepted[|w.accepted| - 1]);
    }
  }

  lemma ReceiverGetsIncreases(cfg: ValidConfig, w: World, n: nat, now: int, w': World)
    requires Linked(w) && InOrderOfNumber(w) && n < |w.packets| && NotStale(w, ReceiverGets(n, now))
    requires w' == Next(cfg, w, ReceiverGets(n, now))
    ensures InOrderOfNumber(w')
  {
    hide Received, Linked, NotStale;
    var r := Received(cfg, w.b.conn, w.packets[n], now);
    StaysConnected(cfg, w.b.conn, w.packets[n], now, 0, true);
    assert w'.b.conn == r.0 && w'.accepted == if r.1 then w.accepted + [n] else w.accepted;
    if r.1 {
      AcceptedIsNewer(cfg, w, n, now);
      IncreasingAppend(w.accepted, n);
    }
  }

  lemma ReceiverSendsIncreases(cfg: ValidConfig, w: World, now: int, rtt: nat, ok: bool, w': World)
    requires |w.flight| == |w.a.conn.inFlight| && InOrderOfNumber(w) && w' == Next(cfg, w, ReceiverSends(now, rtt, ok))
    ensures InOrderOfNumber(w')
  {
    StaysConnected(cfg, w.b.conn, [], now, rtt, ok);
  }

  lemma OthersIncrease(cfg: ValidConfig, w: World, step: Step, w': World)
    requires |w.flight| == |w.a.conn.inFlight| && InOrderOfNumber(w) && Possible(w, step) && w' == Next(cfg, w, step)
    requires !step.ReceiverGets? && !step.ReceiverSends?
    ensures InOrderOfNumber(w')
  {
    assert w'.accepted == w.accepted && w'.b.conn.state == w.b.conn.state;
  }

  lemma AcceptedIncrease(cfg: ValidConfig, w: World, step: Step, w': World)
    requires Linked(w) && InOrderOfNumber(w) && Possible(w, step) && NotStale(w, step) && w' == Next(cfg, w, step)
    ensures InOrderOfNumber(w')
  {
    if step.ReceiverGets? {
      ReceiverGetsIncreases(cfg, w, step.n, step.now, w');
    } else if step.ReceiverSends? {
      ReceiverSendsIncreases(cfg, w, step.now, step.rtt, step.ok, w');
    } else {
      OthersIncrease(cfg, w, step, w');
    }
  }

  // ----- no false acknowledgement -----

  /** A header built when `accepted` were the accepted numbers cannot mistake `p`
      for another number: the last accepted numbers span at most 256, and `p`
      lies less than 256 below and less than 224 above the newest one. Before
      anything was accepted the header speaks of byte 0. */
  predicate Unaliased(p: nat, accepted: seq<nat>) {
    if accepted == [] then Seq(p) != 0
    else
      var newest: int := accepted[|accepted| - 1];
      -256 < p - newest < 224 &&
      forall k | 0 <= k < |accepted| && |accepted| <= k + MAX_ACK_BITS :: 0 <= newest - accepted[k] <= 256
  }

  predicate AckWindow(flight: seq<nat>, accepted: seq<nat>) {
    forall j | 0 <= j < |flight| :: Unaliased(flight[j], accepted)
  }

  /** The number behind an entry of the acknowledgement queue. */
  lemma QueuedWasAccepted(accepted: seq<nat>, p: nat, i: nat)
    requires accepted != [] && Unaliased(p, accepted)
    requires i < |Newest(Seqs(accepted))| && Newest(Seqs(accepted))[i] == Seq(p)
    requires 1 <= Distance(Seq(accepted[|accepted| - 1]), Seq(p)) <= 32
    ensures p in accepted
  {
    var k := |accepted| - 1 - i;
    assert Newest(Seqs(accepted))[i] == Seqs(accepted)[k] == Seq(accepted[k]);
    SameNumber(accepted[|accepted| - 1], accepted[k], p);
  }

  /** An acknowledged number that is not aliased was accepted. */
  lemma AckedWasAccepted(packet: seq<Byte>, accepted: seq<nat>, p: nat)
    requires HeaderOf(packet, accepted) && Unaliased(p, accepted)
    requires SeqWasAcked(Seq(p), packet[9], FromBigEndian(packet[10], packet[11], packet[12], packet[13]))
    ensures p in accepted
  {
    if accepted == [] {
      FreshHeader(packet, Seq(p));
    } else {
      var newest, queue := accepted[|accepted| - 1], Newest(Seqs(accepted));
      AckFieldExact(queue, Seq(newest), Seq(p));
      if Seq(p) == Seq(newest) {
        SeqInjective(p, newest);
      } else {
        var i :| 0 <= i < |queue| && queue[i] == Seq(p);
        QueuedWasAccepted(accepted, p, i);
      }
    }
  }

  lemma SameNumber(newest: nat, q: nat, p: nat)
    requires 0 <= newest - q <= 256 && -256 < p - newest < 224
    requires Seq(q) == Seq(p) && 1 <= Distance(Seq(newest), Seq(q)) <= 32
    ensures p == q
  {
    DistanceOfNumbers(newest, q);
    assert newest - q <= 32;
    SeqInjective(p, q);
  }

  lemma {:induction false} SelectAcked(es: seq<SentPacketAck>, numbers: seq<nat>, packets: seq<seq<Byte>>, h: AckInfo,
                                       packet: seq<Byte>, accepted: seq<nat>)
    requires FlightLinked(es, numbers, packets) && HeaderOf(packet, accepted) && AckWindow(numbers, accepted)
    requires h.ack == packet[9] && h.field == FromBigEndian(packet[10], packet[11], packet[12], packet[13])
    requires forall k | 0 <= k < |es| :: es[k].state == Unknown
    ensures forall p | p in Select(es, numbers, h, Acked) :: p in accepted
  {
    if es != [] {
      var last := |es| - 1;
      SelectAcked(es[..last], numbers[..last], packets, h, packet, accepted);
      if Verdict(es[last], h) == Acked {
        AckedWasAccepted(packet, accepted, numbers[last]);
      }
    }
  }

  /** The sender only hears of packets that the receiver really accepted. */
  predicate Honest(w: World) {
    forall p | p in w.confirmed :: p in w.accepted
  }

  /** An answer that the sender accepts reaches it while its numbers do not alias. */
  ghost predicate InAckWindow(cfg: ValidConfig, w: World, step: Step)
    requires Possible(w, step)
  {
    step.SenderGets? && Received(cfg, w.a.conn, w.answers[step.k].packet, step.now).1 ==>
      AckWindow(w.flight, w.answers[step.k].accepted)
  }

  lemma SenderGetsHonest(cfg: ValidConfig, w: World, k: nat, now: int, w': World)
    requires Linked(w) && Honest(w) && k < |w.answers| && InAckWindow(cfg, w, SenderGets(k, now))
    requires w' == Next(cfg, w, SenderGets(k, now))
    ensures Honest(w')
  {
    hide Received, SenderLinked;
    var answer := w.answers[k];
    if Received(cfg, w.a.conn, answer.packet, now).1 {
      AnswerKnown(w, k);
      SelectAcked(w.a.conn.inFlight, w.flight, w.packets, ReadAcks(cfg, answer.packet, now), answer.packet, answer.accepted);
    }
  }

  lemma AnswerKnown(w: World, k: nat)
    requires Linked(w) && k < |w.answers|
    ensures HeaderOf(w.answers[k].packet, w.answers[k].accepted) && FlightLinked(w.a.conn.inFlight, w.flight, w.packets)
    ensures forall j | 0 <= j < |w.a.conn.inFlight| :: w.a.conn.inFlight[j].state == Unknown
    ensures forall p | p in w.answers[k].accepted :: p in w.accepted
  {
    assert w.answers[k].accepted <= w.accepted;
  }

  lemma NoFalseAck(cfg: ValidConfig, w: World, step: Step, w': World)
    requires Linked(w) && Honest(w) && Possible(w, step) && InAckWindow(cfg, w, step) && w' == Next(cfg, w, step)
    ensures Honest(w')
  {
    if step.SenderGets? {
      SenderGetsHonest(cfg, w, step.k, step.now, w');
    } else {
      hide Linked, Received, Transmitted;
      assert w'.confirmed == w.confirmed && w.accepted <= w'.accepted;
    }
  }

  // ----- whole runs -----

  /** A step that is not possible does not happen. */
  ghost function Advance(cfg: ValidConfig, w: World, step: Step): World {
    if Possible(w, step) && |w.flight| == |w.a.conn.inFlight| then Next(cfg, w, step) else w
  }

  ghost function RunWorld(cfg: ValidConfig, w: World, steps: seq<Step>): World {
    if steps == [] then w else Advance(cfg, RunWorld(cfg, w, steps[..|steps| - 1]), steps[|steps| - 1])
  }

  lemma {:induction false} RunLinked(cfg: ValidConfig, w: World, steps: seq<Step>, w': World)
    requires Linked(w) && w' == RunWorld(cfg, w, steps)
    ensures Linked(w')
  {
    if steps != [] {
      var before, step := RunWorld(cfg, w, steps[..|steps| - 1]), steps[|steps| - 1];
      RunLinked(cfg, w, steps[..|steps| - 1], before);
      if Possible(before, step) {
        NextLinked(cfg, before, step, w');
      }
    }
  }

  ghost predicate AlwaysInAckWindow(cfg: ValidConfig, w: World, steps: seq<Step>) {
    steps == [] ||
    (var before, step := RunWorld(cfg, w, steps[..|steps| - 1]), steps[|steps| - 1];
     AlwaysInAckWindow(cfg, w, steps[..|steps| - 1]) && (Possible(before, step) ==> InAckWindow(cfg, before, step)))
  }

  /** Over every run, however the network loses, duplicates and reorders: while
      answers arrive before their numbers alias, no packet is taken for
      acknowledged that the receiver did not accept. */
  lemma {:induction false} NoFalseAckEver(cfg: ValidConfig, w: World, steps: seq<Step>, w': World)
    requires Linked(w) && Honest(w) && AlwaysInAckWindow(cfg, w, steps) && w' == RunWorld(cfg, w, steps)
    ensures Linked(w') && Honest(w')
  {
    if steps != [] {
      var before, step := RunWorld(cfg, w, steps[..|steps| - 1]), steps[|steps| - 1];
      NoFalseAckEver(cfg, w, steps[..|steps| - 1], before);
      if Possible(before, step) {
        NextLinked(cfg, before, step, w');
        NoFalseAck(cfg, before, step, w');
      }
    }
  }

  ghost predicate NeverStale(cfg: ValidConfig, w: World, steps: seq<Step>) {
    steps == [] ||
    (NeverStale(cfg, w, steps[..|steps| - 1]) && NotStale(RunWorld(cfg, w, steps[..|steps| - 1]), steps[|steps| - 1]))
  }

  /** Over every run in which no packet arrives more than 127 numbers off, the
      receiver processes packets in strictly increasing order of their numbers. */
  lemma {:induction false} AcceptedAlwaysIncrease(cfg: ValidConfig, w: World, steps: seq<Step>, w': World)
    requires Linked(w) && InOrderOfNumber(w) && NeverStale(cfg, w, steps) && w' == RunWorld(cfg, w, steps)
    ensures Linked(w') && InOrderOfNumber(w')
  {
    if steps != [] {
      var before, step := RunWorld(cfg, w, steps[..|steps| - 1]), steps[|steps| - 1];
      AcceptedAlwaysIncrease(cfg, w, steps[..|steps| - 1], before);
      if Possible(before, step) {
        NextLinked(cfg, before, step, w');
        AcceptedIncrease(cfg, before, step, w');
      }
    }
  }

  lemma NewWorldLinked(now: int)
    ensures Linked(NewWorld(now)) && Honest(NewWorld(now))
  {
    NewSessionConserves(0, 1, now, Reliable);
    NewSessionConserves(0, 0, now, Reliable);
    assert Newest([]) == [];
  }

  // ----- the peer that has received nothing -----

  /** A header built before anything was accepted acknowledges number 0 alone. */
  lemma FreshHeader(packet: seq<Byte>, num: Byte)
    requires HeaderOf(packet, [])
    ensures SeqWasAcked(num, packet[9], FromBigEndian(packet[10], packet[11], packet[12], packet[13])) <==> num == 0
  {
    assert Newest(Seqs([])) == [];
    AckFieldExact([], 0, num);
  }

  lemma FreshVerdict(e: SentPacketAck, n: nat, h: AckInfo, packet: seq<Byte>)
    requires HeaderOf(packet, []) && e.num == Seq(n) && e.state == Unknown
    requires h.ack == packet[9] && h.field == FromBigEndian(packet[10], packet[11], packet[12], packet[13])
    ensures Verdict(e, h) == Acked <==> Seq(n) == 0
  {
    FreshHeader(packet, Seq(n));
  }

  lemma {:induction false} FreshHeaderSelects(es: seq<SentPacketAck>, numbers: seq<nat>, packets: seq<seq<Byte>>, h: AckInfo,
                                              packet: seq<Byte>)
    requires FlightLinked(es, numbers, packets) && HeaderOf(packet, [])
    requires forall k | 0 <= k < |es| :: es[k].state == Unknown
    requires h.ack == packet[9] && h.field == FromBigEndian(packet[10], packet[11], packet[12], packet[13])
    ensures Select(es, numbers, h, Acked) == [] <==> forall j | 0 <= j < |numbers| :: Seq(numbers[j]) != 0
  {
    hide HeaderOf, Verdict, Seq;
    if es != [] {
      var last := |es| - 1;
      FreshHeaderSelects(es[..last], numbers[..last], packets, h, packet);
      FreshVerdict(es[last], numbers[last], h, packet);
      assert forall j | 0 <= j < last :: numbers[..last][j] == numbers[j];
    }
  }

  /** What a peer sends before it has accepted anything confirms nothing exactly
      when no packet in flight has byte 0. */
  lemma FreshAnswerConfirmsNothingIff(cfg: ValidConfig, w: World, k: nat, now: int, w': World)
    requires Linked(w) && k < |w.answers| && w.answers[k].accepted == [] && w' == Next(cfg, w, SenderGets(k, now))
    requires Received(cfg, w.a.conn, w.answers[k].packet, now).1
    ensures w'.confirmed == w.confirmed <==> forall j | 0 <= j < |w.flight| :: Seq(w.flight[j]) != 0
  {
    hide Received, SenderLinked;
    var packet := w.answers[k].packet;
    AnswerKnown(w, k);
    FreshHeaderSelects(w.a.conn.inFlight, w.flight, w.packets, ReadAcks(cfg, packet, now), packet);
  }

  lemma FirstTransmission(cfg: ValidConfig, c: Conn, r: (Conn, Option<seq<Byte>>))
    requires c.state == Connecting && c.lastReceive == 0 && c.limiter == Fresh(0) && c.inFlight == []
    requires r == Transmitted(cfg, c, 0, 0, true)
    ensures r.1 == Some(NextPacket(cfg, c)) && r.0.state == Connecting && r.0.inFlight == Track(c, NextPacket(cfg, c), 0)
  {
    hide Updated, Track, NextPacket, NextSplit, AckField;
    TransmittedShape(cfg, c, 0, 0, true, r);
    assert SendState(cfg, c, 0) == (c, true);
    FreshSends(0);
  }

  lemma FirstSend(cfg: ValidConfig, w: World, w': World)
    requires w == NewWorld(0) && w' == Advance(cfg, w, SenderSends(0, 0, true))
    ensures w'.flight == [0] && w'.confirmed == [] && w'.a.conn.state == Connecting
    ensures w'.b == w.b && w'.accepted == [] && w'.answers == []
  {
    FirstTransmission(cfg, w.a.conn, Transmitted(cfg, w.a.conn, 0, 0, true));
    assert !Tracked(w.a.conn, w.a.conn.localNum) && w.flight + [0] == [0];
  }

  lemma FirstAnswer(cfg: ValidConfig, w: World, w': World)
    requires Linked(w) && w.b == NewWorld(0).b && w.accepted == [] && w.answers == []
    requires w' == Advance(cfg, w, ReceiverSends(0, 0, true))
    ensures w'.a == w.a && w'.flight == w.flight && w'.confirmed == w.confirmed && w'.accepted == []
    ensures |w'.answers| == 1 && w'.answers[0].accepted == [] && w'.answers[0].packet == NextPacket(cfg, w.b.conn)
  {
    FirstTransmission(cfg, w.b.conn, Transmitted(cfg, w.b.conn, 0, 0, true));
  }

  lemma AdvanceLinked(cfg: ValidConfig, w: World, step: Step, w': World)
    requires Linked(w) && w' == Advance(cfg, w, step)
    ensures Linked(w')
  {
    if Possible(w, step) {
      NextLinked(cfg, w, step, w');
    }
  }

  lemma PacketPrefix(cfg: ValidConfig, c: Conn)
    ensures NextPacket(cfg, c)[..4] == cfg.protocolHeader
  {
  }

  lemma FirstExchange(cfg: ValidConfig, w: World, w1: World, w2: World)
    requires w == NewWorld(0)
    requires w1 == Advance(cfg, w, SenderSends(0, 0, true)) && w2 == Advance(cfg, w1, ReceiverSends(0, 0, true))
    ensures Linked(w2) && |w2.answers| == 1 && w2.answers[0].accepted == [] && w2.flight == [0]
    ensures w2.confirmed == [] && w2.accepted == [] && w2.a.conn.state == Connecting
    ensures w2.answers[0].packet[..4] == cfg.protocolHeader
  {
    assert Linked(w1) by {
      NewWorldLinked(0);
      AdvanceLinked(cfg, w, SenderSends(0, 0, true), w1);
    }
    assert Linked(w2) by {
      AdvanceLinked(cfg, w1, ReceiverSends(0, 0, true), w2);
    }
    FirstSend(cfg, w, w1);
    FirstAnswer(cfg, w1, w2);
    PacketPrefix(cfg, w1.b.conn);
  }

  lemma FreshAnswerConfirms(cfg: ValidConfig, w: World, w': World)
    requires Linked(w) && |w.answers| == 1 && w.answers[0].accepted == [] && w.flight == [0]
    requires w.confirmed == [] && w.accepted == [] && w.a.conn.state == Connecting
    requires w.answers[0].packet[..4] == cfg.protocolHeader && w' == Advance(cfg, w, SenderGets(0, 0))
    ensures w'.confirmed == [0] && w'.accepted == []
  {
    var packet, es := w.answers[0].packet, w.a.conn.inFlight;
    var h := ReadAcks(cfg, packet, 0);
    FreshHeader(packet, 0);
    assert Verdict(es[0], h) == Acked;
    assert Select(es[..0], w.flight[..0], h, Acked) == [];
    assert Select(es, w.flight, h, Acked) == [0];
    assert Received(cfg, w.a.conn, packet, 0).1;
  }

  /** The first packet of a connection is not protected: sent to a peer that has
      received nothing, it is taken for acknowledged by the peer's first packet. */
  lemma FreshPeerAcksPacketZero(cfg: ValidConfig, w: World, w1: World, w2: World, w3: World)
    requires w == NewWorld(0)
    requires w1 == Advance(cfg, w, SenderSends(0, 0, true)) && w2 == Advance(cfg, w1, ReceiverSends(0, 0, true))
    requires w3 == Advance(cfg, w2, SenderGets(0, 0))
    ensures w3.confirmed == [0] && w3.accepted == [] && !Honest(w3)
  {
    FirstExchange(cfg, w, w1, w2);
    FreshAnswerConfirms(cfg, w2, w3);
    assert 0 in w3.confirmed;
  }
}
