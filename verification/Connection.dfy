/** The virtual connection of src/shared/connection.rs. `Conn` is its value and
    the functions say what each operation makes of it; the class updates it in
    place and is proved against them. The clock, the round trip time and the
    outcome of the socket are parameters, and the packet modifier is the one of
    src/shared/noop_packet_modifier.rs, which leaves packets as they are. */
module Connections {
  import opened Bytes
  import opened MessageCodec
  import opened PacketFill
  import opened MessageQueues
  import opened AckHeader
  import opened RateLimiting

  const PACKET_HEADER_SIZE := 14

  /** Sent instead of sequence numbers and acks by a closing connection. */
  const CLOSURE_PACKET_DATA: seq<Byte> := [0, 128, 85, 85, 85, 85]

  datatype PacketState = Unknown | Acked | Dropped

  datatype SentPacketAck = SentPacketAck(num: Byte, time: int, state: PacketState, packet: Option<seq<Byte>>)

  datatype ConnectionState = Connecting | Connected | FailedToConnect | Lost | Closing | Closed

  datatype Event =
    | ConnectedEvent
    | FailedToConnectEvent
    | LostEvent(byRemote: bool)
    | ClosedEvent(byRemote: bool)
    | MessageEvent(data: seq<Byte>)
    | PacketLostEvent(payload: seq<Byte>)
    | CongestionStateChangedEvent(congested: bool)

  datatype Config = Config(
    protocolHeader: seq<Byte>,
    packetMaxSize: nat,
    packetDropThreshold: nat,
    connectionInitThreshold: nat,
    connectionDropThreshold: nat,
    connectionClosingThreshold: nat,
    quotas: Quotas)

  /** Header and quotas of every packet fit. */
  predicate ConfigValid(cfg: Config) {
    |cfg.protocolHeader| == 4 && cfg.packetMaxSize >= PACKET_HEADER_SIZE &&
    QuotasFit(cfg.quotas, cfg.packetMaxSize - PACKET_HEADER_SIZE)
  }

  type ValidConfig = cfg: Config | ConfigValid(cfg)
    witness Config([1, 2, 3, 4], 14, 1000, 100, 1000, 150, Quotas(60, 20, 20))

  datatype Conn = Conn(
    id: U32,
    peer: nat,
    state: ConnectionState,
    remoteNum: Byte,
    localNum: Byte,
    lastReceive: int,
    lastSend: int,
    recvAcks: seq<Byte>,
    inFlight: seq<SentPacketAck>,
    sentPackets: U32,
    recvPackets: U32,
    lostPackets: U32,
    ackedPackets: U32,
    queue: Queue,
    limiter: Limiter,
    events: seq<Event>)

  function NewConn(id: U32, peer: nat, now: int): Conn {
    Conn(id, peer, Connecting, 0, 0, now, now, [], [], 0, 0, 0, 0, EMPTY_QUEUE, Fresh(now), [])
  }

  predicate Open(c: Conn) {
    c.state == Closing || c.state == Connecting || c.state == Connected
  }

  function IdFromPacket(cfg: ValidConfig, packet: seq<Byte>): Option<U32> {
    if |packet| >= 8 && packet[..4] == cfg.protocolHeader then
      Some(FromBigEndian(packet[4], packet[5], packet[6], packet[7]))
    else None
  }

  function Payload(packet: seq<Byte>): seq<Byte> {
    packet[Min(PACKET_HEADER_SIZE, |packet|)..]
  }

  // ----- acknowledgement and loss -----

  /** What a received header says, and when and by which threshold it is judged. */
  datatype AckInfo = AckInfo(ack: Byte, field: U32, now: int, threshold: nat)

  function ReadAcks(cfg: ValidConfig, packet: seq<Byte>, now: int): AckInfo
    requires |packet| >= PACKET_HEADER_SIZE
  {
    AckInfo(packet[9], FromBigEndian(packet[10], packet[11], packet[12], packet[13]), now, cfg.packetDropThreshold)
  }

  /** The fate of a tracked packet: acknowledged, too old, or still pending. */
  function Verdict(e: SentPacketAck, h: AckInfo): PacketState {
    if SeqWasAcked(e.num, h.ack, h.field) then Acked
    else if h.now - e.time > h.threshold then Dropped
    else e.state
  }

  function Judge(e: SentPacketAck, h: AckInfo): SentPacketAck {
    if Verdict(e, h) == Dropped then e.(state := Dropped, packet := None) else e.(state := Verdict(e, h))
  }

  function JudgeAll(es: seq<SentPacketAck>, h: AckInfo): (r: seq<SentPacketAck>)
    ensures |r| == |es|
  {
    if es == [] then [] else JudgeAll(es[..|es| - 1], h) + [Judge(es[|es| - 1], h)]
  }

  function Retain(es: seq<SentPacketAck>): seq<SentPacketAck> {
    if es == [] then []
    else Retain(es[..|es| - 1]) + if es[|es| - 1].state == Unknown then [es[|es| - 1]] else []
  }

  /** How many entries get the verdict `s`. */
  function Count(es: seq<SentPacketAck>, h: AckInfo, s: PacketState): nat {
    if es == [] then 0 else Count(es[..|es| - 1], h, s) + if Verdict(es[|es| - 1], h) == s then 1 else 0
  }

  /** The tracked bytes of the entries that get the verdict `s`, in order. */
  function Packets(es: seq<SentPacketAck>, h: AckInfo, s: PacketState): seq<seq<Byte>> {
    if es == [] then []
    else
      var e := es[|es| - 1];
      Packets(es[..|es| - 1], h, s) + if Verdict(e, h) == s && e.packet.Some? then [e.packet.value] else []
  }

  function RequeueAll(q: Queue, packets: seq<seq<Byte>>): Queue {
    if packets == [] then q
    else Requeue(RequeueAll(q, packets[..|packets| - 1]), Parse(Payload(packets[|packets| - 1])))
  }

  function LostEvents(packets: seq<seq<Byte>>): seq<Event> {
    if packets == [] then []
    else LostEvents(packets[..|packets| - 1]) + [PacketLostEvent(Payload(packets[|packets| - 1]))]
  }

  lemma {:induction false} LostEventsAreLosses(packets: seq<seq<Byte>>)
    ensures forall k | 0 <= k < |LostEvents(packets)| :: LostEvents(packets)[k].PacketLostEvent?
  {
    if packets != [] {
      LostEventsAreLosses(packets[..|packets| - 1]);
    }
  }

  // ----- receiving -----

  /** `update_receive_state`: whether a packet is to be processed. */
  function ReceiveState(cfg: ValidConfig, c: Conn, packet: seq<Byte>): (Conn, bool)
    requires |packet| >= PACKET_HEADER_SIZE
  {
    if packet[..4] != cfg.protocolHeader then (c, false)
    else match c.state
      case Lost | Closed | FailedToConnect => (c, false)
      case Closing => (c, true)
      case Connecting => (c.(state := Connected, lostPackets := 0, events := c.events + [ConnectedEvent]), true)
      case Connected =>
        if packet[8..14] == CLOSURE_PACKET_DATA then
          (c.(state := Closed, events := c.events + [ClosedEvent(true)]), false)
        else (c, SeqIsMoreRecent(packet[8], c.remoteNum))
  }

  /** All tracked packets judged by a header: counters, queue and events. */
  function ApplyAcks(c: Conn, h: AckInfo): Conn {
    var lost := Packets(c.inFlight, h, Dropped);
    c.(inFlight := JudgeAll(c.inFlight, h),
       ackedPackets := Plus32(c.ackedPackets, Count(c.inFlight, h, Acked)),
       lostPackets := Plus32(c.lostPackets, Count(c.inFlight, h, Dropped)),
       queue := RequeueAll(c.queue, lost),
       events := c.events + LostEvents(lost))
  }

  function PushAck(acks: seq<Byte>, num: Byte): seq<Byte> {
    if |acks| < MAX_ACK_BITS then [num] + acks else [num] + acks[..|acks| - 1]
  }

  /** The header of a packet that passed, applied to the tracked packets. */
  function ApplyHeader(cfg: ValidConfig, c: Conn, packet: seq<Byte>, now: int): Conn
    requires |packet| >= PACKET_HEADER_SIZE
  {
    ApplyAcks(c.(lastReceive := now, remoteNum := packet[8]), ReadAcks(cfg, packet, now))
  }

  /** Its payload, and the upkeep of both acknowledgement queues. */
  function ApplyPayload(c: Conn, packet: seq<Byte>): Conn {
    c.(queue := c.queue.(inbox := DeliverAll(c.queue.inbox, Parse(Payload(packet)))),
       inFlight := Retain(c.inFlight),
       recvAcks := PushAck(c.recvAcks, c.remoteNum),
       recvPackets := Succ32(c.recvPackets))
  }

  /** The rest of `receive_packet`, for a packet that passed. */
  function Absorb(cfg: ValidConfig, c: Conn, packet: seq<Byte>, now: int): Conn
    requires |packet| >= PACKET_HEADER_SIZE
  {
    ApplyPayload(ApplyHeader(cfg, c, packet, now), packet)
  }

  function Received(cfg: ValidConfig, c: Conn, packet: seq<Byte>, now: int): (Conn, bool) {
    if |packet| < PACKET_HEADER_SIZE then (c, false)
    else
      var gate := ReceiveState(cfg, c, packet);
      if gate.1 then (Absorb(cfg, gate.0, packet, now), true) else (gate.0, false)
  }

  // ----- sending -----

  /** `update_send_state`: whether the connection may still send. */
  function SendState(cfg: ValidConfig, c: Conn, now: int): (Conn, bool) {
    match c.state
    case Lost | Closed | FailedToConnect => (c, false)
    case Connecting =>
      if now - c.lastReceive > cfg.connectionInitThreshold then
        (c.(state := FailedToConnect, events := c.events + [FailedToConnectEvent]), false)
      else (c, true)
    case Connected =>
      if now - c.lastReceive > cfg.connectionDropThreshold then
        (c.(state := Lost, events := c.events + [LostEvent(true)]), false)
      else if now - c.lastSend > cfg.connectionDropThreshold then
        (c.(state := Lost, events := c.events + [LostEvent(false)]), false)
      else (c, true)
    case Closing =>
      if now - c.lastReceive > cfg.connectionClosingThreshold then
        (c.(state := Closed, events := c.events + [ClosedEvent(false)]), false)
      else (c, true)
  }

  /** The congestion check, with its event when the mode changed. */
  function Congest(c: Conn, now: int, rtt: nat): Conn {
    var limiter := Updated(c.limiter, now, rtt);
    c.(limiter := limiter,
       events := if Congested(c.limiter) != Congested(limiter)
                 then c.events + [CongestionStateChangedEvent(!Congested(c.limiter))] else c.events)
  }

  /** Sequence number, ack number and ack bitfield; or the closure data. */
  function AckBytes(c: Conn): (b: seq<Byte>)
    ensures |b| == 6
  {
    if c.state == Closing then CLOSURE_PACKET_DATA
    else [c.localNum, c.remoteNum] + BigEndian(AckField(c.recvAcks, c.remoteNum))
  }

  function Header(cfg: ValidConfig, c: Conn): (b: seq<Byte>)
    ensures |b| == PACKET_HEADER_SIZE
  {
    cfg.protocolHeader + BigEndian(c.id) + AckBytes(c)
  }

  /** What the message queue puts into the next packet, and what it keeps. */
  function NextSplit(cfg: ValidConfig, c: Conn): Split {
    if c.state == Closing then Split([], c.queue.i, c.queue.r, c.queue.o)
    else PackQueue(c.queue, cfg.packetMaxSize - PACKET_HEADER_SIZE, cfg.quotas)
  }

  function NextPacket(cfg: ValidConfig, c: Conn): seq<Byte> {
    Header(cfg, c) + Serialize(NextSplit(cfg, c).out)
  }

  function NextNum(num: Byte): Byte {
    if num + 1 == MAX_SEQ_NUMBER then 0 else num + 1
  }

  predicate Tracked(c: Conn, num: Byte) {
    exists k :: 0 <= k < |c.inFlight| && c.inFlight[k].num == num
  }

  function Track(c: Conn, packet: seq<Byte>, now: int): seq<SentPacketAck> {
    if Tracked(c, c.localNum) then c.inFlight
    else c.inFlight + [SentPacketAck(c.localNum, now, Unknown, Some(packet))]
  }

  /** The packet goes out, or fails to, and is tracked under its number. */
  function Emit(cfg: ValidConfig, c: Conn, now: int, ok: bool): Conn {
    var s := NextSplit(cfg, c);
    c.(lastSend := if ok then now else c.lastSend,
       inFlight := Track(c, NextPacket(cfg, c), now),
       localNum := NextNum(c.localNum),
       sentPackets := Succ32(c.sentPackets),
       queue := AfterPack(c.queue, s).(inbox := c.queue.inbox.(recv := [])))
  }

  /** The connection after `send_packet`, and the packet it built, if any. */
  function Transmitted(cfg: ValidConfig, c: Conn, now: int, rtt: nat, ok: bool): (Conn, Option<seq<Byte>>) {
    var gate := SendState(cfg, c, now);
    if !gate.1 then (gate.0, None)
    else
      var checked := Congest(gate.0, now, rtt);
      if !ShouldSend(checked.limiter) then (checked, None)
      else (Emit(cfg, checked, now, ok), Some(NextPacket(cfg, checked)))
  }

  function SentMessage(c: Conn, kind: MessageKind, data: seq<Byte>): Conn {
    c.(queue := Enqueue(c.queue, kind, data))
  }

  function MessageEvents(ms: seq<Message>): (es: seq<Event>)
    ensures |es| == |ms|
  {
    if ms == [] then [] else MessageEvents(ms[..|ms| - 1]) + [MessageEvent(ms[|ms| - 1].data)]
  }

  /** `events`: the queued events, then one for every received message. */
  function Drained(c: Conn): (Conn, seq<Event>) {
    (c.(events := [], queue := c.queue.(inbox := c.queue.inbox.(recv := []))),
     c.events + MessageEvents(c.queue.inbox.recv))
  }

  lemma {:induction false} EachMessageEvent(ms: seq<Message>)
    ensures forall k | 0 <= k < |ms| :: MessageEvents(ms)[k] == MessageEvent(ms[k].data)
  {
    if ms != [] {
      EachMessageEvent(ms[..|ms| - 1]);
    }
  }

  /** Taking the events hands out the queued ones first and then the data of every
      received message, in order, and leaves neither behind. */
  lemma DrainedIsAll(c: Conn, r: (Conn, seq<Event>))
    requires r == Drained(c)
    ensures |r.1| == |c.events| + |c.queue.inbox.recv| && r.1[..|c.events|] == c.events
    ensures forall k | 0 <= k < |c.queue.inbox.recv| :: r.1[|c.events| + k] == MessageEvent(c.queue.inbox.recv[k].data)
    ensures r.0.events == [] && r.0.queue.inbox.recv == []
    ensures r.0 == c.(events := [], queue := r.0.queue) && r.0.queue == c.queue.(inbox := c.queue.inbox.(recv := []))
  {
    EachMessageEvent(c.queue.inbox.recv);
  }

  function CloseRequested(c: Conn): Conn {
    c.(state := Closing)
  }

  function Restarted(c: Conn, now: int): Conn {
    NewConn(c.id, c.peer, now).(events := c.events)
  }

  /** What an attempt to send does to the identity, the state and the events. */
  lemma TransmittedLife(cfg: ValidConfig, c: Conn, now: int, rtt: nat, ok: bool, r: (Conn, Option<seq<Byte>>))
    requires r == Transmitted(cfg, c, now, rtt, ok)
    ensures r.0.id == c.id && r.0.peer == c.peer
    ensures
      var gate := SendState(cfg, c, now);
      && r.0.state == gate.0.state && (gate.1 ==> gate.0 == c && r.0.limiter == Updated(c.limiter, now, rtt))
      && (!gate.1 ==> r == (gate.0, None))
      && r.0.events == if gate.1 then Congest(c, now, rtt).events else gate.0.events
  {
    hide NextSplit, NextPacket, Track, Updated, Succ32, AfterPack, ShouldSend, Congested;
  }

  /** What a received packet does to the identity, the state and the events. */
  lemma ReceivedLife(cfg: ValidConfig, c: Conn, packet: seq<Byte>, now: int, r: (Conn, bool))
    requires r == Received(cfg, c, packet, now)
    ensures r.0.id == c.id && r.0.peer == c.peer
    ensures |packet| < PACKET_HEADER_SIZE ==> r == (c, false)
    ensures |packet| >= PACKET_HEADER_SIZE ==>
              var gate := ReceiveState(cfg, c, packet);
              && r.1 == gate.1 && r.0.state == gate.0.state && (!gate.1 ==> r.0 == gate.0)
              && (gate.1 ==> r.0.events == gate.0.events + LostEvents(Packets(c.inFlight, ReadAcks(cfg, packet, now), Dropped)))
  {
    hide Parse, DeliverAll, RequeueAll, JudgeAll, Retain, PushAck, Plus32, Count, LostEvents, Packets, FromBigEndian;
  }

  // ----- the invariant every operation keeps -----

  predicate EntryValid(e: SentPacketAck) {
    e.state == Unknown && e.packet.Some? && |e.packet.value| >= PACKET_HEADER_SIZE
  }

  predicate Valid(c: Conn) {
    MessageQueues.Valid(c.queue) && |c.recvAcks| <= MAX_ACK_BITS &&
    InFlightValid(c.inFlight)
  }

  predicate InFlightValid(es: seq<SentPacketAck>) {
    (forall k | 0 <= k < |es| :: EntryValid(es[k])) &&
    (forall j, k | 0 <= j < k < |es| :: es[j].num != es[k].num)
  }

  /** The pending entries, in order: neither acknowledged nor too old. */
  function Pending(es: seq<SentPacketAck>, h: AckInfo): seq<SentPacketAck> {
    if es == [] then []
    else Pending(es[..|es| - 1], h) + if Verdict(es[|es| - 1], h) == Unknown then [es[|es| - 1]] else []
  }

  /** Judging and then retaining keeps exactly the pending entries, untouched. */
  lemma {:induction false} RetainJudged(es: seq<SentPacketAck>, h: AckInfo)
    ensures Retain(JudgeAll(es, h)) == Pending(es, h)
  {
    if es != [] {
      var init, last := es[..|es| - 1], es[|es| - 1];
      RetainJudged(init, h);
      assert JudgeAll(es, h)[..|es| - 1] == JudgeAll(init, h);
      assert Verdict(last, h) == Unknown ==> Judge(last, h) == last;
    }
  }

  lemma {:induction false} PendingSubset(es: seq<SentPacketAck>, h: AckInfo)
    ensures |Pending(es, h)| <= |es| && forall e | e in Pending(es, h) :: e in es && Verdict(e, h) == Unknown
  {
    if es != [] {
      PendingSubset(es[..|es| - 1], h);
    }
  }

  lemma {:induction false} PendingValid(es: seq<SentPacketAck>, h: AckInfo)
    requires InFlightValid(es)
    ensures InFlightValid(Pending(es, h))
  {
    if es != [] {
      var init, last := es[..|es| - 1], es[|es| - 1];
      PendingValid(init, h);
      PendingSubset(init, h);
      forall k | 0 <= k < |Pending(init, h)|
        ensures Pending(init, h)[k].num != last.num
      {
        assert Pending(init, h)[k] in init;
      }
    }
  }

  lemma {:induction false} RequeueAllKeepsValid(q: Queue, packets: seq<seq<Byte>>)
    requires MessageQueues.Valid(q)
    ensures MessageQueues.Valid(RequeueAll(q, packets)) && RequeueAll(q, packets).inbox == q.inbox
    ensures RequeueAll(q, packets).i == q.i && RequeueAll(q, packets).localOrder == q.localOrder
  {
    if packets != [] {
      var init, last := packets[..|packets| - 1], packets[|packets| - 1];
      RequeueAllKeepsValid(q, init);
      RequeueKeepsValid(RequeueAll(q, init), Parse(Payload(last)));
      RequeueReverses(RequeueAll(q, init), Parse(Payload(last)));
    }
  }

  lemma {:induction false} RequeueAllInbox(q: Queue, packets: seq<seq<Byte>>)
    ensures RequeueAll(q, packets).inbox == q.inbox
  {
    if packets != [] {
      var init, last := packets[..|packets| - 1], packets[|packets| - 1];
      RequeueAllInbox(q, init);
      RequeueReverses(RequeueAll(q, init), Parse(Payload(last)));
    }
  }

  lemma RestartedValid(c: Conn, now: int)
    ensures Valid(Restarted(c, now))
  {
  }

  lemma AbsorbKeepsValid(cfg: ValidConfig, c: Conn, packet: seq<Byte>, now: int)
    requires Valid(c) && |packet| >= PACKET_HEADER_SIZE
    ensures Valid(Absorb(cfg, c, packet, now))
  {
    var h := ReadAcks(cfg, packet, now);
    RetainJudged(c.inFlight, h);
    PendingValid(c.inFlight, h);
    RequeueAllKeepsValid(c.queue, Packets(c.inFlight, h, Dropped));
    DeliverAllKeepsValid(c.queue.inbox, Parse(Payload(packet)));
  }

  lemma ReceivedKeepsValid(cfg: ValidConfig, c: Conn, packet: seq<Byte>, now: int)
    requires Valid(c)
    ensures Valid(Received(cfg, c, packet, now).0)
  {
    if |packet| >= PACKET_HEADER_SIZE {
      var gate := ReceiveState(cfg, c, packet);
      AbsorbKeepsValid(cfg, gate.0, packet, now);
    }
  }

  lemma TrackKeepsValid(c: Conn, packet: seq<Byte>, now: int)
    requires InFlightValid(c.inFlight) && |packet| >= PACKET_HEADER_SIZE
    ensures InFlightValid(Track(c, packet, now))
  {
  }

  lemma SplitKeepsValid(cfg: ValidConfig, c: Conn)
    requires MessageQueues.Valid(c.queue)
    ensures MessageQueues.Valid(AfterPack(c.queue, NextSplit(cfg, c)))
  {
    hide MessageQueues.Valid, Pack;
    if c.state == Closing {
      assert AfterPack(c.queue, NextSplit(cfg, c)) == c.queue;
    } else {
      PackKeepsValid(c.queue, cfg.packetMaxSize - PACKET_HEADER_SIZE, cfg.quotas);
    }
  }

  lemma EmitKeepsValid(cfg: ValidConfig, c: Conn, now: int, ok: bool)
    requires Valid(c)
    ensures Valid(Emit(cfg, c, now, ok))
  {
    TrackKeepsValid(c, NextPacket(cfg, c), now);
    SplitKeepsValid(cfg, c);
  }

  lemma TransmittedKeepsValid(cfg: ValidConfig, c: Conn, now: int, rtt: nat, ok: bool)
    requires Valid(c)
    ensures Valid(Transmitted(cfg, c, now, rtt, ok).0)
  {
    var gate := SendState(cfg, c, now);
    assert gate.0 == c.(state := gate.0.state, events := gate.0.events);
    var checked := Congest(gate.0, now, rtt);
    assert Valid(checked);
    EmitKeepsValid(cfg, checked, now, ok);
  }

  /** Every operation keeps the invariant: the queues sorted by kind, the marks
      equal to the heap's ids, and the tracked packets all pending, with their
      bytes, under pairwise distinct numbers. */
  lemma OperationsKeepValid(cfg: ValidConfig, c: Conn, packet: seq<Byte>, now: int, rtt: nat, ok: bool)
    requires Valid(c)
    ensures Valid(Received(cfg, c, packet, now).0) && Valid(Transmitted(cfg, c, now, rtt, ok).0)
  {
    ReceivedKeepsValid(cfg, c, packet, now);
    TransmittedKeepsValid(cfg, c, now, rtt, ok);
  }
}
