/** When a connection opens, stays and ends: in terms of its clock readings and
    of the bytes it gets, for every call and over whole runs. */
module Lifetimes {
  import opened Bytes
  import opened MessageQueues
  import opened AckHeader
  import opened RateLimiting
  import opened Connections
  import opened Sessions
  import opened Loss

  // ----- (re)started -----

  /** A reset keeps the id, the address and the queued events; all else is as at the
      start: connecting, numbers and counters zero, both clocks at the reset,
      nothing queued, tracked or remembered, and the limiter good for now. */
  lemma RestartIs(c: Conn, now: int, d: Conn)
    requires d == Restarted(c, now)
    ensures d.id == c.id && d.peer == c.peer && d.events == c.events && d.state == Connecting
    ensures d.localNum == d.remoteNum == 0 && d.lastReceive == d.lastSend == now && d.recvAcks == [] && d.inFlight == []
    ensures d.sentPackets == d.recvPackets == d.lostPackets == d.ackedPackets == 0
    ensures d.queue.i == d.queue.r == d.queue.o == d.queue.inbox.recv == [] && d.queue.localOrder == d.queue.inbox.next == 0
    ensures d.queue.inbox.heap == {} && d.queue.inbox.marks == {}
    ensures d.limiter.mode == Good && d.limiter.tick == 0 && d.limiter.lastBad == now && d.limiter.delay == 1000
  {
  }

  // ----- ended by silence -----

  /** A connected peer is lost by an attempt to send exactly if nothing was
      received, or nothing sent, for longer than the threshold. */
  lemma LostIff(cfg: ValidConfig, c: Conn, now: int, rtt: nat, ok: bool, r: (Conn, Option<seq<Byte>>))
    requires c.state == Connected && r == Transmitted(cfg, c, now, rtt, ok)
    ensures r.0.state == if now - c.lastReceive > cfg.connectionDropThreshold || now - c.lastSend > cfg.connectionDropThreshold
                         then Lost else Connected
    ensures r.0.state == Lost ==>
              r.0.events == c.events + [LostEvent(now - c.lastReceive > cfg.connectionDropThreshold)] && r.1 == None
  {
    hide Transmitted;
    TransmittedLife(cfg, c, now, rtt, ok, r);
  }

  /** A closing connection is closed by an attempt to send exactly if nothing was
      received for longer than the closing threshold. */
  lemma ClosedIff(cfg: ValidConfig, c: Conn, now: int, rtt: nat, ok: bool, r: (Conn, Option<seq<Byte>>))
    requires c.state == Closing && r == Transmitted(cfg, c, now, rtt, ok)
    ensures r.0.state == if now - c.lastReceive > cfg.connectionClosingThreshold then Closed else Closing
    ensures r.0.state == Closed ==> r.0.events == c.events + [ClosedEvent(false)] && r.1 == None
  {
    hide Transmitted;
    TransmittedLife(cfg, c, now, rtt, ok, r);
  }

  /** One that is not established fails exactly if it has waited for longer than
      the initial threshold. */
  lemma FailsIff(cfg: ValidConfig, c: Conn, now: int, rtt: nat, ok: bool, r: (Conn, Option<seq<Byte>>))
    requires c.state == Connecting && r == Transmitted(cfg, c, now, rtt, ok)
    ensures r.0.state == if now - c.lastReceive > cfg.connectionInitThreshold then FailedToConnect else Connecting
    ensures r.0.state == FailedToConnect ==> r.0.events == c.events + [FailedToConnectEvent] && r.1 == None
  {
    hide Transmitted;
    TransmittedLife(cfg, c, now, rtt, ok, r);
  }

  /** While it stays open, a packet is built exactly if the limiter, brought up to
      date, is in good mode or at the start of its cycle; and a change of its mode
      is the one thing reported. */
  lemma BuiltIff(cfg: ValidConfig, c: Conn, now: int, rtt: nat, ok: bool, r: (Conn, Option<seq<Byte>>))
    requires r == Transmitted(cfg, c, now, rtt, ok)
    ensures r.1.Some? <==> Open(r.0) && (r.0.limiter.mode == Good || r.0.limiter.tick == 0)
    ensures Open(r.0) ==>
              && r.0.limiter == Updated(c.limiter, now, rtt)
              && r.0.events == if r.0.limiter.mode == c.limiter.mode then c.events
                               else c.events + [CongestionStateChangedEvent(r.0.limiter.mode == Bad)]
  {
    hide NextSplit, NextPacket, Track, Updated, Succ32, AfterPack;
  }

  // ----- opened and kept by packets -----

  /** The number `num` is at most 127 after `newest` around the circle of bytes;
      exactly 128 apart, the greater byte counts as the later one. */
  predicate Follows(num: Byte, newest: Byte) {
    1 <= (num - newest) % 256 < 128 || num == newest + 128
  }

  lemma FollowsIsRecency(num: Byte, newest: Byte)
    ensures SeqIsMoreRecent(num, newest) <==> Follows(num, newest)
  {
  }

  /** The packet passes: it has a whole header of the protocol, and the connection
      is connecting, or closing, or connected and the packet is no closure and
      newer than the newest one. */
  predicate Passes(cfg: ValidConfig, c: Conn, packet: seq<Byte>) {
    |packet| >= 14 && packet[..4] == cfg.protocolHeader &&
    (c.state == Connecting || c.state == Closing ||
     (c.state == Connected && packet[8..14] != [0, 128, 85, 85, 85, 85] && Follows(packet[8], c.remoteNum)))
  }

  /** It is the closure of a connected peer. */
  predicate Closes(cfg: ValidConfig, c: Conn, packet: seq<Byte>) {
    |packet| >= 14 && packet[..4] == cfg.protocolHeader && c.state == Connected && packet[8..14] == [0, 128, 85, 85, 85, 85]
  }

  /** Exactly the packets that pass are processed; the first one establishes the
      connection; a closure ends it; and anything else changes nothing at all. */
  lemma AcceptedIff(cfg: ValidConfig, c: Conn, packet: seq<Byte>, now: int, r: (Conn, bool))
    requires r == Received(cfg, c, packet, now)
    ensures r.1 <==> Passes(cfg, c, packet)
    ensures r.1 ==> r.0.state == if c.state == Connecting then Connected else c.state
    ensures Closes(cfg, c, packet) ==> r.0 == c.(state := Closed, events := c.events + [ClosedEvent(true)])
    ensures !r.1 && !Closes(cfg, c, packet) ==> r.0 == c
  {
    hide Received, SeqIsMoreRecent, Follows, LostEvents, Packets, FromBigEndian;
    ReceivedLife(cfg, c, packet, now, r);
    if |packet| >= 14 {
      FollowsIsRecency(packet[8], c.remoteNum);
    }
  }

  /** The events of an accepted packet: the opening, if it is the first, and then
      one for every packet it finds lost, in the order they were sent. */
  lemma AcceptedEvents(cfg: ValidConfig, c: Conn, packet: seq<Byte>, now: int, r: (Conn, bool))
    requires Connections.Valid(c) && r == Received(cfg, c, packet, now) && r.1
    ensures |packet| >= PACKET_HEADER_SIZE
    ensures r.0.events ==
            c.events + (if c.state == Connecting then [ConnectedEvent] else []) + LossReports(LostPayloads(cfg, c.inFlight, packet, now))
  {
    hide Received, LostEvents, LossReports, LostPayloads, Packets, FromBigEndian;
    AcceptedIff(cfg, c, packet, now, r);
    ReceivedLife(cfg, c, packet, now, r);
    LossesAreReported(cfg, c.inFlight, packet, now);
    assert c.events + [] == c.events;
  }

  // ----- the clocks over whole runs -----

  /** The clock of the last packet accepted since the last start. */
  ghost function LastHeard(cfg: ValidConfig, s: Session, actions: seq<Action>): int {
    if actions == [] then s.conn.lastReceive
    else
      var init, a := actions[..|actions| - 1], actions[|actions| - 1];
      match a
      case ReceivePacket(packet, now) =>
        if Passes(cfg, Run(cfg, s, init).conn, packet) then now else LastHeard(cfg, s, init)
      case Reset(now) => now
      case _ => LastHeard(cfg, s, init)
  }

  /** The clock of the last packet built and taken by the socket since the last start. */
  ghost function LastSpoke(cfg: ValidConfig, s: Session, actions: seq<Action>): int {
    if actions == [] then s.conn.lastSend
    else
      var init, a := actions[..|actions| - 1], actions[|actions| - 1];
      match a
      case SendPacket(now, rtt, ok) =>
        if ok && Transmitted(cfg, Run(cfg, s, init).conn, now, rtt, ok).1.Some? then now else LastSpoke(cfg, s, init)
      case Reset(now) => now
      case _ => LastSpoke(cfg, s, init)
  }

  lemma TransmittedTimes(cfg: ValidConfig, c: Conn, now: int, rtt: nat, ok: bool, r: (Conn, Option<seq<Byte>>))
    requires r == Transmitted(cfg, c, now, rtt, ok)
    ensures r.0.lastReceive == c.lastReceive && r.0.recvPackets == c.recvPackets
    ensures r.0.lastSend == if ok && r.1.Some? then now else c.lastSend
  {
    hide NextSplit, NextPacket, Track, Updated, Succ32, AfterPack, ShouldSend;
  }

  lemma {:induction false} ClocksAreLast(cfg: ValidConfig, s: Session, actions: seq<Action>, t: Session)
    requires t == Run(cfg, s, actions)
    ensures t.conn.lastReceive == LastHeard(cfg, s, actions) && t.conn.lastSend == LastSpoke(cfg, s, actions)
  {
    if actions != [] {
      hide Received, Transmitted, Passes;
      var init, a := actions[..|actions| - 1], actions[|actions| - 1];
      var before := Run(cfg, s, init);
      ClocksAreLast(cfg, s, init, before);
      match a
      case ReceivePacket(packet, now) =>
        AcceptedIff(cfg, before.conn, packet, now, Received(cfg, before.conn, packet, now));
        ReceivedCounts(cfg, before.conn, packet, now, Received(cfg, before.conn, packet, now));
      case SendPacket(now, rtt, ok) =>
        TransmittedTimes(cfg, before.conn, now, rtt, ok, Transmitted(cfg, before.conn, now, rtt, ok));
      case _ =>
    }
  }

  /** Over every run: an attempt to send finds a connected
      peer lost exactly if the last packet was accepted, or the last one sent,
      longer ago than the threshold; the start counts for both. */
  lemma SilenceEndsIt(cfg: ValidConfig, s: Session, actions: seq<Action>, now: int, rtt: nat, ok: bool, t: Session, u: Session)
    requires t == Run(cfg, s, actions) && t.conn.state == Connected && u == Act(cfg, t, SendPacket(now, rtt, ok))
    ensures var unheard := now - LastHeard(cfg, s, actions) > cfg.connectionDropThreshold;
            var unsent := now - LastSpoke(cfg, s, actions) > cfg.connectionDropThreshold;
            u.conn.state == (if unheard || unsent then Lost else Connected) &&
            (unheard || unsent ==> u.conn.events == t.conn.events + [LostEvent(unheard)])
  {
    hide Transmitted, Run;
    ClocksAreLast(cfg, s, actions, t);
    LostIff(cfg, t.conn, now, rtt, ok, Transmitted(cfg, t.conn, now, rtt, ok));
  }

  /** The same of a closing connection and of one that is still connecting. */
  lemma WaitingEnds(cfg: ValidConfig, s: Session, actions: seq<Action>, now: int, rtt: nat, ok: bool, t: Session, u: Session)
    requires t == Run(cfg, s, actions) && u == Act(cfg, t, SendPacket(now, rtt, ok))
    ensures var silence := now - LastHeard(cfg, s, actions);
            (t.conn.state == Closing ==> u.conn.state == if silence > cfg.connectionClosingThreshold then Closed else Closing) &&
            (t.conn.state == Connecting ==> u.conn.state == if silence > cfg.connectionInitThreshold then FailedToConnect else Connecting)
  {
    hide Transmitted, Run;
    ClocksAreLast(cfg, s, actions, t);
    if t.conn.state == Closing {
      ClosedIff(cfg, t.conn, now, rtt, ok, Transmitted(cfg, t.conn, now, rtt, ok));
    } else if t.conn.state == Connecting {
      FailsIff(cfg, t.conn, now, rtt, ok, Transmitted(cfg, t.conn, now, rtt, ok));
    }
  }
}
