/** What the counters, the acknowledgement queue and the event stream of one
    connection look like after every run. */
module SessionTraces {
  import opened Bytes
  import opened MessageCodec
  import opened AckHeader
  import opened RateLimiting
  import opened Connections
  import opened Sessions

  // ----- the packet counters -----

  const WRAP := 0x1_0000_0000

  /** Every packet sent since the last reset is acknowledged, lost, in flight or
      was skipped as a duplicate, up to the wrap-around of the counters. */
  predicate Accounted(s: Session) {
    (s.conn.ackedPackets + s.conn.lostPackets + |s.conn.inFlight| + |s.skipped|) % WRAP == s.conn.sentPackets &&
    (s.conn.state == Connecting ==> s.conn.lostPackets == 0)
  }

  lemma WrapSum(a: U32, l: U32, n: nat, m: nat, rest: nat, t: U32)
    requires (a + l + (rest + n + m)) % WRAP == t
    ensures (Plus32(a, n) + Plus32(l, m) + rest) % WRAP == t
  {
    hide Plus32;
    Plus32IsModulo(a, n);
    Plus32IsModulo(l, m);
    var x, y := (a + n) / WRAP, (l + m) / WRAP;
    assert Plus32(a, n) + Plus32(l, m) + rest + WRAP * (x + y) == a + l + (rest + n + m);
    ModShift(Plus32(a, n) + Plus32(l, m) + rest, x + y);
  }

  lemma ModShift(v: nat, k: nat)
    ensures (v + WRAP * k) % WRAP == v % WRAP
  {
    if k > 0 {
      ModShift(v, k - 1);
      assert v + WRAP * k == (v + WRAP * (k - 1)) + WRAP;
    }
  }

  lemma SuccMod(v: nat, t: U32)
    requires v % WRAP == t
    ensures (v + 1) % WRAP == Succ32(t)
  {
  }

  lemma ReceivedAccounted(cfg: ValidConfig, c: Conn, packet: seq<Byte>, now: int, skipped: nat, r: (Conn, bool))
    requires Connections.Valid(c) && r == Received(cfg, c, packet, now)
    requires (c.ackedPackets + c.lostPackets + |c.inFlight| + skipped) % WRAP == c.sentPackets
    requires c.state == Connecting ==> c.lostPackets == 0
    ensures (r.0.ackedPackets + r.0.lostPackets + |r.0.inFlight| + skipped) % WRAP == r.0.sentPackets
  {
    hide Received, Plus32, Pending, RequeueAll, Packets, PushAck;
    ReceivedShape(cfg, c, packet, now, r);
    if r.1 {
      var h := ReadAcks(cfg, packet, now);
      VerdictsCount(c.inFlight, h);
      WrapSum(c.ackedPackets, c.lostPackets, Count(c.inFlight, h, Acked), Count(c.inFlight, h, Dropped),
              |Pending(c.inFlight, h)| + skipped, c.sentPackets);
    }
  }

  lemma ReceivedState(cfg: ValidConfig, c: Conn, packet: seq<Byte>, now: int)
    ensures Received(cfg, c, packet, now).0.state == Connecting ==> Received(cfg, c, packet, now) == (c, false)
  {
    hide Received;
    ReceivedLife(cfg, c, packet, now, Received(cfg, c, packet, now));
  }

  lemma TrackedOrSkipped(cfg: ValidConfig, c: Conn, now: int, rtt: nat, ok: bool, r: (Conn, Option<seq<Byte>>))
    requires r == Transmitted(cfg, c, now, rtt, ok)
    ensures |r.0.inFlight| + |SkippedBy(cfg, c, now, rtt, ok)| == |c.inFlight| + if r.1.Some? then 1 else 0
    ensures r.0.sentPackets == if r.1.Some? then Succ32(c.sentPackets) else c.sentPackets
    ensures r.0.ackedPackets == c.ackedPackets && r.0.lostPackets == c.lostPackets
    ensures r.0.state == Connecting ==> c.state == Connecting
  {
    TransmittedShape(cfg, c, now, rtt, ok, r);
  }

  lemma OneMoreSent(v: nat, w: nat, sent: bool, t: U32, u: U32)
    requires v % WRAP == t && w == (if sent then v + 1 else v) && u == if sent then Succ32(t) else t
    ensures w % WRAP == u
  {
    SuccMod(v, t);
  }

  lemma SentAccounted(cfg: ValidConfig, s: Session, now: int, rtt: nat, ok: bool, t: Session)
    requires Accounted(s) && t == Act(cfg, s, SendPacket(now, rtt, ok))
    ensures Accounted(t)
  {
    hide Transmitted, SkippedBy;
    var r := Transmitted(cfg, s.conn, now, rtt, ok);
    TrackedOrSkipped(cfg, s.conn, now, rtt, ok, r);
    assert |t.skipped| == |s.skipped| + |SkippedBy(cfg, s.conn, now, rtt, ok)| && t.conn == r.0;
    OneMoreSent(s.conn.ackedPackets + s.conn.lostPackets + |s.conn.inFlight| + |s.skipped|,
                r.0.ackedPackets + r.0.lostPackets + |r.0.inFlight| + |t.skipped|, r.1.Some?, s.conn.sentPackets, r.0.sentPackets);
  }

  lemma ActAccounted(cfg: ValidConfig, s: Session, a: Action, t: Session)
    requires Connections.Valid(s.conn) && Accounted(s) && t == Act(cfg, s, a)
    ensures Accounted(t)
  {
    hide Received, Transmitted;
    if a.ReceivePacket? {
      ReceivedAccounted(cfg, s.conn, a.packet, a.now, |s.skipped|, Received(cfg, s.conn, a.packet, a.now));
      ReceivedState(cfg, s.conn, a.packet, a.now);
    } else if a.SendPacket? {
      SentAccounted(cfg, s, a.now, a.rtt, a.ok, t);
    }
  }

  lemma {:induction false} Accounting(cfg: ValidConfig, s: Session, actions: seq<Action>, t: Session)
    requires Connections.Valid(s.conn) && Accounted(s) && t == Run(cfg, s, actions)
    ensures Accounted(t)
  {
    if actions != [] {
      var before := Run(cfg, s, actions[..|actions| - 1]);
      Accounting(cfg, s, actions[..|actions| - 1], before);
      RunValid(cfg, s, actions[..|actions| - 1]);
      ActAccounted(cfg, before, actions[|actions| - 1], t);
    }
  }

  // ----- the queue of received numbers -----

  /** The last thirty-two accepted numbers, newest first. */
  function Newest(accepted: seq<Byte>): seq<Byte> {
    seq(Min(MAX_ACK_BITS, |accepted|), k requires 0 <= k < |accepted| => accepted[|accepted| - 1 - k])
  }

  predicate RemembersAccepted(s: Session) {
    s.conn.recvAcks == Newest(s.accepted) &&
    s.conn.remoteNum == if s.accepted == [] then 0 else s.accepted[|s.accepted| - 1]
  }

  lemma PushNewest(accepted: seq<Byte>, num: Byte)
    ensures PushAck(Newest(accepted), num) == Newest(accepted + [num])
  {
    var pushed, newest := PushAck(Newest(accepted), num), Newest(accepted + [num]);
    assert |pushed| == |newest|;
    forall k | 0 <= k < |newest|
      ensures pushed[k] == newest[k]
    {
      if k > 0 {
        assert pushed[k] == Newest(accepted)[k - 1];
      }
    }
  }

  /** After every run the ack number is the last accepted one and the ack queue
      the last thirty-two, newest first: no other packet leaves a trace. */
  lemma {:induction false} AckQueueIsNewest(cfg: ValidConfig, s: Session, actions: seq<Action>, t: Session)
    requires RemembersAccepted(s) && t == Run(cfg, s, actions)
    ensures RemembersAccepted(t)
  {
    if actions != [] {
      var before, a := Run(cfg, s, actions[..|actions| - 1]), actions[|actions| - 1];
      AckQueueIsNewest(cfg, s, actions[..|actions| - 1], before);
      match a
      case ReceivePacket(packet, now) =>
        ReceivedShape(cfg, before.conn, packet, now, Received(cfg, before.conn, packet, now));
        if |packet| >= PACKET_HEADER_SIZE {
          PushNewest(before.accepted, packet[8]);
        }
      case SendPacket(now, rtt, ok) =>
        TransmittedShape(cfg, before.conn, now, rtt, ok, Transmitted(cfg, before.conn, now, rtt, ok));
      case _ =>
    }
  }

  // ----- the life cycle -----

  /** The events that mark a change of the connection's state. */
  function Lifecycle(es: seq<Event>): seq<Event> {
    if es == [] then []
    else
      var e := es[|es| - 1];
      Lifecycle(es[..|es| - 1]) +
      if e.ConnectedEvent? || e.FailedToConnectEvent? || e.LostEvent? || e.ClosedEvent? then [e] else []
  }

  /** All events of a session so far. */
  function Trace(s: Session): seq<Event> {
    s.log + s.conn.events
  }

  lemma {:induction false} LifecycleAppend(a: seq<Event>, b: seq<Event>)
    ensures Lifecycle(a + b) == Lifecycle(a) + Lifecycle(b)
  {
    if b == [] {
      assert a + b == a;
    } else {
      assert (a + b)[..|a + b| - 1] == a + b[..|b| - 1];
      LifecycleAppend(a, b[..|b| - 1]);
    }
  }

  /** The life cycle events that lead to a state, without any call of `Close` and
      with one or more. Together with that they determine the state. */
  predicate LeadsTo(closed: bool, trace: seq<Event>, state: ConnectionState) {
    match state
    case Connecting => !closed && trace == []
    case Connected => !closed && trace == [ConnectedEvent]
    case FailedToConnect => !closed && trace == [FailedToConnectEvent]
    case Lost => !closed && (trace == [ConnectedEvent, LostEvent(true)] || trace == [ConnectedEvent, LostEvent(false)])
    case Closing => closed && (trace == [] || trace == [ConnectedEvent])
    case Closed =>
      if closed then trace == [ClosedEvent(false)] || trace == [ConnectedEvent, ClosedEvent(false)]
      else trace == [ConnectedEvent, ClosedEvent(true)]
  }

  /** The events and the calls leave no doubt about the state. */
  lemma StateIsDetermined(closed: bool, trace: seq<Event>, one: ConnectionState, other: ConnectionState)
    requires LeadsTo(closed, trace, one) && LeadsTo(closed, trace, other)
    ensures one == other
  {
    if |trace| == 2 {
      assert trace[1].LostEvent? || trace[1].ClosedEvent?;
    } else if |trace| == 1 {
      assert trace[0].ConnectedEvent? || trace[0].FailedToConnectEvent? || trace[0].ClosedEvent?;
    }
  }

  /** What a single operation may add to the life cycle. */
  predicate LifecycleStep(before: ConnectionState, added: seq<Event>, after: ConnectionState) {
    (added == [] && after == before) ||
    (before == Connecting && added == [ConnectedEvent] && after == Connected) ||
    (before == Connecting && added == [FailedToConnectEvent] && after == FailedToConnect) ||
    (before == Connected && added == [ClosedEvent(true)] && after == Closed) ||
    (before == Connected && added == [LostEvent(true)] && after == Lost) ||
    (before == Connected && added == [LostEvent(false)] && after == Lost) ||
    (before == Closing && added == [ClosedEvent(false)] && after == Closed)
  }

  lemma {:induction false} LossesAreSilent(es: seq<Event>)
    requires forall k | 0 <= k < |es| :: es[k].PacketLostEvent?
    ensures Lifecycle(es) == [] && CongestionEvents(es) == []
  {
    if es != [] {
      LossesAreSilent(es[..|es| - 1]);
    }
  }

  lemma OneEvent(e: Event)
    ensures Lifecycle([e]) == if e.ConnectedEvent? || e.FailedToConnectEvent? || e.LostEvent? || e.ClosedEvent? then [e] else []
    ensures CongestionEvents([e]) == if e.CongestionStateChangedEvent? then [e.congested] else []
    ensures Lifecycle([]) == [] && CongestionEvents([]) == []
  {
    assert |[e][..0]| == 0;
  }

  lemma GateEvents(cfg: ValidConfig, c: Conn, packet: seq<Byte>, gate: (Conn, bool)) returns (added: seq<Event>)
    requires |packet| >= PACKET_HEADER_SIZE && gate == ReceiveState(cfg, c, packet)
    ensures gate.0.events == c.events + added && gate.0.inFlight == c.inFlight
    ensures LifecycleStep(c.state, Lifecycle(added), gate.0.state) && CongestionEvents(added) == []
  {
    hide Lifecycle, CongestionEvents, SeqIsMoreRecent;
    added := [];
    OneEvent(ConnectedEvent);
    OneEvent(ClosedEvent(true));
    if gate.0.state != c.state {
      added := [if gate.0.state == Connected then ConnectedEvent else ClosedEvent(true)];
    } else {
      assert c.events + [] == c.events;
    }
  }

  lemma SilentTail(events: seq<Event>, first: seq<Event>, lost: seq<Event>)
    requires Lifecycle(lost) == [] && CongestionEvents(lost) == []
    ensures events + first + lost == events + (first + lost)
    ensures Lifecycle(first + lost) == Lifecycle(first) && CongestionEvents(first + lost) == CongestionEvents(first)
  {
    Assoc(events, first, lost);
    LifecycleAppend(first, lost);
    CongestionAppend(first, lost);
  }

  /** A received packet adds at most one life cycle event, at the front, and no
      congestion event. */
  lemma ReceivedEvents(cfg: ValidConfig, c: Conn, packet: seq<Byte>, now: int, r: (Conn, bool)) returns (added: seq<Event>)
    requires r == Received(cfg, c, packet, now)
    ensures r.0.events == c.events + added
    ensures LifecycleStep(c.state, Lifecycle(added), r.0.state) && CongestionEvents(added) == []
  {
    hide Received, Lifecycle, CongestionEvents, LostEvents, ReceiveState;
    ReceivedLife(cfg, c, packet, now, r);
    added := [];
    if |packet| >= PACKET_HEADER_SIZE {
      var first := GateEvents(cfg, c, packet, ReceiveState(cfg, c, packet));
      added := first;
      if r.1 {
        var packets := Packets(c.inFlight, ReadAcks(cfg, packet, now), Dropped);
        LostEventsAreLosses(packets);
        LossesAreSilent(LostEvents(packets));
        SilentTail(c.events, first, LostEvents(packets));
        added := first + LostEvents(packets);
      }
    } else {
      OneEvent(ConnectedEvent);
      assert c.events + [] == c.events;
    }
  }

  /** An attempt to send adds at most one event: a timeout, or a change of the
      limiter's mode. */
  lemma TransmittedEvents(cfg: ValidConfig, c: Conn, now: int, rtt: nat, ok: bool, r: (Conn, Option<seq<Byte>>))
    returns (added: seq<Event>)
    requires r == Transmitted(cfg, c, now, rtt, ok)
    ensures r.0.events == c.events + added
    ensures LifecycleStep(c.state, Lifecycle(added), r.0.state)
    ensures CongestionEvents(added) == if Congested(r.0.limiter) == Congested(c.limiter) then [] else [Congested(r.0.limiter)]
  {
    hide Transmitted, Lifecycle, CongestionEvents, Updated, SendState;
    TransmittedLife(cfg, c, now, rtt, ok, r);
    var l := Updated(c.limiter, now, rtt);
    if SendState(cfg, c, now).1 {
      var e := CongestionStateChangedEvent(Congested(l));
      OneEvent(e);
      added := if Congested(c.limiter) != Congested(l) then [e] else [];
      assert c.events + [] == c.events;
    } else {
      added := TimeoutEvents(cfg, c, now);
      TimeoutKeeps(cfg, c, now);
    }
  }

  lemma TimeoutKeeps(cfg: ValidConfig, c: Conn, now: int)
    ensures SendState(cfg, c, now).0.limiter == c.limiter
  {
  }

  lemma TimeoutEvents(cfg: ValidConfig, c: Conn, now: int) returns (added: seq<Event>)
    requires !SendState(cfg, c, now).1
    ensures var d := SendState(cfg, c, now).0;
            d.events == c.events + added && LifecycleStep(c.state, Lifecycle(added), d.state)
    ensures CongestionEvents(added) == []
  {
    hide Lifecycle, CongestionEvents;
    added := [];
    var d := SendState(cfg, c, now).0;
    OneEvent(ConnectedEvent);
    if d.state != c.state {
      added := [d.events[|c.events|]];
      OneEvent(added[0]);
    } else {
      assert c.events + [] == c.events;
    }
  }

  predicate CloseIn(actions: seq<Action>) {
    exists k :: 0 <= k < |actions| && actions[k] == Close
  }

  lemma CloseInMore(actions: seq<Action>)
    requires actions != []
    ensures CloseIn(actions) <==> CloseIn(actions[..|actions| - 1]) || actions[|actions| - 1] == Close
  {
    assert forall k | 0 <= k < |actions| - 1 :: actions[k] == actions[..|actions| - 1][k];
  }

  predicate NoReset(a: Action) {
    !a.Reset?
  }

  /** Every call of `Close` finds the connection open. */
  ghost predicate ClosesWhileOpen(cfg: ValidConfig, s: Session, actions: seq<Action>) {
    actions == [] ||
    (ClosesWhileOpen(cfg, s, actions[..|actions| - 1]) &&
     (actions[|actions| - 1] == Close ==> Open(Run(cfg, s, actions[..|actions| - 1]).conn)))
  }

  /** The life cycle is the specified one after every action of a run. */
  ghost predicate AlwaysLeads(cfg: ValidConfig, s: Session, actions: seq<Action>) {
    var t := Run(cfg, s, actions);
    LeadsTo(CloseIn(actions), Lifecycle(Trace(t)), t.conn.state) &&
    (actions == [] || AlwaysLeads(cfg, s, actions[..|actions| - 1]))
  }

  lemma TraceGrows(s: Session, t: Session, added: seq<Event>)
    requires t.log == s.log && t.conn.events == s.conn.events + added
    ensures Lifecycle(Trace(t)) == Lifecycle(Trace(s)) + Lifecycle(added)
    ensures CongestionEvents(Trace(t)) == CongestionEvents(Trace(s)) + CongestionEvents(added)
  {
    Assoc(s.log, s.conn.events, added);
    LifecycleAppend(Trace(s), added);
    CongestionAppend(Trace(s), added);
  }

  lemma StepLeads(closed: bool, trace: seq<Event>, before: ConnectionState, added: seq<Event>, after: ConnectionState)
    requires LeadsTo(closed, trace, before) && LifecycleStep(before, added, after)
    ensures LeadsTo(closed, trace + added, after)
  {
    assert added == [] ==> trace + added == trace;
  }

  /** What any action but `Close` and a reset does to the life cycle. */
  lemma ActSteps(cfg: ValidConfig, s: Session, a: Action, t: Session) returns (added: seq<Event>)
    requires !a.Reset? && !a.Close? && t == Act(cfg, s, a)
    ensures Lifecycle(Trace(t)) == Lifecycle(Trace(s)) + added && LifecycleStep(s.conn.state, added, t.conn.state)
  {
    var events := [];
    match a {
      case ReceivePacket(packet, now) =>
        events := ReceivedEvents(cfg, s.conn, packet, now, Received(cfg, s.conn, packet, now));
        TraceGrows(s, t, events);
      case SendPacket(now, rtt, ok) =>
        events := TransmittedEvents(cfg, s.conn, now, rtt, ok, Transmitted(cfg, s.conn, now, rtt, ok));
        TraceGrows(s, t, events);
      case TakeEvents => assert Trace(t) == Trace(s);
      case SendMessage(_, _) => assert Trace(t) == Trace(s);
    }
    added := Lifecycle(events);
    assert Lifecycle(Trace(s)) + [] == Lifecycle(Trace(s));
  }

  lemma CloseSteps(cfg: ValidConfig, s: Session, closed: bool, t: Session)
    requires LeadsTo(closed, Lifecycle(Trace(s)), s.conn.state) && t == Act(cfg, s, Close)
    ensures LeadsTo(true, Lifecycle(Trace(t)), t.conn.state) <==> Open(s.conn)
  {
    assert Trace(t) == Trace(s);
    if !Open(s.conn) {
      var trace := Lifecycle(Trace(s));
      assert trace[|trace| - 1] != ConnectedEvent;
    }
  }

  /** Over every run of a new connection without a reset: the life cycle is the
      specified one throughout if and only if `Close` is called only while open.
      So without a close the events end in failed to connect, lost or closed by
      the peer, and with one in closed by this side. */
  lemma {:induction false} LifecycleTraces(cfg: ValidConfig, s: Session, actions: seq<Action>)
    requires LeadsTo(false, Lifecycle(Trace(s)), s.conn.state) && ActionsAre(actions, NoReset)
    ensures AlwaysLeads(cfg, s, actions) <==> ClosesWhileOpen(cfg, s, actions)
  {
    if actions != [] {
      var init, a := actions[..|actions| - 1], actions[|actions| - 1];
      var before, t := Run(cfg, s, init), Run(cfg, s, actions);
      LifecycleTraces(cfg, s, init);
      CloseInMore(actions);
      if AlwaysLeads(cfg, s, init) {
        if a == Close {
          CloseSteps(cfg, before, CloseIn(init), t);
        } else {
          var added := ActSteps(cfg, before, a, t);
          StepLeads(CloseIn(init), Lifecycle(Trace(before)), before.conn.state, added, t.conn.state);
        }
      }
    }
  }

  // ----- when it is over -----

  /** One packet, or one attempt to send, changes nothing of a connection that is over. */
  lemma NothingAnyMore(cfg: ValidConfig, c: Conn, packet: seq<Byte>, now: int, rtt: nat, ok: bool)
    requires !Open(c)
    ensures Received(cfg, c, packet, now) == (c, false) && Transmitted(cfg, c, now, rtt, ok) == (c, None)
  {
  }

  /** The same connection with the same history, but for what was given to it and
      handed out by it. */
  predicate SameButQueues(s: Session, t: Session) {
    t == s.(conn := s.conn.(queue := t.conn.queue, events := t.conn.events), given := t.given, log := t.log) &&
    Trace(t) == Trace(s)
  }

  /** It was over after every action of a run. */
  ghost predicate AlwaysOver(cfg: ValidConfig, s: Session, actions: seq<Action>) {
    !Open(Run(cfg, s, actions).conn) && (actions == [] || AlwaysOver(cfg, s, actions[..|actions| - 1]))
  }

  predicate NeitherClosesNorResets(a: Action) {
    !a.Close? && !a.Reset?
  }

  lemma ActOver(cfg: ValidConfig, s: Session, a: Action, t: Session)
    requires !Open(s.conn) && t == Act(cfg, s, a)
    ensures Open(t.conn) <==> a.Close? || a.Reset?
    ensures NeitherClosesNorResets(a) ==> SameButQueues(s, t)
  {
    match a
    case ReceivePacket(packet, now) =>
      NothingAnyMore(cfg, s.conn, packet, now, 0, true);
      assert s.acked + [] == s.acked;
    case SendPacket(now, rtt, ok) =>
      NothingAnyMore(cfg, s.conn, [], now, rtt, ok);
      assert s.skipped + [] == s.skipped;
    case TakeEvents => assert Trace(t) == Trace(s);
    case SendMessage(_, _) => assert Trace(t) == Trace(s);
    case Close =>
    case Reset(_) =>
  }

  /** Over every run a connection that is over stays so if and only if it is
      neither closed nor reset; and then nothing about it changes, accepted,
      acknowledged and tracked packets, counters and reported events included. */
  lemma {:induction false} TerminalIsFinal(cfg: ValidConfig, s: Session, actions: seq<Action>, t: Session)
    requires !Open(s.conn) && t == Run(cfg, s, actions)
    ensures AlwaysOver(cfg, s, actions) <==> ActionsAre(actions, NeitherClosesNorResets)
    ensures ActionsAre(actions, NeitherClosesNorResets) ==> SameButQueues(s, t)
  {
    if actions != [] {
      var init, a := actions[..|actions| - 1], actions[|actions| - 1];
      var before := Run(cfg, s, init);
      TerminalIsFinal(cfg, s, init, before);
      if AlwaysOver(cfg, s, init) {
        ActOver(cfg, before, a, t);
      }
    }
  }

  /** Calling `close` revives it: from any state at all, a closed connection sends
      again, and reports its closure once more when it has timed out. */
  lemma CloseRevives(cfg: ValidConfig, c: Conn, now: int, rtt: nat, ok: bool)
    requires now - c.lastReceive > cfg.connectionClosingThreshold
    ensures Open(CloseRequested(c))
    ensures Transmitted(cfg, CloseRequested(c), now, rtt, ok).0 ==
            c.(state := Closed, events := c.events + [ClosedEvent(false)])
  {
  }

  // ----- congestion events -----

  function CongestionEvents(es: seq<Event>): seq<bool> {
    if es == [] then []
    else
      var e := es[|es| - 1];
      CongestionEvents(es[..|es| - 1]) + if e.CongestionStateChangedEvent? then [e.congested] else []
  }

  lemma {:induction false} CongestionAppend(a: seq<Event>, b: seq<Event>)
    ensures CongestionEvents(a + b) == CongestionEvents(a) + CongestionEvents(b)
  {
    if b == [] {
      assert a + b == a;
    } else {
      assert (a + b)[..|a + b| - 1] == a + b[..|b| - 1];
      CongestionAppend(a, b[..|b| - 1]);
    }
  }

  /** true, false, true, and so on, the last one being the limiter's mode. */
  predicate Alternating(b: seq<bool>) {
    forall k | 0 <= k < |b| :: b[k] == (k % 2 == 0)
  }

  predicate CongestionReported(s: Session) {
    var b := CongestionEvents(Trace(s));
    Alternating(b) && (Congested(s.conn.limiter) <==> |b| % 2 == 1)
  }

  lemma AlternatingGrows(b: seq<bool>, mode: bool, added: seq<bool>, mode': bool)
    requires Alternating(b) && (mode <==> |b| % 2 == 1)
    requires added == if mode' == mode then [] else [mode']
    ensures Alternating(b + added) && (mode' <==> |b + added| % 2 == 1)
  {
  }

  lemma ActCongestion(cfg: ValidConfig, s: Session, a: Action, t: Session)
    requires CongestionReported(s) && !a.Reset? && t == Act(cfg, s, a)
    ensures CongestionReported(t)
  {
    var b, mode := CongestionEvents(Trace(s)), Congested(s.conn.limiter);
    match a
    case ReceivePacket(packet, now) =>
      var r := Received(cfg, s.conn, packet, now);
      var added := ReceivedEvents(cfg, s.conn, packet, now, r);
      ReceivedShape(cfg, s.conn, packet, now, r);
      TraceGrows(s, t, added);
      AlternatingGrows(b, mode, [], mode);
    case SendPacket(now, rtt, ok) =>
      var added := TransmittedEvents(cfg, s.conn, now, rtt, ok, Transmitted(cfg, s.conn, now, rtt, ok));
      TraceGrows(s, t, added);
      AlternatingGrows(b, mode, CongestionEvents(added), Congested(t.conn.limiter));
    case TakeEvents => assert Trace(t) == Trace(s);
    case SendMessage(_, _) => assert Trace(t) == Trace(s);
    case Close => assert Trace(t) == Trace(s);
    case Reset(_) =>
  }

  /** The congestion events of every run without a reset alternate. */
  lemma {:induction false} CongestionAlternates(cfg: ValidConfig, s: Session, actions: seq<Action>, t: Session)
    requires CongestionReported(s) && ActionsAre(actions, NoReset) && t == Run(cfg, s, actions)
    ensures CongestionReported(t)
  {
    if actions != [] {
      var before := Run(cfg, s, actions[..|actions| - 1]);
      CongestionAlternates(cfg, s, actions[..|actions| - 1], before);
      ActCongestion(cfg, before, actions[|actions| - 1], t);
    }
  }

  /** A new session satisfies all of it. */
  lemma NewSessionStarts(id: U32, peer: nat, now: int)
    ensures var s := NewSession(id, peer, now);
            Accounted(s) && RemembersAccepted(s) && CongestionReported(s) && LeadsTo(false, Lifecycle(Trace(s)), s.conn.state)
    ensures Connections.Valid(NewSession(id, peer, now).conn)
  {
    NewSessionConserves(id, peer, now, Reliable);
  }

  /** What holds after every run of a new connection, whatever is done to it. */
  lemma EveryRun(cfg: ValidConfig, id: U32, peer: nat, now: int, actions: seq<Action>, s: Session, t: Session)
    requires s == NewSession(id, peer, now) && t == Run(cfg, s, actions)
    ensures Connections.Valid(t.conn) && Accounted(t) && RemembersAccepted(t)
    ensures ActionsAre(actions, NoReset) ==>
              CongestionReported(t) && (AlwaysLeads(cfg, s, actions) <==> ClosesWhileOpen(cfg, s, actions))
  {
    NewSessionStarts(id, peer, now);
    RunValid(cfg, s, actions);
    Accounting(cfg, s, actions, t);
    AckQueueIsNewest(cfg, s, actions, t);
    if ActionsAre(actions, NoReset) {
      CongestionAlternates(cfg, s, actions, t);
      LifecycleTraces(cfg, s, actions);
    }
  }
}
