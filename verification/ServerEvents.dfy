/** When the server's mapping of events panics: a connection that fails to
    connect has no server event. */
module ServerEvents {
  import opened Bytes
  import opened MessageCodec
  import opened Connections
  import opened Servers
  import opened ServerRuns

  predicate Silent(es: seq<Event>) {
    forall k | 0 <= k < |es| :: !es[k].FailedToConnectEvent?
  }

  /** Established, and without the event that cannot be mapped. */
  predicate SettledConn(c: Conn) {
    c.state != Connecting && Silent(c.events)
  }

  predicate NoPanic(es: seq<ServerEvent>) {
    forall k | 0 <= k < |es| :: !es[k].Unreachable?
  }

  predicate Settled(r: Registry) {
    (forall id | id in r.connections :: SettledConn(r.connections[id])) && NoPanic(r.events)
  }

  lemma {:induction false} MessageEventsSilent(ms: seq<Message>)
    ensures Silent(MessageEvents(ms))
  {
    if ms != [] {
      MessageEventsSilent(ms[..|ms| - 1]);
    }
  }

  /** Receiving never adds the event, and leaves the connection unestablished
      only if it was and the packet was shorter than a header or not its own. */
  lemma ReceivedSilent(cfg: ValidConfig, c: Conn, packet: seq<Byte>, now: int, d: (Conn, bool))
    requires Silent(c.events) && d == Received(cfg, c, packet, now)
    ensures Silent(d.0.events)
    ensures d.0.state == Connecting <==>
            c.state == Connecting && (|packet| < PACKET_HEADER_SIZE || packet[..4] != cfg.protocolHeader)
  {
    hide Received, LostEvents;
    ReceivedLife(cfg, c, packet, now, d);
    if |packet| >= PACKET_HEADER_SIZE {
      LostEventsAreLosses(Packets(c.inFlight, ReadAcks(cfg, packet, now), Dropped));
    }
  }

  lemma DrainedSilent(c: Conn)
    requires Silent(c.events)
    ensures Silent(Drained(c).1) && Silent(Drained(c).0.events) && Drained(c).0.state == c.state
  {
    MessageEventsSilent(c.queue.inbox.recv);
  }

  lemma TakeEventsSettled(r: Registry, id: U32)
    requires Settled(r) && id in r.connections
    ensures Settled(TakeEvents(r, id))
  {
    DrainedSilent(r.connections[id]);
  }

  /** A first packet establishes the connection exactly if it holds a whole
      header: 8 to 13 bytes make a connection that is left waiting. */
  lemma FirstPacketConnectsIff(cfg: ValidConfig, id: U32, addr: nat, packet: seq<Byte>, now: int)
    requires IdFromPacket(cfg, packet).Some?
    ensures SettledConn(Received(cfg, NewConn(id, addr, now), packet, now).0) <==> |packet| >= PACKET_HEADER_SIZE
  {
    ReceivedSilent(cfg, NewConn(id, addr, now), packet, now, Received(cfg, NewConn(id, addr, now), packet, now));
  }

  /** A turn panics exactly if the connection is still waiting and its time to
      connect has run out. */
  lemma TurnPanicsIff(cfg: ValidConfig, r: Registry, id: U32, round: Round)
    requires id in r.connections && Silent(r.connections[id].events) && NoPanic(r.events)
    ensures
      var c := r.connections[id];
      NoPanic(Serve(cfg, r, id, round).events) <==>
      !(c.state == Connecting && round.now - c.lastReceive > cfg.connectionInitThreshold)
  {
    var c := r.connections[id];
    var t := Transmitted(cfg, c, round.now, round.rtt(id), round.ok(id)).0;
    if c.state == Connecting && round.now - c.lastReceive > cfg.connectionInitThreshold {
      assert t.events[|c.events|] == FailedToConnectEvent;
      assert Drained(t).1[|c.events|] == FailedToConnectEvent;
      assert Serve(cfg, r, id, round).events[|r.events| + |c.events|] == Unreachable(t.id);
    } else {
      TransmittedSilent(cfg, c, round.now, round.rtt(id), round.ok(id));
      DrainedSilent(t);
    }
  }

  lemma TransmittedSilent(cfg: ValidConfig, c: Conn, now: int, rtt: nat, ok: bool)
    requires Silent(c.events) && !(c.state == Connecting && now - c.lastReceive > cfg.connectionInitThreshold)
    ensures Silent(Transmitted(cfg, c, now, rtt, ok).0.events)
    ensures c.state != Connecting ==> Transmitted(cfg, c, now, rtt, ok).0.state != Connecting
  {
    TransmittedLife(cfg, c, now, rtt, ok, Transmitted(cfg, c, now, rtt, ok));
    hide Transmitted;
  }

  lemma ServeSettled(cfg: ValidConfig, r: Registry, id: U32, round: Round)
    requires Settled(r) && id in r.connections
    ensures Settled(Serve(cfg, r, id, round))
  {
    var t := Transmitted(cfg, r.connections[id], round.now, round.rtt(id), round.ok(id)).0;
    TransmittedSilent(cfg, r.connections[id], round.now, round.rtt(id), round.ok(id));
    if !Open(t) {
      TakeEventsSettled(WithConnection(r, id, t), id);
    }
  }

  lemma {:induction false} ServeAllSettled(cfg: ValidConfig, r: Registry, order: seq<U32>, round: Round)
    requires Settled(r) && forall k | 0 <= k < |order| :: order[k] in r.connections
    ensures Settled(ServeAll(cfg, r, order, round))
  {
    if order != [] {
      ServeAllSettled(cfg, r, order[..|order| - 1], round);
      ServeSettled(cfg, ServeAll(cfg, r, order[..|order| - 1], round), order[|order| - 1], round);
    }
  }

  /** Every datagram that names a connection holds a whole header. */
  predicate WholeHeaders(cfg: ValidConfig, ds: seq<Datagram>) {
    forall k | 0 <= k < |ds| :: IdFromPacket(cfg, ds[k].packet).Some? ==> |ds[k].packet| >= PACKET_HEADER_SIZE
  }

  lemma ReceiveFromSettled(cfg: ValidConfig, r: Registry, id: U32, addr: nat, packet: seq<Byte>, now: int)
    requires Settled(r) && IdFromPacket(cfg, packet) == Some(id) && |packet| >= PACKET_HEADER_SIZE
    ensures Settled(ReceiveFrom(cfg, r, id, addr, packet, now))
  {
    if id in r.connections {
      var c := r.connections[id];
      var d := Received(cfg, c, packet, now);
      ReceivedSilent(cfg, c, packet, now, d);
      var moved := d.1 && addr != d.0.peer;
      TakeEventsSettled(r.(connections := r.connections[id := if moved then d.0.(peer := addr) else d.0],
                           addresses := if moved then r.addresses[id := addr] else r.addresses), id);
    } else {
      FirstPacketConnectsIff(cfg, id, addr, packet, now);
      var c := Received(cfg, NewConn(id, addr, now), packet, now).0;
      TakeEventsSettled(r.(connections := r.connections[id := c], addresses := r.addresses[id := addr]), id);
    }
  }

  lemma {:induction false} ReceiveAllSettled(cfg: ValidConfig, r: Registry, ds: seq<Datagram>, now: int)
    requires Settled(r) && WholeHeaders(cfg, ds)
    ensures Settled(ReceiveAll(cfg, r, ds, now))
  {
    if ds != [] {
      var d := ds[|ds| - 1];
      ReceiveAllSettled(cfg, r, ds[..|ds| - 1], now);
      var id := IdFromPacket(cfg, d.packet);
      if id.Some? {
        ReceiveFromSettled(cfg, ReceiveAll(cfg, r, ds[..|ds| - 1], now), id.value, d.addr, d.packet, now);
      }
    }
  }

  /** No datagram is cut inside its header, and no connection is reset. */
  predicate Whole(cfg: ValidConfig, a: ServerAction) {
    (a.Receive? ==> WholeHeaders(cfg, a.ds)) && !a.ResetConnection?
  }

  lemma StepSettled(cfg: ValidConfig, r: Registry, a: ServerAction)
    requires Settled(r) && Possible(r, a) && Whole(cfg, a)
    ensures Settled(Stepped(cfg, r, a))
  {
    match a
    case Receive(ds, now) => ReceiveAllSettled(cfg, r, ds, now);
    case SendRound(order, round) =>
      IterationInKeys(order, WithoutDropped(r).connections.Keys);
      ServeAllSettled(cfg, WithoutDropped(r), order, round);
    case QueueMessage(_, _, _) =>
    case TakeConnectionEvents(_) =>
    case CloseConnection(_) =>
    case NextEvent =>
    case Shutdown =>
  }

  /** As long as no datagram is cut inside its header and the caller resets no
      connection, no run of the server panics on an event. */
  lemma {:induction false} NeverUnreachable(cfg: ValidConfig, states: seq<Registry>, actions: seq<ServerAction>)
    requires IsRun(cfg, states, actions) && forall k | 0 <= k < |actions| :: Whole(cfg, actions[k])
    ensures forall k | 0 <= k < |states| :: NoPanic(states[k].events)
  {
    for n := 0 to |actions|
      invariant forall k | 0 <= k <= n :: Settled(states[k])
    {
      StepSettled(cfg, states[n], actions[n]);
    }
  }

  // ----- exactly when a run panics -----

  /** Waiting for its first packet for too long. */
  predicate Late(cfg: ValidConfig, c: Conn, now: int) {
    c.state == Connecting && now - c.lastReceive > cfg.connectionInitThreshold
  }

  predicate NobodyLate(cfg: ValidConfig, r: Registry, now: int) {
    forall id | id in r.connections :: !Late(cfg, r.connections[id], now)
  }

  predicate AllSilent(r: Registry) {
    forall id | id in r.connections :: Silent(r.connections[id].events)
  }

  lemma TakeEventsSilent(r: Registry, id: U32)
    requires AllSilent(r) && id in r.connections
    ensures AllSilent(TakeEvents(r, id)) && (NoPanic(TakeEvents(r, id).events) <==> NoPanic(r.events))
  {
    DrainedSilent(r.connections[id]);
    var taken := MapEvents(r.connections[id].id, Drained(r.connections[id]).1);
    assert NoPanic(taken);
    NoPanicAppend(r.events, taken);
  }

  lemma NoPanicAppend(es: seq<ServerEvent>, more: seq<ServerEvent>)
    ensures NoPanic(es + more) <==> NoPanic(es) && NoPanic(more)
  {
    assert forall k | 0 <= k < |es| :: (es + more)[k] == es[k];
    assert forall k | 0 <= k < |more| :: (es + more)[|es| + k] == more[k];
  }

  lemma ReceiveFromSilent(cfg: ValidConfig, r: Registry, id: U32, addr: nat, packet: seq<Byte>, now: int)
    requires AllSilent(r)
    ensures
      var s := ReceiveFrom(cfg, r, id, addr, packet, now);
      AllSilent(s) && (NoPanic(s.events) <==> NoPanic(r.events))
  {
    var was := if id in r.connections then r.connections[id] else NewConn(id, addr, now);
    var d := Received(cfg, was, packet, now);
    ReceivedSilent(cfg, was, packet, now, d);
    hide Received, TakeEvents, Silent, NoPanic;
    if id in r.connections {
      var moved := d.1 && addr != d.0.peer;
      TakeEventsSilent(r.(connections := r.connections[id := if moved then d.0.(peer := addr) else d.0],
                          addresses := if moved then r.addresses[id := addr] else r.addresses), id);
    } else {
      TakeEventsSilent(r.(connections := r.connections[id := d.0], addresses := r.addresses[id := addr]), id);
    }
  }

  lemma {:induction false} ReceiveAllSilent(cfg: ValidConfig, r: Registry, ds: seq<Datagram>, now: int)
    requires AllSilent(r)
    ensures
      var s := ReceiveAll(cfg, r, ds, now);
      AllSilent(s) && (NoPanic(s.events) <==> NoPanic(r.events))
  {
    hide AllSilent, NoPanic, ReceiveFrom;
    if ds != [] {
      var d := ds[|ds| - 1];
      ReceiveAllSilent(cfg, r, ds[..|ds| - 1], now);
      var id := IdFromPacket(cfg, d.packet);
      if id.Some? {
        ReceiveFromSilent(cfg, ReceiveAll(cfg, r, ds[..|ds| - 1], now), id.value, d.addr, d.packet, now);
      }
    }
  }

  lemma TransmittedQuiet(cfg: ValidConfig, c: Conn, now: int, rtt: nat, ok: bool, t: Conn)
    requires Silent(c.events) && t == Transmitted(cfg, c, now, rtt, ok).0
    ensures Open(t) ==> Silent(t.events)
    ensures !Late(cfg, c, now) ==> Silent(t.events)
    ensures Late(cfg, c, now) ==> !Open(t) && t.events == c.events + [FailedToConnectEvent]
  {
    TransmittedLife(cfg, c, now, rtt, ok, Transmitted(cfg, c, now, rtt, ok));
    hide Transmitted;
  }

  lemma ServeSilent(cfg: ValidConfig, r: Registry, id: U32, round: Round, s: Registry)
    requires AllSilent(r) && id in r.connections && s == Serve(cfg, r, id, round)
    ensures AllSilent(s) && (NoPanic(s.events) <==> NoPanic(r.events) && !Late(cfg, r.connections[id], round.now))
  {
    var c := r.connections[id];
    var t := Transmitted(cfg, c, round.now, round.rtt(id), round.ok(id)).0;
    TransmittedQuiet(cfg, c, round.now, round.rtt(id), round.ok(id), t);
    if NoPanic(r.events) {
      TurnPanicsIff(cfg, r, id, round);
    }
    hide Transmitted, Silent;
    if !Open(t) {
      var taken := MapEvents(t.id, Drained(t).1);
      assert s.events == r.events + taken;
      NoPanicAppend(r.events, taken);
      EmptiedSilent(t);
    }
  }

  lemma EmptiedSilent(c: Conn)
    ensures Silent(Drained(c).0.events)
  {
  }

  /** None of the connections in `order` is late. */
  predicate AllPrompt(cfg: ValidConfig, r: Registry, order: seq<U32>, now: int) {
    forall k | 0 <= k < |order| :: order[k] in r.connections && !Late(cfg, r.connections[order[k]], now)
  }

  lemma AllPromptLast(cfg: ValidConfig, r: Registry, order: seq<U32>, now: int)
    requires order != [] && order[|order| - 1] in r.connections
    ensures AllPrompt(cfg, r, order, now) <==>
            AllPrompt(cfg, r, order[..|order| - 1], now) && !Late(cfg, r.connections[order[|order| - 1]], now)
  {
    assert forall k | 0 <= k < |order| - 1 :: order[..|order| - 1][k] == order[k];
  }

  /** A pass panics exactly if one of the connections it serves is late. */
  lemma {:induction false} PassPanicsIff(cfg: ValidConfig, r: Registry, order: seq<U32>, round: Round, s: Registry)
    requires AllSilent(r) && r.dropped == [] && Distinct(order) && (forall k | 0 <= k < |order| :: order[k] in r.connections)
    requires s == ServeAll(cfg, r, order, round)
    ensures AllSilent(s) && (NoPanic(s.events) <==> NoPanic(r.events) && AllPrompt(cfg, r, order, round.now))
  {
    if order != [] {
      var init, id := order[..|order| - 1], order[|order| - 1];
      var before := ServeAll(cfg, r, init, round);
      hide AllSilent, NoPanic, Serve, Late, AllPrompt, Distinct;
      LastOfPass(order);
      PassPanicsIff(cfg, r, init, round, before);
      TurnInPass(cfg, r, init, id, round, before);
      ServeSilent(cfg, before, id, round, s);
      AllPromptLast(cfg, r, order, round.now);
    }
  }

  lemma TurnInPass(cfg: ValidConfig, r: Registry, order: seq<U32>, id: U32, round: Round, s: Registry)
    requires r.dropped == [] && Distinct(order) && (forall k | 0 <= k < |order| :: order[k] in r.connections)
    requires id in r.connections && id !in Ids(order) && s == ServeAll(cfg, r, order, round)
    ensures id in s.connections && s.connections[id] == r.connections[id]
  {
    hide ServeAll;
    OneMoreTurn(cfg, r, order, id, round, s);
  }

  lemma RoundPanicsIff(cfg: ValidConfig, r: Registry, order: seq<U32>, round: Round, s: Registry)
    requires AllSilent(r) && IterationOf(order, WithoutDropped(r).connections.Keys)
    requires forall k | 0 <= k < |order| :: order[k] in WithoutDropped(r).connections
    requires s == ServeAll(cfg, WithoutDropped(r), order, round)
    ensures AllSilent(s)
    ensures NoPanic(s.events) <==> NoPanic(r.events) && NobodyLate(cfg, WithoutDropped(r), round.now)
  {
    hide Late, NoPanic, ServeAll;
    var start := WithoutDropped(r);
    PassPanicsIff(cfg, start, order, round, s);
    forall id | id in start.connections
      ensures exists k :: 0 <= k < |order| && order[k] == id
    {
      assert id in Ids(order);
    }
  }

  /** A step makes the server panic exactly if it is a round with somebody late. */
  predicate Survives(cfg: ValidConfig, r: Registry, a: ServerAction) {
    a.SendRound? ==> NobodyLate(cfg, WithoutDropped(r), a.round.now)
  }

  lemma StepPanicsIff(cfg: ValidConfig, r: Registry, a: ServerAction)
    requires AllSilent(r) && Possible(r, a)
    ensures AllSilent(Stepped(cfg, r, a))
    ensures NoPanic(r.events) ==> (NoPanic(Stepped(cfg, r, a).events) <==> Survives(cfg, r, a))
  {
    hide ReceiveAll, ServeAll;
    match a
    case Receive(ds, now) => ReceiveAllSilent(cfg, r, ds, now);
    case SendRound(order, round) =>
      IterationInKeys(order, WithoutDropped(r).connections.Keys);
      RoundPanicsIff(cfg, r, order, round, Stepped(cfg, r, a));
    case QueueMessage(_, _, _) =>
    case TakeConnectionEvents(_) =>
    case CloseConnection(_) =>
    case ResetConnection(_, _) =>
    case NextEvent =>
    case Shutdown =>
  }

  /** Over every run the server is free of the panic if and only if, at the start
      of every round, no connection that it keeps has been connecting for longer
      than the time to connect. */
  lemma {:induction false} PanicsIff(cfg: ValidConfig, states: seq<Registry>, actions: seq<ServerAction>)
    requires IsRun(cfg, states, actions)
    ensures (forall k | 0 <= k < |states| :: NoPanic(states[k].events)) <==>
            (forall k | 0 <= k < |actions| :: Survives(cfg, states[k], actions[k]))
  {
    hide Survives, NoPanic, AllSilent, Stepped;
    StartsQuiet();
    for n := 0 to |actions|
      invariant AllSilent(states[n])
      invariant (forall k | 0 <= k <= n :: NoPanic(states[k].events)) <==>
                (forall k | 0 <= k < n :: Survives(cfg, states[k], actions[k]))
    {
      StepPanicsIff(cfg, states[n], actions[n]);
    }
  }

  lemma StartsQuiet()
    ensures AllSilent(EMPTY_REGISTRY) && NoPanic(EMPTY_REGISTRY.events)
  {
  }

  /** A caller that resets a connection can bring about the panic. */
  lemma ResetPanics(cfg: ValidConfig, r: Registry, id: U32, now: int, round: Round)
    requires AllSilent(r) && NoPanic(r.events) && id in r.connections && round.now - now > cfg.connectionInitThreshold
    ensures !NoPanic(Serve(cfg, Stepped(cfg, r, ResetConnection(id, now)), id, round).events)
  {
    TurnPanicsIff(cfg, Stepped(cfg, r, ResetConnection(id, now)), id, round);
  }

  /** Eight bytes are enough for the panic: a datagram of just the protocol
      header and an id, and a round after the time to connect. */
  lemma EightBytesPanic(cfg: ValidConfig, id: U32, addr: nat, round: Round)
    requires round.now > cfg.connectionInitThreshold
    ensures
      var r := ReceiveAll(cfg, EMPTY_REGISTRY, [Datagram(addr, cfg.protocolHeader + BigEndian(id))], 0);
      id in r.connections && !NoPanic(Serve(cfg, r, id, round).events)
  {
    var packet := cfg.protocolHeader + BigEndian(id);
    BigEndianRoundTrip(id);
    assert packet[..4] == cfg.protocolHeader;
    assert packet[4..] == BigEndian(id);
    assert IdFromPacket(cfg, packet) == Some(id);
    var ds := [Datagram(addr, packet)];
    assert ds[..0] == [] && ReceiveAll(cfg, EMPTY_REGISTRY, [], 0) == EMPTY_REGISTRY;
    var r := ReceiveAll(cfg, EMPTY_REGISTRY, ds, 0);
    assert r == ReceiveNew(cfg, EMPTY_REGISTRY, id, addr, packet, 0);
    TurnPanicsIff(cfg, r, id, round);
  }
}
