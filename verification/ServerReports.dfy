/** What the server tells its caller: the events of every datagram and of every
    turn, in the terms of the packets, the clocks and the messages alone. */
module ServerReports {
  import opened Bytes
  import opened MessageCodec
  import opened MessageQueues
  import opened Connections
  import Sessions
  import opened Loss
  import opened Lifetimes
  import opened Servers

  /** `told` is what the server says of the connection event `e`. */
  predicate Tells(id: U32, e: Event, told: ServerEvent) {
    && (e == ConnectedEvent ==> told == ConnectionOpened(id))
    && (e == LostEvent(true) ==> told == ConnectionLost(id, true))
    && (e == LostEvent(false) ==> told == ConnectionLost(id, false))
    && (e == ClosedEvent(true) ==> told == ConnectionClosed(id, true))
    && (e == ClosedEvent(false) ==> told == ConnectionClosed(id, false))
    && (e == CongestionStateChangedEvent(true) ==> told == CongestionStateChanged(id, true))
    && (e == CongestionStateChangedEvent(false) ==> told == CongestionStateChanged(id, false))
    && (e.MessageEvent? ==> told == MessageReceived(id, e.data))
    && (e.PacketLostEvent? ==> told == PacketLost(id, e.payload))
    && (e == FailedToConnectEvent ==> told == Unreachable(id))
  }

  predicate TellsAll(id: U32, es: seq<Event>, told: seq<ServerEvent>) {
    |told| == |es| && forall k | 0 <= k < |es| :: Tells(id, es[k], told[k])
  }

  /** One report for every message, with its data, in order. */
  function Messages(id: U32, ms: seq<Message>): seq<ServerEvent> {
    seq(|ms|, k requires 0 <= k < |ms| => MessageReceived(id, ms[k].data))
  }

  lemma MapTells(id: U32, es: seq<Event>)
    ensures TellsAll(id, es, MapEvents(id, es))
  {
  }

  lemma DrainedTells(id: U32, c: Conn)
    ensures MapEvents(id, Drained(c).1) == MapEvents(id, c.events) + Messages(id, c.queue.inbox.recv)
  {
    hide Drained;
    DrainedIsAll(c, Drained(c));
  }

  /** Taking a connection's events tells all that was pending, then its messages. */
  lemma TakenReports(r: Registry, id: U32, s: Registry) returns (told: seq<ServerEvent>)
    requires id in r.connections && r.connections[id].id == id && s == TakeEvents(r, id)
    ensures
      var c := r.connections[id];
      && s.events == r.events + told + Messages(id, c.queue.inbox.recv) && TellsAll(id, c.events, told)
      && s.connections == r.connections[id := s.connections[id]] && s.addresses == r.addresses && s.dropped == r.dropped
      && s.connections[id] == c.(events := [], queue := c.queue.(inbox := c.queue.inbox.(recv := [])))
  {
    hide MapEvents, TellsAll;
    var c := r.connections[id];
    told := MapEvents(id, c.events);
    MapTells(id, c.events);
    DrainedTells(id, c);
    Assoc(r.events, told, Messages(id, c.queue.inbox.recv));
  }

  lemma TellsParts(id: U32, a: seq<Event>, b: seq<Event>, told: seq<ServerEvent>)
    requires TellsAll(id, a + b, told)
    ensures |told| == |a| + |b| && TellsAll(id, a, told[..|a|]) && TellsAll(id, b, told[|a|..])
    ensures told == told[..|a|] + told[|a|..]
  {
    assert forall k | 0 <= k < |a| :: (a + b)[k] == a[k];
    assert forall k | 0 <= k < |b| :: (a + b)[|a| + k] == b[k];
  }

  lemma TellsOne(id: U32, e: Event, told: seq<ServerEvent>)
    requires TellsAll(id, [e], told)
    ensures told == [told[0]] && Tells(id, e, told[0])
  {
    assert [e][0] == e;
  }

  /** What is said of a connection whose events are taken: all that was pending,
      then what this call adds, then the messages that wait. */
  predicate Says(id: U32, pending: seq<Event>, added: seq<ServerEvent>, ms: seq<Message>, said: seq<ServerEvent>) {
    && |said| == |pending| + |added| + |ms|
    && TellsAll(id, pending, said[..|pending|])
    && said[|pending|..|pending| + |added|] == added
    && said[|pending| + |added|..] == Messages(id, ms)
  }

  lemma SaysParts(id: U32, pending: seq<Event>, added: seq<ServerEvent>, latest: seq<Event>, ms: seq<Message>, told: seq<ServerEvent>)
    requires TellsAll(id, pending + latest, told) && (forall t | TellsAll(id, latest, t) :: t == added)
    ensures Says(id, pending, added, ms, told + Messages(id, ms))
  {
    hide TellsAll;
    TellsParts(id, pending, latest, told);
    var said := told + Messages(id, ms);
    assert |told| == |pending| + |added|;
    assert said[..|pending|] == told[..|pending|];
    assert said[|pending|..|pending| + |added|] == told[|pending|..];
    assert said[|pending| + |added|..] == Messages(id, ms);
  }

  // ----- one turn -----

  /** The time of an open connection has run out. */
  predicate Late(cfg: ValidConfig, c: Conn, now: int) {
    match c.state
    case Connected => now - c.lastReceive > cfg.connectionDropThreshold || now - c.lastSend > cfg.connectionDropThreshold
    case Closing => now - c.lastReceive > cfg.connectionClosingThreshold
    case Connecting => now - c.lastReceive > cfg.connectionInitThreshold
    case _ => false
  }

  /** What a turn adds to what is said: how the connection ended, if it did. */
  function TurnAdds(cfg: ValidConfig, c: Conn, id: U32, now: int): seq<ServerEvent> {
    match c.state
    case Connected => [ConnectionLost(id, now - c.lastReceive > cfg.connectionDropThreshold)]
    case Closing => [ConnectionClosed(id, false)]
    case Connecting => [Unreachable(id)]
    case _ => []
  }

  /** The events of a turn: none of a connection that stays open. */
  predicate TurnSays(cfg: ValidConfig, c: Conn, id: U32, now: int, said: seq<ServerEvent>) {
    if Open(c) && !Late(cfg, c, now) then said == []
    else Says(id, c.events, TurnAdds(cfg, c, id, now), c.queue.inbox.recv, said)
  }

  lemma OnlyOne(id: U32, e: Event, one: ServerEvent)
    requires forall told | Tells(id, e, told) :: told == one
    ensures forall t | TellsAll(id, [e], t) :: t == [one]
  {
    forall t | TellsAll(id, [e], t)
      ensures t == [one]
    {
      TellsOne(id, e, t);
    }
  }

  /** A late turn ends an open connection with one event. */
  lemma LateIff(cfg: ValidConfig, c: Conn, now: int, rtt: nat, ok: bool, t: Conn) returns (latest: seq<Event>)
    requires t == Transmitted(cfg, c, now, rtt, ok).0
    ensures Open(t) <==> Open(c) && !Late(cfg, c, now)
    ensures !Open(t) ==>
              && t.id == c.id && t.queue == c.queue && t.events == c.events + latest
              && forall said | TellsAll(c.id, latest, said) :: said == TurnAdds(cfg, c, c.id, now)
  {
    hide Transmitted;
    var r := Transmitted(cfg, c, now, rtt, ok);
    TransmittedLife(cfg, c, now, rtt, ok, r);
    latest := if Open(c) && |r.0.events| > |c.events| then [r.0.events[|c.events|]] else [];
    match c.state {
      case Connected => LostIff(cfg, c, now, rtt, ok, r);
      case Closing => ClosedIff(cfg, c, now, rtt, ok, r);
      case Connecting => FailsIff(cfg, c, now, rtt, ok, r);
      case _ => assert c.events + [] == c.events;
    }
    if latest != [] && !Open(t) {
      OnlyOne(c.id, latest[0], TurnAdds(cfg, c, c.id, now)[0]);
    }
  }

  /** One turn tells exactly this, and lists the connection exactly if it is over. */
  lemma TurnReports(cfg: ValidConfig, r: Registry, id: U32, round: Round, s: Registry) returns (said: seq<ServerEvent>)
    requires id in r.connections && r.connections[id].id == id && s == Serve(cfg, r, id, round)
    ensures s.events == r.events + said && TurnSays(cfg, r.connections[id], id, round.now, said)
    ensures s.dropped == if Open(r.connections[id]) && !Late(cfg, r.connections[id], round.now) then r.dropped else r.dropped + [id]
    ensures
      var t := Transmitted(cfg, r.connections[id], round.now, round.rtt(id), round.ok(id)).0;
      && s.connections == r.connections[id := s.connections[id]] && s.addresses == r.addresses
      && s.connections[id] == if Open(t) then t else t.(events := [], queue := t.queue.(inbox := t.queue.inbox.(recv := [])))
  {
    hide Transmitted, TakeEvents, Says, Late, TurnAdds, TellsAll;
    var c := r.connections[id];
    var t := Transmitted(cfg, c, round.now, round.rtt(id), round.ok(id)).0;
    var latest := LateIff(cfg, c, round.now, round.rtt(id), round.ok(id), t);
    said := [];
    if Open(t) {
      assert r.events + [] == r.events;
    } else {
      var sent := r.(connections := r.connections[id := t]);
      var told := TakenReports(sent, id, TakeEvents(sent, id));
      said := told + Messages(id, t.queue.inbox.recv);
      SaysParts(id, c.events, TurnAdds(cfg, c, id, round.now), latest, c.queue.inbox.recv, told);
      Assoc(r.events, told, Messages(id, t.queue.inbox.recv));
    }
  }

  function Flatten(parts: seq<seq<ServerEvent>>): seq<ServerEvent> {
    if parts == [] then [] else Flatten(parts[..|parts| - 1]) + parts[|parts| - 1]
  }

  /** The part of every connection in what a pass over `order` tells. */
  predicate PassSays(cfg: ValidConfig, r: Registry, order: seq<U32>, now: int, parts: seq<seq<ServerEvent>>)
    requires forall k | 0 <= k < |order| :: order[k] in r.connections
  {
    |parts| == |order| && forall k | 0 <= k < |order| :: TurnSays(cfg, r.connections[order[k]], order[k], now, parts[k])
  }

  /** A turn counts the bytes of its packet if one is built and the socket takes it,
      and otherwise none. */
  lemma TurnBytes(cfg: ValidConfig, c: Conn, id: U32, round: Round, r: (Conn, Option<seq<Byte>>), bytes: nat)
    requires r == Transmitted(cfg, c, round.now, round.rtt(id), round.ok(id)) && bytes == SentBytes(cfg, c, id, round)
    ensures r.1.Some? && round.ok(id) ==> bytes == |r.1.value| >= 14 && r.0.lastSend == round.now
    ensures !(r.1.Some? && round.ok(id)) ==> bytes == 0 && r.0.lastSend == c.lastSend
  {
    hide Transmitted;
    TransmittedTimes(cfg, c, round.now, round.rtt(id), round.ok(id), r);
    Sessions.TransmittedShape(cfg, c, round.now, round.rtt(id), round.ok(id), r);
    if r.1.Some? {
      Sessions.PacketHeader(cfg, c, r.1.value);
    }
  }

  lemma EmptyPass(cfg: ValidConfig, r: Registry, now: int)
    ensures PassSays(cfg, r, [], now, []) && Flatten([]) == []
  {
  }

  lemma NextReports(cfg: ValidConfig, r: Registry, order: seq<U32>, id: U32, round: Round, before: Registry, s: Registry)
    returns (said: seq<ServerEvent>)
    requires r.dropped == [] && Distinct(order) && (forall k | 0 <= k < |order| :: order[k] in r.connections)
    requires id in r.connections && r.connections[id].id == id && id !in Ids(order)
    requires before == ServeAll(cfg, r, order, round) && s == Serve(cfg, before, id, round)
    ensures s.events == before.events + said && TurnSays(cfg, r.connections[id], id, round.now, said)
  {
    hide ServeAll, Serve, TurnSays, TotalSent, SentBytes, Ids, Distinct;
    OneMoreTurn(cfg, r, order, id, round, before);
    said := TurnReports(cfg, before, id, round, s);
  }

  lemma PassSaysMore(cfg: ValidConfig, r: Registry, order: seq<U32>, now: int, rest: seq<seq<ServerEvent>>, said: seq<ServerEvent>)
    requires order != [] && forall k | 0 <= k < |order| :: order[k] in r.connections
    requires PassSays(cfg, r, order[..|order| - 1], now, rest)
    requires TurnSays(cfg, r.connections[order[|order| - 1]], order[|order| - 1], now, said)
    ensures PassSays(cfg, r, order, now, rest + [said]) && Flatten(rest + [said]) == Flatten(rest) + said
  {
    hide TurnSays;
    assert (rest + [said])[..|rest|] == rest;
  }

  /** A whole pass tells what the turns tell, one after the other, and each only
      depends on its own connection before the pass. */
  lemma {:induction false} PassReports(cfg: ValidConfig, r: Registry, order: seq<U32>, round: Round, s: Registry)
    returns (parts: seq<seq<ServerEvent>>)
    requires r.dropped == [] && Distinct(order) && (forall k | 0 <= k < |order| :: order[k] in r.connections)
    requires (forall id | id in r.connections :: r.connections[id].id == id) && s == ServeAll(cfg, r, order, round)
    ensures s.events == r.events + Flatten(parts) && PassSays(cfg, r, order, round.now, parts)
  {
    hide Serve, TurnSays, Distinct, PassSays, Flatten;
    parts := [];
    if order == [] {
      EmptyPass(cfg, r, round.now);
      assert r.events + [] == r.events;
    } else {
      var init, id := order[..|order| - 1], order[|order| - 1];
      LastOfPass(order);
      var before := ServeAll(cfg, r, init, round);
      var rest := PassReports(cfg, r, init, round, before);
      var said := NextReports(cfg, r, init, id, round, before, s);
      parts := rest + [said];
      PassSaysMore(cfg, r, order, round.now, rest, said);
      Assoc(r.events, Flatten(rest), said);
    }
  }

  // ----- one datagram -----

  /** What a packet adds: the opening and the losses of an accepted packet, or the
      closing by a closure. */
  function PacketAdds(cfg: ValidConfig, c: Conn, packet: seq<Byte>, now: int, id: U32): seq<ServerEvent> {
    if Passes(cfg, c, packet) then
      var lost := LostPayloads(cfg, c.inFlight, packet, now);
      (if c.state == Connecting then [ConnectionOpened(id)] else []) +
      seq(|lost|, k requires 0 <= k < |lost| => PacketLost(id, lost[k]))
    else if Closes(cfg, c, packet) then [ConnectionClosed(id, true)]
    else []
  }

  /** The messages that wait once a packet is processed, or ignored. */
  function Waiting(cfg: ValidConfig, c: Conn, packet: seq<Byte>): seq<Message> {
    if Passes(cfg, c, packet) then DeliverAll(c.queue.inbox, Parse(Payload(packet))).recv else c.queue.inbox.recv
  }

  lemma TellsOpening(id: U32, first: seq<Event>, payloads: seq<seq<Byte>>, told: seq<ServerEvent>)
    requires (first == [] || first == [ConnectedEvent]) && TellsAll(id, first + LossReports(payloads), told)
    ensures told == (if first == [] then [] else [ConnectionOpened(id)]) +
                    seq(|payloads|, k requires 0 <= k < |payloads| => PacketLost(id, payloads[k]))
  {
    hide TellsAll;
    TellsParts(id, first, LossReports(payloads), told);
    var losses := told[|first|..];
    TellsLosses(id, payloads, losses);
    if first != [] {
      TellsOne(id, ConnectedEvent, told[..1]);
      assert told[..1] == [told[0]];
    }
  }

  lemma TellsLosses(id: U32, payloads: seq<seq<Byte>>, told: seq<ServerEvent>)
    requires TellsAll(id, LossReports(payloads), told)
    ensures told == seq(|payloads|, k requires 0 <= k < |payloads| => PacketLost(id, payloads[k]))
  {
    assert forall k | 0 <= k < |payloads| :: LossReports(payloads)[k] == PacketLostEvent(payloads[k]);
  }

  /** What a packet makes of a connection's own events, as the server tells them. */
  lemma ReceivedTells(cfg: ValidConfig, c: Conn, packet: seq<Byte>, now: int, d: (Conn, bool)) returns (latest: seq<Event>)
    requires Connections.Valid(c) && d == Received(cfg, c, packet, now)
    ensures d.1 == Passes(cfg, c, packet) && d.0.id == c.id && d.0.peer == c.peer
    ensures d.0.events == c.events + latest && d.0.queue.inbox.recv == Waiting(cfg, c, packet)
    ensures forall told | TellsAll(c.id, latest, told) :: told == PacketAdds(cfg, c, packet, now, c.id)
  {
    hide Received, DeliverAll, LostPayloads, Passes, Closes, TellsAll, Parse;
    AcceptedIff(cfg, c, packet, now, d);
    ReceivedLife(cfg, c, packet, now, d);
    Sessions.AbsorbedInbox(cfg, c, packet, now, d);
    latest := [];
    if d.1 {
      AcceptedEvents(cfg, c, packet, now, d);
      var first := if c.state == Connecting then [ConnectedEvent] else [];
      var lost := LostPayloads(cfg, c.inFlight, packet, now);
      latest := first + LossReports(lost);
      Assoc(c.events, first, LossReports(lost));
      forall told | TellsAll(c.id, latest, told)
        ensures told == PacketAdds(cfg, c, packet, now, c.id)
      {
        TellsOpening(c.id, first, lost, told);
      }
    } else if Closes(cfg, c, packet) {
      latest := [ClosedEvent(true)];
      OnlyOne(c.id, ClosedEvent(true), ConnectionClosed(c.id, true));
    } else {
      assert c.events + [] == c.events;
      TellsNothing(c.id);
    }
  }

  lemma TellsNothing(id: U32)
    ensures forall told | TellsAll(id, [], told) :: told == []
  {
  }

  /** The connection a packet is for: the one under its id, or a new one. */
  function Target(r: Registry, id: U32, addr: nat, now: int): Conn {
    if id in r.connections then r.connections[id] else NewConn(id, addr, now)
  }

  lemma KnownReports(cfg: ValidConfig, r: Registry, id: U32, addr: nat, packet: seq<Byte>, now: int, s: Registry)
    returns (said: seq<ServerEvent>)
    requires Agree(r) && id in r.connections && s == ReceiveFrom(cfg, r, id, addr, packet, now)
    ensures
      var c := r.connections[id];
      && s.events == r.events + said && Says(id, c.events, PacketAdds(cfg, c, packet, now, id), Waiting(cfg, c, packet), said)
      && s.connections == r.connections[id := s.connections[id]] && s.dropped == r.dropped
      && s.connections[id].peer == (if Passes(cfg, c, packet) then addr else c.peer)
      && s.addresses == r.addresses[id := s.connections[id].peer]
  {
    hide Received, TakeEvents, Says, PacketAdds, Waiting, Passes, TellsAll, Connections.Valid;
    var c := r.connections[id];
    var d := Received(cfg, c, packet, now);
    var latest := ReceivedTells(cfg, c, packet, now, d);
    var moved := d.1 && addr != d.0.peer;
    var e := if moved then d.0.(peer := addr) else d.0;
    var t := r.(connections := r.connections[id := e], addresses := if moved then r.addresses[id := addr] else r.addresses);
    var told := TakenReports(t, id, s);
    said := told + Messages(id, e.queue.inbox.recv);
    SaysParts(id, c.events, PacketAdds(cfg, c, packet, now, id), latest, Waiting(cfg, c, packet), told);
    Assoc(r.events, told, Messages(id, e.queue.inbox.recv));
    assert r.addresses[id := c.peer] == r.addresses;
  }

  lemma NewReports(cfg: ValidConfig, r: Registry, id: U32, addr: nat, packet: seq<Byte>, now: int, s: Registry)
    returns (said: seq<ServerEvent>)
    requires Agree(r) && id !in r.connections && s == ReceiveFrom(cfg, r, id, addr, packet, now)
    ensures
      var c := NewConn(id, addr, now);
      && s.events == r.events + said && Says(id, c.events, PacketAdds(cfg, c, packet, now, id), Waiting(cfg, c, packet), said)
      && s.connections == r.connections[id := s.connections[id]] && s.dropped == r.dropped
      && s.connections[id].peer == addr && s.addresses == r.addresses[id := addr]
  {
    hide Received, TakeEvents, Says, PacketAdds, Waiting, TellsAll, Connections.Valid;
    var c := NewConn(id, addr, now);
    NewConnValid(id, addr, now);
    var d := Received(cfg, c, packet, now);
    var latest := ReceivedTells(cfg, c, packet, now, d);
    var t := r.(connections := r.connections[id := d.0], addresses := r.addresses[id := addr]);
    if d.1 {
      var told := TakenReports(t, id, s);
      said := told + Messages(id, d.0.queue.inbox.recv);
      SaysParts(id, [], PacketAdds(cfg, c, packet, now, id), latest, Waiting(cfg, c, packet), told);
      Assoc(r.events, told, Messages(id, d.0.queue.inbox.recv));
    } else {
      said := [];
      IgnoredSaysNothing(cfg, id, addr, packet, now);
      assert r.events + [] == r.events;
    }
  }

  lemma IgnoredSaysNothing(cfg: ValidConfig, id: U32, addr: nat, packet: seq<Byte>, now: int)
    requires !Passes(cfg, NewConn(id, addr, now), packet)
    ensures var c := NewConn(id, addr, now); Says(id, c.events, PacketAdds(cfg, c, packet, now, id), Waiting(cfg, c, packet), [])
  {
  }

  /** A datagram with the protocol's header and an id is for the connection of that
      id, a new one if there is none. It tells exactly this; and if, and only if,
      the connection is new or the packet passes, the address becomes the sender's. */
  lemma DatagramReports(cfg: ValidConfig, r: Registry, d: Datagram, now: int, id: U32, s: Registry) returns (said: seq<ServerEvent>)
    requires Agree(r) && |d.packet| >= 8 && d.packet[..4] == cfg.protocolHeader
    requires id == FromBigEndian(d.packet[4], d.packet[5], d.packet[6], d.packet[7]) && s == ReceiveDatagram(cfg, r, d, now)
    ensures
      var c := Target(r, id, d.addr, now);
      && s.events == r.events + said && Says(id, c.events, PacketAdds(cfg, c, d.packet, now, id), Waiting(cfg, c, d.packet), said)
      && s.connections == r.connections[id := s.connections[id]] && s.dropped == r.dropped
      && s.connections[id].peer == (if id !in r.connections || Passes(cfg, c, d.packet) then d.addr else c.peer)
      && s.addresses == r.addresses[id := s.connections[id].peer]
  {
    hide FromBigEndian, ReceiveFrom, Says, PacketAdds, Waiting, Passes, Agree;
    if id in r.connections {
      said := KnownReports(cfg, r, id, d.addr, d.packet, now, s);
    } else {
      said := NewReports(cfg, r, id, d.addr, d.packet, now, s);
    }
  }

  /** Any other datagram is ignored. */
  lemma ForeignIsIgnored(cfg: ValidConfig, r: Registry, d: Datagram, now: int)
    requires |d.packet| < 8 || d.packet[..4] != cfg.protocolHeader
    ensures ReceiveDatagram(cfg, r, d, now) == r && ReceivedBytes(cfg, [d]) == 0
  {
    assert |[d][..0]| == 0;
  }

  /** Datagrams are taken in one by one, in order, and the bytes of those that are
      not ignored add up. */
  lemma {:induction false} DatagramsInOrder(cfg: ValidConfig, r: Registry, a: seq<Datagram>, b: seq<Datagram>, now: int)
    ensures ReceiveAll(cfg, r, a + b, now) == ReceiveAll(cfg, ReceiveAll(cfg, r, a, now), b, now)
    ensures ReceivedBytes(cfg, a + b) == ReceivedBytes(cfg, a) + ReceivedBytes(cfg, b)
    ensures |b| == 1 ==>
              && ReceiveAll(cfg, r, b, now) == ReceiveDatagram(cfg, r, b[0], now)
              && (|b[0].packet| >= 8 && b[0].packet[..4] == cfg.protocolHeader ==> ReceivedBytes(cfg, b) == |b[0].packet|)
  {
    hide ReceiveDatagram;
    if b == [] {
      assert a + b == a;
    } else {
      assert (a + b)[..|a + b| - 1] == a + b[..|b| - 1];
      DatagramsInOrder(cfg, r, a, b[..|b| - 1], now);
    }
  }

  /** The next round forgets exactly the connections on the list. */
  lemma ListedAreForgotten(r: Registry, id: U32, s: Registry)
    requires Agree(r) && s == WithoutDropped(r)
    ensures id in s.connections <==> id in r.connections && id !in r.dropped
    ensures id in s.connections ==> s.connections[id] == r.connections[id] && s.addresses[id] == r.addresses[id]
    ensures s.dropped == [] && s.events == r.events
  {
  }
}
