/** The server of src/server.rs: connections and addresses by id, the list of
    connections to drop, and the statistics of what it sends. The map owns its
    connections, so it holds their values. */
module Servers {
  import opened Bytes
  import opened Connections

  /** `Unreachable` stands for the panic in the mapping of events. */
  datatype ServerEvent =
    | ConnectionOpened(id: U32)
    | ConnectionLost(id: U32, byRemote: bool)
    | ConnectionClosed(id: U32, byRemote: bool)
    | MessageReceived(id: U32, data: seq<Byte>)
    | CongestionStateChanged(id: U32, congested: bool)
    | PacketLost(id: U32, payload: seq<Byte>)
    | Unreachable(id: U32)

  function MapEvent(id: U32, e: Event): ServerEvent {
    match e
    case ConnectedEvent => ConnectionOpened(id)
    case LostEvent(byRemote) => ConnectionLost(id, byRemote)
    case FailedToConnectEvent => Unreachable(id)
    case ClosedEvent(byRemote) => ConnectionClosed(id, byRemote)
    case MessageEvent(data) => MessageReceived(id, data)
    case CongestionStateChangedEvent(c) => CongestionStateChanged(id, c)
    case PacketLostEvent(payload) => PacketLost(id, payload)
  }

  function MapEvents(id: U32, es: seq<Event>): (r: seq<ServerEvent>)
    ensures |r| == |es| && forall k | 0 <= k < |es| :: r[k] == MapEvent(id, es[k])
  {
    seq(|es|, k requires 0 <= k < |es| => MapEvent(id, es[k]))
  }

  datatype Registry = Registry(
    connections: map<U32, Conn>,
    addresses: map<U32, nat>,
    dropped: seq<U32>,
    events: seq<ServerEvent>)

  const EMPTY_REGISTRY := Registry(map[], map[], [], [])

  /** `map_connection_events`: the connection's events, under its own id. */
  function TakeEvents(r: Registry, id: U32): Registry
    requires id in r.connections
  {
    var c := r.connections[id];
    r.(connections := r.connections[id := Drained(c).0], events := r.events + MapEvents(c.id, Drained(c).1))
  }

  // ----- receiving -----

  /** A packet for a known id: the address follows the packets that are accepted. */
  function ReceiveKnown(cfg: ValidConfig, r: Registry, id: U32, addr: nat, packet: seq<Byte>, now: int): Registry
    requires id in r.connections
  {
    var (c, accepted) := Received(cfg, r.connections[id], packet, now);
    var moved := accepted && addr != c.peer;
    TakeEvents(r.(connections := r.connections[id := if moved then c.(peer := addr) else c],
                  addresses := if moved then r.addresses[id := addr] else r.addresses), id)
  }

  /** A packet for an unknown id makes a connection, whatever becomes of the packet. */
  function ReceiveNew(cfg: ValidConfig, r: Registry, id: U32, addr: nat, packet: seq<Byte>, now: int): Registry {
    var (c, accepted) := Received(cfg, NewConn(id, addr, now), packet, now);
    var added := r.(connections := r.connections[id := c], addresses := r.addresses[id := addr]);
    if accepted then TakeEvents(added, id) else added
  }

  function ReceiveFrom(cfg: ValidConfig, r: Registry, id: U32, addr: nat, packet: seq<Byte>, now: int): Registry {
    if id in r.connections then ReceiveKnown(cfg, r, id, addr, packet, now) else ReceiveNew(cfg, r, id, addr, packet, now)
  }

  /** A datagram: where it came from and what it holds. */
  datatype Datagram = Datagram(addr: nat, packet: seq<Byte>)

  /** Datagrams without the protocol header are ignored. */
  function ReceiveDatagram(cfg: ValidConfig, r: Registry, d: Datagram, now: int): Registry {
    var id := IdFromPacket(cfg, d.packet);
    if id.Some? then ReceiveFrom(cfg, r, id.value, d.addr, d.packet, now) else r
  }

  function ReceiveAll(cfg: ValidConfig, r: Registry, ds: seq<Datagram>, now: int): Registry {
    if ds == [] then r else ReceiveDatagram(cfg, ReceiveAll(cfg, r, ds[..|ds| - 1], now), ds[|ds| - 1], now)
  }

  function ReceivedBytes(cfg: ValidConfig, ds: seq<Datagram>): nat {
    if ds == [] then 0
    else
      ReceivedBytes(cfg, ds[..|ds| - 1]) +
      if IdFromPacket(cfg, ds[|ds| - 1].packet).Some? then |ds[|ds| - 1].packet| else 0
  }

  // ----- sending -----

  function Ids(ids: seq<U32>): set<U32> {
    set k | 0 <= k < |ids| :: ids[k]
  }

  function WithoutDropped(r: Registry): Registry {
    r.(connections := r.connections - Ids(r.dropped), addresses := r.addresses - Ids(r.dropped), dropped := [])
  }

  /** The circumstances of one round of sending: the clock, and for every
      connection its round trip time and whether the socket takes its packet. */
  datatype Round = Round(now: int, rtt: U32 -> nat, ok: U32 -> bool)

  /** A connection after its turn: its events are taken once it is over. */
  function Served(cfg: ValidConfig, c: Conn, id: U32, round: Round): Conn {
    var t := Transmitted(cfg, c, round.now, round.rtt(id), round.ok(id)).0;
    if Open(t) then t else Drained(t).0
  }

  function SentBytes(cfg: ValidConfig, c: Conn, id: U32, round: Round): nat {
    var packet := Transmitted(cfg, c, round.now, round.rtt(id), round.ok(id)).1;
    if packet.Some? && round.ok(id) then |packet.value| else 0
  }

  function Serve(cfg: ValidConfig, r: Registry, id: U32, round: Round): Registry
    requires id in r.connections
  {
    var t := Transmitted(cfg, r.connections[id], round.now, round.rtt(id), round.ok(id)).0;
    var sent := r.(connections := r.connections[id := t]);
    if Open(t) then sent else TakeEvents(sent, id).(dropped := r.dropped + [id])
  }

  /** All connections in the order of the map's iteration. */
  function ServeAll(cfg: ValidConfig, r: Registry, order: seq<U32>, round: Round): (s: Registry)
    requires forall k | 0 <= k < |order| :: order[k] in r.connections
    ensures s.connections.Keys == r.connections.Keys
  {
    if order == [] then r
    else
      var s := ServeAll(cfg, r, order[..|order| - 1], round);
      Serve(cfg, s, order[|order| - 1], round)
  }

  function TotalSent(cfg: ValidConfig, connections: map<U32, Conn>, order: seq<U32>, round: Round): nat
    requires forall k | 0 <= k < |order| :: order[k] in connections
  {
    if order == [] then 0
    else
      TotalSent(cfg, connections, order[..|order| - 1], round) +
      SentBytes(cfg, connections[order[|order| - 1]], order[|order| - 1], round)
  }

  predicate Distinct(ids: seq<U32>) {
    forall j, k | 0 <= j < k < |ids| :: ids[j] != ids[k]
  }

  /** One pass over all keys of a map. */
  predicate IterationOf(order: seq<U32>, keys: set<U32>) {
    Distinct(order) && Ids(order) == keys
  }

  // ----- agreement of the maps -----

  /** Equal keys, the connection's own id and address under its key, and on the
      list only existing connections, once each. */
  predicate Agree(r: Registry) {
    && r.connections.Keys == r.addresses.Keys
    && (forall id | id in r.connections ::
          r.connections[id].id == id && r.addresses[id] == r.connections[id].peer && Connections.Valid(r.connections[id]))
    && Distinct(r.dropped) && Ids(r.dropped) <= r.connections.Keys
  }

  lemma ReceivedIdentity(cfg: ValidConfig, c: Conn, packet: seq<Byte>, now: int)
    ensures Received(cfg, c, packet, now).0.id == c.id && Received(cfg, c, packet, now).0.peer == c.peer
  {
    hide Received;
    ReceivedLife(cfg, c, packet, now, Received(cfg, c, packet, now));
  }

  lemma TransmittedIdentity(cfg: ValidConfig, c: Conn, now: int, rtt: nat, ok: bool)
    ensures Transmitted(cfg, c, now, rtt, ok).0.id == c.id && Transmitted(cfg, c, now, rtt, ok).0.peer == c.peer
  {
    hide Transmitted;
    TransmittedLife(cfg, c, now, rtt, ok, Transmitted(cfg, c, now, rtt, ok));
  }

  lemma DrainedValid(c: Conn)
    requires Connections.Valid(c)
    ensures Connections.Valid(Drained(c).0) && Drained(c).0.id == c.id && Drained(c).0.peer == c.peer
  {
  }

  /** Agreement looks at a registry entry by entry. */
  lemma EntryAgrees(r: Registry, id: U32, c: Conn, s: Registry)
    requires Agree(r) && c.id == id && Connections.Valid(c)
    requires s.connections == r.connections[id := c] && s.addresses == r.addresses[id := c.peer] && s.dropped == r.dropped
    ensures Agree(s)
  {
  }

  lemma TakeEventsAgree(r: Registry, id: U32)
    requires Agree(r) && id in r.connections
    ensures Agree(TakeEvents(r, id))
  {
    var d := Drained(r.connections[id]).0;
    DrainedValid(r.connections[id]);
    assert r.addresses == r.addresses[id := d.peer];
    EntryAgrees(r, id, d, TakeEvents(r, id));
  }

  lemma ReceiveKnownAgrees(cfg: ValidConfig, r: Registry, id: U32, addr: nat, packet: seq<Byte>, now: int)
    requires Agree(r) && id in r.connections
    ensures Agree(ReceiveKnown(cfg, r, id, addr, packet, now))
  {
    var c := r.connections[id];
    ReceivedIdentity(cfg, c, packet, now);
    ReceivedKeepsValid(cfg, c, packet, now);
    var (d, accepted) := Received(cfg, c, packet, now);
    var moved := accepted && addr != d.peer;
    var e := if moved then d.(peer := addr) else d;
    var s := r.(connections := r.connections[id := e], addresses := if moved then r.addresses[id := addr] else r.addresses);
    assert s.addresses == r.addresses[id := e.peer];
    PeerIsFree(d, addr);
    EntryAgrees(r, id, e, s);
    TakeEventsAgree(s, id);
  }

  lemma PeerIsFree(c: Conn, addr: nat)
    requires Connections.Valid(c)
    ensures Connections.Valid(c.(peer := addr))
  {
  }

  lemma ReceiveNewAgrees(cfg: ValidConfig, r: Registry, id: U32, addr: nat, packet: seq<Byte>, now: int)
    requires Agree(r)
    ensures Agree(ReceiveNew(cfg, r, id, addr, packet, now))
  {
    var started := NewConn(id, addr, now);
    NewConnValid(id, addr, now);
    ReceivedIdentity(cfg, started, packet, now);
    ReceivedKeepsValid(cfg, started, packet, now);
    var c := Received(cfg, started, packet, now).0;
    var s := r.(connections := r.connections[id := c], addresses := r.addresses[id := addr]);
    EntryAgrees(r, id, c, s);
    TakeEventsAgree(s, id);
  }

  /** Receiving from anyone keeps the maps in agreement. */
  lemma {:induction false} ReceiveAllAgrees(cfg: ValidConfig, r: Registry, ds: seq<Datagram>, now: int)
    requires Agree(r)
    ensures Agree(ReceiveAll(cfg, r, ds, now))
  {
    if ds != [] {
      var d := ds[|ds| - 1];
      var before := ReceiveAll(cfg, r, ds[..|ds| - 1], now);
      ReceiveAllAgrees(cfg, r, ds[..|ds| - 1], now);
      var id := IdFromPacket(cfg, d.packet);
      if id.Some? && id.value in before.connections {
        ReceiveKnownAgrees(cfg, before, id.value, d.addr, d.packet, now);
      } else if id.Some? {
        ReceiveNewAgrees(cfg, before, id.value, d.addr, d.packet, now);
      }
    }
  }

  lemma NewConnValid(id: U32, peer: nat, now: int)
    ensures Connections.Valid(NewConn(id, peer, now))
  {
    RestartedValid(NewConn(id, peer, now), now);
  }

  lemma DropAgrees(r: Registry)
    requires Agree(r)
    ensures Agree(WithoutDropped(r))
  {
  }

  lemma IdsAppend(ids: seq<U32>, id: U32)
    ensures Ids(ids + [id]) == Ids(ids) + {id}
  {
    var all := ids + [id];
    assert forall k | 0 <= k < |ids| :: all[k] == ids[k];
    assert all[|ids|] == id;
  }

  lemma ServeAgrees(cfg: ValidConfig, r: Registry, id: U32, round: Round, s: Registry)
    requires Agree(r) && id in r.connections && id !in Ids(r.dropped)
    requires s == Serve(cfg, r, id, round)
    ensures Agree(s)
  {
    var d := Served(cfg, r.connections[id], id, round);
    ServedIdentity(cfg, r.connections[id], id, round);
    ServeStep(cfg, r, id, round, s);
    assert r.addresses == r.addresses[id := d.peer];
    var same := s.(dropped := r.dropped);
    EntryAgrees(r, id, d, same);
    IdsAppend(r.dropped, id);
    ListedAgrees(same, id, s);
  }

  lemma ListedAgrees(r: Registry, id: U32, s: Registry)
    requires Agree(r) && id in r.connections && id !in Ids(r.dropped)
    requires s.connections == r.connections && s.addresses == r.addresses
    requires s.dropped == r.dropped || s.dropped == r.dropped + [id]
    ensures Agree(s)
  {
    IdsAppend(r.dropped, id);
  }

  lemma ServedIdentity(cfg: ValidConfig, c: Conn, id: U32, round: Round)
    requires Connections.Valid(c)
    ensures
      var d := Served(cfg, c, id, round);
      d.id == c.id && d.peer == c.peer && Connections.Valid(d)
  {
    TransmittedIdentity(cfg, c, round.now, round.rtt(id), round.ok(id));
    TransmittedKeepsValid(cfg, c, round.now, round.rtt(id), round.ok(id));
    DrainedValid(Transmitted(cfg, c, round.now, round.rtt(id), round.ok(id)).0);
  }

  /** What a pass over `order` made of the connections and the list. */
  predicate AllServed(cfg: ValidConfig, r: Registry, order: set<U32>, round: Round, s: Registry) {
    && s.connections.Keys == r.connections.Keys
    && (forall id | id in r.connections ::
          s.connections[id] == if id in order then Served(cfg, r.connections[id], id, round) else r.connections[id])
    && Ids(s.dropped) == set id | id in order && id in s.connections && !Open(s.connections[id])
  }

  lemma ServeOneMore(cfg: ValidConfig, r: Registry, order: set<U32>, id: U32, round: Round, before: Registry, s: Registry)
    requires AllServed(cfg, r, order, round, before) && id in r.connections && id !in order
    requires s == Serve(cfg, before, id, round)
    ensures AllServed(cfg, r, order + {id}, round, s)
  {
    ServeStep(cfg, before, id, round, s);
    IdsAppend(before.dropped, id);
  }

  lemma LastOfPass(order: seq<U32>)
    requires order != [] && Distinct(order)
    ensures Distinct(order[..|order| - 1]) && order[|order| - 1] !in Ids(order[..|order| - 1])
    ensures Ids(order) == Ids(order[..|order| - 1]) + {order[|order| - 1]}
  {
    IdsAppend(order[..|order| - 1], order[|order| - 1]);
    assert order == order[..|order| - 1] + [order[|order| - 1]];
  }

  lemma {:induction false} EachServedOnce(cfg: ValidConfig, r: Registry, order: seq<U32>, round: Round, s: Registry)
    requires r.dropped == [] && Distinct(order) && (forall k | 0 <= k < |order| :: order[k] in r.connections)
    requires s == ServeAll(cfg, r, order, round)
    ensures AllServed(cfg, r, Ids(order), round, s)
  {
    if order != [] {
      var init, id := order[..|order| - 1], order[|order| - 1];
      var before := ServeAll(cfg, r, init, round);
      LastOfPass(order);
      EachServedOnce(cfg, r, init, round, before);
      ServeOneMore(cfg, r, Ids(init), id, round, before, s);
    }
  }

  /** A pass extended by one more turn. */
  lemma OneMoreTurn(cfg: ValidConfig, r: Registry, order: seq<U32>, id: U32, round: Round, s: Registry)
    requires r.dropped == [] && Distinct(order) && (forall k | 0 <= k < |order| :: order[k] in r.connections)
    requires id in r.connections && id !in Ids(order) && s == ServeAll(cfg, r, order, round)
    ensures s.connections[id] == r.connections[id]
    ensures Distinct(order + [id]) && Ids(order + [id]) == Ids(order) + {id}
    ensures ServeAll(cfg, r, order + [id], round) == Serve(cfg, s, id, round)
    ensures TotalSent(cfg, r.connections, order + [id], round) ==
            TotalSent(cfg, r.connections, order, round) + SentBytes(cfg, r.connections[id], id, round)
  {
    EachServedOnce(cfg, r, order, round, s);
    IdsAppend(order, id);
    assert (order + [id])[..|order|] == order;
    assert forall k | 0 <= k < |order| :: order[k] in Ids(order);
  }

  lemma NotYetListed(cfg: ValidConfig, r: Registry, order: seq<U32>, id: U32, round: Round, s: Registry)
    requires r.dropped == [] && Distinct(order) && (forall k | 0 <= k < |order| :: order[k] in r.connections)
    requires id !in Ids(order) && s == ServeAll(cfg, r, order, round)
    ensures id !in Ids(s.dropped)
  {
    EachServedOnce(cfg, r, order, round, s);
  }

  lemma {:induction false} PassAgrees(cfg: ValidConfig, r: Registry, order: seq<U32>, round: Round, s: Registry)
    requires Agree(r) && r.dropped == [] && Distinct(order) && (forall k | 0 <= k < |order| :: order[k] in r.connections)
    requires s == ServeAll(cfg, r, order, round)
    ensures Agree(s)
  {
    if order != [] {
      var init, id := order[..|order| - 1], order[|order| - 1];
      var before := ServeAll(cfg, r, init, round);
      LastOfPass(order);
      NotYetListed(cfg, r, init, id, round, before);
      PassAgrees(cfg, r, init, round, before);
      ServeAgrees(cfg, before, id, round, s);
    }
  }

  /** After a pass in any order, every connection has had exactly one turn, the
      list holds exactly the connections that are over, and the maps agree. */
  lemma ServeAllExact(cfg: ValidConfig, r: Registry, order: seq<U32>, round: Round, s: Registry)
    requires Agree(r) && r.dropped == [] && Distinct(order) && (forall k | 0 <= k < |order| :: order[k] in r.connections)
    requires s == ServeAll(cfg, r, order, round)
    ensures Agree(s) && AllServed(cfg, r, Ids(order), round, s)
  {
    PassAgrees(cfg, r, order, round, s);
    EachServedOnce(cfg, r, order, round, s);
  }

  lemma ServeStep(cfg: ValidConfig, r: Registry, id: U32, round: Round, s: Registry)
    requires id in r.connections && s == Serve(cfg, r, id, round)
    ensures s.connections == r.connections[id := Served(cfg, r.connections[id], id, round)]
    ensures Open(s.connections[id]) ==> s.dropped == r.dropped
    ensures !Open(s.connections[id]) ==> s.dropped == r.dropped + [id]
  {
  }
}
