/** The server's methods, which update its maps in place. The socket is an
    explicit list of datagrams to receive and of the outcomes of sending. */
module ServerObjects {
  import opened Bytes
  import opened Connections
  import opened Servers
  import Statistics

  datatype ReceiveResult = Received(event: ServerEvent) | Empty | Disconnected

  class Server {
    const cfg: ValidConfig
    var listening: bool
    var shouldReceive: bool
    var connections: map<U32, Conn>
    var addresses: map<U32, nat>
    var dropped: seq<U32>
    var events: seq<ServerEvent>
    const stats: Statistics.StatsCollector
    var reported: Statistics.Stats

    /** The bytes sent per round since the start or the last shutdown. */
    ghost var sentLog: seq<nat>

    constructor (cfg: ValidConfig, sendRate: nat)
      requires sendRate > 0
      ensures Valid() && fresh(stats) && fresh(stats.buckets)
      ensures !listening && !shouldReceive && State() == EMPTY_REGISTRY && sentLog == []
    {
      this.cfg, listening, shouldReceive := cfg, false, false;
      connections, addresses, dropped, events := map[], map[], [], [];
      reported, sentLog := Statistics.Stats(0, 0), [];
      stats := new Statistics.StatsCollector(sendRate);
    }

    function State(): Registry
      reads this`connections, this`addresses, this`dropped, this`events
    {
      Registry(connections, addresses, dropped, events)
    }

    ghost predicate StatsValid()
      reads this`sentLog, stats, stats.buckets
    {
      stats.Consistent() && stats.sendRate > 0 && Statistics.Window(Statistics.Sent(stats.State()), sentLog)
    }

    ghost predicate Valid()
      reads this, stats, stats.buckets
    {
      Agree(State()) && StatsValid() && (!listening ==> State() == EMPTY_REGISTRY)
    }

    method Listen() returns (ok: bool)
      requires Valid()
      modifies this`listening, this`shouldReceive
      ensures Valid() && listening && ok == !old(listening)
      ensures shouldReceive == (ok || old(shouldReceive))
    {
      ok := !listening;
      if ok {
        listening, shouldReceive := true, true;
      }
    }

    method MapConnectionEvents(id: U32)
      requires id in connections
      modifies this`connections, this`events
      ensures State() == TakeEvents(old(State()), id)
    {
      var connection := connections[id];
      var (emptied, taken) := Drained(connection);
      connections := connections[id := emptied];
      events := events + MapEvents(connection.id, taken);
    }

    method ReceiveConnectionPacket(id: U32, addr: nat, packet: seq<Byte>, now: int) returns (packetLength: nat)
      modifies this`connections, this`addresses, this`events
      ensures State() == ReceiveFrom(cfg, old(State()), id, addr, packet, now) && packetLength == |packet|
    {
      packetLength := |packet|;
      if id in connections {
        var (connection, accepted) := Connections.Received(cfg, connections[id], packet, now);
        if accepted && addr != connection.peer {
          connection := connection.(peer := addr);
          assert (addresses - {id})[id := addr] == addresses[id := addr];
          addresses := addresses - {id};
          addresses := addresses[id := addr];
        }
        connections := connections[id := connection];
        MapConnectionEvents(id);
      } else {
        var (connection, accepted) := Connections.Received(cfg, NewConn(id, addr, now), packet, now);
        connections, addresses := connections[id := connection], addresses[id := addr];
        if accepted {
          MapConnectionEvents(id);
        }
      }
    }

    /** All datagrams of the socket are taken in before the first event since
        the last round is handed out, and none until the next round. */
    method AcceptReceive(ds: seq<Datagram>, now: int) returns (result: ReceiveResult)
      requires Valid() && (listening && shouldReceive ==> Statistics.ReceivedSafe(stats.State()))
      modifies this`connections, this`addresses, this`events, this`shouldReceive, stats`averages, stats.buckets
      ensures Valid() && (result == Disconnected <==> !old(listening))
      ensures !old(listening) ==> State() == old(State()) && shouldReceive == old(shouldReceive) && stats.State() == old(stats.State())
      ensures old(listening) ==>
                var r := if old(shouldReceive) then ReceiveAll(cfg, old(State()), ds, now) else old(State());
                && !shouldReceive
                && (if r.events == [] then result == Empty && State() == r
                    else result == Received(r.events[0]) && State() == r.(events := r.events[1..]))
      ensures old(listening && shouldReceive) ==>
                stats.State() == Statistics.SetReceived(old(stats.State()), ReceivedBytes(cfg, ds))
    {
      if !listening {
        return Disconnected;
      }
      if shouldReceive {
        var bytesReceived := ReceiveDatagrams(ds, now);
        ReceiveAllAgrees(cfg, old(State()), ds, now);
        SetReceivedKeepsSent(stats.State(), bytesReceived);
        stats.SetBytesReceived(bytesReceived);
        shouldReceive := false;
      }
      if events == [] {
        return Empty;
      }
      result := Received(events[0]);
      events := events[1..];
    }

    method ReceiveDatagrams(ds: seq<Datagram>, now: int) returns (bytesReceived: nat)
      modifies this`connections, this`addresses, this`events
      ensures State() == ReceiveAll(cfg, old(State()), ds, now) && bytesReceived == ReceivedBytes(cfg, ds)
    {
      bytesReceived := 0;
      for k := 0 to |ds|
        invariant State() == ReceiveAll(cfg, old(State()), ds[..k], now) && bytesReceived == ReceivedBytes(cfg, ds[..k])
      {
        assert ds[..k + 1][..k] == ds[..k];
        var id := IdFromPacket(cfg, ds[k].packet);
        if id.Some? {
          var n := ReceiveConnectionPacket(id.value, ds[k].addr, ds[k].packet, now);
          bytesReceived := bytesReceived + n;
        }
      }
      assert ds[..|ds|] == ds;
    }

    /** Every entry of the list is found in the map: the removal cannot fail. */
    method RemoveDropped()
      requires Agree(State())
      modifies this`connections, this`addresses, this`dropped
      ensures State() == WithoutDropped(old(State()))
    {
      for k := 0 to |dropped|
        invariant dropped == old(dropped)
        invariant connections == old(connections) - Ids(dropped[..k]) && addresses == old(addresses) - Ids(dropped[..k])
      {
        IdsAppend(dropped[..k], dropped[k]);
        assert dropped[..k + 1] == dropped[..k] + [dropped[k]];
        assert dropped[k] in connections;
        connections, addresses := connections - {dropped[k]}, addresses - {dropped[k]};
      }
      assert dropped[..|dropped|] == dropped;
      dropped := [];
    }

    /** One connection's turn. */
    method SendTo(id: U32, round: Round) returns (bytesSent: nat)
      requires id in connections
      modifies this`connections, this`dropped, this`events
      ensures State() == Serve(cfg, old(State()), id, round)
      ensures bytesSent == SentBytes(cfg, old(connections)[id], id, round)
    {
      var (connection, packet) := Transmitted(cfg, connections[id], round.now, round.rtt(id), round.ok(id));
      bytesSent := if packet.Some? && round.ok(id) then |packet.value| else 0;
      connections := connections[id := connection];
      if !Open(connection) {
        MapConnectionEvents(id);
        dropped := dropped + [id];
      }
    }

    /** The turn of a connection that is still to come in a pass. */
    method NextTurn(id: U32, round: Round, bytesSent: nat, ghost start: Registry, ghost order: seq<U32>, ghost remaining: set<U32>)
      returns (bytesSent': nat)
      requires start.dropped == [] && id in remaining && PassSoFar(cfg, start, order, remaining, round, State(), bytesSent)
      modifies this`connections, this`dropped, this`events
      ensures PassSoFar(cfg, start, order + [id], remaining - {id}, round, State(), bytesSent')
    {
      PassGoesOn(cfg, start, order, remaining, id, round, State(), bytesSent);
      var n := SendTo(id, round);
      bytesSent' := bytesSent + n;
    }

    /** Every connection gets its turn, in the arbitrary order of the map. */
    method SendToAll(round: Round) returns (bytesSent: nat, order: seq<U32>)
      requires dropped == []
      modifies this`connections, this`dropped, this`events
      ensures PassSoFar(cfg, old(State()), order, {}, round, State(), bytesSent)
    {
      bytesSent, order := 0, [];
      var remaining := connections.Keys;
      ghost var start := State();
      while remaining != {}
        invariant PassSoFar(cfg, start, order, remaining, round, State(), bytesSent)
        decreases |remaining|
      {
        var id :| id in remaining;
        bytesSent := NextTurn(id, round, bytesSent, start, order, remaining);
        remaining, order := remaining - {id}, order + [id];
      }
    }

    /** The connections' part of a round. */
    method ServeRound(round: Round) returns (bytesSent: nat, order: seq<U32>)
      requires Agree(State())
      modifies this`connections, this`addresses, this`dropped, this`events
      ensures var r := WithoutDropped(old(State()));
              && IterationOf(order, r.connections.Keys)
              && State() == ServeAll(cfg, r, order, round) && bytesSent == TotalSent(cfg, r.connections, order, round)
              && AllServed(cfg, r, r.connections.Keys, round, State()) && Agree(State())
    {
      DropAgrees(State());
      RemoveDropped();
      ghost var r := State();
      bytesSent, order := SendToAll(round);
      PassIsOver(cfg, r, order, round, State(), bytesSent);
      ServeAllExact(cfg, r, order, round, State());
    }

    /** One round: connections that were over before it are gone, all others
        have had one turn, and the list names exactly those now over. */
    method Send(round: Round) returns (ok: bool, order: seq<U32>)
      requires Valid()
      modifies this, stats, stats.buckets
      ensures Valid() && ok == old(listening) && listening == old(listening)
      ensures !ok ==> State() == old(State()) && shouldReceive == old(shouldReceive) && sentLog == old(sentLog)
      ensures ok ==>
                var r := WithoutDropped(old(State()));
                && IterationOf(order, r.connections.Keys)
                && State() == ServeAll(cfg, r, order, round)
                && AllServed(cfg, r, r.connections.Keys, round, State())
                && sentLog == old(sentLog) + [TotalSent(cfg, r.connections, order, round)]
                && reported.bytesSent == Statistics.WindowSum(sentLog, stats.sendRate)
                && shouldReceive
    {
      ok, order := listening, [];
      if ok {
        var bytesSent;
        bytesSent, order := ServeRound(round);
        Account(bytesSent);
        shouldReceive := true;
      }
    }

    method Account(bytesSent: nat)
      requires StatsValid()
      modifies this`reported, this`sentLog, stats, stats.buckets
      ensures StatsValid() && sentLog == old(sentLog) + [bytesSent]
      ensures reported.bytesSent == Statistics.WindowSum(sentLog, stats.sendRate)
    {
      ghost var before := stats.State();
      Statistics.SentSafeIfWindow(before, sentLog);
      Statistics.SentStep(before, sentLog, Statistics.Traffic(None, bytesSent));
      stats.SetBytesSent(bytesSent);
      stats.Tick();
      reported := stats.averages;
      sentLog := sentLog + [bytesSent];
    }

    method Shutdown() returns (ok: bool)
      requires Valid()
      modifies this, stats, stats.buckets
      ensures Valid() && ok == old(listening) && !listening && State() == EMPTY_REGISTRY
      ensures ok ==> !shouldReceive && reported == Statistics.Stats(0, 0) && sentLog == [] && stats.State() == Statistics.Cleared(old(stats.State()))
      ensures !ok ==> shouldReceive == old(shouldReceive) && reported == old(reported) && sentLog == old(sentLog)
      ensures !ok ==> stats.State() == old(stats.State())
    {
      ok := listening;
      if ok {
        shouldReceive, listening := false, false;
        Statistics.SentStep(stats.State(), sentLog, Statistics.Reset);
        stats.Reset();
        reported, sentLog := Statistics.Stats(0, 0), [];
        connections, addresses, dropped, events := map[], map[], [], [];
      }
    }
  }

  /** After the turns in `order`, with those of `remaining` to come. */
  ghost predicate PassSoFar(cfg: ValidConfig, r: Registry, order: seq<U32>, remaining: set<U32>, round: Round,
                            s: Registry, bytes: nat) {
    && Distinct(order) && Ids(order) !! remaining && Ids(order) + remaining == r.connections.Keys
    && (forall k | 0 <= k < |order| :: order[k] in r.connections)
    && s == ServeAll(cfg, r, order, round) && bytes == TotalSent(cfg, r.connections, order, round)
  }

  lemma PassGoesOn(cfg: ValidConfig, r: Registry, order: seq<U32>, remaining: set<U32>, id: U32, round: Round,
                   s: Registry, bytes: nat)
    requires r.dropped == [] && id in remaining && PassSoFar(cfg, r, order, remaining, round, s, bytes)
    ensures id in s.connections
    ensures PassSoFar(cfg, r, order + [id], remaining - {id}, round, Serve(cfg, s, id, round),
                      bytes + SentBytes(cfg, s.connections[id], id, round))
  {
    OneMoreTurn(cfg, r, order, id, round, s);
  }

  lemma PassIsOver(cfg: ValidConfig, r: Registry, order: seq<U32>, round: Round, s: Registry, bytes: nat)
    requires PassSoFar(cfg, r, order, {}, round, s, bytes)
    ensures IterationOf(order, r.connections.Keys)
    ensures s == ServeAll(cfg, r, order, round) && bytes == TotalSent(cfg, r.connections, order, round)
  {
  }

  lemma SetReceivedKeepsSent(c: Statistics.Collector, bytes: nat)
    requires Statistics.Valid(c)
    ensures Statistics.Sent(Statistics.SetReceived(c, bytes)) == Statistics.Sent(c)
  {
  }
}
