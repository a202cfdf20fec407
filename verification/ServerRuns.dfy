/** What holds of the server in every run, and what does not depend on the
    order in which its map is iterated. */
module ServerRuns {
  import opened Bytes
  import opened MessageCodec
  import opened Connections
  import opened Servers

  // ----- runs -----

  /** What happens to a server: a caller may also borrow one of its connections, and
      queue messages on it, take its events, close it or reset it. */
  datatype ServerAction =
    | Receive(ds: seq<Datagram>, now: int)
    | SendRound(order: seq<U32>, round: Round)
    | QueueMessage(id: U32, kind: MessageKind, data: seq<Byte>)
    | TakeConnectionEvents(id: U32)
    | CloseConnection(id: U32)
    | ResetConnection(id: U32, now: int)
    | NextEvent
    | Shutdown

  /** A round iterates over the keys that are left once the list is cleared. */
  predicate Possible(r: Registry, a: ServerAction) {
    a.SendRound? ==> IterationOf(a.order, WithoutDropped(r).connections.Keys)
  }

  lemma IterationInKeys(order: seq<U32>, keys: set<U32>)
    requires IterationOf(order, keys)
    ensures forall k | 0 <= k < |order| :: order[k] in keys
  {
    assert forall k | 0 <= k < |order| :: order[k] in Ids(order);
  }

  function WithConnection(r: Registry, id: U32, c: Conn): Registry {
    r.(connections := r.connections[id := c])
  }

  function Stepped(cfg: ValidConfig, r: Registry, a: ServerAction): Registry
    requires Possible(r, a)
  {
    match a
    case Receive(ds, now) => ReceiveAll(cfg, r, ds, now)
    case SendRound(order, round) =>
      IterationInKeys(order, WithoutDropped(r).connections.Keys);
      ServeAll(cfg, WithoutDropped(r), order, round)
    case QueueMessage(id, kind, data) =>
      if id in r.connections then WithConnection(r, id, SentMessage(r.connections[id], kind, data)) else r
    case TakeConnectionEvents(id) =>
      if id in r.connections then WithConnection(r, id, Drained(r.connections[id]).0) else r
    case CloseConnection(id) =>
      if id in r.connections then WithConnection(r, id, CloseRequested(r.connections[id])) else r
    case ResetConnection(id, now) =>
      if id in r.connections then WithConnection(r, id, Restarted(r.connections[id], now)) else r
    case NextEvent => if r.events == [] then r else r.(events := r.events[1..])
    case Shutdown => EMPTY_REGISTRY
  }

  /** `states` is a run of the server through `actions`. */
  ghost predicate IsRun(cfg: ValidConfig, states: seq<Registry>, actions: seq<ServerAction>) {
    && |states| == |actions| + 1 && states[0] == EMPTY_REGISTRY
    && forall k | 0 <= k < |actions| :: Possible(states[k], actions[k]) && states[k + 1] == Stepped(cfg, states[k], actions[k])
  }

  lemma StepAgrees(cfg: ValidConfig, r: Registry, a: ServerAction)
    requires Agree(r) && Possible(r, a)
    ensures Agree(Stepped(cfg, r, a))
  {
    hide ReceiveAll, ServeAll;
    match a
    case Receive(ds, now) => ReceiveAllAgrees(cfg, r, ds, now);
    case SendRound(order, round) =>
      IterationInKeys(order, WithoutDropped(r).connections.Keys);
      DropAgrees(r);
      ServeAllExact(cfg, WithoutDropped(r), order, round, Stepped(cfg, r, a));
    case QueueMessage(id, kind, data) =>
      if id in r.connections {
        QueuedValid(r.connections[id], kind, data);
        EntryAgrees(r, id, SentMessage(r.connections[id], kind, data), Stepped(cfg, r, a));
      }
    case TakeConnectionEvents(id) =>
      if id in r.connections {
        DrainedValid(r.connections[id]);
        EntryAgrees(r, id, Drained(r.connections[id]).0, Stepped(cfg, r, a));
      }
    case CloseConnection(id) =>
      if id in r.connections {
        ClosedValid(r.connections[id]);
        EntryAgrees(r, id, CloseRequested(r.connections[id]), Stepped(cfg, r, a));
      }
    case ResetConnection(id, now) =>
      if id in r.connections {
        RestartedValid(r.connections[id], now);
        EntryAgrees(r, id, Restarted(r.connections[id], now), Stepped(cfg, r, a));
      }
    case NextEvent =>
    case Shutdown =>
  }

  lemma QueuedValid(c: Conn, kind: MessageKind, data: seq<Byte>)
    requires Connections.Valid(c)
    ensures
      var d := SentMessage(c, kind, data);
      Connections.Valid(d) && d.id == c.id && d.peer == c.peer
  {
  }

  lemma ClosedValid(c: Conn)
    requires Connections.Valid(c)
    ensures Connections.Valid(CloseRequested(c)) && CloseRequested(c).id == c.id && CloseRequested(c).peer == c.peer
  {
  }

  /** In every reachable state the two maps have equal keys, every connection
      has the id and the address it is filed under, and the list names existing
      connections, once each. */
  lemma {:induction false} MapsAlwaysAgree(cfg: ValidConfig, states: seq<Registry>, actions: seq<ServerAction>)
    requires IsRun(cfg, states, actions)
    ensures forall k | 0 <= k < |states| :: Agree(states[k])
  {
    for n := 0 to |actions|
      invariant forall k | 0 <= k <= n :: Agree(states[k])
    {
      StepAgrees(cfg, states[n], actions[n]);
    }
  }

  // ----- the order of iteration -----

  lemma RemoveBeforeLast(order: seq<U32>, k: nat)
    requires k < |order| - 1
    ensures var last, rest := |order| - 1, order[..k] + order[k + 1..];
            order[..last][k] == order[k] && rest[|rest| - 1] == order[last] &&
            rest[..|rest| - 1] == order[..last][..k] + order[..last][k + 1..]
  {
  }

  lemma {:induction false} TotalWithout(cfg: ValidConfig, cs: map<U32, Conn>, order: seq<U32>, k: nat, round: Round)
    requires k < |order| && forall j | 0 <= j < |order| :: order[j] in cs
    ensures TotalSent(cfg, cs, order, round) ==
            TotalSent(cfg, cs, order[..k] + order[k + 1..], round) + SentBytes(cfg, cs[order[k]], order[k], round)
  {
    hide SentBytes;
    var last := |order| - 1;
    if k == last {
      assert order[..k] + order[k + 1..] == order[..last];
    } else {
      TotalWithout(cfg, cs, order[..last], k, round);
      RemoveBeforeLast(order, k);
    }
  }

  lemma IdsWithout(order: seq<U32>, k: nat)
    requires k < |order| && Distinct(order)
    ensures Distinct(order[..k] + order[k + 1..]) && Ids(order[..k] + order[k + 1..]) == Ids(order) - {order[k]}
  {
    var rest := order[..k] + order[k + 1..];
    assert forall j | 0 <= j < |rest| :: rest[j] == order[if j < k then j else j + 1];
    forall id | id in Ids(order) - {order[k]}
      ensures id in Ids(rest)
    {
      var j :| 0 <= j < |order| && order[j] == id;
      assert rest[if j < k then j else j - 1] == id;
    }
  }

  lemma IdsNonEmpty(ids: seq<U32>)
    requires ids != []
    ensures Ids(ids) != {}
  {
    assert ids[0] in Ids(ids);
  }

  /** The bytes of a round do not depend on the order of iteration. */
  lemma {:induction false} TotalIsOrderless(cfg: ValidConfig, cs: map<U32, Conn>, one: seq<U32>, other: seq<U32>, round: Round)
    requires IterationOf(one, Ids(other)) && Distinct(other)
    requires (forall j | 0 <= j < |one| :: one[j] in cs) && (forall j | 0 <= j < |other| :: other[j] in cs)
    ensures TotalSent(cfg, cs, one, round) == TotalSent(cfg, cs, other, round)
    decreases |one|
  {
    if one == [] {
      if other != [] {
        IdsNonEmpty(other);
      }
    } else {
      var last := |one| - 1;
      var id := one[last];
      assert id in Ids(other);
      var k :| 0 <= k < |other| && other[k] == id;
      var rest := other[..k] + other[k + 1..];
      TotalWithout(cfg, cs, other, k, round);
      IdsWithout(other, k);
      IdsWithout(one, last);
      assert one[..last] + one[last + 1..] == one[..last];
      TotalIsOrderless(cfg, cs, one[..last], rest, round);
    }
  }

  lemma SameTurns(cfg: ValidConfig, r: Registry, keys: set<U32>, round: Round, s: Registry, t: Registry)
    requires AllServed(cfg, r, keys, round, s) && AllServed(cfg, r, keys, round, t)
    ensures s.connections == t.connections && Ids(s.dropped) == Ids(t.dropped)
  {
  }

  /** Two iterations of the same map leave the same connections, list the same
      connections as over, and send the same number of bytes. */
  lemma OrderDoesNotMatter(cfg: ValidConfig, r: Registry, one: seq<U32>, other: seq<U32>, round: Round, s: Registry, t: Registry)
    requires r.dropped == [] && IterationOf(one, r.connections.Keys) && IterationOf(other, r.connections.Keys)
    requires (forall j | 0 <= j < |one| :: one[j] in r.connections) && (forall j | 0 <= j < |other| :: other[j] in r.connections)
    requires s == ServeAll(cfg, r, one, round) && t == ServeAll(cfg, r, other, round)
    ensures s.connections == t.connections && Ids(s.dropped) == Ids(t.dropped)
    ensures TotalSent(cfg, r.connections, one, round) == TotalSent(cfg, r.connections, other, round)
  {
    EachServedOnce(cfg, r, one, round, s);
    EachServedOnce(cfg, r, other, round, t);
    SameTurns(cfg, r, r.connections.Keys, round, s, t);
    TotalIsOrderless(cfg, r.connections, one, other, round);
  }
}
