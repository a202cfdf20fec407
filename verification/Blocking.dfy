/** A message that fits no packet, and everything of its kind behind it, is
    never sent. */
module Blocking {
  import opened Bytes
  import opened MessageCodec
  import opened PacketFill
  import opened MessageQueues
  import opened Connections
  import opened Sessions
  import opened SessionTraces

  /** A split takes nothing from a message on that does not fit. */
  lemma SplitBlocked(out: seq<Message>, kind: MessageKind, left: seq<Message>, room: nat, front: seq<Message>, stuck: seq<Message>)
    returns (rest: seq<Message>)
    requires Project(out, kind) + left == front + stuck && Costs(out) <= room
    requires stuck != [] && Cost(stuck[0]) > room
    ensures left == rest + stuck && (front == [] ==> rest == [])
  {
    var taken := Project(out, kind);
    if |taken| > |front| {
      assert taken[|front|] == (front + stuck)[|front|] == stuck[0];
      MemberCosts(out, kind, stuck[0]);
    }
    rest := front[|taken|..];
    assert left == (taken + left)[|taken|..] == (front + stuck)[|taken|..];
  }

  function LeftOf(s: Split, kind: MessageKind): seq<Message> {
    match kind
    case Instant => s.i
    case Reliable => s.r
    case Ordered => s.o
  }

  /** A front message that is too big blocks its kind: nothing of it is packed. */
  lemma HeadBlocks(q: Queue, available: nat, quotas: Quotas, kind: MessageKind)
    requires MessageQueues.Valid(q) && QuotasFit(quotas, available)
    requires QueueOf(q, kind) != [] && Cost(QueueOf(q, kind)[0]) > available
    ensures LeftOf(PackQueue(q, available, quotas), kind) == QueueOf(q, kind)
  {
    hide Pack, Costs, Project;
    var s := PackQueue(q, available, quotas);
    PackGuarantees(q.i, q.r, q.o, available, quotas);
    assert [] + QueueOf(q, kind) == QueueOf(q, kind);
    var rest := SplitBlocked(s.out, kind, LeftOf(s, kind), available, [], QueueOf(q, kind));
  }

  /** What is stuck in the queue of a kind, from a message that fits no packet on. */
  predicate Stuck(cfg: ValidConfig, stuck: seq<Message>) {
    stuck != [] && Cost(stuck[0]) > cfg.packetMaxSize - PACKET_HEADER_SIZE
  }

  lemma SendBlocked(cfg: ValidConfig, c: Conn, now: int, rtt: nat, ok: bool, kind: MessageKind, front: seq<Message>,
                    stuck: seq<Message>, r: (Conn, Option<seq<Byte>>))
    returns (rest: seq<Message>)
    requires MessageQueues.Valid(c.queue) && Stuck(cfg, stuck) && QueueOf(c.queue, kind) == front + stuck
    requires r == Transmitted(cfg, c, now, rtt, ok)
    ensures QueueOf(r.0.queue, kind) == rest + stuck && (front == [] ==> rest == [])
  {
    hide Transmitted, NextPacket, Track, Pack, Project, Costs;
    TransmittedShape(cfg, c, now, rtt, ok, r);
    rest := front;
    if r.1.Some? && c.state != Closing {
      var s := NextSplit(cfg, c);
      PackGuarantees(c.queue.i, c.queue.r, c.queue.o, cfg.packetMaxSize - PACKET_HEADER_SIZE, cfg.quotas);
      rest := SplitBlocked(s.out, kind, LeftOf(s, kind), cfg.packetMaxSize - PACKET_HEADER_SIZE, front, stuck);
    }
  }

  lemma {:induction false} RequeueInFront(q: Queue, packets: seq<seq<Byte>>, kind: MessageKind) returns (pre: seq<Message>)
    ensures QueueOf(RequeueAll(q, packets), kind) == pre + QueueOf(q, kind)
  {
    if packets == [] {
      pre := [];
      assert [] + QueueOf(q, kind) == QueueOf(q, kind);
    } else {
      var init, ms := packets[..|packets| - 1], Parse(Payload(packets[|packets| - 1]));
      var before := RequeueInFront(q, init, kind);
      RequeueReverses(RequeueAll(q, init), ms);
      var more := if kind == Instant then [] else Reversed(Project(ms, kind));
      pre := more + before;
      Assoc(more, before, QueueOf(q, kind));
      assert kind == Instant ==> pre == before;
    }
  }

  lemma ReceiveBlocked(cfg: ValidConfig, c: Conn, packet: seq<Byte>, now: int, kind: MessageKind, front: seq<Message>,
                       stuck: seq<Message>, r: (Conn, bool))
    returns (more: seq<Message>)
    requires QueueOf(c.queue, kind) == front + stuck && r == Received(cfg, c, packet, now)
    ensures QueueOf(r.0.queue, kind) == more + stuck
  {
    hide Received, RequeueAll, Packets;
    ReceivedShape(cfg, c, packet, now, r);
    more := front;
    if r.1 {
      var pre := RequeueInFront(c.queue, Packets(c.inFlight, ReadAcks(cfg, packet, now), Dropped), kind);
      more := pre + front;
      Assoc(pre, front, stuck);
    }
  }

  lemma SayBlocked(q: Queue, k: MessageKind, data: seq<Byte>, kind: MessageKind, front: seq<Message>, stuck: seq<Message>)
    returns (more: seq<Message>)
    requires QueueOf(q, kind) == front + stuck
    ensures QueueOf(Enqueue(q, k, data), kind) == front + (stuck + more)
  {
    more := if k == kind then [MakeMessage(k, q.localOrder, data)] else [];
    Assoc(front, stuck, more);
    assert stuck + [] == stuck;
  }

  lemma ActBlocked(cfg: ValidConfig, s: Session, a: Action, kind: MessageKind, front: seq<Message>, stuck: seq<Message>, t: Session)
    returns (front': seq<Message>, more: seq<Message>)
    requires MessageQueues.Valid(s.conn.queue) && Stuck(cfg, stuck) && QueueOf(s.conn.queue, kind) == front + stuck
    requires !a.Reset? && t == Act(cfg, s, a)
    ensures QueueOf(t.conn.queue, kind) == front' + (stuck + more)
  {
    hide Received, Transmitted, Stuck;
    front', more := front, [];
    assert stuck + [] == stuck;
    if a.SendMessage? {
      more := SayBlocked(s.conn.queue, a.kind, a.data, kind, front, stuck);
    } else if a.ReceivePacket? {
      front' := ReceiveBlocked(cfg, s.conn, a.packet, a.now, kind, front, stuck, Received(cfg, s.conn, a.packet, a.now));
    } else if a.SendPacket? {
      front' := SendBlocked(cfg, s.conn, a.now, a.rtt, a.ok, kind, front, stuck, Transmitted(cfg, s.conn, a.now, a.rtt, a.ok));
    }
  }

  /** Over every run without a reset, a message that fits no packet stays in its
      queue, and so does everything behind it, in order: lost packets only put
      messages in front of it, and later messages queue behind. */
  lemma {:induction false} BlockedForGood(cfg: ValidConfig, s: Session, actions: seq<Action>, kind: MessageKind,
                                          front: seq<Message>, stuck: seq<Message>, t: Session)
    returns (front': seq<Message>, more: seq<Message>)
    requires Connections.Valid(s.conn) && Stuck(cfg, stuck) && QueueOf(s.conn.queue, kind) == front + stuck
    requires ActionsAre(actions, NoReset) && t == Run(cfg, s, actions)
    ensures QueueOf(t.conn.queue, kind) == front' + (stuck + more)
  {
    if actions == [] {
      front', more := front, [];
      assert stuck + [] == stuck;
    } else {
      var init, a := actions[..|actions| - 1], actions[|actions| - 1];
      var before := Run(cfg, s, init);
      var front1, more1 := BlockedForGood(cfg, s, init, kind, front, stuck, before);
      RunValid(cfg, s, init);
      hide Act, QueueOf, Cost;
      assert Stuck(cfg, stuck + more1) by {
        assert (stuck + more1)[0] == stuck[0];
      }
      var front2, more2 := ActBlocked(cfg, before, a, kind, front1, stuck + more1, t);
      front', more := front2, more1 + more2;
      Assoc(stuck, more1, more2);
    }
  }
}
