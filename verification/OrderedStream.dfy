/** The stream of messages from one application to the other. */
module OrderedStreams {
  import opened Bytes
  import opened MessageCodec
  import opened PacketFill
  import opened Reorder
  import opened MessageQueues
  import opened Connections
  import opened Sessions
  import opened Endpoints
  import opened Delivery
  import opened Ordinals

  // ----- a packet of messages at the receiver -----

  /** The longest prefix after the arrival of `ks`, in this order. */
  function Hear(p: Prefix, ks: seq<nat>): Prefix
    decreases |ks|
  {
    if ks == [] then p else Hear(Receive(p, ks[0]), ks[1..])
  }

  /** Every ordinal of a packet arrives within the window, and uncovers no
      obstructed run. */
  predicate OnTime(p: Prefix, ks: seq<nat>)
    decreases |ks|
  {
    ks == [] || (WindowedArrival(p, ks[0]) && ClearArrival(p, ks[0]) && OnTime(Receive(p, ks[0]), ks[1..]))
  }

  /** Messages of other kinds leave the prefix alone. */
  lemma PlainThenRest(recv: seq<Message>, m: Message, rest: seq<Message>)
    requires m.kind != Ordered
    ensures recv + [m] + rest == recv + ([m] + rest) && Project([m] + rest, Ordered) == Project(rest, Ordered)
  {
    assert ([m] + rest)[1..] == rest && [] + Project(rest, Ordered) == Project(rest, Ordered);
  }

  lemma PartOfStream(sent: seq<Message>, r: nat, q: nat)
    requires Stream(sent) && r <= q <= |sent|
    ensures AllOf(sent[r..q], Ordered)
  {
  }

  lemma StreamThenRest(recv: seq<Message>, sent: seq<Message>, r: nat, q: nat, end: nat, rest: seq<Message>)
    requires Stream(sent) && r <= q <= end <= |sent| && Project(rest, Ordered) == sent[q..end]
    ensures recv + sent[r..q] + rest == recv + (sent[r..q] + rest)
    ensures Project(sent[r..q] + rest, Ordered) == sent[r..end]
  {
    hide Project, Stream, AllOf;
    PartOfStream(sent, r, q);
    ProjectAppend(sent[r..q], rest, Ordered);
    ProjectOwn(sent[r..q], Ordered, Ordered);
    Assoc(recv, sent[r..q], rest);
    assert sent[r..q] + sent[q..end] == sent[r..end];
  }

  /** The first message of a packet that carries the ordinals `ks`. */
  lemma CargoFirst(sent: seq<Message>, ks: seq<nat>, ms: seq<Message>)
    requires ms != [] && Labels(sent, ks, Project(ms, Ordered))
    ensures ms[0].kind != Ordered ==> Labels(sent, ks, Project(ms[1..], Ordered))
    ensures ms[0].kind == Ordered ==>
              ks != [] && ks[0] < |sent| && ms[0] == sent[ks[0]] && Labels(sent, ks[1..], Project(ms[1..], Ordered))
  {
    var rest := Project(ms[1..], Ordered);
    if ms[0].kind == Ordered {
      assert Project(ms, Ordered) == [ms[0]] + rest;
      assert forall i | 0 <= i < |rest| :: ([ms[0]] + rest)[i + 1] == rest[i];
    } else {
      assert Project(ms, Ordered) == [] + rest == rest;
    }
  }

  /** A packet that is on time adds to the receive queue, among its other messages,
      exactly the ordered messages by which the longest prefix grew. */
  lemma {:induction false} PacketDelivers(x: Inbox, sent: seq<Message>, p: Prefix, ms: seq<Message>, ks: seq<nat>, y: Inbox)
    returns (added: seq<Message>)
    requires Refines(x, sent, p) && Labels(sent, ks, Project(ms, Ordered)) && OnTime(p, ks) && y == DeliverAll(x, ms)
    ensures y.recv == x.recv + added
    ensures var q := Hear(p, ks);
            Refines(y, sent, q) && p.r <= q.r <= |sent| && Project(added, Ordered) == sent[p.r..q.r]
    decreases |ms|, 1
  {
    if ms == [] {
      added := [];
      assert x.recv + [] == x.recv;
    } else if ms[0].kind != Ordered {
      CargoFirst(sent, ks, ms);
      var rest := PacketDelivers(Deliver(x, ms[0]), sent, p, ms[1..], ks, y);
      added := [ms[0]] + rest;
      PlainThenRest(x.recv, ms[0], rest);
    } else {
      added := OrderedDelivers(x, sent, p, ms, ks, y);
    }
  }

  lemma {:induction false} OrderedDelivers(x: Inbox, sent: seq<Message>, p: Prefix, ms: seq<Message>, ks: seq<nat>, y: Inbox)
    returns (added: seq<Message>)
    requires ms != [] && ms[0].kind == Ordered
    requires Refines(x, sent, p) && Labels(sent, ks, Project(ms, Ordered)) && OnTime(p, ks) && y == DeliverAll(x, ms)
    ensures y.recv == x.recv + added
    ensures var q := Hear(p, ks);
            Refines(y, sent, q) && p.r <= q.r <= |sent| && Project(added, Ordered) == sent[p.r..q.r]
    decreases |ms|, 0
  {
    CargoFirst(sent, ks, ms);
    var q, z := Receive(p, ks[0]), Deliver(x, ms[0]);
    ArriveRefines(x, z, sent, p, q, ks[0]);
    var rest := PacketDelivers(z, sent, q, ms[1..], ks[1..], y);
    added := sent[p.r..q.r] + rest;
    StreamThenRest(x.recv, sent, p.r, q.r, Hear(q, ks[1..]).r, rest);
  }

  // ----- the receiver needs no more than the ids -----

  /** The ordinal closest to `r` whose id is `order`. */
  function Nearest(r: nat, order: OrderId): int {
    var d := order - Id(r);
    if d > 2048 then r + d - MAX_ORDER_ID else if d < -2048 then r + d + MAX_ORDER_ID else r + d
  }

  lemma NearestIsOrdinal(r: nat, k: nat)
    requires -2048 < k - r < 2048
    ensures Nearest(r, Id(k)) == k
  {
  }

  /** The ordinals that the ids on the wire mean to a receiver. */
  function Placed(p: Prefix, ms: seq<Message>): seq<int>
    decreases |ms|
  {
    if ms == [] then []
    else
      var k := Nearest(p.r, ms[0].order);
      [k] + Placed(if k >= 0 then Receive(p, k) else p, ms[1..])
  }

  /** The ids of a packet that is on time determine its ordinals. */
  lemma {:induction false} IdsDetermineOrdinals(sent: seq<Message>, p: Prefix, ks: seq<nat>, ms: seq<Message>)
    requires Stream(sent) && Labels(sent, ks, ms) && OnTime(p, ks)
    ensures Placed(p, ms) == ks
    decreases |ks|
  {
    if ks != [] {
      NearestIsOrdinal(p.r, ks[0]);
      IdsDetermineOrdinals(sent, Receive(p, ks[0]), ks[1..], ms[1..]);
    }
  }

  // ----- the journey of the messages -----

  /** A world with the tags of its ordered messages, the receiver's longest prefix
      of ordinals, and all messages that ever entered its receive queue. */
  datatype Journey = Journey(w: World, tags: Tags, p: Prefix, entered: seq<Message>)

  /** The receiver accepts a packet in this step. */
  ghost predicate Accepts(cfg: ValidConfig, w: World, step: Step) {
    Possible(w, step) && step.ReceiverGets? && Received(cfg, w.b.conn, w.packets[step.n], step.now).1
  }

  /** What is new at the end of a receive queue. */
  function Added(before: seq<Message>, after: seq<Message>): seq<Message> {
    after[Min(|before|, |after|)..]
  }

  ghost function Travel(cfg: ValidConfig, j: Journey, step: Step): Journey {
    if !Possible(j.w, step) || |j.w.flight| != |j.w.a.conn.inFlight| then j
    else
      var w, tags := Next(cfg, j.w, step), Retag(cfg, j.w, j.tags, step);
      if Accepts(cfg, j.w, step) then
        Journey(w, tags, Hear(j.p, CarriedBy(j.tags.carried, step.n)),
                j.entered + Added(j.w.b.conn.queue.inbox.recv, w.b.conn.queue.inbox.recv))
      else j.(w := w, tags := tags)
  }

  /** The ordinals of an accepted packet arrive on time. */
  ghost predicate Timely(cfg: ValidConfig, j: Journey, step: Step) {
    Accepts(cfg, j.w, step) ==> OnTime(j.p, CarriedBy(j.tags.carried, step.n))
  }

  /** Payloads fit their sixteen-bit size. */
  predicate Small(step: Step) {
    step.SenderSays? ==> |step.data| < 0x1_0000
  }

  // ----- what holds without any assumption on the network -----

  /** The sender numbers its stream, and everything on the wire is labelled. */
  ghost predicate Genuine(j: Journey) {
    && Linked(j.w) && SessionFramed(j.w.a.conn) && Labelled(j.w, j.tags)
    && Stream(Given(j.w)) && j.w.a.conn.queue.localOrder == Id(|Given(j.w)|)
  }

  lemma StreamGrows(sent: seq<Message>, m: Message)
    requires Stream(sent) && m.kind == Ordered && m.order == Id(|sent|)
    ensures Stream(sent + [m]) && NextOrder(m.order) == Id(|sent + [m]|)
  {
    IdNext(|sent|);
  }

  lemma TransmittedInbox(cfg: ValidConfig, c: Conn, now: int, rtt: nat, ok: bool, r: (Conn, Option<seq<Byte>>))
    requires r == Transmitted(cfg, c, now, rtt, ok)
    ensures r.0.queue.localOrder == c.queue.localOrder
    ensures r.0.queue.inbox == c.queue.inbox.(recv := r.0.queue.inbox.recv)
  {
    TransmittedShape(cfg, c, now, rtt, ok, r);
  }

  /** Only giving a message to the sender touches the stream and its numbering. */
  lemma StreamStays(cfg: ValidConfig, w: World, step: Step, w': World)
    requires |w.flight| == |w.a.conn.inFlight| && Possible(w, step) && !step.SenderSays? && w' == Next(cfg, w, step)
    ensures Given(w') == Given(w) && w'.a.conn.queue.localOrder == w.a.conn.queue.localOrder
  {
    hide Transmitted, Received, Project;
    if step.SenderSends? {
      TransmittedInbox(cfg, w.a.conn, step.now, step.rtt, step.ok, Transmitted(cfg, w.a.conn, step.now, step.rtt, step.ok));
    } else if step.SenderGets? {
      var packet := w.answers[step.k].packet;
      AbsorbedInbox(cfg, w.a.conn, packet, step.now, Received(cfg, w.a.conn, packet, step.now));
    }
  }

  /** Only accepting a packet changes the reorder buffer or adds to the receive queue. */
  lemma InboxStays(cfg: ValidConfig, w: World, step: Step, w': World)
    requires |w.flight| == |w.a.conn.inFlight| && Possible(w, step) && !Accepts(cfg, w, step) && w' == Next(cfg, w, step)
    ensures w'.b.conn.queue.inbox == w.b.conn.queue.inbox.(recv := w'.b.conn.queue.inbox.recv)
    ensures w'.accepted == w.accepted
  {
    hide Transmitted, Received;
    if step.ReceiverSends? {
      TransmittedInbox(cfg, w.b.conn, step.now, step.rtt, step.ok, Transmitted(cfg, w.b.conn, step.now, step.rtt, step.ok));
    } else if step.ReceiverGets? {
      AbsorbedInbox(cfg, w.b.conn, w.packets[step.n], step.now, Received(cfg, w.b.conn, w.packets[step.n], step.now));
    }
  }

  lemma InboxHears(cfg: ValidConfig, w: World, n: nat, now: int, w': World)
    requires |w.flight| == |w.a.conn.inFlight| && n < |w.packets| && w' == Next(cfg, w, ReceiverGets(n, now))
    requires Accepts(cfg, w, ReceiverGets(n, now))
    ensures w'.b.conn.queue.inbox == DeliverAll(w.b.conn.queue.inbox, Parse(Payload(w.packets[n])))
    ensures w'.a == w.a && w'.packets == w.packets && w'.accepted == w.accepted + [n]
  {
    AbsorbedInbox(cfg, w.b.conn, w.packets[n], now, Received(cfg, w.b.conn, w.packets[n], now));
  }

  lemma NextFramed(cfg: ValidConfig, w: World, step: Step, w': World)
    requires Linked(w) && SessionFramed(w.a.conn) && Possible(w, step) && Small(step) && w' == Next(cfg, w, step)
    ensures SessionFramed(w'.a.conn)
  {
    hide SessionFramed, Act, Next;
    SenderActs(cfg, w, step, w');
    var action := SenderAction(w, step);
    if action.Some? {
      ActFramed(cfg, w.a, action.value, w'.a);
    }
  }

  lemma SayingNumbers(cfg: ValidConfig, w: World, kind: MessageKind, data: seq<Byte>, w': World)
    requires |w.flight| == |w.a.conn.inFlight| && w' == Next(cfg, w, SenderSays(kind, data))
    requires Stream(Given(w)) && w.a.conn.queue.localOrder == Id(|Given(w)|)
    ensures Stream(Given(w')) && w'.a.conn.queue.localOrder == Id(|Given(w')|)
  {
    hide Stream, Project, Id, NextOrder;
    var m := MakeMessage(kind, w.a.conn.queue.localOrder, data);
    GivenGrows(w.a.given, m);
    if kind == Ordered {
      StreamGrows(Given(w), m);
    }
  }

  lemma TravelGenuine(cfg: ValidConfig, j: Journey, step: Step, j': Journey)
    requires Genuine(j) && Possible(j.w, step) && Small(step) && j' == Travel(cfg, j, step)
    ensures Genuine(j')
  {
    assert |j.w.flight| == |j.w.a.conn.inFlight|;
    hide Linked, SessionFramed, Labelled, Next, Retag, Stream, Accepts;
    NextLinked(cfg, j.w, step, j'.w);
    NextFramed(cfg, j.w, step, j'.w);
    NextLabelled(cfg, j.w, j.tags, step, j'.w, j'.tags);
    if step.SenderSays? {
      SayingNumbers(cfg, j.w, step.kind, step.data, j'.w);
    } else {
      StreamStays(cfg, j.w, step, j'.w);
    }
  }

  // ----- the reliable and instant messages that enter the receive queue -----

  /** Only ordered messages wait in the heap. */
  predicate HeapOrdered(x: Inbox) {
    forall m | m in x.heap :: m.kind == Ordered
  }

  lemma {:induction false} DrainIsOrdered(x: Inbox, kind: MessageKind) returns (added: seq<Message>)
    requires HeapOrdered(x) && kind != Ordered
    ensures Drain(x).recv == x.recv + added && HeapOrdered(Drain(x)) && Project(added, kind) == []
    decreases |x.heap|
  {
    if HeadMatches(x.heap, x.next) {
      var m := HeadOf(x.heap, x.next);
      var z := Inbox(NextOrder(x.next), x.recv + [m], x.heap - {m}, x.marks - {x.next});
      var rest := DrainIsOrdered(z, kind);
      added := [m] + rest;
      Assoc(x.recv, [m], rest);
      ProjectAppend([m], rest, kind);
    } else {
      added := [];
      assert x.recv + [] == x.recv;
    }
  }

  lemma DeliverUnordered(x: Inbox, m: Message, kind: MessageKind) returns (added: seq<Message>)
    requires HeapOrdered(x) && kind != Ordered
    ensures Deliver(x, m).recv == x.recv + added && HeapOrdered(Deliver(x, m))
    ensures Project(added, kind) == if m.kind == kind then [m] else []
  {
    if m.kind == Ordered && m.order == x.next {
      var rest := DrainIsOrdered(x.(next := NextOrder(x.next), recv := x.recv + [m]), kind);
      added := [m] + rest;
      Assoc(x.recv, [m], rest);
      ProjectAppend([m], rest, kind);
    } else if m.kind == Ordered {
      added := [];
      assert x.recv + [] == x.recv;
    } else {
      added := [m];
    }
  }

  /** Of a whole packet exactly its reliable messages are added, in order, and
      exactly its instant ones. */
  lemma {:induction false} DeliverAllUnordered(x: Inbox, ms: seq<Message>, kind: MessageKind) returns (added: seq<Message>)
    requires HeapOrdered(x) && kind != Ordered
    ensures DeliverAll(x, ms).recv == x.recv + added && HeapOrdered(DeliverAll(x, ms))
    ensures Project(added, kind) == Project(ms, kind)
    decreases |ms|
  {
    if ms == [] {
      added := [];
      assert x.recv + [] == x.recv;
    } else {
      var first := DeliverUnordered(x, ms[0], kind);
      var rest := DeliverAllUnordered(Deliver(x, ms[0]), ms[1..], kind);
      added := first + rest;
      Assoc(x.recv, first, rest);
      ProjectAppend(first, rest, kind);
    }
  }

  /** The messages of this kind that have entered the receive queue are those of
      the packets accepted, no more and no fewer. */
  ghost predicate EnteredAre(j: Journey, kind: MessageKind) {
    multiset(Project(j.entered, kind)) == Content(PacketsAt(j.w.packets, j.w.accepted), kind)
  }

  /** What the receiver heard: its prefix describes the ordinals of the packets it
      accepted, and their reliable and instant messages have entered its queue. */
  ghost predicate Heard(j: Journey) {
    && HeapOrdered(j.w.b.conn.queue.inbox)
    && Describes(j.p, Arrived(j.tags.carried, j.w.accepted))
    && EnteredAre(j, Reliable) && EnteredAre(j, Instant)
    && (forall n | n in j.w.accepted :: n < |j.w.packets|) && |j.tags.carried| == |j.w.packets|
  }

  function ToSet(ks: seq<nat>): set<nat> {
    set i | 0 <= i < |ks| :: ks[i]
  }

  /** The ordinals of the packets `numbers`. */
  function Arrived(carried: seq<seq<nat>>, numbers: seq<nat>): set<nat> {
    if numbers == [] then {}
    else Arrived(carried, numbers[..|numbers| - 1]) + ToSet(CarriedBy(carried, numbers[|numbers| - 1]))
  }

  lemma {:induction false} HearDescribes(p: Prefix, got: set<nat>, ks: seq<nat>)
    requires Describes(p, got)
    ensures Describes(Hear(p, ks), got + ToSet(ks))
    decreases |ks|
  {
    if ks == [] {
      assert got + ToSet(ks) == got;
    } else {
      ReceiveDescribes(p, got, ks[0]);
      HearDescribes(Receive(p, ks[0]), got + {ks[0]}, ks[1..]);
      SetOfFirst(ks);
      assert got + {ks[0]} + ToSet(ks[1..]) == got + ToSet(ks);
    }
  }

  lemma SetOfFirst(ks: seq<nat>)
    requires ks != []
    ensures ToSet(ks) == {ks[0]} + ToSet(ks[1..])
  {
    assert forall i | 0 <= i < |ks[1..]| :: ks[1..][i] == ks[i + 1];
    forall k | k in ToSet(ks)
      ensures k in {ks[0]} + ToSet(ks[1..])
    {
      var i :| 0 <= i < |ks| && ks[i] == k;
      assert i > 0 ==> ks[1..][i - 1] == k;
    }
  }

  lemma {:induction false} ArrivedMore(carried: seq<seq<nat>>, ks: seq<nat>, numbers: seq<nat>)
    requires forall n | n in numbers :: n < |carried|
    ensures Arrived(carried + [ks], numbers) == Arrived(carried, numbers)
  {
    if numbers != [] {
      var init, last := numbers[..|numbers| - 1], numbers[|numbers| - 1];
      assert last in numbers && forall n | n in init :: n in numbers;
      ArrivedMore(carried, ks, init);
    }
  }

  lemma AddedIs(before: seq<Message>, added: seq<Message>)
    ensures Added(before, before + added) == added
  {
  }

  lemma HearingEnters(cfg: ValidConfig, j: Journey, n: nat, now: int, kind: MessageKind, j': Journey)
    requires |j.w.flight| == |j.w.a.conn.inFlight| && HeapOrdered(j.w.b.conn.queue.inbox)
    requires Accepts(cfg, j.w, ReceiverGets(n, now)) && j' == Travel(cfg, j, ReceiverGets(n, now))
    requires kind != Ordered && EnteredAre(j, kind)
    ensures HeapOrdered(j'.w.b.conn.queue.inbox) && EnteredAre(j', kind)
  {
    hide Received, DeliverAll, Content, PacketsAt, HeapOrdered, Parse, Project, Added;
    var x, ms := j.w.b.conn.queue.inbox, Parse(Payload(j.w.packets[n]));
    InboxHears(cfg, j.w, n, now, j'.w);
    var added := DeliverAllUnordered(x, ms, kind);
    AddedIs(x.recv, added);
    ProjectAppend(j.entered, added, kind);
    PacketsAtAppend(j.w.packets, j.w.accepted, [n]);
    PacketsAtOne(j.w.packets, n);
    ContentAppend(PacketsAt(j.w.packets, j.w.accepted), [j.w.packets[n]], kind);
    ContentOne(j.w.packets[n], kind);
  }

  lemma HearingHeard(cfg: ValidConfig, j: Journey, n: nat, now: int, j': Journey)
    requires |j.w.flight| == |j.w.a.conn.inFlight| && Heard(j) && Accepts(cfg, j.w, ReceiverGets(n, now))
    requires j' == Travel(cfg, j, ReceiverGets(n, now))
    ensures Heard(j')
  {
    hide Received, Describes, Arrived, HeapOrdered, EnteredAre, Parse, Added;
    HearingEnters(cfg, j, n, now, Reliable, j');
    HearingEnters(cfg, j, n, now, Instant, j');
    InboxHears(cfg, j.w, n, now, j'.w);
    HearDescribes(j.p, Arrived(j.tags.carried, j.w.accepted), CarriedBy(j.tags.carried, n));
    ArrivedOne(j.tags.carried, j.w.accepted, n);
  }

  lemma ArrivedOne(carried: seq<seq<nat>>, numbers: seq<nat>, n: nat)
    ensures Arrived(carried, numbers + [n]) == Arrived(carried, numbers) + ToSet(CarriedBy(carried, n))
  {
    assert (numbers + [n])[..|numbers|] == numbers;
  }

  lemma SendingHeard(cfg: ValidConfig, j: Journey, step: Step, j': Journey)
    requires |j.w.flight| == |j.w.a.conn.inFlight| && Heard(j) && step.SenderSends? && j' == Travel(cfg, j, step)
    ensures Heard(j')
  {
    hide Transmitted, Describes, Content, PacketsAt, Arrived, HeapOrdered, Project, Leaving;
    var r := Transmitted(cfg, j.w.a.conn, step.now, step.rtt, step.ok);
    if r.1.Some? {
      var ks := j.tags.queued[..Min(Leaving(cfg, j.w.a.conn), |j.tags.queued|)];
      ArrivedMore(j.tags.carried, ks, j.w.accepted);
      PacketsAtMore(j.w.packets, j.w.accepted, r.1.value);
    }
  }

  lemma OthersHeard(cfg: ValidConfig, j: Journey, step: Step, j': Journey)
    requires |j.w.flight| == |j.w.a.conn.inFlight| && Heard(j) && Possible(j.w, step) && j' == Travel(cfg, j, step)
    requires !step.SenderSends? && !Accepts(cfg, j.w, step)
    ensures Heard(j')
  {
    hide Transmitted, Received, Describes, Content, PacketsAt, Arrived, Project;
    InboxStays(cfg, j.w, step, j'.w);
    assert j'.w.packets == j.w.packets && j'.tags.carried == j.tags.carried;
  }

  lemma TravelHeard(cfg: ValidConfig, j: Journey, step: Step, j': Journey)
    requires |j.w.flight| == |j.w.a.conn.inFlight| && Heard(j) && Possible(j.w, step) && j' == Travel(cfg, j, step)
    ensures Heard(j')
  {
    hide Heard, Travel;
    if step.SenderSends? {
      SendingHeard(cfg, j, step, j');
    } else if Accepts(cfg, j.w, step) {
      HearingHeard(cfg, j, step.n, step.now, j');
    } else {
      OthersHeard(cfg, j, step, j');
    }
  }

  // ----- the ordered messages that enter the receive queue -----

  /** The receiver holds the longest prefix: the ordered messages that entered its
      queue are those given first, in order, without gaps or repeats. */
  ghost predicate Streaming(j: Journey) {
    Refines(j.w.b.conn.queue.inbox, Given(j.w), j.p) && Project(j.entered, Ordered) == Given(j.w)[..j.p.r]
  }

  lemma RefinesMore(x: Inbox, y: Inbox, sent: seq<Message>, more: seq<Message>, p: Prefix)
    requires Refines(x, sent, p) && Stream(more) && sent <= more && y == x.(recv := y.recv)
    ensures Refines(y, more, p) && more[..p.r] == sent[..p.r]
  {
    assert Buffered(more, p.above) == Buffered(sent, p.above);
  }

  lemma GivenExtends(cfg: ValidConfig, w: World, step: Step, w': World)
    requires |w.flight| == |w.a.conn.inFlight| && Possible(w, step) && w' == Next(cfg, w, step)
    ensures Given(w) <= Given(w')
  {
    hide Project;
    if step.SenderSays? {
      GivenGrows(w.a.given, MakeMessage(step.kind, w.a.conn.queue.localOrder, step.data));
    } else {
      StreamStays(cfg, w, step, w');
    }
  }

  lemma OthersStream(cfg: ValidConfig, j: Journey, step: Step, j': Journey)
    requires |j.w.flight| == |j.w.a.conn.inFlight| && Streaming(j) && Possible(j.w, step) && j' == Travel(cfg, j, step)
    requires !Accepts(cfg, j.w, step) && Stream(Given(j'.w))
    ensures Streaming(j')
  {
    hide Next, Retag, Refines, Stream, Project;
    GivenExtends(cfg, j.w, step, j'.w);
    InboxStays(cfg, j.w, step, j'.w);
    RefinesMore(j.w.b.conn.queue.inbox, j'.w.b.conn.queue.inbox, Given(j.w), Given(j'.w), j.p);
  }

  /** An accepted packet delivers the next part of the stream. */
  lemma HearingStreams(cfg: ValidConfig, j: Journey, n: nat, now: int, j': Journey)
    requires |j.w.flight| == |j.w.a.conn.inFlight| && Labelled(j.w, j.tags) && Streaming(j)
    requires Accepts(cfg, j.w, ReceiverGets(n, now)) && OnTime(j.p, CarriedBy(j.tags.carried, n))
    requires j' == Travel(cfg, j, ReceiverGets(n, now))
    ensures Streaming(j')
  {
    hide Received, Refines, DeliverAll, Parse, Project, Added, OnTime, Hear;
    var sent, x, ms := Given(j.w), j.w.b.conn.queue.inbox, Parse(Payload(j.w.packets[n]));
    InboxHears(cfg, j.w, n, now, j'.w);
    var added := PacketDelivers(x, sent, j.p, ms, j.tags.carried[n], DeliverAll(x, ms));
    AddedIs(x.recv, added);
    ProjectAppend(j.entered, added, Ordered);
    assert sent[..j.p.r] + sent[j.p.r..j'.p.r] == sent[..j'.p.r];
  }

  lemma TravelStreams(cfg: ValidConfig, j: Journey, step: Step, j': Journey)
    requires Genuine(j) && Streaming(j) && Possible(j.w, step) && Timely(cfg, j, step) && j' == Travel(cfg, j, step)
    requires Genuine(j')
    ensures Streaming(j')
  {
    hide Labelled, SessionFramed, Streaming, Travel;
    if Accepts(cfg, j.w, step) {
      HearingStreams(cfg, j, step.n, step.now, j');
    } else {
      OthersStream(cfg, j, step, j');
    }
  }

  // ----- whole journeys -----

  ghost function TravelAll(cfg: ValidConfig, j: Journey, steps: seq<Step>): Journey {
    if steps == [] then j else Travel(cfg, TravelAll(cfg, j, steps[..|steps| - 1]), steps[|steps| - 1])
  }

  predicate AlwaysSmall(steps: seq<Step>) {
    forall k | 0 <= k < |steps| :: Small(steps[k])
  }

  ghost predicate AlwaysTimely(cfg: ValidConfig, j: Journey, steps: seq<Step>) {
    steps == [] ||
    (AlwaysTimely(cfg, j, steps[..|steps| - 1]) && Timely(cfg, TravelAll(cfg, j, steps[..|steps| - 1]), steps[|steps| - 1]))
  }

  function NewJourney(now: int): Journey {
    Journey(NewWorld(now), Tags([], []), Prefix(0, {}), [])
  }

  lemma NewJourneyHolds(now: int)
    ensures Genuine(NewJourney(now)) && Heard(NewJourney(now)) && Streaming(NewJourney(now))
  {
    NewWorldLinked(now);
    assert Buffered([], {}) == {};
  }

  /** A journey goes through the same worlds as the run. */
  lemma {:induction false} JourneyWorld(cfg: ValidConfig, now: int, steps: seq<Step>)
    ensures TravelAll(cfg, NewJourney(now), steps).w == RunWorld(cfg, NewWorld(now), steps)
  {
    if steps != [] {
      JourneyWorld(cfg, now, steps[..|steps| - 1]);
    }
  }

  lemma {:induction false} JourneyHolds(cfg: ValidConfig, now: int, steps: seq<Step>, j: Journey)
    requires AlwaysSmall(steps) && j == TravelAll(cfg, NewJourney(now), steps)
    ensures Genuine(j) && Heard(j)
  {
    hide Genuine, Heard, Travel;
    NewJourneyHolds(now);
    if steps != [] {
      var before, step := TravelAll(cfg, NewJourney(now), steps[..|steps| - 1]), steps[|steps| - 1];
      JourneyHolds(cfg, now, steps[..|steps| - 1], before);
      if Possible(before.w, step) {
        GenuineFlight(before);
        TravelGenuine(cfg, before, step, j);
        TravelHeard(cfg, before, step, j);
      } else {
        NoTravel(cfg, before, step);
      }
    }
  }

  lemma GenuineFlight(j: Journey)
    requires Genuine(j)
    ensures |j.w.flight| == |j.w.a.conn.inFlight|
  {
  }

  lemma NoTravel(cfg: ValidConfig, j: Journey, step: Step)
    requires !Possible(j.w, step)
    ensures Travel(cfg, j, step) == j
  {
  }

  lemma {:induction false} JourneyStreams(cfg: ValidConfig, now: int, steps: seq<Step>, j: Journey)
    requires AlwaysSmall(steps) && AlwaysTimely(cfg, NewJourney(now), steps) && j == TravelAll(cfg, NewJourney(now), steps)
    ensures Streaming(j)
  {
    hide Genuine, Streaming, Travel;
    NewJourneyHolds(now);
    if steps != [] {
      var before, step := TravelAll(cfg, NewJourney(now), steps[..|steps| - 1]), steps[|steps| - 1];
      JourneyStreams(cfg, now, steps[..|steps| - 1], before);
      JourneyHolds(cfg, now, steps[..|steps| - 1], before);
      JourneyHolds(cfg, now, steps, j);
      if Possible(before.w, step) {
        TravelStreams(cfg, before, step, j);
      } else {
        NoTravel(cfg, before, step);
      }
    }
  }

  /** End to end: over every run between two new endpoints in which ordinals
      arrive on time, the ordered messages that enter the receive queue are a
      prefix of those the sending application gave, in the same order, once each.
      It is the longest one: `p` describes the ordinals of the accepted packets. */
  lemma OrderedEndToEnd(cfg: ValidConfig, now: int, steps: seq<Step>, j: Journey)
    requires AlwaysSmall(steps) && AlwaysTimely(cfg, NewJourney(now), steps) && j == TravelAll(cfg, NewJourney(now), steps)
    ensures j.p.r <= |Given(j.w)| && Project(j.entered, Ordered) == Given(j.w)[..j.p.r]
    ensures Describes(j.p, Arrived(j.tags.carried, j.w.accepted)) && Labelled(j.w, j.tags)
  {
    JourneyHolds(cfg, now, steps, j);
    JourneyStreams(cfg, now, steps, j);
  }

  // ----- the network carries only what was given -----

  predicate AllIn(ms: seq<Message>, sent: seq<Message>) {
    forall m | m in ms :: m in sent
  }

  /** No packet in the network, however old, carries an ordered message that was
      not given to the sender, with its order id and data. */
  lemma NetworkIsGenuine(cfg: ValidConfig, now: int, steps: seq<Step>, w: World)
    requires AlwaysSmall(steps) && w == RunWorld(cfg, NewWorld(now), steps)
    ensures AllIn(w.a.conn.queue.o, Given(w)) && forall n | 0 <= n < |w.packets| :: AllIn(Cargo(w.packets[n]), Given(w))
  {
    var j := TravelAll(cfg, NewJourney(now), steps);
    JourneyWorld(cfg, now, steps);
    JourneyHolds(cfg, now, steps, j);
  }
}
