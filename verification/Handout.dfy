/** What the receiving application is handed, against what the sending one said:
    received messages wait only until the next packet is built. */
module Handouts {
  import opened Bytes
  import opened MessageCodec
  import opened PacketFill
  import opened MessageQueues
  import opened Connections
  import opened Sessions
  import opened Endpoints
  import opened Delivery
  import opened OrderedStreams
  import opened EndToEnd

  function Texts(ms: seq<Message>): seq<seq<Byte>> {
    seq(|ms|, k requires 0 <= k < |ms| => ms[k].data)
  }

  /** The data of the message events among some events. */
  function DataOf(es: seq<Event>): seq<seq<Byte>> {
    if es == [] then []
    else DataOf(es[..|es| - 1]) + if es[|es| - 1].MessageEvent? then [es[|es| - 1].data] else []
  }

  /** The data given to the sender under one kind, call by call. */
  function Said(steps: seq<Step>, kind: MessageKind): seq<seq<Byte>> {
    if steps == [] then []
    else
      var step := steps[|steps| - 1];
      Said(steps[..|steps| - 1], kind) + if step.SenderSays? && step.kind == kind then [step.data] else []
  }

  /** The data the receiving application is handed, whenever it takes its events. */
  ghost function Told(cfg: ValidConfig, j: Journey, steps: seq<Step>): seq<seq<Byte>> {
    if steps == [] then []
    else
      var before := TravelAll(cfg, j, steps[..|steps| - 1]);
      Told(cfg, j, steps[..|steps| - 1]) +
      if steps[|steps| - 1].ReceiverTakesEvents? then DataOf(Drained(before.w.b.conn).1) else []
  }

  /** The receiving application leaves no message behind when a packet is built. */
  ghost predicate LeavesNone(cfg: ValidConfig, j: Journey, step: Step) {
    step.ReceiverSends? && Transmitted(cfg, j.w.b.conn, step.now, step.rtt, step.ok).1.Some? ==> j.w.b.conn.queue.inbox.recv == []
  }

  ghost predicate Attentive(cfg: ValidConfig, j: Journey, steps: seq<Step>) {
    steps == [] ||
    (Attentive(cfg, j, steps[..|steps| - 1]) && LeavesNone(cfg, TravelAll(cfg, j, steps[..|steps| - 1]), steps[|steps| - 1]))
  }

  // ----- taking the events -----

  predicate NoMessage(es: seq<Event>) {
    forall k | 0 <= k < |es| :: !es[k].MessageEvent?
  }

  lemma {:induction false} DataAppend(a: seq<Event>, b: seq<Event>)
    ensures DataOf(a + b) == DataOf(a) + DataOf(b)
  {
    if b == [] {
      assert a + b == a;
    } else {
      assert (a + b)[..|a + b| - 1] == a + b[..|b| - 1];
      DataAppend(a, b[..|b| - 1]);
    }
  }

  lemma {:induction false} DataOfOthers(es: seq<Event>)
    requires NoMessage(es)
    ensures DataOf(es) == []
  {
    if es != [] {
      DataOfOthers(es[..|es| - 1]);
    }
  }

  lemma {:induction false} DataOfMessages(es: seq<Event>, ms: seq<Message>)
    requires |es| == |ms| && forall k | 0 <= k < |es| :: es[k] == MessageEvent(ms[k].data)
    ensures DataOf(es) == Texts(ms)
  {
    if es != [] {
      DataOfMessages(es[..|es| - 1], ms[..|ms| - 1]);
    }
  }

  lemma TakenData(c: Conn)
    requires NoMessage(c.events)
    ensures DataOf(Drained(c).1) == Texts(c.queue.inbox.recv)
  {
    var es := Drained(c).1;
    DrainedIsAll(c, Drained(c));
    assert es == c.events + es[|c.events|..];
    DataAppend(c.events, es[|c.events|..]);
    DataOfOthers(c.events);
    DataOfMessages(es[|c.events|..], c.queue.inbox.recv);
  }

  lemma ReceivedNoMessage(cfg: ValidConfig, c: Conn, packet: seq<Byte>, now: int, d: (Conn, bool))
    requires NoMessage(c.events) && d == Received(cfg, c, packet, now)
    ensures NoMessage(d.0.events)
  {
    hide Received, LostEvents;
    ReceivedLife(cfg, c, packet, now, d);
    if |packet| >= PACKET_HEADER_SIZE {
      LostEventsAreLosses(Packets(c.inFlight, ReadAcks(cfg, packet, now), Dropped));
    }
  }

  lemma TransmittedNoMessage(cfg: ValidConfig, c: Conn, now: int, rtt: nat, ok: bool)
    requires NoMessage(c.events)
    ensures NoMessage(Transmitted(cfg, c, now, rtt, ok).0.events)
  {
    hide Transmitted;
    TransmittedLife(cfg, c, now, rtt, ok, Transmitted(cfg, c, now, rtt, ok));
  }

  // ----- nothing entered is forgotten -----

  /** What was told and what waits account for what entered, if `all`. */
  predicate Balanced(told: seq<seq<Byte>>, recv: seq<Message>, entered: seq<Message>, all: bool) {
    && |told| + |recv| <= |entered|
    && (all <==> |told| + |recv| == |entered|)
    && (all ==> told + Texts(recv) == Texts(entered))
  }

  lemma BalancedEnters(told: seq<seq<Byte>>, recv: seq<Message>, entered: seq<Message>, all: bool, added: seq<Message>)
    requires Balanced(told, recv, entered, all)
    ensures Balanced(told, recv + added, entered + added, all)
  {
    if all {
      assert told + Texts(recv + added) == (told + Texts(recv)) + Texts(added) == Texts(entered + added);
    }
  }

  lemma BalancedTaken(told: seq<seq<Byte>>, recv: seq<Message>, entered: seq<Message>, all: bool)
    requires Balanced(told, recv, entered, all)
    ensures Balanced(told + Texts(recv), [], entered, all)
  {
    assert told + Texts(recv) + Texts([]) == told + Texts(recv);
  }

  lemma BalancedDismissed(told: seq<seq<Byte>>, recv: seq<Message>, entered: seq<Message>, all: bool)
    requires Balanced(told, recv, entered, all)
    ensures Balanced(told, [], entered, all && recv == [])
  {
  }

  lemma HearingBalanced(cfg: ValidConfig, j: Journey, n: nat, now: int, told: seq<seq<Byte>>, all: bool, j': Journey)
    requires |j.w.flight| == |j.w.a.conn.inFlight| && HeapOrdered(j.w.b.conn.queue.inbox) && n < |j.w.packets|
    requires Balanced(told, j.w.b.conn.queue.inbox.recv, j.entered, all) && j' == Travel(cfg, j, ReceiverGets(n, now))
    ensures Balanced(told, j'.w.b.conn.queue.inbox.recv, j'.entered, all)
  {
    hide Received, DeliverAll, HeapOrdered, Added, Balanced, Parse;
    var x := j.w.b.conn.queue.inbox;
    if Accepts(cfg, j.w, ReceiverGets(n, now)) {
      InboxHears(cfg, j.w, n, now, j'.w);
      var added := DeliverAllUnordered(x, Parse(Payload(j.w.packets[n])), Instant);
      AddedIs(x.recv, added);
      BalancedEnters(told, x.recv, j.entered, all, added);
    } else {
      AbsorbedInbox(cfg, j.w.b.conn, j.w.packets[n], now, Received(cfg, j.w.b.conn, j.w.packets[n], now));
    }
  }

  lemma OthersBalanced(cfg: ValidConfig, j: Journey, step: Step, told: seq<seq<Byte>>, all: bool, j': Journey)
    requires |j.w.flight| == |j.w.a.conn.inFlight| && Possible(j.w, step) && j' == Travel(cfg, j, step)
    requires !step.ReceiverGets? && NoMessage(j.w.b.conn.events)
    requires Balanced(told, j.w.b.conn.queue.inbox.recv, j.entered, all)
    ensures Balanced(told + if step.ReceiverTakesEvents? then DataOf(Drained(j.w.b.conn).1) else [],
                     j'.w.b.conn.queue.inbox.recv, j'.entered, all && LeavesNone(cfg, j, step))
  {
    hide Received, Transmitted, Balanced, Texts, DataOf;
    var c := j.w.b.conn;
    if step.ReceiverTakesEvents? {
      TakenData(c);
      BalancedTaken(told, c.queue.inbox.recv, j.entered, all);
    } else {
      assert told + [] == told;
      if step.ReceiverSends? {
        TransmittedShape(cfg, c, step.now, step.rtt, step.ok, Transmitted(cfg, c, step.now, step.rtt, step.ok));
        BalancedDismissed(told, c.queue.inbox.recv, j.entered, all);
      }
    }
  }

  lemma TravelNoMessage(cfg: ValidConfig, j: Journey, step: Step, j': Journey)
    requires NoMessage(j.w.b.conn.events) && j' == Travel(cfg, j, step)
    ensures NoMessage(j'.w.b.conn.events)
  {
    hide Received, Transmitted;
    var c := j.w.b.conn;
    match step
    case ReceiverGets(n, now) =>
      if n < |j.w.packets| {
        ReceivedNoMessage(cfg, c, j.w.packets[n], now, Received(cfg, c, j.w.packets[n], now));
      }
    case ReceiverSends(now, rtt, ok) => TransmittedNoMessage(cfg, c, now, rtt, ok);
    case _ =>
  }

  lemma {:induction false} RunBalanced(cfg: ValidConfig, now: int, steps: seq<Step>, j: Journey)
    requires AlwaysSmall(steps) && j == TravelAll(cfg, NewJourney(now), steps)
    ensures NoMessage(j.w.b.conn.events)
    ensures Balanced(Told(cfg, NewJourney(now), steps), j.w.b.conn.queue.inbox.recv, j.entered, Attentive(cfg, NewJourney(now), steps))
  {
    if steps == [] {
      assert [] + Texts([]) == Texts([]);
    } else {
      hide Genuine, Heard, Travel, Balanced, LeavesNone, DataOf, NoMessage;
      var init, step := steps[..|steps| - 1], steps[|steps| - 1];
      var before := TravelAll(cfg, NewJourney(now), init);
      RunBalanced(cfg, now, init, before);
      JourneyHolds(cfg, now, init, before);
      GenuineFlight(before);
      HeardHeap(before);
      TravelNoMessage(cfg, before, step, j);
      StepBalanced(cfg, before, step, Told(cfg, NewJourney(now), init), Attentive(cfg, NewJourney(now), init), j);
    }
  }

  lemma HeardHeap(j: Journey)
    requires Heard(j)
    ensures HeapOrdered(j.w.b.conn.queue.inbox)
  {
  }

  lemma StepBalanced(cfg: ValidConfig, j: Journey, step: Step, told: seq<seq<Byte>>, all: bool, j': Journey)
    requires |j.w.flight| == |j.w.a.conn.inFlight| && HeapOrdered(j.w.b.conn.queue.inbox) && NoMessage(j.w.b.conn.events)
    requires Balanced(told, j.w.b.conn.queue.inbox.recv, j.entered, all) && j' == Travel(cfg, j, step)
    ensures Balanced(told + if step.ReceiverTakesEvents? then DataOf(Drained(j.w.b.conn).1) else [],
                     j'.w.b.conn.queue.inbox.recv, j'.entered, all && LeavesNone(cfg, j, step))
  {
    hide HeapOrdered, NoMessage, Balanced, DataOf;
    assert told + [] == told;
    if !Possible(j.w, step) {
      NoTravel(cfg, j, step);
    } else if step.ReceiverGets? {
      HearingBalanced(cfg, j, step.n, step.now, told, all, j');
    } else {
      OthersBalanced(cfg, j, step, told, all, j');
    }
  }

  /** Over every run: what the application was handed, together with what still
      waits, is the data of all that entered the receive queue, in order, if and
      only if no packet is ever built while a message waits. */
  lemma HandedOutIff(cfg: ValidConfig, now: int, steps: seq<Step>, j: Journey)
    requires AlwaysSmall(steps) && j == TravelAll(cfg, NewJourney(now), steps)
    ensures Told(cfg, NewJourney(now), steps) + Texts(j.w.b.conn.queue.inbox.recv) == Texts(j.entered) <==>
            Attentive(cfg, NewJourney(now), steps)
  {
    RunBalanced(cfg, now, steps, j);
  }

  // ----- from what was said to what was told -----

  /** The messages given to the sender carry, kind by kind and in order, the data
      of the calls that gave them. */
  lemma {:induction false} SaidIsGiven(cfg: ValidConfig, now: int, steps: seq<Step>, kind: MessageKind, j: Journey)
    requires AlwaysSmall(steps) && j == TravelAll(cfg, NewJourney(now), steps)
    ensures Texts(Project(j.w.a.given, kind)) == Said(steps, kind)
  {
    if steps != [] {
      var init, step := steps[..|steps| - 1], steps[|steps| - 1];
      var before := TravelAll(cfg, NewJourney(now), init);
      SaidIsGiven(cfg, now, init, kind, before);
      JourneyHolds(cfg, now, init, before);
      GenuineFlight(before);
      StepSays(cfg, before, step, kind, j);
    }
  }

  lemma TextsGrow(given: seq<Message>, m: Message, kind: MessageKind)
    ensures Texts(Project(given + [m], kind)) == Texts(Project(given, kind)) + if m.kind == kind then [m.data] else []
  {
    ProjectAppend(given, [m], kind);
    assert Project([m], kind) == if m.kind == kind then [m] else [];
    assert Project(given, kind) + [] == Project(given, kind);
  }

  lemma StepSays(cfg: ValidConfig, j: Journey, step: Step, kind: MessageKind, j': Journey)
    requires |j.w.flight| == |j.w.a.conn.inFlight| && j' == Travel(cfg, j, step)
    ensures Texts(Project(j'.w.a.given, kind)) ==
            Texts(Project(j.w.a.given, kind)) + if step.SenderSays? && step.kind == kind then [step.data] else []
  {
    hide Received, Transmitted, Project, Texts;
    var given := Project(j.w.a.given, kind);
    assert Texts(given) + [] == Texts(given);
    if step.SenderSays? {
      TextsGrow(j.w.a.given, MakeMessage(step.kind, j.w.a.conn.queue.localOrder, step.data), kind);
    }
  }

  /** From call to call: once the sender has nothing queued and nothing in flight,
      and the attentive receiver nothing waiting, the application was handed, in
      the order in which messages entered, all of them; and the ordered ones among
      these carry exactly the data the sending application said, in that order. */
  lemma SaidIsTold(cfg: ValidConfig, now: int, steps: seq<Step>, j: Journey)
    requires AlwaysOrderly(cfg, NewWorld(now), steps) && AlwaysTimely(cfg, NewJourney(now), steps)
    requires Attentive(cfg, NewJourney(now), steps) && j == TravelAll(cfg, NewJourney(now), steps)
    requires j.w.a.conn.queue.o == [] && j.w.flight == [] && j.w.b.conn.queue.inbox.recv == []
    ensures Told(cfg, NewJourney(now), steps) == Texts(j.entered)
    ensures Texts(Project(j.entered, Ordered)) == Said(steps, Ordered)
  {
    hide Told, Said, Attentive, TravelAll;
    OrderlyIsSmall(cfg, now, steps);
    HandedOutIff(cfg, now, steps, j);
    IdleMeansDelivered(cfg, now, steps, j);
    SaidIsGiven(cfg, now, steps, Ordered, j);
    assert Told(cfg, NewJourney(now), steps) + Texts([]) == Told(cfg, NewJourney(now), steps);
  }
}
