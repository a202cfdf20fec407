/** The ordered messages of the sender by their ordinals, which neither endpoint
    sees: which of them are queued, and which each packet carries. */
module Ordinals {
  import opened Bytes
  import opened MessageCodec
  import opened PacketFill
  import opened Reorder
  import opened MessageQueues
  import opened Connections
  import opened Sessions
  import opened Endpoints
  import opened Delivery

  /** The ordered messages given to the sender, in order. */
  function Given(w: World): seq<Message> {
    Project(w.a.given, Ordered)
  }

  /** The ordinals in the send queue, and those of every packet by its number. */
  datatype Tags = Tags(queued: seq<nat>, carried: seq<seq<nat>>)

  function CarriedBy(carried: seq<seq<nat>>, n: nat): seq<nat> {
    if n < |carried| then carried[n] else []
  }

  /** Lost packets put their ordinals back in front, in reverse. */
  function Requeued(queued: seq<nat>, carried: seq<seq<nat>>, numbers: seq<nat>): seq<nat> {
    if numbers == [] then queued
    else
      var last := |numbers| - 1;
      Reversed(CarriedBy(carried, numbers[last])) + Requeued(queued, carried, numbers[..last])
  }

  /** How many ordered messages the next packet takes off the queue. */
  function Leaving(cfg: ValidConfig, c: Conn): nat {
    |Project(NextSplit(cfg, c).out, Ordered)|
  }

  ghost function Retag(cfg: ValidConfig, w: World, t: Tags, step: Step): Tags
    requires Possible(w, step) && |w.flight| == |w.a.conn.inFlight|
  {
    var c := w.a.conn;
    match step
    case SenderSays(kind, _) => if kind == Ordered then t.(queued := t.queued + [|Given(w)|]) else t
    case SenderSends(now, rtt, ok) =>
      if Transmitted(cfg, c, now, rtt, ok).1.None? then t
      else
        var n := Min(Leaving(cfg, c), |t.queued|);
        Tags(t.queued[n..], t.carried + [t.queued[..n]])
    case SenderGets(k, now) =>
      var packet := w.answers[k].packet;
      if Received(cfg, c, packet, now).1 then
        t.(queued := Requeued(t.queued, t.carried, Select(c.inFlight, w.flight, ReadAcks(cfg, packet, now), Dropped)))
      else t
    case SenderTakesEvents => t
    case ReceiverSays(_, _) => t
    case ReceiverSends(_, _, _) => t
    case ReceiverGets(_, _) => t
    case ReceiverTakesEvents => t
  }

  // ----- the tags are right -----

  /** The messages `ms` are those with the ordinals `ks`. */
  predicate Labels(sent: seq<Message>, ks: seq<nat>, ms: seq<Message>) {
    |ks| == |ms| && forall i | 0 <= i < |ks| :: ks[i] < |sent| && ms[i] == sent[ks[i]]
  }

  /** The ordered messages of a packet. */
  function Cargo(packet: seq<Byte>): seq<Message> {
    Project(Parse(Payload(packet)), Ordered)
  }

  predicate CargoLabelled(sent: seq<Message>, carried: seq<seq<nat>>, packets: seq<seq<Byte>>) {
    |carried| == |packets| && forall n | 0 <= n < |packets| :: Labels(sent, carried[n], Cargo(packets[n]))
  }

  /** Every ordered message in the send queue and in any packet ever built is,
      with its order id and data, the one given under the ordinal. */
  predicate Labelled(w: World, t: Tags) {
    Labels(Given(w), t.queued, w.a.conn.queue.o) && CargoLabelled(Given(w), t.carried, w.packets)
  }

  lemma LabelsSplit(sent: seq<Message>, ks: seq<nat>, out: seq<Message>, rest: seq<Message>)
    requires Labels(sent, ks, out + rest)
    ensures Labels(sent, ks[..|out|], out) && Labels(sent, ks[|out|..], rest)
  {
    assert forall i | 0 <= i < |out| :: (out + rest)[i] == out[i];
    assert forall i | 0 <= i < |rest| :: (out + rest)[|out| + i] == rest[i];
  }

  lemma LabelsMore(sent: seq<Message>, more: seq<Message>, ks: seq<nat>, ms: seq<Message>)
    requires Labels(sent, ks, ms) && sent <= more
    ensures Labels(more, ks, ms)
  {
  }

  lemma {:induction false} LabelsReversed(sent: seq<Message>, ks: seq<nat>, ms: seq<Message>)
    requires Labels(sent, ks, ms)
    ensures Labels(sent, Reversed(ks), Reversed(ms))
  {
    if ks != [] {
      LabelsReversed(sent, ks[1..], ms[1..]);
    }
  }

  lemma LabelsJoin(sent: seq<Message>, js: seq<nat>, ks: seq<nat>, front: seq<Message>, back: seq<Message>)
    requires Labels(sent, js, front) && Labels(sent, ks, back)
    ensures Labels(sent, js + ks, front + back)
  {
  }

  lemma {:induction false} RequeueLabelled(sent: seq<Message>, q: Queue, packets: seq<seq<Byte>>, queued: seq<nat>,
                                           carried: seq<seq<nat>>, numbers: seq<nat>)
    requires Labels(sent, queued, q.o) && CargoLabelled(sent, carried, packets)
    requires forall n | n in numbers :: n < |packets|
    ensures Labels(sent, Requeued(queued, carried, numbers), RequeueAll(q, PacketsAt(packets, numbers)).o)
  {
    if numbers != [] {
      var last := |numbers| - 1;
      var n, init := numbers[last], RequeueAll(q, PacketsAt(packets, numbers[..last]));
      assert n in numbers && forall i | i in numbers[..last] :: i in numbers;
      RequeueLabelled(sent, q, packets, queued, carried, numbers[..last]);
      assert PacketsAt(packets, numbers) == PacketsAt(packets, numbers[..last]) + [packets[n]];
      assert PacketsAt(packets, numbers)[..|PacketsAt(packets, numbers)| - 1] == PacketsAt(packets, numbers[..last]);
      RequeueReverses(init, Parse(Payload(packets[n])));
      LabelsReversed(sent, carried[n], Cargo(packets[n]));
      LabelsJoin(sent, Reversed(carried[n]), Requeued(queued, carried, numbers[..last]), Reversed(Cargo(packets[n])), init.o);
    }
  }

  lemma SendingLabelled(cfg: ValidConfig, w: World, t: Tags, now: int, rtt: nat, ok: bool, w': World, t': Tags)
    requires Linked(w) && SessionFramed(w.a.conn) && Labelled(w, t)
    requires w' == Next(cfg, w, SenderSends(now, rtt, ok)) && t' == Retag(cfg, w, t, SenderSends(now, rtt, ok))
    ensures Labelled(w', t')
  {
    hide Transmitted, Track, Parse, Project, NextSplit, Tracked, Labels;
    var c := w.a.conn;
    var r := Transmitted(cfg, c, now, rtt, ok);
    TransmittedShape(cfg, c, now, rtt, ok, r);
    assert Given(w') == Given(w);
    if r.1.Some? {
      var s := NextSplit(cfg, c);
      NextPacketCarries(cfg, c, s, r.1.value);
      LabelledLength(w, t);
      LabelsSplit(Given(w), t.queued, Project(s.out, Ordered), s.o);
      CargoJoins(Given(w), t.carried, w.packets, t.queued[..Leaving(cfg, c)], r.1.value);
    }
  }

  lemma LabelledLength(w: World, t: Tags)
    requires Labelled(w, t)
    ensures |t.queued| == |w.a.conn.queue.o|
  {
  }

  lemma CargoJoins(sent: seq<Message>, carried: seq<seq<nat>>, packets: seq<seq<Byte>>, ks: seq<nat>, packet: seq<Byte>)
    requires CargoLabelled(sent, carried, packets) && Labels(sent, ks, Cargo(packet))
    ensures CargoLabelled(sent, carried + [ks], packets + [packet])
  {
  }

  /** The ordered queue after an answer, in terms of the numbers of lost packets. */
  lemma QueueAfterAnswer(cfg: ValidConfig, c: Conn, packet: seq<Byte>, now: int, r: (Conn, bool), flight: seq<nat>,
                         packets: seq<seq<Byte>>)
    requires r == Received(cfg, c, packet, now) && FlightLinked(c.inFlight, flight, packets)
    ensures r.1 ==>
              |packet| >= PACKET_HEADER_SIZE &&
              var lost := Select(c.inFlight, flight, ReadAcks(cfg, packet, now), Dropped);
              r.0.queue.o == RequeueAll(c.queue, PacketsAt(packets, lost)).o
    ensures !r.1 ==> r.0.queue.o == c.queue.o
  {
    hide Received, RequeueAll, PacketsAt, Packets, Select, FlightLinked;
    ReceivedShape(cfg, c, packet, now, r);
    if r.1 {
      SelectedPackets(c.inFlight, flight, packets, ReadAcks(cfg, packet, now), Dropped);
    }
  }

  lemma GettingFacts(cfg: ValidConfig, w: World, k: nat, now: int, w': World)
    requires Linked(w) && k < |w.answers| && w' == Next(cfg, w, SenderGets(k, now))
    ensures FlightLinked(w.a.conn.inFlight, w.flight, w.packets)
    ensures w'.packets == w.packets && w'.a.given == w.a.given && w'.a.conn == Received(cfg, w.a.conn, w.answers[k].packet, now).0
    ensures Received(cfg, w.a.conn, w.answers[k].packet, now).1 ==> |w.answers[k].packet| >= PACKET_HEADER_SIZE
  {
  }

  lemma GettingLabelled(cfg: ValidConfig, w: World, t: Tags, k: nat, now: int, w': World, t': Tags)
    requires Linked(w) && Labelled(w, t) && k < |w.answers|
    requires w' == Next(cfg, w, SenderGets(k, now)) && t' == Retag(cfg, w, t, SenderGets(k, now))
    ensures Labelled(w', t')
  {
    hide Received, Labels, Requeued, RequeueAll, PacketsAt, Packets, Linked, Next, Select, Project;
    var c, packet := w.a.conn, w.answers[k].packet;
    var r := Received(cfg, c, packet, now);
    GettingFacts(cfg, w, k, now, w');
    QueueAfterAnswer(cfg, c, packet, now, r, w.flight, w.packets);
    if r.1 {
      var h := ReadAcks(cfg, packet, now);
      SelectInPackets(c.inFlight, w.flight, w.packets, h, Dropped);
      RequeueLabelled(Given(w), c.queue, w.packets, t.queued, t.carried, Select(c.inFlight, w.flight, h, Dropped));
    }
  }

  lemma {:induction false} SelectInPackets(es: seq<SentPacketAck>, numbers: seq<nat>, packets: seq<seq<Byte>>, h: AckInfo, s: PacketState)
    requires FlightLinked(es, numbers, packets)
    ensures forall n | n in Select(es, numbers, h, s) :: n < |packets|
  {
    if es != [] {
      SelectInPackets(es[..|es| - 1], numbers[..|es| - 1], packets, h, s);
    }
  }

  lemma GivenGrows(given: seq<Message>, m: Message)
    ensures Project(given + [m], Ordered) == if m.kind == Ordered then Project(given, Ordered) + [m] else Project(given, Ordered)
  {
    ProjectAppend(given, [m], Ordered);
    assert Project([m], Ordered) == if m.kind == Ordered then [m] else [];
  }

  lemma SayingLabelled(cfg: ValidConfig, w: World, t: Tags, kind: MessageKind, data: seq<Byte>, w': World, t': Tags)
    requires Linked(w) && Labelled(w, t)
    requires w' == Next(cfg, w, SenderSays(kind, data)) && t' == Retag(cfg, w, t, SenderSays(kind, data))
    ensures Labelled(w', t')
  {
    hide Linked, Labels, Project;
    var m := MakeMessage(kind, w.a.conn.queue.localOrder, data);
    GivenGrows(w.a.given, m);
    LabelsMore(Given(w), Given(w'), t.queued, w.a.conn.queue.o);
    forall n | 0 <= n < |w.packets|
      ensures Labels(Given(w'), t.carried[n], Cargo(w.packets[n]))
    {
      LabelsMore(Given(w), Given(w'), t.carried[n], Cargo(w.packets[n]));
    }
    if kind == Ordered {
      LabelsOne(Given(w), m);
      LabelsJoin(Given(w'), t.queued, [|Given(w)|], w.a.conn.queue.o, [m]);
    }
  }

  lemma LabelsOne(sent: seq<Message>, m: Message)
    ensures Labels(sent + [m], [|sent|], [m])
  {
  }

  lemma OthersLabelled(cfg: ValidConfig, w: World, t: Tags, step: Step, w': World, t': Tags)
    requires Linked(w) && Labelled(w, t) && Possible(w, step) && w' == Next(cfg, w, step) && t' == Retag(cfg, w, t, step)
    requires !step.SenderSends? && !step.SenderGets? && !step.SenderSays?
    ensures Labelled(w', t')
  {
    hide Transmitted, Received, Labels;
    assert t' == t && w'.packets == w.packets && w'.a.given == w.a.given && w'.a.conn.queue.o == w.a.conn.queue.o;
  }

  lemma NextLabelled(cfg: ValidConfig, w: World, t: Tags, step: Step, w': World, t': Tags)
    requires Linked(w) && SessionFramed(w.a.conn) && Labelled(w, t) && Possible(w, step)
    requires w' == Next(cfg, w, step) && t' == Retag(cfg, w, t, step)
    ensures Labelled(w', t')
  {
    hide SessionFramed, Labelled, Next, Retag, Linked, Labels, CargoLabelled;
    if step.SenderSends? {
      SendingLabelled(cfg, w, t, step.now, step.rtt, step.ok, w', t');
    } else if step.SenderGets? {
      GettingLabelled(cfg, w, t, step.k, step.now, w', t');
    } else if step.SenderSays? {
      SayingLabelled(cfg, w, t, step.kind, step.data, w', t');
    } else {
      OthersLabelled(cfg, w, t, step, w', t');
    }
  }

  // ----- each ordinal is in exactly one place -----

  /** The ordinals that the packets `numbers` carry. */
  function Ords(carried: seq<seq<nat>>, numbers: seq<nat>): multiset<nat> {
    if numbers == [] then multiset{}
    else
      var last := |numbers| - 1;
      Ords(carried, numbers[..last]) + multiset(CarriedBy(carried, numbers[last]))
  }

  /** Every ordinal given so far is exactly once in the send queue, in a packet in
      flight, or in a confirmed packet. */
  ghost predicate Once(w: World, t: Tags) {
    multiset(t.queued) + Ords(t.carried, w.flight) + Ords(t.carried, w.confirmed) == multiset(UpTo(|Given(w)|))
  }

  lemma {:induction false} OrdsAppend(carried: seq<seq<nat>>, a: seq<nat>, b: seq<nat>)
    ensures Ords(carried, a + b) == Ords(carried, a) + Ords(carried, b)
  {
    if b == [] {
      assert a + b == a;
    } else {
      var init := b[..|b| - 1];
      assert (a + b)[..|a + b| - 1] == a + init;
      OrdsAppend(carried, a, init);
    }
  }

  lemma {:induction false} OrdsMore(carried: seq<seq<nat>>, ks: seq<nat>, numbers: seq<nat>)
    requires forall n | n in numbers :: n < |carried|
    ensures Ords(carried + [ks], numbers) == Ords(carried, numbers)
  {
    if numbers != [] {
      var init, last := numbers[..|numbers| - 1], numbers[|numbers| - 1];
      assert last in numbers && forall n | n in init :: n in numbers;
      OrdsMore(carried, ks, init);
    }
  }

  /** The verdicts split the ordinals in flight. */
  lemma {:induction false} OrdsSelect(carried: seq<seq<nat>>, es: seq<SentPacketAck>, numbers: seq<nat>, h: AckInfo)
    requires |es| == |numbers|
    ensures Ords(carried, numbers) ==
            Ords(carried, Select(es, numbers, h, Unknown)) + Ords(carried, Select(es, numbers, h, Acked)) +
            Ords(carried, Select(es, numbers, h, Dropped))
  {
    if es != [] {
      var last := |es| - 1;
      OrdsSelect(carried, es[..last], numbers[..last], h);
      SelectStep(carried, es, numbers, h, Unknown);
      SelectStep(carried, es, numbers, h, Acked);
      SelectStep(carried, es, numbers, h, Dropped);
    }
  }

  lemma SelectStep(carried: seq<seq<nat>>, es: seq<SentPacketAck>, numbers: seq<nat>, h: AckInfo, s: PacketState)
    requires |es| == |numbers| && es != []
    ensures
      var last := |es| - 1;
      Ords(carried, Select(es, numbers, h, s)) ==
      Ords(carried, Select(es[..last], numbers[..last], h, s)) +
      if Verdict(es[last], h) == s then multiset(CarriedBy(carried, numbers[last])) else multiset{}
  {
    var last := |es| - 1;
    var init := Select(es[..last], numbers[..last], h, s);
    if Verdict(es[last], h) == s {
      assert (init + [numbers[last]])[..|init|] == init;
    } else {
      assert Select(es, numbers, h, s) == init;
    }
  }

  lemma {:induction false} RequeuedOrds(queued: seq<nat>, carried: seq<seq<nat>>, numbers: seq<nat>)
    ensures multiset(Requeued(queued, carried, numbers)) == multiset(queued) + Ords(carried, numbers)
  {
    if numbers != [] {
      var last := |numbers| - 1;
      RequeuedOrds(queued, carried, numbers[..last]);
      ReversedSame(CarriedBy(carried, numbers[last]));
    }
  }

  lemma Move(q: multiset<nat>, kept: multiset<nat>, acked: multiset<nat>, lost: multiset<nat>, confirmed: multiset<nat>)
    ensures (q + lost) + kept + (confirmed + acked) == q + (kept + acked + lost) + confirmed
  {
  }

  lemma GettingOnce(cfg: ValidConfig, w: World, t: Tags, k: nat, now: int, w': World, t': Tags)
    requires Linked(w) && Once(w, t) && k < |w.answers|
    requires w' == Next(cfg, w, SenderGets(k, now)) && t' == Retag(cfg, w, t, SenderGets(k, now))
    ensures Once(w', t')
  {
    hide Received, Linked, Requeued, Select, Ords;
    GettingFacts(cfg, w, k, now, w');
    var es, packet := w.a.conn.inFlight, w.answers[k].packet;
    if Received(cfg, w.a.conn, packet, now).1 {
      var h := ReadAcks(cfg, packet, now);
      var acked, lost := Select(es, w.flight, h, Acked), Select(es, w.flight, h, Dropped);
      OrdsSelect(t.carried, es, w.flight, h);
      OrdsAppend(t.carried, w.confirmed, acked);
      RequeuedOrds(t.queued, t.carried, lost);
      Move(multiset(t.queued), Ords(t.carried, w'.flight), Ords(t.carried, acked), Ords(t.carried, lost), Ords(t.carried, w.confirmed));
    }
  }

  /** Where the ordinals go that a packet takes off the queue. */
  lemma SentTags(cfg: ValidConfig, w: World, t: Tags, now: int, rtt: nat, ok: bool, w': World, t': Tags)
    requires |w.flight| == |w.a.conn.inFlight| && !Tracked(w.a.conn, w.a.conn.localNum)
    requires w' == Next(cfg, w, SenderSends(now, rtt, ok)) && t' == Retag(cfg, w, t, SenderSends(now, rtt, ok))
    ensures Given(w') == Given(w) && w'.confirmed == w.confirmed
    ensures
      if Transmitted(cfg, w.a.conn, now, rtt, ok).1.None? then w'.flight == w.flight && t' == t
      else
        && w'.flight == w.flight + [|w.packets|] && |t'.carried| == |t.carried| + 1
        && t'.carried == t.carried + [t'.carried[|t.carried|]] && t.queued == t'.carried[|t.carried|] + t'.queued
  {
    hide Transmitted, Project, Leaving, Tracked, SkippedBy;
  }

  lemma TagsSplit(t: Tags, t': Tags, flight: seq<nat>, confirmed: seq<nat>)
    requires |t'.carried| == |t.carried| + 1 && t'.carried == t.carried + [t'.carried[|t.carried|]]
    requires t.queued == t'.carried[|t.carried|] + t'.queued
    requires forall n | n in flight || n in confirmed :: n < |t.carried|
    ensures multiset(t.queued) + Ords(t.carried, flight) + Ords(t.carried, confirmed) ==
            multiset(t'.queued) + Ords(t'.carried, flight + [|t.carried|]) + Ords(t'.carried, confirmed)
  {
    var ks := t'.carried[|t.carried|];
    OrdsMore(t.carried, ks, flight);
    OrdsMore(t.carried, ks, confirmed);
    OrdsAppend(t'.carried, flight, [|t.carried|]);
    OrdsOne(t.carried, ks);
    assert multiset(t.queued) == multiset(ks) + multiset(t'.queued);
  }

  lemma OrderlyIsFresh(cfg: ValidConfig, w: World, now: int, rtt: nat, ok: bool)
    requires Numbered(w) && Orderly(cfg, w, SenderSends(now, rtt, ok))
    ensures !Tracked(w.a.conn, w.a.conn.localNum)
  {
    hide Tracked;
    FreshNumber(w);
  }

  lemma SendingOnce(cfg: ValidConfig, w: World, t: Tags, now: int, rtt: nat, ok: bool, w': World, t': Tags)
    requires Numbered(w) && Once(w, t) && |t.carried| == |w.packets|
    requires Orderly(cfg, w, SenderSends(now, rtt, ok))
    requires w' == Next(cfg, w, SenderSends(now, rtt, ok)) && t' == Retag(cfg, w, t, SenderSends(now, rtt, ok))
    ensures Once(w', t')
  {
    hide Transmitted, Ords, Numbered, Project, Tracked, Orderly, Next, Retag;
    NumbersInRange(w);
    OrderlyIsFresh(cfg, w, now, rtt, ok);
    SentTags(cfg, w, t, now, rtt, ok, w', t');
    if Transmitted(cfg, w.a.conn, now, rtt, ok).1.Some? {
      TagsSplit(t, t', w.flight, w.confirmed);
    }
  }

  lemma OrdsOne(carried: seq<seq<nat>>, ks: seq<nat>)
    ensures Ords(carried + [ks], [|carried|]) == multiset(ks)
  {
    assert |[|carried|][..0]| == 0;
  }

  lemma NumbersInRange(w: World)
    requires Numbered(w)
    ensures forall n | n in w.flight || n in w.confirmed :: n < |w.packets|
    ensures |w.flight| == |w.a.conn.inFlight|
  {
  }

  lemma SayingOnce(cfg: ValidConfig, w: World, t: Tags, kind: MessageKind, data: seq<Byte>, w': World, t': Tags)
    requires |w.flight| == |w.a.conn.inFlight| && Once(w, t)
    requires w' == Next(cfg, w, SenderSays(kind, data)) && t' == Retag(cfg, w, t, SenderSays(kind, data))
    ensures Once(w', t')
  {
    hide Ords, Project;
    GivenGrows(w.a.given, MakeMessage(kind, w.a.conn.queue.localOrder, data));
  }

  lemma OthersOnce(cfg: ValidConfig, w: World, t: Tags, step: Step, w': World, t': Tags)
    requires |w.flight| == |w.a.conn.inFlight| && Once(w, t) && Possible(w, step)
    requires w' == Next(cfg, w, step) && t' == Retag(cfg, w, t, step)
    requires !step.SenderSends? && !step.SenderGets? && !step.SenderSays?
    ensures Once(w', t')
  {
    hide Transmitted, Received, Ords;
    assert t' == t && w'.flight == w.flight && w'.confirmed == w.confirmed && w'.a.given == w.a.given;
  }

  lemma NextOnce(cfg: ValidConfig, w: World, t: Tags, step: Step, w': World, t': Tags)
    requires Linked(w) && Numbered(w) && |t.carried| == |w.packets| && Once(w, t) && Possible(w, step) && Orderly(cfg, w, step)
    requires w' == Next(cfg, w, step) && t' == Retag(cfg, w, t, step)
    ensures Once(w', t')
  {
    NumbersInRange(w);
    hide Next, Retag, Linked, Numbered, Once;
    if step.SenderSends? {
      SendingOnce(cfg, w, t, step.now, step.rtt, step.ok, w', t');
    } else if step.SenderGets? {
      GettingOnce(cfg, w, t, step.k, step.now, w', t');
    } else if step.SenderSays? {
      SayingOnce(cfg, w, t, step.kind, step.data, w', t');
    } else {
      OthersOnce(cfg, w, t, step, w', t');
    }
  }
}
