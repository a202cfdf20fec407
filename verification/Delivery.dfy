/** What two endpoints owe the application: nothing reliable is lost between
    them, and ordered messages come out in the order they went in. */
module Delivery {
  import opened Bytes
  import opened MessageCodec
  import opened PacketFill
  import opened AckHeader
  import opened Connections
  import opened Sessions
  import opened Endpoints

  // ----- nothing is lost -----

  function PacketAt(packets: seq<seq<Byte>>, n: nat): seq<Byte> {
    if n < |packets| then packets[n] else []
  }

  function PacketsAt(packets: seq<seq<Byte>>, numbers: seq<nat>): seq<seq<Byte>> {
    if numbers == [] then [] else PacketsAt(packets, numbers[..|numbers| - 1]) + [PacketAt(packets, numbers[|numbers| - 1])]
  }

  function Bag(numbers: seq<nat>): multiset<nat> {
    multiset(numbers)
  }

  predicate AtMostOnce(numbers: multiset<nat>) {
    forall n | n in numbers :: numbers[n] == 1
  }

  /** The sender's history in terms of packet numbers. */
  ghost predicate Numbered(w: World) {
    && SenderLinked(w)
    && (forall n | n in w.confirmed :: n < |w.packets|)
    && w.a.acked == PacketsAt(w.packets, w.confirmed)
    && w.a.skipped == []
    && AtMostOnce(Bag(w.flight) + Bag(w.confirmed))
  }

  /** Payloads fit their size field, answers do not alias, and no packet is still
      in flight when its number comes round again. */
  ghost predicate Orderly(cfg: ValidConfig, w: World, step: Step)
    requires Possible(w, step)
  {
    InAckWindow(cfg, w, step) &&
    (step.SenderSays? ==> |step.data| < 0x1_0000) &&
    (step.SenderSends? ==> forall k | 0 <= k < |w.flight| :: |w.packets| < w.flight[k] + MAX_SEQ_NUMBER)
  }

  lemma {:induction false} PacketsAtMore(packets: seq<seq<Byte>>, numbers: seq<nat>, packet: seq<Byte>)
    requires forall n | n in numbers :: n < |packets|
    ensures PacketsAt(packets + [packet], numbers) == PacketsAt(packets, numbers)
  {
    if numbers != [] {
      var init, last := numbers[..|numbers| - 1], numbers[|numbers| - 1];
      assert last in numbers && forall n | n in init :: n in numbers;
      PacketsAtMore(packets, init, packet);
    }
  }

  lemma {:induction false} PacketsAtAppend(packets: seq<seq<Byte>>, a: seq<nat>, b: seq<nat>)
    ensures PacketsAt(packets, a + b) == PacketsAt(packets, a) + PacketsAt(packets, b)
  {
    if b == [] {
      assert a + b == a;
    } else {
      var init := b[..|b| - 1];
      assert (a + b)[..|a + b| - 1] == a + init;
      PacketsAtAppend(packets, a, init);
    }
  }

  lemma PacketsAtOne(packets: seq<seq<Byte>>, n: nat)
    ensures PacketsAt(packets, [n]) == [PacketAt(packets, n)]
  {
    assert |[n][..0]| == 0;
  }

  /** The bytes with a verdict are those of the selected numbers. */
  lemma {:induction false} SelectedPackets(es: seq<SentPacketAck>, numbers: seq<nat>, packets: seq<seq<Byte>>, h: AckInfo, s: PacketState)
    requires FlightLinked(es, numbers, packets)
    ensures Packets(es, h, s) == PacketsAt(packets, Select(es, numbers, h, s))
  {
    if es != [] {
      var last := |es| - 1;
      SelectedPackets(es[..last], numbers[..last], packets, h, s);
      if Verdict(es[last], h) == s {
        PacketsAtAppend(packets, Select(es[..last], numbers[..last], h, s), [numbers[last]]);
        PacketsAtOne(packets, numbers[last]);
      } else {
        assert Select(es, numbers, h, s) == Select(es[..last], numbers[..last], h, s);
      }
    }
  }

  /** No number is both kept and confirmed. */
  lemma {:induction false} SelectParts(es: seq<SentPacketAck>, numbers: seq<nat>, h: AckInfo)
    requires |es| == |numbers|
    ensures Bag(Select(es, numbers, h, Unknown)) + Bag(Select(es, numbers, h, Acked)) <= Bag(numbers)
  {
    if es != [] {
      var last := |es| - 1;
      SelectParts(es[..last], numbers[..last], h);
      assert numbers == numbers[..last] + [numbers[last]];
      assert Bag(numbers) == Bag(numbers[..last]) + multiset{numbers[last]};
    }
  }

  lemma FewerAtMostOnce(a: multiset<nat>, b: multiset<nat>)
    requires AtMostOnce(b) && a <= b
    ensures AtMostOnce(a)
  {
    forall n | n in a
      ensures a[n] == 1
    {
      assert a[n] <= b[n];
    }
  }

  lemma SenderGetsNumbered(cfg: ValidConfig, w: World, k: nat, now: int, w': World)
    requires Numbered(w) && k < |w.answers| && w' == Next(cfg, w, SenderGets(k, now))
    ensures Numbered(w')
  {
    var packet, es := w.answers[k].packet, w.a.conn.inFlight;
    SenderGetsLinked(cfg, w, k, now, w');
    if Received(cfg, w.a.conn, packet, now).1 {
      var h := ReadAcks(cfg, packet, now);
      var kept, acked := Select(es, w.flight, h, Unknown), Select(es, w.flight, h, Acked);
      SelectedPackets(es, w.flight, w.packets, h, Acked);
      PacketsAtAppend(w.packets, w.confirmed, acked);
      SelectParts(es, w.flight, h);
      assert Bag(w.confirmed + acked) == Bag(w.confirmed) + Bag(acked);
      FewerAtMostOnce(Bag(kept) + Bag(w.confirmed + acked), Bag(w.flight) + Bag(w.confirmed));
      forall n | n in w.confirmed + acked
        ensures n < |w.packets|
      {
        if n in acked {
          assert n in Bag(acked) && n in Bag(w.flight);
        }
      }
    } else {
      assert w.a.acked + [] == w.a.acked;
    }
  }

  lemma FreshNumber(w: World)
    requires SenderLinked(w) && (forall k | 0 <= k < |w.flight| :: |w.packets| < w.flight[k] + MAX_SEQ_NUMBER)
    ensures !Tracked(w.a.conn, w.a.conn.localNum)
  {
    forall k | 0 <= k < |w.a.conn.inFlight|
      ensures w.a.conn.inFlight[k].num != w.a.conn.localNum
    {
      SeqInjective(w.flight[k], |w.packets|);
    }
  }

  lemma OnceMore(a: multiset<nat>, b: multiset<nat>, n: nat)
    requires AtMostOnce(a + b) && n !in a && n !in b
    ensures AtMostOnce(a + multiset{n} + b)
  {
    forall k | k in a + multiset{n} + b
      ensures (a + multiset{n} + b)[k] == 1
    {
      if k != n {
        assert k in a + b && (a + multiset{n} + b)[k] == (a + b)[k];
      }
    }
  }

  lemma NumberedGrows(w: World, w': World, packet: seq<Byte>)
    requires Numbered(w) && SenderLinked(w') && w'.packets == w.packets + [packet] && w'.flight == w.flight + [|w.packets|]
    requires w'.confirmed == w.confirmed && w'.a.acked == w.a.acked && w'.a.skipped == []
    ensures Numbered(w')
  {
    var n := |w.packets|;
    PacketsAtMore(w.packets, w.confirmed, packet);
    assert Bag(w'.flight) == Bag(w.flight) + multiset{n};
    assert n !in w.flight && n !in w.confirmed;
    OnceMore(Bag(w.flight), Bag(w.confirmed), n);
  }

  lemma SenderSendsNumbered(cfg: ValidConfig, w: World, now: int, rtt: nat, ok: bool, w': World)
    requires Numbered(w) && Orderly(cfg, w, SenderSends(now, rtt, ok)) && w' == Next(cfg, w, SenderSends(now, rtt, ok))
    ensures Numbered(w')
  {
    hide Transmitted, Tracked;
    FreshNumber(w);
    SenderSendsLinked(cfg, w, now, rtt, ok, w');
    var r := Transmitted(cfg, w.a.conn, now, rtt, ok);
    assert w'.a.skipped == w.a.skipped + [] == [];
    if r.1.Some? {
      NumberedGrows(w, w', r.1.value);
    }
  }

  /** What every orderly run keeps between the two endpoints. */
  ghost predicate Kept(w: World) {
    && Linked(w) && Honest(w) && Numbered(w)
    && SessionFramed(w.a.conn) && Conserved(w.a, Reliable) && Conserved(w.a, Ordered)
  }

  /** What the sender does in a step. */
  function SenderAction(w: World, step: Step): Option<Action>
    requires Possible(w, step)
  {
    match step
    case SenderSays(kind, data) => Some(SendMessage(kind, data))
    case SenderSends(now, rtt, ok) => Some(SendPacket(now, rtt, ok))
    case SenderGets(k, now) => Some(ReceivePacket(w.answers[k].packet, now))
    case SenderTakesEvents => Some(TakeEvents)
    case _ => None
  }

  lemma SenderActs(cfg: ValidConfig, w: World, step: Step, w': World)
    requires Linked(w) && Possible(w, step) && w' == Next(cfg, w, step)
    ensures match SenderAction(w, step) case None => w'.a == w.a case Some(a) => w'.a == Act(cfg, w.a, a)
  {
  }

  lemma NextNumbered(cfg: ValidConfig, w: World, step: Step, w': World)
    requires Linked(w) && Numbered(w) && Possible(w, step) && Orderly(cfg, w, step) && w' == Next(cfg, w, step)
    ensures Numbered(w')
  {
    NextLinked(cfg, w, step, w');
    match step
    case SenderSends(now, rtt, ok) => SenderSendsNumbered(cfg, w, now, rtt, ok, w');
    case SenderGets(k, now) => SenderGetsNumbered(cfg, w, k, now, w');
    case _ => OthersNumbered(cfg, w, step, w');
  }

  lemma OthersNumbered(cfg: ValidConfig, w: World, step: Step, w': World)
    requires Numbered(w) && SenderLinked(w') && Possible(w, step) && !step.SenderSends? && !step.SenderGets?
    requires w' == Next(cfg, w, step)
    ensures Numbered(w')
  {
    assert w'.packets == w.packets && w'.flight == w.flight && w'.confirmed == w.confirmed;
    assert w'.a.acked == w.a.acked && w'.a.skipped == w.a.skipped;
  }

  lemma SenderConserves(cfg: ValidConfig, s: Session, a: Action, t: Session)
    requires Connections.Valid(s.conn) && SessionFramed(s.conn) && Conserved(s, Reliable) && Conserved(s, Ordered)
    requires SmallPayload(a) && t == Act(cfg, s, a)
    ensures SessionFramed(t.conn) && Conserved(t, Reliable) && Conserved(t, Ordered)
  {
    ActFramed(cfg, s, a, t);
    ActConserves(cfg, s, a, Reliable, t);
    ActConserves(cfg, s, a, Ordered, t);
  }

  lemma NextKept(cfg: ValidConfig, w: World, step: Step, w': World)
    requires Kept(w) && Possible(w, step) && Orderly(cfg, w, step) && w' == Next(cfg, w, step)
    ensures Kept(w')
  {
    NextLinked(cfg, w, step, w');
    NoFalseAck(cfg, w, step, w');
    NextNumbered(cfg, w, step, w');
    SenderActs(cfg, w, step, w');
    var action := SenderAction(w, step);
    if action.Some? {
      SenderConserves(cfg, w.a, action.value, w'.a);
    }
  }

  // ----- the content of what the receiver accepted -----

  lemma {:induction false} MoreNumbersMoreContent(packets: seq<seq<Byte>>, xs: seq<nat>, ys: seq<nat>, kind: MessageKind)
    requires Bag(xs) <= Bag(ys)
    ensures Content(PacketsAt(packets, xs), kind) <= Content(PacketsAt(packets, ys), kind)
    decreases |xs|
  {
    if xs != [] {
      var init, x := xs[..|xs| - 1], xs[|xs| - 1];
      assert xs == init + [x] && Bag(xs) == Bag(init) + multiset{x};
      assert x in Bag(xs) && x in Bag(ys);
      var j :| 0 <= j < |ys| && ys[j] == x;
      var before, after := ys[..j], ys[j + 1..];
      assert ys == before + [x] + after;
      assert Bag(ys) == Bag(before + after) + multiset{x};
      OneLess(Bag(init), Bag(before + after), x);
      MoreNumbersMoreContent(packets, init, before + after, kind);
      ContentMiddle(packets, before, x, after, kind);
      ContentMiddle(packets, init, x, [], kind);
      assert init + [x] + [] == xs && init + [] == init;
    }
  }

  lemma OneLess(a: multiset<nat>, b: multiset<nat>, x: nat)
    requires a + multiset{x} <= b + multiset{x}
    ensures a <= b
  {
    forall k: nat
      ensures a[k] <= b[k]
    {
      assert (a + multiset{x})[k] <= (b + multiset{x})[k];
    }
  }

  lemma ContentMiddle(packets: seq<seq<Byte>>, before: seq<nat>, x: nat, after: seq<nat>, kind: MessageKind)
    ensures Content(PacketsAt(packets, before + [x] + after), kind) ==
            Content(PacketsAt(packets, before + after), kind) + Content([PacketAt(packets, x)], kind)
  {
    PacketsAtAppend(packets, before + [x], after);
    PacketsAtAppend(packets, before, [x]);
    PacketsAtAppend(packets, before, after);
    PacketsAtOne(packets, x);
    ContentAppend(PacketsAt(packets, before) + [PacketAt(packets, x)], PacketsAt(packets, after), kind);
    ContentAppend(PacketsAt(packets, before), [PacketAt(packets, x)], kind);
    ContentAppend(PacketsAt(packets, before), PacketsAt(packets, after), kind);
  }

  lemma DistinctWithin(xs: seq<nat>, ys: seq<nat>)
    requires AtMostOnce(Bag(xs)) && forall x | x in xs :: x in ys
    ensures Bag(xs) <= Bag(ys)
  {
    forall n: nat
      ensures Bag(xs)[n] <= Bag(ys)[n]
    {
      if n in Bag(xs) {
        assert n in xs && n in ys && Bag(ys)[n] >= 1;
      }
    }
  }

  /** Each reliable or ordered message given to the sender is still queued, still
      in flight, or in a packet that the receiver accepted. */
  ghost predicate NothingLost(w: World, kind: MessageKind) {
    multiset(Project(w.a.given, kind)) <=
    multiset(QueueOf(w.a.conn.queue, kind)) + Content(TrackedBytes(w.a.conn.inFlight), kind) +
    Content(PacketsAt(w.packets, w.accepted), kind)
  }

  lemma KeptLosesNothing(w: World, kind: MessageKind)
    requires Kept(w) && kind != Instant
    ensures NothingLost(w, kind)
  {
    assert Bag(w.confirmed) <= Bag(w.flight) + Bag(w.confirmed);
    FewerAtMostOnce(Bag(w.confirmed), Bag(w.flight) + Bag(w.confirmed));
    DistinctWithin(w.confirmed, w.accepted);
    MoreNumbersMoreContent(w.packets, w.confirmed, w.accepted, kind);
    assert Content(w.a.skipped, kind) == multiset{};
  }

  ghost predicate AlwaysOrderly(cfg: ValidConfig, w: World, steps: seq<Step>) {
    steps == [] ||
    (var before, step := RunWorld(cfg, w, steps[..|steps| - 1]), steps[|steps| - 1];
     AlwaysOrderly(cfg, w, steps[..|steps| - 1]) && (Possible(before, step) ==> Orderly(cfg, before, step)))
  }

  lemma {:induction false} RunKept(cfg: ValidConfig, w: World, steps: seq<Step>, w': World)
    requires Kept(w) && AlwaysOrderly(cfg, w, steps) && w' == RunWorld(cfg, w, steps)
    ensures Kept(w')
  {
    if steps != [] {
      var before, step := RunWorld(cfg, w, steps[..|steps| - 1]), steps[|steps| - 1];
      RunKept(cfg, w, steps[..|steps| - 1], before);
      if Possible(before, step) {
        NextKept(cfg, before, step, w');
      }
    }
  }

  lemma NewWorldKept(now: int)
    ensures Kept(NewWorld(now))
  {
    NewWorldLinked(now);
    NewSessionConserves(0, 1, now, Reliable);
    NewSessionConserves(0, 1, now, Ordered);
  }

  /** Over every orderly run between two new endpoints, whatever the network
      loses, duplicates or reorders, no reliable or ordered message is lost. */
  lemma NothingIsEverLost(cfg: ValidConfig, now: int, steps: seq<Step>, kind: MessageKind)
    requires AlwaysOrderly(cfg, NewWorld(now), steps) && kind != Instant
    ensures NothingLost(RunWorld(cfg, NewWorld(now), steps), kind)
  {
    NewWorldKept(now);
    RunKept(cfg, NewWorld(now), steps, RunWorld(cfg, NewWorld(now), steps));
    KeptLosesNothing(RunWorld(cfg, NewWorld(now), steps), kind);
  }
}
