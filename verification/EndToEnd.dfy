/** What two new endpoints owe their applications over a network that loses,
    duplicates and reorders: every message arrives, and in the end all of them. */
module EndToEnd {
  import opened MessageCodec
  import opened PacketFill
  import opened Reorder
  import opened Connections
  import opened Sessions
  import opened Endpoints
  import opened Delivery
  import opened Ordinals
  import opened OrderedStreams

  lemma {:induction false} OrderlyIsSmall(cfg: ValidConfig, now: int, steps: seq<Step>)
    requires AlwaysOrderly(cfg, NewWorld(now), steps)
    ensures AlwaysSmall(steps)
  {
    if steps != [] {
      var init, step := steps[..|steps| - 1], steps[|steps| - 1];
      OrderlyIsSmall(cfg, now, init);
      assert Possible(RunWorld(cfg, NewWorld(now), init), step) ==> Small(step);
      assert steps == init + [step];
    }
  }

  /** Over an orderly run, each ordinal is in exactly one place. */
  lemma {:induction false} OrdinalsConserved(cfg: ValidConfig, now: int, steps: seq<Step>, j: Journey)
    requires AlwaysOrderly(cfg, NewWorld(now), steps) && j == TravelAll(cfg, NewJourney(now), steps)
    ensures Genuine(j) && Heard(j) && Kept(j.w) && Once(j.w, j.tags)
  {
    hide Genuine, Heard, Kept, Once, Travel, Orderly, AlwaysSmall;
    OrderlyIsSmall(cfg, now, steps);
    JourneyHolds(cfg, now, steps, j);
    JourneyWorld(cfg, now, steps);
    RunKeeps(cfg, now, steps, j.w);
    if steps == [] {
      NewOnce(now);
    } else {
      var before, step := TravelAll(cfg, NewJourney(now), steps[..|steps| - 1]), steps[|steps| - 1];
      JourneyWorld(cfg, now, steps[..|steps| - 1]);
      OrdinalsConserved(cfg, now, steps[..|steps| - 1], before);
      TravelOnce(cfg, before, step, j);
    }
  }

  lemma RunKeeps(cfg: ValidConfig, now: int, steps: seq<Step>, w: World)
    requires AlwaysOrderly(cfg, NewWorld(now), steps) && w == RunWorld(cfg, NewWorld(now), steps)
    ensures Kept(w)
  {
    NewWorldKept(now);
    RunKept(cfg, NewWorld(now), steps, w);
  }

  lemma NewOnce(now: int)
    ensures Once(NewWorld(now), Tags([], []))
  {
  }

  lemma TravelOnce(cfg: ValidConfig, j: Journey, step: Step, j': Journey)
    requires Genuine(j) && Kept(j.w) && Once(j.w, j.tags) && j' == Travel(cfg, j, step)
    requires Possible(j.w, step) ==> Orderly(cfg, j.w, step)
    ensures Once(j'.w, j'.tags)
  {
    GenuineFlight(j);
    hide Once, Orderly, Accepts, Next, Retag, SessionFramed, Conserved;
    if Possible(j.w, step) {
      NextOnce(cfg, j.w, j.tags, step, j'.w, j'.tags);
    }
  }

  lemma {:induction false} OrdsMember(carried: seq<seq<nat>>, numbers: seq<nat>, k: nat) returns (n: nat)
    requires k in Ords(carried, numbers)
    ensures n in numbers && k in CarriedBy(carried, n)
  {
    var last := |numbers| - 1;
    n := numbers[last];
    if k !in CarriedBy(carried, n) {
      n := OrdsMember(carried, numbers[..last], k);
    }
  }

  lemma {:induction false} ArrivedMember(carried: seq<seq<nat>>, numbers: seq<nat>, n: nat, k: nat)
    requires n in numbers && k in CarriedBy(carried, n)
    ensures k in Arrived(carried, numbers)
  {
    var last := |numbers| - 1;
    if n == numbers[last] {
      assert k in ToSet(CarriedBy(carried, n));
    } else {
      ArrivedMember(carried, numbers[..last], n, k);
    }
  }

  lemma {:induction false} UpToHas(n: nat, k: nat)
    requires k < n
    ensures k in UpTo(n)
  {
    if k < n - 1 {
      UpToHas(n - 1, k);
    }
    assert UpTo(n)[n - 1] == n - 1;
  }

  /** With nothing queued and nothing in flight, every ordinal has arrived. */
  lemma IdleHasArrived(w: World, t: Tags, k: nat)
    requires Honest(w) && Labelled(w, t) && Once(w, t) && w.a.conn.queue.o == [] && w.flight == [] && k < |Given(w)|
    ensures k in Arrived(t.carried, w.accepted)
  {
    UpToHas(|Given(w)|, k);
    assert t.queued == [] && Ords(t.carried, w.flight) == multiset{};
    assert k in multiset(UpTo(|Given(w)|));
    var n := OrdsMember(t.carried, w.confirmed, k);
    ArrivedMember(t.carried, w.accepted, n, k);
  }

  /** Once the sender has nothing queued and nothing in flight, the receiver has
      been given the whole stream, in order and once each. */
  lemma IdleMeansDelivered(cfg: ValidConfig, now: int, steps: seq<Step>, j: Journey)
    requires AlwaysOrderly(cfg, NewWorld(now), steps) && AlwaysTimely(cfg, NewJourney(now), steps)
    requires j == TravelAll(cfg, NewJourney(now), steps)
    requires j.w.a.conn.queue.o == [] && j.w.flight == []
    ensures j.p.r == |Given(j.w)| && Project(j.entered, Ordered) == Given(j.w)
  {
    hide SessionFramed, Conserved, Numbered, Linked, Once, Labelled, Project;
    OrderlyIsSmall(cfg, now, steps);
    OrderedEndToEnd(cfg, now, steps, j);
    OrdinalsConserved(cfg, now, steps, j);
    if j.p.r < |Given(j.w)| {
      IdleHasArrived(j.w, j.tags, j.p.r);
    }
    assert Given(j.w)[..|Given(j.w)|] == Given(j.w);
  }

  /** Over every run, orderly or not, the reliable and the instant messages that
      entered the receive queue are, as multisets, those of the packets accepted. */
  lemma EnteredIsAccepted(cfg: ValidConfig, now: int, steps: seq<Step>, kind: MessageKind, j: Journey)
    requires AlwaysSmall(steps) && kind != Ordered && j == TravelAll(cfg, NewJourney(now), steps)
    ensures multiset(Project(j.entered, kind)) == Content(PacketsAt(j.w.packets, j.w.accepted), kind)
  {
    JourneyHolds(cfg, now, steps, j);
    assert EnteredAre(j, Reliable) && EnteredAre(j, Instant);
  }

  /** Over every orderly run each reliable message given to the sender is, as a
      multiset, still queued, still in flight, or has entered the receive queue of
      the peer. */
  lemma ReliableArrives(cfg: ValidConfig, now: int, steps: seq<Step>, j: Journey)
    requires AlwaysOrderly(cfg, NewWorld(now), steps) && j == TravelAll(cfg, NewJourney(now), steps)
    ensures multiset(Project(j.w.a.given, Reliable)) <=
            multiset(j.w.a.conn.queue.r) + Content(TrackedBytes(j.w.a.conn.inFlight), Reliable) +
            multiset(Project(j.entered, Reliable))
  {
    hide Genuine, Kept, Once, Content, Project, PacketsAt;
    OrdinalsConserved(cfg, now, steps, j);
    KeptLosesNothing(j.w, Reliable);
  }
}
