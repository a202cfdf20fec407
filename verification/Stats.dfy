/** The statistics ring buffer of src/shared/stats.rs. */
module Statistics {
  import opened Bytes

  /** Integers here: that the unsigned sums never go below zero is a result. */
  datatype Stats = Stats(bytesSent: int, bytesReceived: int)

  datatype Collector = Collector(tick: nat, buckets: seq<Stats>, averages: Stats)

  predicate Valid(c: Collector) {
    c.tick < |c.buckets| && |c.buckets| >= 2
  }

  /** The bucket that leaves the window when the current tick's value enters it. */
  function OldIndex(c: Collector): (k: nat)
    requires Valid(c)
    ensures k < |c.buckets|
  {
    (c.tick + 1) % |c.buckets|
  }

  function SetSent(c: Collector, bytes: nat): Collector
    requires Valid(c)
  {
    c.(averages := c.averages.(bytesSent := c.averages.bytesSent - c.buckets[OldIndex(c)].bytesSent + bytes),
       buckets := c.buckets[c.tick := c.buckets[c.tick].(bytesSent := bytes)])
  }

  function SetReceived(c: Collector, bytes: nat): Collector
    requires Valid(c)
  {
    c.(averages := c.averages.(bytesReceived := c.averages.bytesReceived - c.buckets[OldIndex(c)].bytesReceived + bytes),
       buckets := c.buckets[c.tick := c.buckets[c.tick].(bytesReceived := bytes)])
  }

  /** Taking the old value out of the sum does not go below zero. */
  predicate SentSafe(c: Collector)
    requires Valid(c)
  {
    c.averages.bytesSent >= c.buckets[OldIndex(c)].bytesSent
  }

  predicate ReceivedSafe(c: Collector)
    requires Valid(c)
  {
    c.averages.bytesReceived >= c.buckets[OldIndex(c)].bytesReceived
  }

  function Step(c: Collector): Collector
    requires Valid(c)
  {
    c.(tick := OldIndex(c))
  }

  function Cleared(c: Collector): Collector {
    Collector(c.tick, seq(|c.buckets|, _ => Stats(0, 0)), Stats(0, 0))
  }

  class StatsCollector {
    var tickIndex: nat
    const sendRate: nat
    const buckets: array<Stats>
    var averages: Stats

    constructor (sendRate: nat)
      requires sendRate > 0
      ensures fresh(buckets)
      ensures State() == Collector(0, seq(sendRate + 1, _ => Stats(0, 0)), Stats(0, 0)) && Consistent()
    {
      tickIndex, averages := 0, Stats(0, 0);
      this.sendRate := sendRate;
      buckets := new Stats[sendRate + 1](_ => Stats(0, 0));
    }

    function State(): Collector
      reads this, buckets
    {
      Collector(tickIndex, buckets[..], averages)
    }

    ghost predicate Consistent()
      reads this, buckets
    {
      buckets.Length == sendRate + 1 && Valid(State())
    }

    method SetBytesSent(bytes: nat)
      requires Consistent() && SentSafe(State())
      modifies this`averages, buckets
      ensures State() == SetSent(old(State()), bytes) && Consistent()
    {
      var oldIndex := (tickIndex + 1) % (sendRate + 1);
      var oldBytes := buckets[oldIndex].bytesSent;
      averages := averages.(bytesSent := averages.bytesSent - oldBytes + bytes);
      buckets[tickIndex] := buckets[tickIndex].(bytesSent := bytes);
    }

    method SetBytesReceived(bytes: nat)
      requires Consistent() && ReceivedSafe(State())
      modifies this`averages, buckets
      ensures State() == SetReceived(old(State()), bytes) && Consistent()
    {
      var oldIndex := (tickIndex + 1) % (sendRate + 1);
      var oldBytes := buckets[oldIndex].bytesReceived;
      averages := averages.(bytesReceived := averages.bytesReceived - oldBytes + bytes);
      buckets[tickIndex] := buckets[tickIndex].(bytesReceived := bytes);
    }

    method Tick()
      requires Consistent()
      modifies this`tickIndex
      ensures State() == Step(old(State())) && Consistent()
    {
      tickIndex := (tickIndex + 1) % (sendRate + 1);
    }

    method Reset()
      requires Consistent()
      modifies this`averages, buckets
      ensures State() == Cleared(old(State())) && Consistent()
    {
      averages := Stats(0, 0);
      for k := 0 to buckets.Length
        invariant averages == Stats(0, 0) && forall j | 0 <= j < k :: buckets[j] == Stats(0, 0)
      {
        buckets[k] := Stats(0, 0);
      }
      assert buckets[..] == Cleared(old(State())).buckets;
    }
  }

  // ----- one channel of the ring -----

  /** One of the two numbers of every bucket, with its running sum. */
  datatype Ring = Ring(tick: nat, slots: seq<int>, sum: int)

  predicate RingValid(r: Ring) {
    r.tick < |r.slots| && |r.slots| >= 2
  }

  function Sent(c: Collector): Ring {
    Ring(c.tick, seq(|c.buckets|, k requires 0 <= k < |c.buckets| => c.buckets[k].bytesSent), c.averages.bytesSent)
  }

  function Received(c: Collector): Ring {
    Ring(c.tick, seq(|c.buckets|, k requires 0 <= k < |c.buckets| => c.buckets[k].bytesReceived), c.averages.bytesReceived)
  }

  /** The index `d` ticks back from the current one. */
  function Back(tick: nat, n: nat, d: nat): nat
    requires tick < n && d <= n
  {
    if d <= tick then tick - d else tick + n - d
  }

  function Next(tick: nat, n: nat): nat
    requires tick < n
  {
    if tick + 1 == n then 0 else tick + 1
  }

  lemma NextIsModulo(tick: nat, n: nat)
    requires tick < n
    ensures (tick + 1) % n == Next(tick, n)
  {
  }

  /** A value set in the current tick, and the step to the next one. */
  function Push(r: Ring, v: nat): Ring
    requires RingValid(r)
  {
    Ring(Next(r.tick, |r.slots|), r.slots[r.tick := v], r.sum - r.slots[Next(r.tick, |r.slots|)] + v)
  }

  function Sum(h: seq<nat>): nat {
    if h == [] then 0 else Sum(h[..|h| - 1]) + h[|h| - 1]
  }

  /** The sum of the last `n` values of a history. */
  function WindowSum(h: seq<nat>, n: nat): nat {
    if |h| <= n then Sum(h) else Sum(h[|h| - n..])
  }

  /** The value `d` entries back in a history that starts after silence. */
  function Ago(h: seq<nat>, d: nat): nat
    requires d > 0
  {
    if d <= |h| then h[|h| - d] else 0
  }

  lemma {:induction false} SumFront(h: seq<nat>)
    requires h != []
    ensures Sum(h) == h[0] + Sum(h[1..])
  {
    if |h| > 1 {
      SumFront(h[..|h| - 1]);
      assert h[..|h| - 1][1..] == h[1..][..|h| - 2];
    }
  }

  lemma WindowSlides(h: seq<nat>, n: nat, v: nat)
    requires n > 0
    ensures WindowSum(h + [v], n) + Ago(h, n) == WindowSum(h, n) + v
  {
    var h' := h + [v];
    assert h'[..|h|] == h;
    if |h| >= n {
      var w, w' := h[|h| - n..], h'[|h'| - n..];
      assert Sum(h) == Sum(w) || |h| > n;
      assert |h| == n ==> w == h;
      SumFront(w);
      assert w'[..n - 1] == w[1..];
    }
  }

  /** The ring holds the last values of `h`, and its sum is the window's. */
  ghost predicate Window(r: Ring, h: seq<nat>) {
    RingValid(r) && r.sum == WindowSum(h, |r.slots| - 1) &&
    forall d | 1 <= d <= |r.slots| :: r.slots[Back(r.tick, |r.slots|, d)] == Ago(h, d)
  }

  /** Pushing into a ring slides the window by one value. */
  lemma PushSlides(r: Ring, h: seq<nat>, v: nat)
    requires Window(r, h)
    ensures Window(Push(r, v), h + [v])
  {
    var n := |r.slots|;
    WindowSlides(h, n - 1, v);
    assert Back(r.tick, n, n - 1) == Next(r.tick, n);
    assert r.slots[Back(r.tick, n, n - 1)] == Ago(h, n - 1);
    var q := Push(r, v);
    forall d | 1 <= d <= n
      ensures q.slots[Back(q.tick, n, d)] == Ago(h + [v], d)
    {
      if d > 1 {
        assert Back(q.tick, n, d) == Back(r.tick, n, d - 1) != r.tick;
      }
    }
  }

  lemma WindowCovers(h: seq<nat>, n: nat)
    requires n > 0
    ensures WindowSum(h, n) >= Ago(h, n)
  {
    if |h| >= n {
      var w := h[|h| - n..];
      SumFront(w);
      assert |h| == n ==> w == h;
    }
  }

  /** The value that leaves the window is part of the sum. */
  lemma SafeIfWindow(r: Ring, h: seq<nat>)
    requires Window(r, h)
    ensures r.sum >= r.slots[Next(r.tick, |r.slots|)]
  {
    var n := |r.slots|;
    assert Back(r.tick, n, n - 1) == Next(r.tick, n);
    assert r.slots[Back(r.tick, n, n - 1)] == Ago(h, n - 1);
    WindowCovers(h, n - 1);
  }

  // ----- whole runs -----

  /** One round of a server: the bytes received are set at most once before the
      bytes sent are set exactly once and the tick is stepped. */
  datatype Interval = Traffic(received: Option<nat>, sent: nat) | Reset

  function AfterRound(c: Collector, round: Interval): (c': Collector)
    requires Valid(c)
    ensures Valid(c')
  {
    match round
    case Reset => Cleared(c)
    case Traffic(received, sent) =>
      Step(SetSent(if received.Some? then SetReceived(c, received.value) else c, sent))
  }

  function After(rate: nat, run: seq<Interval>): (c: Collector)
    requires rate > 0
    ensures Valid(c)
  {
    if run == [] then Collector(0, seq(rate + 1, _ => Stats(0, 0)), Stats(0, 0))
    else AfterRound(After(rate, run[..|run| - 1]), run[|run| - 1])
  }

  /** The bytes sent per tick since the last reset. */
  function SentHistory(run: seq<Interval>): seq<nat> {
    if run == [] then []
    else match run[|run| - 1]
      case Reset => []
      case Traffic(_, sent) => SentHistory(run[..|run| - 1]) + [sent]
  }

  /** The bytes received per tick since the last reset. */
  function ReceivedHistory(run: seq<Interval>): seq<nat> {
    if run == [] then []
    else match run[|run| - 1]
      case Reset => []
      case Traffic(received, _) => ReceivedHistory(run[..|run| - 1]) + [if received.Some? then received.value else 0]
  }

  predicate AlwaysReceives(run: seq<Interval>) {
    run == [] || (AlwaysReceives(run[..|run| - 1]) && (run[|run| - 1].Traffic? ==> run[|run| - 1].received.Some?))
  }

  lemma TrafficPushesSent(c: Collector, round: Interval)
    requires Valid(c) && round.Traffic?
    ensures Sent(AfterRound(c, round)) == Push(Sent(c), round.sent)
  {
    NextIsModulo(c.tick, |c.buckets|);
    assert Sent(AfterRound(c, round)).slots == Push(Sent(c), round.sent).slots;
  }

  lemma TrafficPushesReceived(c: Collector, round: Interval)
    requires Valid(c) && round.Traffic? && round.received.Some?
    ensures Received(AfterRound(c, round)) == Push(Received(c), round.received.value)
  {
    NextIsModulo(c.tick, |c.buckets|);
    assert Received(AfterRound(c, round)).slots == Push(Received(c), round.received.value).slots;
  }

  lemma SentStep(c: Collector, h: seq<nat>, round: Interval)
    requires Valid(c) && Window(Sent(c), h)
    ensures var c' := AfterRound(c, round);
            |c'.buckets| == |c.buckets| &&
            Window(Sent(c'), if round.Reset? then [] else h + [round.sent])
  {
    if round.Traffic? {
      TrafficPushesSent(c, round);
      PushSlides(Sent(c), h, round.sent);
    }
  }

  lemma SentSafeIfWindow(c: Collector, h: seq<nat>)
    requires Valid(c) && Window(Sent(c), h)
    ensures SentSafe(c)
  {
    SafeIfWindow(Sent(c), h);
    NextIsModulo(c.tick, |c.buckets|);
  }

  lemma ReceivedStep(c: Collector, h: seq<nat>, round: Interval)
    requires Valid(c) && Window(Received(c), h) && (round.Traffic? ==> round.received.Some?)
    ensures var c' := AfterRound(c, round);
            |c'.buckets| == |c.buckets| &&
            Window(Received(c'), if round.Reset? then [] else h + [round.received.value])
  {
    if round.Traffic? {
      TrafficPushesReceived(c, round);
      PushSlides(Received(c), h, round.received.value);
    }
  }

  lemma ReceivedSafeIfWindow(c: Collector, h: seq<nat>)
    requires Valid(c) && Window(Received(c), h)
    ensures ReceivedSafe(c)
  {
    SafeIfWindow(Received(c), h);
    NextIsModulo(c.tick, |c.buckets|);
  }

  /** Over every run, with any resets, the bytes sent that are reported are the
      sum over the last `rate` ticks, and no subtraction goes below zero. */
  lemma {:induction false} SentIsWindowSum(rate: nat, run: seq<Interval>)
    requires rate > 0
    ensures var c := After(rate, run);
            |c.buckets| == rate + 1 && Window(Sent(c), SentHistory(run)) &&
            c.averages.bytesSent == WindowSum(SentHistory(run), rate) && SentSafe(c)
  {
    if run != [] {
      var init, round := run[..|run| - 1], run[|run| - 1];
      SentIsWindowSum(rate, init);
      SentStep(After(rate, init), SentHistory(init), round);
    }
    SentSafeIfWindow(After(rate, run), SentHistory(run));
  }

  /** The same for the bytes received, as long as every tick sets them. */
  lemma {:induction false} ReceivedIsWindowSum(rate: nat, run: seq<Interval>)
    requires rate > 0 && AlwaysReceives(run)
    ensures var c := After(rate, run);
            |c.buckets| == rate + 1 && Window(Received(c), ReceivedHistory(run)) &&
            c.averages.bytesReceived == WindowSum(ReceivedHistory(run), rate) && ReceivedSafe(c)
  {
    if run != [] {
      var init, round := run[..|run| - 1], run[|run| - 1];
      ReceivedIsWindowSum(rate, init);
      ReceivedStep(After(rate, init), ReceivedHistory(init), round);
    }
    ReceivedSafeIfWindow(After(rate, run), ReceivedHistory(run));
  }

  /** A tick in which nothing was set steps the ring all the same. */
  function Skip(r: Ring): Ring
    requires RingValid(r)
  {
    r.(tick := Next(r.tick, |r.slots|))
  }

  lemma SkipSlots(r: Ring, h: seq<nat>)
    requires Window(r, h)
    ensures Back(Next(r.tick, |r.slots|), |r.slots|, 1) == r.tick && r.slots[r.tick] == Ago(h, |r.slots|)
    ensures forall d | 2 <= d <= |r.slots| ::
              r.slots[Back(Next(r.tick, |r.slots|), |r.slots|, d)] == Ago(h + [0], d)
  {
    var n := |r.slots|;
    assert Back(r.tick, n, n) == r.tick;
    forall d | 2 <= d <= n
      ensures r.slots[Back(Next(r.tick, n), n, d)] == Ago(h + [0], d)
    {
      assert Back(Next(r.tick, n), n, d) == Back(r.tick, n, d - 1);
    }
  }

  /** A skipped tick counts as zero bytes exactly if the value that leaves the
      window and the one that is left in its slot are zero. */
  lemma SkipIsExactIff(r: Ring, h: seq<nat>)
    requires Window(r, h)
    ensures Window(Skip(r), h + [0]) <==> Ago(h, |r.slots| - 1) == 0 && Ago(h, |r.slots|) == 0
  {
    WindowSlides(h, |r.slots| - 1, 0);
    SkipSlots(r, h);
    assert Ago(h + [0], 1) == 0;
  }

  /** Every tick that sets no bytes received finds those two values zero. */
  predicate SkipsInSilence(rate: nat, run: seq<Interval>)
    requires rate > 0
  {
    run == [] ||
    (SkipsInSilence(rate, run[..|run| - 1]) &&
     (run[|run| - 1].Traffic? && run[|run| - 1].received.None? ==>
        Ago(ReceivedHistory(run[..|run| - 1]), rate) == 0 && Ago(ReceivedHistory(run[..|run| - 1]), rate + 1) == 0))
  }

  /** The ring agrees with the history after every round so far. */
  ghost predicate ReceivedExact(rate: nat, run: seq<Interval>)
    requires rate > 0
  {
    Window(Received(After(rate, run)), ReceivedHistory(run)) && (run == [] || ReceivedExact(rate, run[..|run| - 1]))
  }

  lemma SkipReceived(c: Collector, round: Interval)
    requires Valid(c) && round.Traffic? && round.received.None?
    ensures Received(AfterRound(c, round)) == Skip(Received(c))
  {
    NextIsModulo(c.tick, |c.buckets|);
  }

  lemma {:induction false} BucketsKept(rate: nat, run: seq<Interval>)
    requires rate > 0
    ensures |After(rate, run).buckets| == rate + 1
  {
    if run != [] {
      BucketsKept(rate, run[..|run| - 1]);
    }
  }

  /** What is reported of the bytes received is the sum over the last `rate`
      ticks throughout a run if and only if ticks are skipped in silence only. */
  lemma {:induction false} ReceivedIsExactIff(rate: nat, run: seq<Interval>)
    requires rate > 0
    ensures ReceivedExact(rate, run) <==> SkipsInSilence(rate, run)
  {
    if run != [] {
      var init, round := run[..|run| - 1], run[|run| - 1];
      ReceivedIsExactIff(rate, init);
      BucketsKept(rate, init);
      if ReceivedExact(rate, init) {
        var c, h := After(rate, init), ReceivedHistory(init);
        if round.Traffic? && round.received.None? {
          SkipReceived(c, round);
          SkipIsExactIff(Received(c), h);
        } else {
          ReceivedStep(c, h, round);
        }
      }
    }
  }

  // ----- when the sum of the bytes received goes below zero -----

  /** The bytes received of every tick since the last reset, where they were set. */
  function Settings(run: seq<Interval>): seq<Option<nat>> {
    if run == [] then []
    else match run[|run| - 1]
      case Reset => []
      case Traffic(received, _) => Settings(run[..|run| - 1]) + [received]
  }

  /** The value last set `d` ticks back, or any multiple of `n` ticks before that. */
  function Stale(h: seq<Option<nat>>, n: nat, d: nat): nat
    requires n > 0 && d > 0
    decreases if d <= |h| then |h| - d + 1 else 0
  {
    if d > |h| then 0
    else if h[|h| - d].Some? then h[|h| - d].value
    else Stale(h, n, d + n)
  }

  /** All that was ever added to the sum. */
  function Total(h: seq<Option<nat>>): nat {
    if h == [] then 0
    else Total(h[..|h| - 1]) + if h[|h| - 1].Some? then h[|h| - 1].value else 0
  }

  /** All that was ever taken out of it: for every value set, what was last set a
      round of `n` ticks before the tick to come. */
  function Taken(h: seq<Option<nat>>, n: nat): nat
    requires n > 1
  {
    if h == [] then 0
    else Taken(h[..|h| - 1], n) + if h[|h| - 1].Some? then Stale(h[..|h| - 1], n, n - 1) else 0
  }

  ghost predicate Tells(h: seq<Option<nat>>, r: Ring) {
    RingValid(r) && r.sum == Total(h) - Taken(h, |r.slots|) &&
    forall d | 1 <= d <= |r.slots| :: r.slots[Back(r.tick, |r.slots|, d)] == Stale(h, |r.slots|, d)
  }

  lemma {:induction false} StaleShifts(h: seq<Option<nat>>, x: Option<nat>, n: nat, d: nat)
    requires n > 0 && d > 1
    ensures Stale(h + [x], n, d) == Stale(h, n, d - 1)
    decreases if d <= |h| + 1 then |h| + 2 - d else 0
  {
    var g := h + [x];
    if d <= |g| {
      assert g[|g| - d] == h[|h| - (d - 1)];
      if h[|h| - (d - 1)].None? {
        StaleShifts(h, x, n, d + n);
      }
    }
  }

  lemma StaleNow(h: seq<Option<nat>>, x: Option<nat>, n: nat)
    requires n > 0
    ensures Stale(h + [x], n, 1) == if x.Some? then x.value else Stale(h, n, n)
  {
    if x.None? {
      StaleShifts(h, x, n, n + 1);
    }
  }

  lemma SumsGrow(h: seq<Option<nat>>, x: Option<nat>, n: nat)
    requires n > 1
    ensures Total(h + [x]) == Total(h) + if x.Some? then x.value else 0
    ensures Taken(h + [x], n) == Taken(h, n) + if x.Some? then Stale(h, n, n - 1) else 0
  {
    assert (h + [x])[..|h|] == h;
  }

  lemma SlotsTell(h: seq<Option<nat>>, r: Ring, x: Option<nat>, q: Ring)
    requires Tells(h, r) && q == if x.Some? then Push(r, x.value) else Skip(r)
    ensures forall d | 1 <= d <= |q.slots| :: q.slots[Back(q.tick, |q.slots|, d)] == Stale(h + [x], |q.slots|, d)
  {
    var n := |r.slots|;
    StaleNow(h, x, n);
    assert Back(q.tick, n, 1) == r.tick == Back(r.tick, n, n);
    forall d | 2 <= d <= n
      ensures q.slots[Back(q.tick, n, d)] == Stale(h + [x], n, d)
    {
      StaleShifts(h, x, n, d);
      assert Back(q.tick, n, d) == Back(r.tick, n, d - 1) != r.tick;
    }
  }

  lemma RingTells(h: seq<Option<nat>>, r: Ring, x: Option<nat>, q: Ring)
    requires Tells(h, r) && q == if x.Some? then Push(r, x.value) else Skip(r)
    ensures Tells(h + [x], q)
  {
    var n := |r.slots|;
    SlotsTell(h, r, x, q);
    SumsGrow(h, x, n);
    assert Back(r.tick, n, n - 1) == Next(r.tick, n);
  }

  lemma {:induction false} RunTells(rate: nat, run: seq<Interval>)
    requires rate > 0
    ensures Tells(Settings(run), Received(After(rate, run))) && |After(rate, run).buckets| == rate + 1
  {
    BucketsKept(rate, run);
    if run != [] {
      var init, round := run[..|run| - 1], run[|run| - 1];
      var c := After(rate, init);
      RunTells(rate, init);
      if round.Traffic? {
        if round.received.Some? {
          TrafficPushesReceived(c, round);
        } else {
          SkipReceived(c, round);
        }
        RingTells(Settings(init), Received(c), round.received, Received(After(rate, run)));
      }
    }
  }

  /** After every run, setting the bytes received underflows if and only if more
      would have been taken out of the sum than was ever added to it. */
  lemma ReceivedUnderflowsIff(rate: nat, run: seq<Interval>)
    requires rate > 0
    ensures var h := Settings(run);
            !ReceivedSafe(After(rate, run)) <==> Total(h) < Taken(h, rate + 1) + Stale(h, rate + 1, rate)
  {
    var c := After(rate, run);
    RunTells(rate, run);
    NextIsModulo(c.tick, |c.buckets|);
    assert Back(c.tick, rate + 1, rate) == Next(c.tick, rate + 1);
  }

  lemma LastRound(rate: nat, run: seq<Interval>, round: Interval)
    requires rate > 0
    ensures After(rate, run + [round]) == AfterRound(After(rate, run), round)
    ensures round.Traffic? ==>
              ReceivedHistory(run + [round]) ==
              ReceivedHistory(run) + [if round.received.Some? then round.received.value else 0]
  {
    assert (run + [round])[..|run|] == run;
  }

  const SKIPPING: seq<Interval> := [Traffic(Some(5), 0)] + [Traffic(Some(0), 0)] + [Traffic(None, 0)]

  /** A tick that sends without receiving first makes the collector take an old
      value out of the sum twice: the next subtraction goes below zero. */
  lemma SkippedReceiveUnderflows()
    ensures !AlwaysReceives(SKIPPING) && !ReceivedSafe(After(1, SKIPPING))
  {
    var run1, run2 := [Traffic(Some(5), 0)], [Traffic(Some(5), 0)] + [Traffic(Some(0), 0)];
    LastRound(1, [], Traffic(Some(5), 0));
    assert [] + [Traffic(Some(5), 0)] == run1;
    LastRound(1, run1, Traffic(Some(0), 0));
    LastRound(1, run2, Traffic(None, 0));
    assert After(1, run1).buckets == [Stats(0, 5), Stats(0, 0)];
    assert After(1, run2).buckets == [Stats(0, 5), Stats(0, 0)];
    assert After(1, SKIPPING).buckets == [Stats(0, 5), Stats(0, 0)];
    assert !AlwaysReceives(SKIPPING) by {
      assert SKIPPING[|SKIPPING| - 1] == Traffic(None, 0);
    }
  }
}
