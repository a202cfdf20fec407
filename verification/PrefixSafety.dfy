/** What the receiver of ordered messages keeps even where the longest prefix is
    not delivered, exactly how long it keeps it, and what follows when it is lost. */
module PrefixSafety {
  import opened MessageCodec
  import opened Reorder

  // ----- what the code does, in terms of ordinals -----

  /** The ordinal the receiver waits for, and those it holds beyond it. */
  datatype Position = Position(n: nat, ahead: set<nat>)

  /** The loop over the heap: it stops also where a later block hides the next ordinal. */
  function Forward(q: Position): (f: Position)
    ensures q.n <= f.n && f.ahead <= q.ahead
    decreases |q.ahead|
  {
    if q.n in q.ahead && Unobstructed(q.ahead, q.n) then Forward(Position(q.n + 1, q.ahead - {q.n})) else q
  }

  function Moved(q: Position, k: nat): (f: Position)
    ensures q.n <= f.n
  {
    if k == q.n then Forward(Position(q.n + 1, q.ahead - {k}))
    else if k > q.n then Position(q.n, q.ahead + {k})
    else q
  }

  /** The heap and the marks are exactly those of the ordinals ahead. */
  ghost predicate Tracks(x: Inbox, sent: seq<Message>, q: Position) {
    q.n <= |sent| && Holds(x, sent, q.n, q.ahead)
  }

  /** The expected ordinal does not arrive while a hidden copy of it is buffered. */
  predicate NoEcho(q: Position, k: nat) {
    k == q.n ==> k !in q.ahead
  }

  predicate Near(q: Position, k: nat) {
    -2048 < k - q.n < 2048
  }

  // ----- one arrival -----

  lemma RoomAhead(x: Inbox, sent: seq<Message>, q: Position)
    requires Tracks(x, sent, q) && q.n in q.ahead
    ensures q.n < |sent|
  {
  }

  lemma DrainStops(x: Inbox, sent: seq<Message>, q: Position)
    requires Tracks(x, sent, q) && !(q.n in q.ahead && Unobstructed(q.ahead, q.n))
    ensures Drain(x) == x && x.recv + sent[q.n..q.n] == x.recv
  {
    HeadIsNext(x, sent, q.n, q.ahead);
  }

  lemma {:induction false} DrainGoesForward(x: Inbox, sent: seq<Message>, q: Position, f: Position)
    requires Tracks(x, sent, q) && f == Forward(q)
    ensures Tracks(Drain(x), sent, f) && Drain(x).recv == x.recv + sent[q.n..f.n]
    decreases |x.heap|
  {
    hide Drain, Holds, Unobstructed;
    if q.n in q.ahead && Unobstructed(q.ahead, q.n) {
      var z := Popped(x, sent, q.n, q.ahead);
      RoomAhead(x, sent, q);
      DrainGoesForward(z, sent, Position(q.n + 1, q.ahead - {q.n}), f);
      SliceFirst(sent, q.n, f.n, x.recv);
    } else {
      DrainStops(x, sent, q);
    }
  }

  lemma ExpectedMoves(x: Inbox, sent: seq<Message>, q: Position, f: Position)
    requires Tracks(x, sent, q) && q.n < |sent| && q.n !in q.ahead && f == Moved(q, q.n)
    ensures Tracks(Arrive(x, sent[q.n]), sent, f) && Arrive(x, sent[q.n]).recv == x.recv + sent[q.n..f.n]
  {
    var z := x.(next := NextOrder(x.next), recv := x.recv + [sent[q.n]]);
    IdNext(q.n);
    assert q.ahead - {q.n} == q.ahead;
    DrainGoesForward(z, sent, Position(q.n + 1, q.ahead), f);
    SliceFirst(sent, q.n, f.n, x.recv);
  }

  lemma OtherMoves(x: Inbox, sent: seq<Message>, q: Position, k: nat, f: Position)
    requires Tracks(x, sent, q) && k < |sent| && Near(q, k) && k != q.n && f == Moved(q, k)
    ensures Tracks(Arrive(x, sent[k]), sent, f) && Arrive(x, sent[k]).recv == x.recv + sent[q.n..f.n]
  {
    assert x.recv + sent[q.n..q.n] == x.recv;
    IdDistinct(k, q.n);
    MoreRecentIsLater(k, q.n);
    if k > q.n {
      forall j | j in q.ahead && Id(j) == Id(k)
        ensures j == k
      {
        if j != k { IdDistinct(j, k); }
      }
      if k in q.ahead {
        assert q.ahead + {k} == q.ahead;
      } else {
        assert Id(k) !in x.marks;
        assert Buffered(sent, q.ahead + {k}) == x.heap + {sent[k]};
        assert Marks(q.ahead + {k}) == x.marks + {Id(k)};
      }
    }
  }

  // ----- why an echo leaves a stale message behind: by counting -----

  lemma {:induction false} DrainCounts(x: Inbox)
    ensures |Drain(x).heap| + |Drain(x).recv| == |x.heap| + |x.recv|
    decreases |x.heap|
  {
    if HeadMatches(x.heap, x.next) {
      var m := HeadOf(x.heap, x.next);
      DrainCounts(Inbox(NextOrder(x.next), x.recv + [m], x.heap - {m}, x.marks - {x.next}));
    }
  }

  lemma {:induction false} ForwardCounts(q: Position)
    ensures |Forward(q).ahead| + Forward(q).n == |q.ahead| + q.n
    decreases |q.ahead|
  {
    if q.n in q.ahead && Unobstructed(q.ahead, q.n) {
      ForwardCounts(Position(q.n + 1, q.ahead - {q.n}));
    }
  }

  lemma {:induction false} BufferedCounts(sent: seq<Message>, n: nat, ahead: set<nat>)
    requires Stream(sent) && forall k | k in ahead :: n <= k < |sent| && k < n + 2048
    ensures |Buffered(sent, ahead)| == |ahead|
    decreases |ahead|
  {
    if ahead == {} {
      assert Buffered(sent, ahead) == {};
    } else {
      var k :| k in ahead;
      BufferedCounts(sent, n, ahead - {k});
      forall j | j in ahead && j != k
        ensures sent[j] != sent[k]
      {
        IdDistinct(j, k);
      }
      assert Buffered(sent, ahead) == Buffered(sent, ahead - {k}) + {sent[k]};
    }
  }

  /** After an echo the heap holds one message too many. */
  lemma EchoLosesTrack(x: Inbox, sent: seq<Message>, q: Position, f: Position)
    requires Tracks(x, sent, q) && q.n < |sent| && q.n in q.ahead && f == Moved(q, q.n)
    ensures !(Tracks(Arrive(x, sent[q.n]), sent, f) && Arrive(x, sent[q.n]).recv == x.recv + sent[q.n..f.n])
  {
    var y := Arrive(x, sent[q.n]);
    var z := x.(next := NextOrder(x.next), recv := x.recv + [sent[q.n]]);
    DrainCounts(z);
    ForwardCounts(Position(q.n + 1, q.ahead - {q.n}));
    BufferedCounts(sent, q.n, q.ahead);
    if Tracks(y, sent, f) && y.recv == x.recv + sent[q.n..f.n] {
      BufferedCounts(sent, f.n, f.ahead);
    }
  }

  /** An arrival near the expected ordinal keeps track, and delivers exactly the
      messages the position passes, if and only if it is no echo. */
  lemma ArrivalTracksIff(x: Inbox, sent: seq<Message>, q: Position, k: nat, y: Inbox, f: Position)
    requires Tracks(x, sent, q) && k < |sent| && Near(q, k) && y == Arrive(x, sent[k]) && f == Moved(q, k)
    ensures Tracks(y, sent, f) && y.recv == x.recv + sent[q.n..f.n] <==> NoEcho(q, k)
  {
    hide Tracks, Arrive, Moved;
    if k != q.n {
      OtherMoves(x, sent, q, k, f);
    } else if k in q.ahead {
      EchoLosesTrack(x, sent, q, f);
    } else {
      ExpectedMoves(x, sent, q, f);
    }
  }

  // ----- whole runs -----

  function PositionAfter(arrivals: seq<nat>): Position {
    if arrivals == [] then Position(0, {}) else Moved(PositionAfter(Front(arrivals)), Last(arrivals))
  }

  /** Every arrival is within 2047 of the ordinal the receiver waits for. */
  predicate AlwaysNear(arrivals: seq<nat>) {
    arrivals == [] || (AlwaysNear(Front(arrivals)) && Near(PositionAfter(Front(arrivals)), Last(arrivals)))
  }

  predicate NeverEchoes(arrivals: seq<nat>) {
    arrivals == [] || (NeverEchoes(Front(arrivals)) && NoEcho(PositionAfter(Front(arrivals)), Last(arrivals)))
  }

  /** What was delivered is the stream up to the position, and the heap holds
      exactly the ordinals ahead of it. */
  ghost predicate OnTrack(sent: seq<Message>, arrivals: seq<nat>)
    requires Within(arrivals, |sent|)
  {
    var x, q := ArriveAll(EMPTY, sent, arrivals), PositionAfter(arrivals);
    Tracks(x, sent, q) && x.recv == sent[..q.n]
  }

  ghost predicate AlwaysOnTrack(sent: seq<Message>, arrivals: seq<nat>)
    requires Within(arrivals, |sent|)
  {
    OnTrack(sent, arrivals) && (arrivals == [] || AlwaysOnTrack(sent, Front(arrivals)))
  }

  lemma LastTracks(sent: seq<Message>, x: Inbox, q: Position, k: nat, y: Inbox, f: Position)
    requires Tracks(x, sent, q) && x.recv == sent[..q.n] && k < |sent| && Near(q, k)
    requires y == Arrive(x, sent[k]) && f == Moved(q, k)
    ensures Tracks(y, sent, f) && y.recv == sent[..f.n] <==> NoEcho(q, k)
  {
    ArrivalTracksIff(x, sent, q, k, y, f);
    if f.n <= |sent| {
      PrefixGrows(sent, q.n, f.n, y.recv);
    }
  }

  lemma StartsOnTrack(sent: seq<Message>)
    requires Stream(sent)
    ensures OnTrack(sent, [])
  {
    assert Buffered(sent, {}) == {};
  }

  /** Over any run of arrivals near the expected ordinal, also one in which the
      longest prefix is not delivered: after every arrival what was delivered is a
      prefix of the stream and the heap holds what lies ahead of it, if and only if
      no expected ordinal arrives while a hidden copy of it is buffered. */
  lemma {:induction false} OnTrackIff(sent: seq<Message>, arrivals: seq<nat>)
    requires Stream(sent) && Within(arrivals, |sent|) && AlwaysNear(arrivals)
    ensures AlwaysOnTrack(sent, arrivals) <==> NeverEchoes(arrivals)
  {
    hide Tracks, Moved, Arrive, NoEcho, Near, Stream;
    if arrivals == [] {
      StartsOnTrack(sent);
    } else {
      var init, k := Front(arrivals), Last(arrivals);
      OnTrackIff(sent, init);
      if AlwaysOnTrack(sent, init) {
        LastTracks(sent, ArriveAll(EMPTY, sent, init), PositionAfter(init), k, ArriveAll(EMPTY, sent, arrivals), PositionAfter(arrivals));
      }
    }
  }

  // ----- a run that delivers the wrong message -----

  /** The stuck run, an echo of the hidden 4095, and then everything in order up to `n`. */
  function EchoRun(n: nat): seq<nat>
    requires n >= 4097
  {
    if n == 4097 then STUCK + [4095] else EchoRun(n - 1) + [n - 1]
  }

  /** The receiver that has delivered the stream up to `n`, with a stale 4095. */
  function Stale(sent: seq<Message>, n: nat): Inbox
    requires 4097 <= n <= |sent|
  {
    Inbox(Id(n), sent[..n], {sent[4095]}, {4095})
  }

  /** The longest prefix after the stuck run and the echo, and in between. */
  lemma StuckIsWindowed()
    ensures Windowed(STUCK) && PrefixAfter(STUCK) == Prefix(4097, {})
  {
    var init := UpTo(4094) + [4095] + [4096];
    StuckRunStart(init);
    FrontOfAppend(init, 4094);
    EndOfStuck(PrefixAfter(init).above);
  }

  lemma EndOfStuck(above: set<nat>)
    requires above == {4095, 4096}
    ensures EndOfRun(above, 4095) == 4097
  {
    var e := EndOfRun(above, 4095);
    assert e != 4095 && e != 4096;
    assert e > 4097 ==> 4097 in above;
  }

  lemma {:induction false} EchoRunWindowed(n: nat)
    requires n >= 4097
    ensures Within(EchoRun(n), n) && Windowed(EchoRun(n)) && PrefixAfter(EchoRun(n)) == Prefix(n, {})
  {
    hide Within, Windowed, PrefixAfter, STUCK;
    if n == 4097 {
      StuckIsWindowed();
      StuckWithin();
      WindowedMore(STUCK, Prefix(4097, {}), 4095, 4097);
    } else {
      EchoRunWindowed(n - 1);
      WithinMore(EchoRun(n - 1), n - 1, n);
      WindowedMore(EchoRun(n - 1), Prefix(n - 1, {}), n - 1, n);
    }
  }

  lemma StuckWithin()
    ensures Within(STUCK, 4097)
  {
    var init := UpTo(4094) + [4095] + [4096];
    StuckRunStart(init);
    FrontOfAppend(init, 4094);
  }

  lemma WindowedMore(run: seq<nat>, p: Prefix, k: nat, n: nat)
    requires Within(run, n) && Windowed(run) && PrefixAfter(run) == p && p.above == {} && p.r - 2048 < k <= p.r && k < n
    ensures Within(run + [k], n) && Windowed(run + [k])
    ensures PrefixAfter(run + [k]) == if k == p.r then Prefix(k + 1, {}) else p
  {
    FrontOfAppend(run, k);
    assert EndOfRun({}, p.r + 1) == p.r + 1;
  }

  /** The stuck receiver, and what an echo of the hidden message does to it. */
  lemma StuckInbox(sent: seq<Message>, x: Inbox)
    requires Stream(sent) && |sent| > 4096 && Refines(x, sent, Prefix(4094, {4095, 4096})) && x.recv == sent[..4094]
    ensures Arrive(x, sent[4094]) == Inbox(4095, sent[..4095], {sent[4095], sent[4096]}, {4095, 0})
  {
    var z := x.(next := NextOrder(x.next), recv := x.recv + [sent[4094]]);
    assert Buffered(sent, {4095, 4096}) == {sent[4095], sent[4096]};
    assert Marks({4095, 4096}) == {4095, 0};
    assert Holds(z, sent, 4095, {4095, 4096});
    HeadIsNext(z, sent, 4095, {4095, 4096});
    assert 4096 / MAX_ORDER_ID != 4095 / MAX_ORDER_ID;
    assert sent[..4094] + [sent[4094]] == sent[..4095];
  }

  lemma OneInHeap(m: Message, next: OrderId)
    ensures HeadMatches({m}, next) <==> m.order == next
    ensures m.order == next ==> HeadOf({m}, next) == m
  {
    if m.order == next {
      assert m in {m} && IsMin(m, {m});
    }
  }

  lemma EchoInbox(sent: seq<Message>, x: Inbox)
    requires Stream(sent) && |sent| > 4096
    requires x == Inbox(4095, sent[..4095], {sent[4095], sent[4096]}, {4095, 0})
    ensures Arrive(x, sent[4095]) == Stale(sent, 4097)
  {
    var z := Inbox(0, sent[..4096], x.heap, x.marks);
    assert sent[..4095] + [sent[4095]] == sent[..4096];
    assert UniqueOrders(z.heap) && IsMin(sent[4096], z.heap) && sent[4096].order == 0;
    assert sent[4096] in z.heap && HeadMatches(z.heap, 0) && HeadOf(z.heap, 0) == sent[4096];
    assert sent[..4096] + [sent[4096]] == sent[..4097] && z.heap - {sent[4096]} == {sent[4095]} && z.marks - {0} == {4095};
    OneInHeap(sent[4095], 1);
    assert Drain(z) == Drain(Stale(sent, 4097));
  }

  lemma StaleGoesOn(sent: seq<Message>, n: nat)
    requires Stream(sent) && 4097 <= n < 8190 && n < |sent|
    ensures Arrive(Stale(sent, n), sent[n]) == Stale(sent, n + 1)
  {
    IdNext(n);
    assert sent[..n] + [sent[n]] == sent[..n + 1];
    OneInHeap(sent[4095], Id(n + 1));
  }

  lemma {:induction false} EchoRunStale(sent: seq<Message>, n: nat)
    requires Stream(sent) && 4097 <= n <= 8190 && n <= |sent| && Within(EchoRun(n), |sent|)
    ensures ArriveAll(EMPTY, sent, EchoRun(n)) == Stale(sent, n)
  {
    hide Arrive, Stale, STUCK, Stream;
    if n == 4097 {
      FrontOfAppend(STUCK, 4095);
      AfterStuck(sent);
      EchoInbox(sent, ArriveAll(EMPTY, sent, STUCK));
    } else {
      FrontOfAppend(EchoRun(n - 1), n - 1);
      EchoRunStale(sent, n - 1);
      StaleGoesOn(sent, n - 1);
    }
  }

  lemma AfterStuck(sent: seq<Message>)
    requires Stream(sent) && |sent| > 4096 && Within(STUCK, |sent|)
    ensures ArriveAll(EMPTY, sent, STUCK) == Inbox(4095, sent[..4095], {sent[4095], sent[4096]}, {4095, 0})
  {
    var init := UpTo(4094) + [4095] + [4096];
    StuckRunStart(init);
    FrontOfAppend(init, 4094);
    hide Windowed, NeverObstructed, Within, Arrive, PrefixAfter, UpTo;
    OrderedDelivery(sent, init);
    StuckInbox(sent, ArriveAll(EMPTY, sent, init));
  }

  /** The arrival of 8190 delivers the stale 4095 in the place of 8191. */
  lemma StaleIsDelivered(sent: seq<Message>)
    requires Stream(sent) && |sent| > 8191
    ensures Arrive(Stale(sent, 8190), sent[8190]) == Inbox(0, sent[..8191] + [sent[4095]], {}, {})
    ensures Arrive(Inbox(0, sent[..8191] + [sent[4095]], {}, {}), sent[8191]).recv == sent[..8191] + [sent[4095]]
  {
    IdNext(8190);
    assert sent[..8190] + [sent[8190]] == sent[..8191];
    OneInHeap(sent[4095], Id(8191));
    var z := Inbox(4095, sent[..8191], {sent[4095]}, {4095});
    assert {sent[4095]} - {sent[4095]} == {} && {4095} - {4095} == {};
    assert Drain(z) == Drain(Inbox(0, sent[..8191] + [sent[4095]], {}, {}));
  }

  /** A run within the window after which the receiver delivers ordinal 4095 for
      the second time, in the place of 8191, and then drops 8191 itself. */
  lemma WrongDelivery(sent: seq<Message>, run: seq<nat>)
    requires Stream(sent) && |sent| > 8191 && run == EchoRun(8191)
    ensures Within(run, |sent|) && Windowed(run) && Within(run + [8191], |sent|) && Windowed(run + [8191])
    ensures ArriveAll(EMPTY, sent, run).recv == sent[..8191] + [sent[4095]]
    ensures ArriveAll(EMPTY, sent, run + [8191]).recv == sent[..8191] + [sent[4095]]
    ensures sent[8191] != sent[4095] ==> !(ArriveAll(EMPTY, sent, run).recv <= sent)
  {
    hide Arrive, Stale, Windowed, Within, PrefixAfter;
    EchoRunWindowed(8190);
    EchoRunWindowed(8191);
    EchoRunWindowed(8192);
    WithinMore(EchoRun(8190), 8190, |sent|);
    WithinMore(run, 8191, |sent|);
    WithinMore(run + [8191], 8192, |sent|);
    EchoRunStale(sent, 8190);
    StaleIsDelivered(sent);
    FrontOfAppend(EchoRun(8190), 8190);
    FrontOfAppend(run, 8191);
    assert (sent[..8191] + [sent[4095]])[8191] == sent[4095];
  }
}
