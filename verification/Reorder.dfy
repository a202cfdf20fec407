/** How the receiver restores the order of `Ordered` messages from twelve-bit
    ids, a min-heap and a duplicate set: `receive_ordered_message` of
    src/shared/message_queue.rs, against the longest received prefix. */
module Reorder {
  import opened MessageCodec

  function NextOrder(order: OrderId): OrderId {
    if order + 1 == MAX_ORDER_ID then 0 else order + 1
  }

  /** `order_is_more_recent`: ahead by at most half the id space. */
  predicate MoreRecent(a: OrderId, b: OrderId) {
    (a > b && a - b <= MAX_ORDER_ID / 2) || (b > a && b - a > MAX_ORDER_ID / 2)
  }

  /** What the receiving half of a queue holds. The heap compares raw order ids. */
  datatype Inbox = Inbox(next: OrderId, recv: seq<Message>, heap: set<Message>, marks: set<OrderId>)

  predicate IsMin(m: Message, heap: set<Message>) {
    m in heap && forall n | n in heap :: m.order <= n.order
  }

  predicate UniqueOrders(heap: set<Message>) {
    forall m, n | m in heap && n in heap && m.order == n.order :: m == n
  }

  /** The heap's minimum is the message the receiver waits for. Order ids in the
      heap are unique (`MessageQueues.ArriveKeepsValid`), so it is determined. */
  predicate HeadMatches(heap: set<Message>, next: OrderId) {
    UniqueOrders(heap) && exists m | m in heap :: IsMin(m, heap) && m.order == next
  }

  function HeadOf(heap: set<Message>, next: OrderId): (m: Message)
    requires HeadMatches(heap, next)
    ensures IsMin(m, heap) && m.order == next
  {
    var m :| m in heap && IsMin(m, heap) && m.order == next;
    m
  }

  /** The loop that moves matching minima from the heap to the receive queue. */
  function Drain(x: Inbox): (y: Inbox)
    ensures x.recv <= y.recv
    decreases |x.heap|
  {
    if HeadMatches(x.heap, x.next) then
      var m := HeadOf(x.heap, x.next);
      Drain(Inbox(NextOrder(x.next), x.recv + [m], x.heap - {m}, x.marks - {x.next}))
    else x
  }

  function Arrive(x: Inbox, m: Message): (y: Inbox)
    ensures x.recv <= y.recv
  {
    if m.order == x.next then
      Drain(x.(next := NextOrder(x.next), recv := x.recv + [m]))
    else if MoreRecent(m.order, x.next) && m.order !in x.marks then
      x.(heap := x.heap + {m}, marks := x.marks + {m.order})
    else x
  }

  // ----- ids and ordinals -----

  /** The id the sender gives to its `k`-th ordered message. */
  function Id(k: nat): OrderId {
    k % MAX_ORDER_ID
  }

  lemma IdNext(k: nat)
    ensures NextOrder(Id(k)) == Id(k + 1)
  {
  }

  lemma IdDistinct(j: nat, k: nat)
    requires j != k && -MAX_ORDER_ID < j - k < MAX_ORDER_ID
    ensures Id(j) != Id(k)
  {
  }

  /** Within half the id space the wrapping comparison is the true one. */
  lemma MoreRecentIsLater(k: nat, r: nat)
    requires -2048 < k - r < 2048
    ensures MoreRecent(Id(k), Id(r)) <==> k > r
  {
  }

  /** Raw ids order two ordinals correctly exactly within one block of 4096. */
  lemma RawOrderWithinBlock(k: nat, r: nat)
    requires r < k < r + MAX_ORDER_ID
    ensures Id(r) < Id(k) <==> k / MAX_ORDER_ID == r / MAX_ORDER_ID
  {
    var b := r / MAX_ORDER_ID;
    assert r == MAX_ORDER_ID * b + Id(r) && k == MAX_ORDER_ID * (k / MAX_ORDER_ID) + Id(k);
    assert b <= k / MAX_ORDER_ID <= b + 1;
  }

  /** The ordered messages of one sender, in the order they were given to it. */
  ghost predicate Stream(sent: seq<Message>) {
    forall k: nat | k < |sent| :: sent[k].kind == Ordered && sent[k].order == Id(k)
  }

  // ----- the specification: the longest received prefix -----

  /** The first ordinal from `r` on that is not in `above`. */
  function EndOfRun(above: set<nat>, r: nat): (e: nat)
    ensures r <= e && e !in above
    ensures forall k | r <= k < e :: k in above
    decreases |above|
  {
    if r in above then
      var e := EndOfRun(above - {r}, r + 1);
      assert forall k {:trigger k in above} | r <= k < e :: k == r || k in above - {r};
      e
    else r
  }

  function Beyond(s: set<nat>, r: nat): set<nat> {
    set k | k in s && k > r
  }

  /** Everything below `r` was received, `r` was not, and `above` is what was received beyond it. */
  datatype Prefix = Prefix(r: nat, above: set<nat>)

  function Receive(p: Prefix, k: nat): Prefix {
    if k == p.r then
      var e := EndOfRun(p.above, p.r + 1);
      Prefix(e, Beyond(p.above, e))
    else if k > p.r then Prefix(p.r, p.above + {k})
    else p
  }

  /** `p` describes exactly the received ordinals `got`. */
  ghost predicate Describes(p: Prefix, got: set<nat>) {
    p.r !in got && (forall k: nat | k < p.r :: k in got) && p.above == Beyond(got, p.r)
  }

  /** The specification follows the set of received ordinals, and nothing else can. */
  lemma ReceiveDescribes(p: Prefix, got: set<nat>, k: nat)
    requires Describes(p, got)
    ensures Describes(Receive(p, k), got + {k})
  {
    if k < p.r {
      assert got + {k} == got;
    } else if k == p.r {
      var e := EndOfRun(p.above, p.r + 1);
      forall j: nat | j < e
        ensures j in got + {k}
      {
        assert j < p.r || j == p.r || j in p.above;
      }
    }
  }

  lemma DescribesUnique(p: Prefix, q: Prefix, got: set<nat>)
    requires Describes(p, got) && Describes(q, got)
    ensures p == q
  {
    assert !(p.r < q.r) && !(q.r < p.r);
  }

  // ----- the refinement -----

  ghost function Buffered(sent: seq<Message>, above: set<nat>): set<Message>
    requires forall k | k in above :: k < |sent|
  {
    set k | k in above :: sent[k]
  }

  function Marks(above: set<nat>): set<OrderId> {
    set k | k in above :: Id(k)
  }

  /** The heap and the marks are those of the ordinals in `above`, of which
      `next` may be one, and all of which lie within a window of ids. */
  ghost predicate Holds(x: Inbox, sent: seq<Message>, next: nat, above: set<nat>) {
    && Stream(sent)
    && (forall k | k in above :: next <= k < |sent| && k < next + 2048)
    && x.next == Id(next) && x.heap == Buffered(sent, above) && x.marks == Marks(above)
  }

  ghost predicate Refines(x: Inbox, sent: seq<Message>, p: Prefix) {
    p.r !in p.above && p.r <= |sent| && Holds(x, sent, p.r, p.above)
  }

  /** No buffered ordinal of a later block hides the one that is waited for. */
  predicate Unobstructed(above: set<nat>, next: nat) {
    next in above ==> forall j | j in above :: j / MAX_ORDER_ID == next / MAX_ORDER_ID
  }

  lemma BufferedUnique(sent: seq<Message>, next: nat, above: set<nat>)
    requires Stream(sent) && forall k | k in above :: next <= k < |sent| && k < next + 2048
    ensures UniqueOrders(Buffered(sent, above))
  {
    forall j, k | j in above && k in above && sent[j].order == sent[k].order
      ensures j == k
    {
      if j != k { IdDistinct(j, k); }
    }
  }

  lemma HeadIsNext(x: Inbox, sent: seq<Message>, next: nat, above: set<nat>)
    requires Holds(x, sent, next, above)
    ensures HeadMatches(x.heap, x.next) <==> next in above && Unobstructed(above, next)
    ensures HeadMatches(x.heap, x.next) ==> HeadOf(x.heap, x.next) == sent[next]
  {
    BufferedUnique(sent, next, above);
    forall j | j in above && j != next
      ensures sent[j].order != x.next
      ensures next in above ==> (x.next < sent[j].order <==> j / MAX_ORDER_ID == next / MAX_ORDER_ID)
    {
      IdDistinct(j, next);
      RawOrderWithinBlock(j, next);
    }
    if next in above {
      assert sent[next] in x.heap && sent[next].order == x.next;
      if Unobstructed(above, next) {
        assert IsMin(sent[next], x.heap);
      } else {
        var j :| j in above && j / MAX_ORDER_ID != next / MAX_ORDER_ID;
        assert sent[j] in x.heap;
      }
    }
  }

  lemma HoldsAfterPop(x: Inbox, sent: seq<Message>, next: nat, above: set<nat>, y: Inbox)
    requires Holds(x, sent, next, above) && next in above
    requires y.next == NextOrder(x.next) && y.heap == x.heap - {sent[next]} && y.marks == x.marks - {x.next}
    ensures Holds(y, sent, next + 1, above - {next})
  {
    IdNext(next);
    forall j | j in above && j != next
      ensures Id(j) != Id(next)
    {
      IdDistinct(j, next);
    }
    assert y.heap == Buffered(sent, above - {next});
    assert y.marks == Marks(above - {next});
  }

  /** One iteration of the draining loop. */
  lemma Popped(x: Inbox, sent: seq<Message>, next: nat, above: set<nat>) returns (z: Inbox)
    requires Holds(x, sent, next, above) && next in above && Unobstructed(above, next)
    ensures Holds(z, sent, next + 1, above - {next})
    ensures z.recv == x.recv + [sent[next]] && |z.heap| < |x.heap| && Drain(x) == Drain(z)
  {
    HeadIsNext(x, sent, next, above);
    var m := HeadOf(x.heap, x.next);
    z := Inbox(NextOrder(x.next), x.recv + [m], x.heap - {m}, x.marks - {x.next});
    HoldsAfterPop(x, sent, next, above, z);
  }

  /** Draining delivers the whole run that starts at `next`, if nothing is in the way. */
  lemma {:induction false} DrainDeliversRun(x: Inbox, y: Inbox, sent: seq<Message>, next: nat, above: set<nat>, e: nat)
    requires Holds(x, sent, next, above) && next <= |sent| && Unobstructed(above, next)
    requires y == Drain(x) && e == EndOfRun(above, next)
    ensures e <= |sent| && y.recv == x.recv + sent[next..e]
    ensures Refines(y, sent, Prefix(e, Beyond(above, e)))
    decreases |x.heap|
  {
    if next in above {
      var z := Popped(x, sent, next, above);
      DrainDeliversRun(z, y, sent, next + 1, above - {next}, e);
      assert Beyond(above - {next}, e) == Beyond(above, e);
      SliceFirst(sent, next, e, x.recv);
    } else {
      HeadIsNext(x, sent, next, above);
      assert Beyond(above, next) == above;
      assert x.recv + sent[next..next] == x.recv;
    }
  }

  lemma SliceFirst(sent: seq<Message>, from: nat, to: nat, before: seq<Message>)
    requires from < to <= |sent|
    ensures before + [sent[from]] + sent[from + 1..to] == before + sent[from..to]
  {
  }

  lemma RunInBounds(above: set<nat>, r: nat, n: nat)
    requires forall k | k in above :: k < n
    ensures r <= n ==> EndOfRun(above, r) <= n
  {
    assert EndOfRun(above, r) > r ==> EndOfRun(above, r) - 1 in above;
  }

  /** The arrival of the expected ordinal delivers the run it completes exactly
      when that run is not obstructed. */
  lemma ExpectedArrival(x: Inbox, y: Inbox, sent: seq<Message>, p: Prefix, q: Prefix)
    requires Refines(x, sent, p) && p.r < |sent|
    requires y == Arrive(x, sent[p.r]) && q == Receive(p, p.r)
    ensures p.r < q.r <= |sent|
    ensures Refines(y, sent, q) && y.recv == x.recv + sent[p.r..q.r] <==> Unobstructed(p.above, p.r + 1)
  {
    var k := p.r;
    var z := x.(next := NextOrder(x.next), recv := x.recv + [sent[k]]);
    var e := EndOfRun(p.above, k + 1);
    IdNext(k);
    RunInBounds(p.above, k + 1, |sent|);
    assert Holds(z, sent, k + 1, p.above);
    if Unobstructed(p.above, k + 1) {
      DrainDeliversRun(z, y, sent, k + 1, p.above, e);
      SliceFirst(sent, k, e, x.recv);
    } else {
      HeadIsNext(z, sent, k + 1, p.above);
      assert y == z;
      assert e > k + 1;
    }
  }

  /** The arrival of ordinal `k` within the window keeps the refinement and
      delivers exactly the messages the longest prefix gained. It does so if
      and only if the arrival does not uncover an obstructed run. */
  lemma ArriveRefines(x: Inbox, y: Inbox, sent: seq<Message>, p: Prefix, q: Prefix, k: nat)
    requires Refines(x, sent, p) && k < |sent| && -2048 < k - p.r < 2048
    requires y == Arrive(x, sent[k]) && q == Receive(p, k)
    ensures p.r <= q.r <= |sent|
    ensures Refines(y, sent, q) && y.recv == x.recv + sent[p.r..q.r]
            <==> (k == p.r ==> Unobstructed(p.above, p.r + 1))
  {
    assert x.recv + sent[p.r..p.r] == x.recv;
    if k == p.r {
      ExpectedArrival(x, y, sent, p, q);
    } else if k > p.r {
      KeepOrDrop(x, sent, p, k);
    } else {
      IdDistinct(k, p.r);
      MoreRecentIsLater(k, p.r);
    }
  }

  /** A later ordinal is buffered, once. */
  lemma KeepOrDrop(x: Inbox, sent: seq<Message>, p: Prefix, k: nat)
    requires Refines(x, sent, p) && p.r < k < |sent| && k < p.r + 2048
    ensures Arrive(x, sent[k]).recv == x.recv && Refines(Arrive(x, sent[k]), sent, Receive(p, k))
  {
    IdDistinct(k, p.r);
    MoreRecentIsLater(k, p.r);
    forall j | j in p.above && Id(j) == Id(k)
      ensures j == k
    {
      if j != k { IdDistinct(j, k); }
    }
    if k in p.above {
      assert p.above + {k} == p.above;
    } else {
      assert Id(k) !in x.marks;
      assert Buffered(sent, p.above + {k}) == x.heap + {sent[k]};
      assert Marks(p.above + {k}) == x.marks + {Id(k)};
    }
  }

  // ----- whole runs -----

  // Runs are sequences of arriving ordinals; predicates on them look at every
  // arrival in the situation the earlier ones left behind.

  function Front<T>(s: seq<T>): seq<T>
    requires s != []
  {
    s[..|s| - 1]
  }

  function Last<T>(s: seq<T>): T
    requires s != []
  {
    s[|s| - 1]
  }

  ghost predicate Within(arrivals: seq<nat>, n: nat) {
    arrivals == [] || (Within(Front(arrivals), n) && Last(arrivals) < n)
  }

  ghost function ArriveAll(x: Inbox, sent: seq<Message>, arrivals: seq<nat>): Inbox
    requires Within(arrivals, |sent|)
  {
    if arrivals == [] then x else Arrive(ArriveAll(x, sent, Front(arrivals)), sent[Last(arrivals)])
  }

  /** The longest prefix after a run of arrivals. */
  function PrefixAfter(arrivals: seq<nat>): Prefix {
    if arrivals == [] then Prefix(0, {}) else Receive(PrefixAfter(Front(arrivals)), Last(arrivals))
  }

  function SetOf(arrivals: seq<nat>): set<nat> {
    if arrivals == [] then {} else SetOf(Front(arrivals)) + {Last(arrivals)}
  }

  lemma {:induction false} PrefixAfterDescribes(arrivals: seq<nat>)
    ensures Describes(PrefixAfter(arrivals), SetOf(arrivals))
  {
    if arrivals != [] {
      PrefixAfterDescribes(Front(arrivals));
      ReceiveDescribes(PrefixAfter(Front(arrivals)), SetOf(Front(arrivals)), Last(arrivals));
    }
  }

  predicate WindowedArrival(p: Prefix, k: nat) {
    -2048 < k - p.r < 2048
  }

  /** The arrival does not fill the gap below a buffered run that a later block obstructs. */
  predicate ClearArrival(p: Prefix, k: nat) {
    k == p.r ==> Unobstructed(p.above, p.r + 1)
  }

  /** Every arrival is within 2047 ordinals of the one expected at that moment. */
  predicate Windowed(arrivals: seq<nat>) {
    arrivals == [] || (Windowed(Front(arrivals)) && WindowedArrival(PrefixAfter(Front(arrivals)), Last(arrivals)))
  }

  predicate NeverObstructed(arrivals: seq<nat>) {
    arrivals == [] || (NeverObstructed(Front(arrivals)) && ClearArrival(PrefixAfter(Front(arrivals)), Last(arrivals)))
  }

  const EMPTY := Inbox(0, [], {}, {})

  /** What the receiver has to look like after `arrivals`: the delivered messages
      are ordinals 0..r-1 once each and in order, where r is the least ordinal
      never received, and the heap holds the received ordinals above r. */
  ghost predicate InOrder(sent: seq<Message>, arrivals: seq<nat>)
    requires Within(arrivals, |sent|)
  {
    var x, p := ArriveAll(EMPTY, sent, arrivals), PrefixAfter(arrivals);
    Refines(x, sent, p) && x.recv == sent[..p.r]
  }

  ghost predicate AlwaysInOrder(sent: seq<Message>, arrivals: seq<nat>)
    requires Within(arrivals, |sent|)
  {
    InOrder(sent, arrivals) && (arrivals == [] || AlwaysInOrder(sent, Front(arrivals)))
  }

  /** Over any windowed run, across any number of id wraps, the receiver holds
      the longest prefix after every single arrival if and only if no arrival
      uncovers an obstructed run. */
  lemma {:induction false} OrderedDelivery(sent: seq<Message>, arrivals: seq<nat>)
    requires Stream(sent) && Within(arrivals, |sent|) && Windowed(arrivals)
    ensures AlwaysInOrder(sent, arrivals) <==> NeverObstructed(arrivals)
  {
    if arrivals == [] {
      assert Buffered(sent, {}) == {};
    } else {
      OrderedDelivery(sent, Front(arrivals));
      if AlwaysInOrder(sent, Front(arrivals)) {
        LastArrival(sent, arrivals);
      }
    }
  }

  lemma PrefixGrows(sent: seq<Message>, r: nat, q: nat, recv: seq<Message>)
    requires r <= q <= |sent|
    ensures recv == sent[..r] + sent[r..q] <==> recv == sent[..q]
  {
    assert sent[..r] + sent[r..q] == sent[..q];
  }

  lemma LastStep(sent: seq<Message>, x: Inbox, p: Prefix, k: nat, y: Inbox, q: Prefix)
    requires Refines(x, sent, p) && x.recv == sent[..p.r] && k < |sent| && WindowedArrival(p, k)
    requires y == Arrive(x, sent[k]) && q == Receive(p, k)
    ensures q.r <= |sent| && (Refines(y, sent, q) && y.recv == sent[..q.r] <==> ClearArrival(p, k))
  {
    hide Receive, Arrive, Refines, Unobstructed;
    ArriveRefines(x, y, sent, p, q, k);
    PrefixGrows(sent, p.r, q.r, y.recv);
  }

  lemma LastArrival(sent: seq<Message>, arrivals: seq<nat>)
    requires Stream(sent) && arrivals != [] && Within(arrivals, |sent|)
    requires InOrder(sent, Front(arrivals)) && WindowedArrival(PrefixAfter(Front(arrivals)), Last(arrivals))
    ensures InOrder(sent, arrivals) <==> ClearArrival(PrefixAfter(Front(arrivals)), Last(arrivals))
  {
    hide Receive, Arrive, Refines, ClearArrival, WindowedArrival, Stream;
    LastStep(sent, ArriveAll(EMPTY, sent, Front(arrivals)), PrefixAfter(Front(arrivals)), Last(arrivals),
             ArriveAll(EMPTY, sent, arrivals), PrefixAfter(arrivals));
  }

  // ----- the run that gets stuck -----

  function UpTo(n: nat): (s: seq<nat>)
    ensures |s| == n
  {
    if n == 0 then [] else UpTo(n - 1) + [n - 1]
  }

  lemma {:induction false} WithinMore(run: seq<nat>, n: nat, m: nat)
    requires Within(run, n) && n <= m
    ensures Within(run, m)
  {
    if run != [] {
      WithinMore(Front(run), n, m);
    }
  }

  lemma {:induction false} InOrderRun(n: nat)
    ensures Within(UpTo(n), n) && Windowed(UpTo(n)) && NeverObstructed(UpTo(n)) && PrefixAfter(UpTo(n)) == Prefix(n, {})
  {
    if n > 0 {
      InOrderRun(n - 1);
      WithinMore(UpTo(n - 1), n - 1, n);
      FrontOfAppend(UpTo(n - 1), n - 1);
    }
  }

  lemma FrontOfAppend<T>(s: seq<T>, x: T)
    ensures Front(s + [x]) == s && Last(s + [x]) == x
  {
  }

  const STUCK := UpTo(4094) + [4095] + [4096] + [4094]

  /** A run extended by a later ordinal within the window. */
  lemma LaterArrival(run: seq<nat>, p: Prefix, k: nat, n: nat)
    requires Within(run, n) && Windowed(run) && NeverObstructed(run) && PrefixAfter(run) == p
    requires p.r < k < p.r + 2048 && k < n
    ensures Within(run + [k], n) && Windowed(run + [k]) && NeverObstructed(run + [k])
    ensures PrefixAfter(run + [k]) == Prefix(p.r, p.above + {k})
  {
    FrontOfAppend(run, k);
  }

  lemma StuckRunStart(run: seq<nat>)
    requires run == UpTo(4094) + [4095] + [4096]
    ensures Within(run, 4097) && Windowed(run) && NeverObstructed(run)
    ensures PrefixAfter(run) == Prefix(4094, {4095, 4096})
  {
    hide Within, Windowed, NeverObstructed, PrefixAfter, UpTo;
    InOrderRun(4094);
    WithinMore(UpTo(4094), 4094, 4097);
    LaterArrival(UpTo(4094), Prefix(4094, {}), 4095, 4097);
    assert {} + {4095} == {4095};
    LaterArrival(UpTo(4094) + [4095], Prefix(4094, {4095}), 4096, 4097);
    assert {4095} + {4096} == {4095, 4096};
  }

  /** The longest prefix is not always delivered: with 4095 and 4096 (raw ids
      4095 and 0) both buffered, the arrival of 4094 delivers 4094 alone. */
  lemma StuckRun(sent: seq<Message>, run: seq<nat>)
    requires Stream(sent) && |sent| > 4096 && run == STUCK
    ensures Within(run, |sent|) && Windowed(run) && !NeverObstructed(run)
    ensures PrefixAfter(run).r == 4097
    ensures ArriveAll(EMPTY, sent, run).recv == sent[..4095]
  {
    var init := UpTo(4094) + [4095] + [4096];
    StuckRunStart(init);
    WithinMore(init, 4097, |sent|);
    FrontOfAppend(init, 4094);
    OrderedDelivery(sent, init);
    StuckArrival(sent, ArriveAll(EMPTY, sent, init), PrefixAfter(init));
  }

  lemma StuckArrival(sent: seq<Message>, x: Inbox, p: Prefix)
    requires Stream(sent) && |sent| > 4096
    requires p == Prefix(4094, {4095, 4096}) && Refines(x, sent, p) && x.recv == sent[..4094]
    ensures Arrive(x, sent[4094]).recv == sent[..4095]
    ensures Receive(p, 4094).r == 4097
    ensures !Unobstructed(p.above, 4095)
  {
    var z := x.(next := NextOrder(x.next), recv := x.recv + [sent[4094]]);
    assert Holds(z, sent, 4095, p.above);
    assert 4096 in p.above && 4096 / MAX_ORDER_ID != 4095 / MAX_ORDER_ID;
    HeadIsNext(z, sent, 4095, p.above);
    assert sent[..4094] + [sent[4094]] == sent[..4095];
    assert EndOfRun(p.above, 4095) == 4097 by {
      var e := EndOfRun(p.above, 4095);
      assert e != 4095 && e != 4096;
      assert e > 4097 ==> 4097 in p.above;
    }
  }
}
