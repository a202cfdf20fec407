/** How queued messages are packed into the space of one packet:
    `send_packet`, `write_messages` and `write_message` of
    src/shared/message_queue.rs, and what the packing guarantees. */
module PacketFill {
  import opened Bytes
  import opened MessageCodec

  /** The space a message is charged for. */
  function Cost(m: Message): nat {
    m.size + MESSAGE_HEADER_BYTES
  }

  function Costs(ms: seq<Message>): nat {
    if ms == [] then 0 else Cost(ms[0]) + Costs(ms[1..])
  }

  /** The messages of one kind, in order. */
  function Project(ms: seq<Message>, kind: MessageKind): seq<Message> {
    if ms == [] then []
    else (if ms[0].kind == kind then [ms[0]] else []) + Project(ms[1..], kind)
  }

  predicate AllOf(ms: seq<Message>, kind: MessageKind) {
    forall m | m in ms :: m.kind == kind
  }

  lemma {:induction false} CostsAppend(a: seq<Message>, b: seq<Message>)
    ensures Costs(a + b) == Costs(a) + Costs(b)
  {
    if a == [] {
      assert a + b == b;
    } else {
      assert (a + b)[1..] == a[1..] + b;
      CostsAppend(a[1..], b);
    }
  }

  lemma {:induction false} ProjectAppend(a: seq<Message>, b: seq<Message>, kind: MessageKind)
    ensures Project(a + b, kind) == Project(a, kind) + Project(b, kind)
  {
    if a == [] {
      assert a + b == b;
    } else {
      assert (a + b)[1..] == a[1..] + b;
      ProjectAppend(a[1..], b, kind);
      Assoc(if a[0].kind == kind then [a[0]] else [], Project(a[1..], kind), Project(b, kind));
    }
  }

  lemma {:induction false} ProjectOwn(ms: seq<Message>, own: MessageKind, kind: MessageKind)
    requires AllOf(ms, own)
    ensures Project(ms, kind) == if own == kind then ms else []
  {
    if ms != [] {
      ProjectOwn(ms[1..], own, kind);
      assert ms == [ms[0]] + ms[1..];
    }
  }

  /** With sizes that match the data, the cost is the space really taken. */
  lemma {:induction false} CostsAreBytes(ms: seq<Message>)
    requires forall m | m in ms :: Framed(m)
    ensures |Serialize(ms)| == Costs(ms)
  {
    if ms != [] {
      assert ms[0] in ms;
      CostsAreBytes(ms[1..]);
    }
  }

  /** Appending more serialised messages to a packet. */
  lemma AppendBytes(packet: seq<Byte>, done: seq<Message>, more: seq<Message>) returns (all: seq<Message>)
    ensures all == done + more
    ensures packet + Serialize(done) + Serialize(more) == packet + Serialize(all)
  {
    all := done + more;
    SerializeAppend(done, more);
    Assoc(packet, Serialize(done), Serialize(more));
  }

  lemma NothingAppended(packet: seq<Byte>)
    ensures packet + Serialize([]) == packet
  {
  }

  // ----- one queue against one budget -----

  /** How many messages from the front of a queue fit into `room`. */
  function Greedy(queue: seq<Message>, room: nat): (n: nat)
    ensures n <= |queue|
  {
    if queue == [] || Cost(queue[0]) > room then 0 else 1 + Greedy(queue[1..], room - Cost(queue[0]))
  }

  /** `Greedy` takes the longest prefix that fits, and no other number does. */
  lemma {:induction false} GreedyIsLongestPrefix(queue: seq<Message>, room: nat, n: nat)
    requires n <= |queue|
    ensures n == Greedy(queue, room) <==>
            Costs(queue[..n]) <= room && (n < |queue| ==> Costs(queue[..n + 1]) > room)
  {
    if queue != [] {
      if n == 0 {
        assert queue[..1] == [queue[0]];
      } else {
        assert queue[..n][1..] == queue[1..][..n - 1];
        if n < |queue| {
          assert queue[..n + 1][1..] == queue[1..][..n];
        }
        if Cost(queue[0]) <= room {
          GreedyIsLongestPrefix(queue[1..], room - Cost(queue[0]), n - 1);
        }
      }
    }
  }

  predicate HeadFits(queue: seq<Message>, room: int) {
    queue != [] && Cost(queue[0]) <= room
  }

  /** How many messages one attempt takes off a queue, and what they cost. */
  function Take(queue: seq<Message>, room: nat): (n: nat)
    ensures n <= |queue|
  {
    if HeadFits(queue, room) then 1 else 0
  }

  function Charge(queue: seq<Message>, room: nat): (c: nat)
    ensures c <= room
  {
    if HeadFits(queue, room) then Cost(queue[0]) else 0
  }

  lemma TakeCosts(queue: seq<Message>, room: nat)
    ensures Costs(queue[..Take(queue, room)]) == Charge(queue, room)
    ensures Greedy(queue, room) == Take(queue, room) + Greedy(queue[Take(queue, room)..], room - Charge(queue, room))
  {
  }

  /** Appends the front message if it fits into what is left of `available`. */
  method WriteMessage(queue: seq<Message>, packet: seq<Byte>, available: nat, written: nat)
    returns (queue': seq<Message>, packet': seq<Byte>, written': nat, wrote: bool)
    requires written <= available
    ensures var n := Take(queue, available - written);
            wrote == (n == 1) && queue' == queue[n..] && packet' == packet + Serialize(queue[..n])
    ensures written' == written + Charge(queue, available - written) <= available
  {
    queue', packet', written', wrote := queue, packet, written, false;
    if |queue| != 0 {
      var required := queue[0].size + MESSAGE_HEADER_BYTES;
      if required <= available - written {
        var message := queue[0];
        queue' := queue[1..];
        packet' := packet + Encode(message);
        assert queue[..1] == [message] && Serialize([message]) == Encode(message) + [];
        written' := written + required;
        wrote := true;
      }
    }
  }

  /** Appends front messages while they fit into `available`. */
  method WriteMessages(queue: seq<Message>, packet: seq<Byte>, available: nat, written: nat)
    returns (queue': seq<Message>, packet': seq<Byte>, written': nat)
    ensures var n := Greedy(queue, available);
            queue' == queue[n..] &&
            packet' == packet + Serialize(queue[..n]) &&
            written' == written + Costs(queue[..n])
  {
    var used := 0;
    queue', packet' := queue, packet;
    ghost var n: nat := 0;
    var more := true;
    while more
      invariant n <= |queue| && queue' == queue[n..]
      invariant used <= available && used == Costs(queue[..n])
      invariant packet' == packet + Serialize(queue[..n])
      invariant n + Greedy(queue', available - used) == Greedy(queue, available)
      invariant !more ==> !HeadFits(queue', available - used)
      decreases |queue'|, more
    {
      ghost var head := queue'[..Take(queue', available - used)];
      CostsAppend(queue[..n], head);
      ghost var all := AppendBytes(packet, queue[..n], head);
      TakeCosts(queue', available - used);
      assert queue[..n] + head == queue[..n + |head|];
      n := n + |head|;
      queue', packet', used, more := WriteMessage(queue', packet', available, used);
    }
    written' := written + used;
  }

  // ----- three queues in turn -----

  /** Messages written and what remains of the three send queues. */
  datatype Split = Split(out: seq<Message>, i: seq<Message>, r: seq<Message>, o: seq<Message>)

  /** One round: what it writes, and the queues and the room it leaves. */
  datatype RoundResult = RoundResult(out: seq<Message>, i: seq<Message>, r: seq<Message>, o: seq<Message>, room: nat)

  /** At most one message of each kind. */
  function OneRound(i: seq<Message>, r: seq<Message>, o: seq<Message>, room: nat): (t: RoundResult)
    ensures |t.out| + |t.i| + |t.r| + |t.o| == |i| + |r| + |o|
  {
    var room1 := room - Charge(i, room);
    var room2 := room1 - Charge(r, room1);
    var a, b, c := Take(i, room), Take(r, room1), Take(o, room2);
    RoundResult(i[..a] + r[..b] + o[..c], i[a..], r[b..], o[c..], room2 - Charge(o, room2))
  }

  /** Rounds until one of them writes nothing. */
  function Fill(i: seq<Message>, r: seq<Message>, o: seq<Message>, room: nat): Split
    decreases |i| + |r| + |o|
  {
    var t := OneRound(i, r, o, room);
    if t.out == [] then Split([], i, r, o)
    else
      var rest := Fill(t.i, t.r, t.o, t.room);
      Split(t.out + rest.out, rest.i, rest.r, rest.o)
  }

  /** Each kind's share of a packet, in percent. */
  datatype Quotas = Quotas(instant: nat, reliable: nat, ordered: nat)

  function Share(available: nat, percent: nat): nat {
    available * percent / 100
  }

  /** What of a share can be used at all: no message is smaller than its header. */
  function Usable(share: nat): nat {
    if share < MESSAGE_HEADER_BYTES then 0 else share
  }

  /** The shares cannot together overdraw the packet. */
  predicate QuotasFit(q: Quotas, available: nat) {
    Usable(Share(available, q.instant)) + Usable(Share(available, q.reliable)) + Usable(Share(available, q.ordered))
    <= available
  }

  /** The messages each queue places within its share. */
  function QuotaPart(queue: seq<Message>, available: nat, percent: nat): seq<Message> {
    queue[..Greedy(queue, Share(available, percent))]
  }

  function QuotaPhase(i: seq<Message>, r: seq<Message>, o: seq<Message>, available: nat, q: Quotas): seq<Message> {
    QuotaPart(i, available, q.instant) + QuotaPart(r, available, q.reliable) + QuotaPart(o, available, q.ordered)
  }

  lemma QuotaPartCost(queue: seq<Message>, available: nat, percent: nat)
    ensures Costs(QuotaPart(queue, available, percent)) <= Usable(Share(available, percent))
  {
    GreedyIsLongestPrefix(queue, Share(available, percent), Greedy(queue, Share(available, percent)));
  }

  lemma QuotaPhaseCost(i: seq<Message>, r: seq<Message>, o: seq<Message>, available: nat, q: Quotas)
    ensures Costs(QuotaPhase(i, r, o, available, q)) ==
            Costs(QuotaPart(i, available, q.instant)) + Costs(QuotaPart(r, available, q.reliable)) +
            Costs(QuotaPart(o, available, q.ordered))
    ensures QuotasFit(q, available) ==> Costs(QuotaPhase(i, r, o, available, q)) <= available
  {
    var a, b, c := QuotaPart(i, available, q.instant), QuotaPart(r, available, q.reliable), QuotaPart(o, available, q.ordered);
    CostsAppend(a + b, c);
    CostsAppend(a, b);
    QuotaPartCost(i, available, q.instant);
    QuotaPartCost(r, available, q.reliable);
    QuotaPartCost(o, available, q.ordered);
  }

  /** The whole packing: shares first, then rounds over the remaining space. */
  function Pack(i: seq<Message>, r: seq<Message>, o: seq<Message>, available: nat, q: Quotas): Split
    requires QuotasFit(q, available)
  {
    var start := QuotaPhase(i, r, o, available, q);
    QuotaPhaseCost(i, r, o, available, q);
    var rest := Fill(i[Greedy(i, Share(available, q.instant))..], r[Greedy(r, Share(available, q.reliable))..],
                     o[Greedy(o, Share(available, q.ordered))..], available - Costs(start));
    Split(start + rest.out, rest.i, rest.r, rest.o)
  }

  // ----- what the packing guarantees -----

  /** Both phases move messages from the front of the queues, in order. */
  predicate FifoSplit(s: Split, i: seq<Message>, r: seq<Message>, o: seq<Message>) {
    Project(s.out, Instant) + s.i == i && Project(s.out, Reliable) + s.r == r && Project(s.out, Ordered) + s.o == o
  }

  /** Nothing more fits. */
  predicate Maximal(s: Split, room: int) {
    !HeadFits(s.i, room) && !HeadFits(s.r, room) && !HeadFits(s.o, room)
  }

  predicate Sorted(i: seq<Message>, r: seq<Message>, o: seq<Message>) {
    AllOf(i, Instant) && AllOf(r, Reliable) && AllOf(o, Ordered)
  }

  lemma ProjectPart(ms: seq<Message>, own: MessageKind, tail: seq<Message>, kind: MessageKind)
    requires AllOf(ms, own)
    ensures Project(ms + tail, kind) == if own == kind then ms + Project(tail, kind) else Project(tail, kind)
  {
    ProjectAppend(ms, tail, kind);
    ProjectOwn(ms, own, kind);
    assert [] + Project(tail, kind) == Project(tail, kind);
  }

  /** One kind's projection, when a prefix of each queue is written kind by kind. */
  lemma ProjectParts(a: seq<Message>, b: seq<Message>, c: seq<Message>, tail: seq<Message>, out: seq<Message>, kind: MessageKind)
    requires Sorted(a, b, c) && out == a + b + c + tail
    ensures Project(out, kind) ==
            (if kind == Instant then a else if kind == Reliable then b else c) + Project(tail, kind)
  {
    assert out == a + (b + (c + tail));
    ProjectPart(a, Instant, b + (c + tail), kind);
    ProjectPart(b, Reliable, c + tail, kind);
    ProjectPart(c, Ordered, tail, kind);
  }

  lemma PrefixRejoins(queue: seq<Message>, n: nat, taken: seq<Message>, left: seq<Message>)
    requires n <= |queue| && taken + left == queue[n..]
    ensures (queue[..n] + taken) + left == queue
  {
    assert (queue[..n] + taken) + left == queue[..n] + queue[n..];
  }

  /** Taking prefixes off sorted queues and going on with a split of the rest is a split. */
  lemma PrefixThenSplit(i: seq<Message>, r: seq<Message>, o: seq<Message>, a: nat, b: nat, c: nat,
                        rest: Split, out: seq<Message>)
    requires Sorted(i, r, o) && a <= |i| && b <= |r| && c <= |o|
    requires FifoSplit(rest, i[a..], r[b..], o[c..])
    requires out == i[..a] + r[..b] + o[..c] + rest.out
    ensures FifoSplit(Split(out, rest.i, rest.r, rest.o), i, r, o)
  {
    ProjectParts(i[..a], r[..b], o[..c], rest.out, out, Instant);
    ProjectParts(i[..a], r[..b], o[..c], rest.out, out, Reliable);
    ProjectParts(i[..a], r[..b], o[..c], rest.out, out, Ordered);
    PrefixRejoins(i, a, Project(rest.out, Instant), rest.i);
    PrefixRejoins(r, b, Project(rest.out, Reliable), rest.r);
    PrefixRejoins(o, c, Project(rest.out, Ordered), rest.o);
  }

  /** What `s` must be for the queues it came from. */
  predicate GoodSplit(s: Split, i: seq<Message>, r: seq<Message>, o: seq<Message>, room: nat) {
    FifoSplit(s, i, r, o) && Costs(s.out) <= room && Maximal(s, room - Costs(s.out))
  }

  /** A good split of the rest, after prefixes that fit, is a good split of the whole. */
  lemma PrefixThenGoodSplit(i: seq<Message>, r: seq<Message>, o: seq<Message>, a: nat, b: nat, c: nat,
                            start: seq<Message>, rest: Split, room: nat)
    requires Sorted(i, r, o) && a <= |i| && b <= |r| && c <= |o|
    requires start == i[..a] + r[..b] + o[..c] && Costs(start) <= room
    requires GoodSplit(rest, i[a..], r[b..], o[c..], room - Costs(start))
    ensures GoodSplit(Split(start + rest.out, rest.i, rest.r, rest.o), i, r, o, room)
  {
    PrefixThenSplit(i, r, o, a, b, c, rest, start + rest.out);
    CostsAppend(start, rest.out);
  }

  /** A round that writes nothing changes nothing, for nothing fits. */
  lemma EmptyRound(i: seq<Message>, r: seq<Message>, o: seq<Message>, room: nat, t: RoundResult)
    requires t == OneRound(i, r, o, room) && t.out == []
    ensures t.i == i && t.r == r && t.o == o && t.room == room
    ensures !HeadFits(i, room) && !HeadFits(r, room) && !HeadFits(o, room)
  {
    assert |t.out| == Take(i, room) + Take(r, room - Charge(i, room)) +
                      Take(o, room - Charge(i, room) - Charge(r, room - Charge(i, room)));
  }

  lemma RoundCosts(i: seq<Message>, r: seq<Message>, o: seq<Message>, room: nat, t: RoundResult)
    requires t == OneRound(i, r, o, room)
    ensures Costs(t.out) == room - t.room
  {
    var room1 := room - Charge(i, room);
    var room2 := room1 - Charge(r, room1);
    var a, b, c := i[..Take(i, room)], r[..Take(r, room1)], o[..Take(o, room2)];
    CostsAppend(a + b, c);
    CostsAppend(a, b);
    TakeCosts(i, room);
    TakeCosts(r, room1);
    TakeCosts(o, room2);
  }

  /** One round, then a good split of the rest. */
  lemma RoundThenGoodSplit(i: seq<Message>, r: seq<Message>, o: seq<Message>, room: nat, t: RoundResult, rest: Split)
    requires Sorted(i, r, o) && t == OneRound(i, r, o, room) && GoodSplit(rest, t.i, t.r, t.o, t.room)
    ensures GoodSplit(Split(t.out + rest.out, rest.i, rest.r, rest.o), i, r, o, room)
  {
    hide GoodSplit, Costs, Take, Charge;
    var room1 := room - Charge(i, room);
    var room2 := room1 - Charge(r, room1);
    RoundCosts(i, r, o, room, t);
    PrefixThenGoodSplit(i, r, o, Take(i, room), Take(r, room1), Take(o, room2), t.out, rest, room);
  }

  lemma SortedRound(i: seq<Message>, r: seq<Message>, o: seq<Message>, room: nat, t: RoundResult)
    requires Sorted(i, r, o) && t == OneRound(i, r, o, room)
    ensures Sorted(t.i, t.r, t.o)
  {
  }

  lemma {:induction false} FillGuarantees(i: seq<Message>, r: seq<Message>, o: seq<Message>, room: nat, s: Split)
    requires Sorted(i, r, o) && s == Fill(i, r, o, room)
    ensures GoodSplit(s, i, r, o, room)
    decreases |i| + |r| + |o|
  {
    var t := OneRound(i, r, o, room);
    if t.out == [] {
      EmptyRound(i, r, o, room, t);
      NothingWritten(s, i, r, o, room);
    } else {
      var rest := Fill(t.i, t.r, t.o, t.room);
      SortedRound(i, r, o, room, t);
      FillGuarantees(t.i, t.r, t.o, t.room, rest);
      RoundThenGoodSplit(i, r, o, room, t, rest);
    }
  }

  lemma NothingWritten(s: Split, i: seq<Message>, r: seq<Message>, o: seq<Message>, room: nat)
    requires s == Split([], i, r, o)
    requires !HeadFits(i, room) && !HeadFits(r, room) && !HeadFits(o, room)
    ensures GoodSplit(s, i, r, o, room)
  {
    assert [] + i == i && [] + r == r && [] + o == o;
  }

  /** A packet takes exactly a prefix of each queue, stays within its space, and
      leaves no queue whose front message would still have fitted. */
  lemma PackGuarantees(i: seq<Message>, r: seq<Message>, o: seq<Message>, available: nat, q: Quotas)
    requires Sorted(i, r, o) && QuotasFit(q, available)
    ensures GoodSplit(Pack(i, r, o, available, q), i, r, o, available)
  {
    var a, b, c := Greedy(i, Share(available, q.instant)), Greedy(r, Share(available, q.reliable)), Greedy(o, Share(available, q.ordered));
    hide Fill, OneRound, GoodSplit, Costs;
    var start := QuotaPhase(i, r, o, available, q);
    QuotaPhaseCost(i, r, o, available, q);
    var rest := Fill(i[a..], r[b..], o[c..], available - Costs(start));
    FillGuarantees(i[a..], r[b..], o[c..], available - Costs(start), rest);
    PrefixThenGoodSplit(i, r, o, a, b, c, start, rest, available);
  }

  /** Every kind gets at least what fits into its own share, whatever the others queue. */
  lemma SharesAreHonoured(i: seq<Message>, r: seq<Message>, o: seq<Message>, available: nat, q: Quotas)
    requires Sorted(i, r, o) && QuotasFit(q, available)
    ensures var out := Pack(i, r, o, available, q).out;
            QuotaPart(i, available, q.instant) <= Project(out, Instant) &&
            QuotaPart(r, available, q.reliable) <= Project(out, Reliable) &&
            QuotaPart(o, available, q.ordered) <= Project(out, Ordered)
  {
    var a, b, c := QuotaPart(i, available, q.instant), QuotaPart(r, available, q.reliable), QuotaPart(o, available, q.ordered);
    var out := Pack(i, r, o, available, q).out;
    var tail := out[|a + b + c|..];
    assert out == a + b + c + tail;
    ProjectParts(a, b, c, tail, out, Instant);
    ProjectParts(a, b, c, tail, out, Reliable);
    ProjectParts(a, b, c, tail, out, Ordered);
  }

  /** If everything queued fits into the packet, everything is sent. */
  lemma AllSentIfAllFits(i: seq<Message>, r: seq<Message>, o: seq<Message>, available: nat, q: Quotas)
    requires Sorted(i, r, o) && QuotasFit(q, available)
    ensures var s := Pack(i, r, o, available, q);
            Costs(i) + Costs(r) + Costs(o) <= available <==>
            s.i == [] && s.r == [] && s.o == []
  {
    var s := Pack(i, r, o, available, q);
    PackGuarantees(i, r, o, available, q);
    CostsAppend(Project(s.out, Instant), s.i);
    CostsAppend(Project(s.out, Reliable), s.r);
    CostsAppend(Project(s.out, Ordered), s.o);
    CostsByKind(s.out);
  }

  lemma {:induction false} CostsByKind(ms: seq<Message>)
    ensures Costs(ms) == Costs(Project(ms, Instant)) + Costs(Project(ms, Reliable)) + Costs(Project(ms, Ordered))
  {
    if ms != [] {
      CostsByKind(ms[1..]);
      forall kind: MessageKind
        ensures Costs(Project(ms, kind)) == (if ms[0].kind == kind then Cost(ms[0]) else 0) + Costs(Project(ms[1..], kind))
      {
        CostsAppend(if ms[0].kind == kind then [ms[0]] else [], Project(ms[1..], kind));
      }
    }
  }

  lemma {:induction false} MemberCosts(ms: seq<Message>, kind: MessageKind, m: Message)
    requires m in Project(ms, kind)
    ensures Cost(m) <= Costs(ms)
  {
    if ms[0].kind != kind || m != ms[0] {
      MemberCosts(ms[1..], kind, m);
    }
  }

  // ----- the loops -----

  /** One message of each kind, as far as they fit. */
  method WriteRound(i: seq<Message>, r: seq<Message>, o: seq<Message>, packet: seq<Byte>, available: nat, written: nat)
    returns (i': seq<Message>, r': seq<Message>, o': seq<Message>, packet': seq<Byte>, written': nat, wrote: bool)
    requires written <= available
    ensures var t := OneRound(i, r, o, available - written);
            && i' == t.i && r' == t.r && o' == t.o && packet' == packet + Serialize(t.out)
            && written' <= available && available - written' == t.room && (wrote <==> t.out != [])
  {
    var wroteI, wroteR, wroteO;
    i', packet', written', wroteI := WriteMessage(i, packet, available, written);
    ghost var a, room1 := i[..Take(i, available - written)], available - written';
    r', packet', written', wroteR := WriteMessage(r, packet', available, written');
    ghost var b, room2 := r[..Take(r, room1)], available - written';
    o', packet', written', wroteO := WriteMessage(o, packet', available, written');
    wrote := wroteI || wroteR || wroteO;
    ghost var ab := AppendBytes(packet, a, b);
    ghost var all := AppendBytes(packet, ab, o[..Take(o, room2)]);
  }

  lemma FillUnfolds(i: seq<Message>, r: seq<Message>, o: seq<Message>, room: nat, t: RoundResult)
    requires t == OneRound(i, r, o, room)
    ensures t.out == [] ==> Fill(i, r, o, room) == Split([], i, r, o)
    ensures t.out != [] ==>
              var rest := Fill(t.i, t.r, t.o, t.room);
              Fill(i, r, o, room) == Split(t.out + rest.out, rest.i, rest.r, rest.o)
  {
  }

  /** A fill that has come this far, one round further. */
  lemma FillStep(done: seq<Message>, i: seq<Message>, r: seq<Message>, o: seq<Message>, room: nat, t: RoundResult, fill: Split, s: Split)
    returns (rest: Split)
    requires t == OneRound(i, r, o, room) && fill == Fill(i, r, o, room)
    requires s == Split(done + fill.out, fill.i, fill.r, fill.o)
    ensures rest == Fill(t.i, t.r, t.o, t.room) && s == Split(done + t.out + rest.out, rest.i, rest.r, rest.o)
    ensures t.out == [] ==> rest == Split([], t.i, t.r, t.o)
  {
    hide Fill, OneRound;
    rest := Fill(t.i, t.r, t.o, t.room);
    FillUnfolds(i, r, o, room, t);
    if t.out == [] {
      EmptyRound(i, r, o, room, t);
      assert done + t.out == done;
    } else {
      Assoc(done, t.out, rest.out);
    }
  }

  /** Rounds of at most one message of each kind until nothing more fits. */
  method FillRounds(i: seq<Message>, r: seq<Message>, o: seq<Message>, packet: seq<Byte>, available: nat, written: nat)
    returns (i': seq<Message>, r': seq<Message>, o': seq<Message>, packet': seq<Byte>)
    requires written <= available
    ensures var s := Fill(i, r, o, available - written);
            i' == s.i && r' == s.r && o' == s.o && packet' == packet + Serialize(s.out)
  {
    hide *;
    NothingAppended(packet);
    i', r', o', packet' := i, r, o, packet;
    var used: nat := written;
    ghost var s := Fill(i, r, o, available - written);
    ghost var done, rest := [], s;
    assert [] + s.out == s.out;
    var more := true;
    while more
      invariant used <= available
      invariant packet' == packet + Serialize(done)
      invariant rest == Fill(i', r', o', available - used)
      invariant s == Split(done + rest.out, rest.i, rest.r, rest.o)
      invariant !more ==> rest == Split([], i', r', o')
      decreases |i'| + |r'| + |o'|, more
    {
      ghost var t := OneRound(i', r', o', available - used);
      rest := FillStep(done, i', r', o', available - used, t, rest, s);
      done := AppendBytes(packet, done, t.out);
      i', r', o', packet', used, more := WriteRound(i', r', o', packet', available, used);
    }
    assert done + [] == done;
  }

  /** The body of `send_packet`: three quotas, then the rounds. */
  method FillPacket(i: seq<Message>, r: seq<Message>, o: seq<Message>, packet: seq<Byte>, available: nat, q: Quotas)
    returns (i': seq<Message>, r': seq<Message>, o': seq<Message>, packet': seq<Byte>)
    requires QuotasFit(q, available)
    ensures var s := Pack(i, r, o, available, q);
            i' == s.i && r' == s.r && o' == s.o && packet' == packet + Serialize(s.out)
  {
    hide Fill, OneRound, Serialize;
    QuotaPhaseCost(i, r, o, available, q);
    var written := 0;
    i', packet', written := WriteMessages(i, packet, Share(available, q.instant), written);
    r', packet', written := WriteMessages(r, packet', Share(available, q.reliable), written);
    o', packet', written := WriteMessages(o, packet', Share(available, q.ordered), written);
    ghost var ab := AppendBytes(packet, QuotaPart(i, available, q.instant), QuotaPart(r, available, q.reliable));
    ghost var start := AppendBytes(packet, ab, QuotaPart(o, available, q.ordered));
    ghost var rest := Fill(i', r', o', available - written);
    i', r', o', packet' := FillRounds(i', r', o', packet', available, written);
    ghost var all := AppendBytes(packet, start, rest.out);
  }

  // ----- when the quotas are safe -----

  /** What `send` makes of payloads of one kind, given to a new queue: ordered
      messages are numbered, all others get the first order id. */
  function Built(kind: MessageKind, datas: seq<seq<Byte>>): (ms: seq<Message>)
    ensures |ms| == |datas| && AllOf(ms, kind)
  {
    if datas == [] then []
    else
      var last := |datas| - 1;
      Built(kind, datas[..last]) +
      [Message(kind, if kind == Ordered then last % MAX_ORDER_ID else 0, |datas[last]| % 0x1_0000, datas[last])]
  }

  /** Payloads that fill a share of at least one header exactly, and one more. */
  function Filling(share: nat): seq<seq<Byte>> {
    if share < MESSAGE_HEADER_BYTES then []
    else if share < 2 * MESSAGE_HEADER_BYTES then [seq(share - MESSAGE_HEADER_BYTES, _ => 0)]
    else Filling(share - MESSAGE_HEADER_BYTES) + [[]]
  }

  lemma BuiltMore(kind: MessageKind, datas: seq<seq<Byte>>, data: seq<Byte>)
    requires |data| < 0x1_0000
    ensures Built(kind, datas + [data])[..|datas|] == Built(kind, datas)
    ensures Costs(Built(kind, datas + [data])) == Costs(Built(kind, datas)) + MESSAGE_HEADER_BYTES + |data|
  {
    var all := datas + [data];
    assert all[..|datas|] == datas;
    var m := Built(kind, all)[|datas|];
    assert Built(kind, all) == Built(kind, datas) + [m] && m.size == |data|;
    CostsAppend(Built(kind, datas), [m]);
    assert Costs([m]) == Cost(m) + Costs([]);
  }

  lemma {:induction false} FillingFills(kind: MessageKind, share: nat)
    ensures Costs(Built(kind, Filling(share))) == Usable(share)
  {
    hide Built;
    if share >= 2 * MESSAGE_HEADER_BYTES {
      FillingFills(kind, share - MESSAGE_HEADER_BYTES);
      BuiltMore(kind, Filling(share - MESSAGE_HEADER_BYTES), []);
    } else if share >= MESSAGE_HEADER_BYTES {
      var data := seq(share - MESSAGE_HEADER_BYTES, _ => 0);
      assert [] + [data] == [data];
      BuiltMore(kind, [], data);
    }
  }

  /** The rounds evaluate `available - *written` for the first queue that is not
      empty, and it goes below zero. */
  predicate Overdraws(i: seq<Message>, r: seq<Message>, o: seq<Message>, available: nat, q: Quotas) {
    Costs(QuotaPhase(i, r, o, available, q)) > available &&
    (Remaining(i, available, q.instant) != [] || Remaining(r, available, q.reliable) != [] || Remaining(o, available, q.ordered) != [])
  }

  /** What the quota phase leaves of a queue. */
  function Remaining(queue: seq<Message>, available: nat, percent: nat): seq<Message> {
    queue[Greedy(queue, Share(available, percent))..]
  }

  /** A queue that fills its share and has one more message. */
  lemma FilledAndOne(kind: MessageKind, available: nat, percent: nat, queue: seq<Message>)
    requires queue == Built(kind, Filling(Share(available, percent)) + [[]])
    ensures Costs(QuotaPart(queue, available, percent)) == Usable(Share(available, percent))
    ensures Remaining(queue, available, percent) != []
  {
    hide Built, Filling, Greedy;
    var share := Share(available, percent);
    var n := |Filling(share)|;
    FillingFills(kind, share);
    BuiltMore(kind, Filling(share), []);
    assert queue[..n + 1] == queue;
    GreedyIsLongestPrefix(queue, share, n);
  }

  /** The rounds never overdraw a packet, whatever the queues hold, exactly when
      the usable shares fit into it. */
  lemma NoOverdraftIffQuotasFit(available: nat, q: Quotas)
    ensures QuotasFit(q, available) <==> forall i, r, o | Sorted(i, r, o) :: !Overdraws(i, r, o, available, q)
  {
    forall i, r, o | Sorted(i, r, o) && QuotasFit(q, available)
      ensures !Overdraws(i, r, o, available, q)
    {
      QuotaPhaseCost(i, r, o, available, q);
    }
    if !QuotasFit(q, available) {
      var i, r, o := FullQueuesOverdraw(available, q);
      assert Sorted(i, r, o) && Overdraws(i, r, o, available, q);
    }
  }

  /** Queues as `send` builds them that overdraw the packet. */
  lemma FullQueuesOverdraw(available: nat, q: Quotas) returns (i: seq<Message>, r: seq<Message>, o: seq<Message>)
    requires !QuotasFit(q, available)
    ensures i == Built(Instant, Filling(Share(available, q.instant)) + [[]])
    ensures r == Built(Reliable, Filling(Share(available, q.reliable)) + [[]])
    ensures o == Built(Ordered, Filling(Share(available, q.ordered)) + [[]])
    ensures Sorted(i, r, o) && Overdraws(i, r, o, available, q)
  {
    hide Costs, Greedy, Built, Filling, Usable, QuotaPart, Remaining, Share;
    i := Built(Instant, Filling(Share(available, q.instant)) + [[]]);
    r := Built(Reliable, Filling(Share(available, q.reliable)) + [[]]);
    o := Built(Ordered, Filling(Share(available, q.ordered)) + [[]]);
    FilledAndOne(Instant, available, q.instant, i);
    FilledAndOne(Reliable, available, q.reliable, r);
    FilledAndOne(Ordered, available, q.ordered, o);
    QuotaPhaseCost(i, r, o, available, q);
  }

  lemma PercentagesSum(available: nat, x: nat, y: nat, z: nat)
    requires x + y + z <= 100
    ensures Share(available, x) + Share(available, y) + Share(available, z) <= available
  {
    var all := available * x + available * y + available * z;
    assert all == available * (x + y + z);
    assert available * (x + y + z) + available * (100 - (x + y + z)) == available * 100;
  }

  /** Percentages are safe for packets of every size exactly when they sum to at most 100. */
  lemma QuotasFitEveryPacket(q: Quotas)
    ensures (forall available: nat :: QuotasFit(q, available)) <==> q.instant + q.reliable + q.ordered <= 100
  {
    if q.instant + q.reliable + q.ordered <= 100 {
      forall available: nat
        ensures QuotasFit(q, available)
      {
        PercentagesSum(available, q.instant, q.reliable, q.ordered);
      }
    } else {
      assert Share(10000, q.instant) == 100 * q.instant;
      assert Share(10000, q.reliable) == 100 * q.reliable;
      assert Share(10000, q.ordered) == 100 * q.ordered;
      assert !QuotasFit(q, 10000);
    }
  }
}
