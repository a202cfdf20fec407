/** The message queue of src/shared/message_queue.rs: three send queues, the
    receive queue, and the state of ordered delivery. `Queue` is its value; the
    class updates it in place and is proved against the functions on values. */
module MessageQueues {
  import opened Bytes
  import opened MessageCodec
  import opened PacketFill
  import opened Reorder

  datatype Queue = Queue(localOrder: OrderId, i: seq<Message>, r: seq<Message>, o: seq<Message>, inbox: Inbox)

  const EMPTY_QUEUE := Queue(0, [], [], [], EMPTY)

  // ----- the operations on values -----

  /** The message `send` makes: the size is the length cut to sixteen bits. */
  function MakeMessage(kind: MessageKind, order: OrderId, data: seq<Byte>): Message {
    Message(kind, order, |data| % 0x1_0000, data)
  }

  function Enqueue(q: Queue, kind: MessageKind, data: seq<Byte>): Queue {
    var m := MakeMessage(kind, q.localOrder, data);
    match kind
    case Instant => q.(i := q.i + [m])
    case Reliable => q.(r := q.r + [m])
    case Ordered => q.(o := q.o + [m], localOrder := NextOrder(q.localOrder))
  }

  /** A message given to `send` goes to the end of its own queue, with its data and
      with the length cut to sixteen bits; an ordered one takes the next order id. */
  lemma SendAppends(q: Queue, kind: MessageKind, data: seq<Byte>, m: Message, t: Queue)
    requires t == Enqueue(q, kind, data) && m == Message(kind, q.localOrder, |data| % 0x1_0000, data)
    ensures t.i == q.i + (if kind == Instant then [m] else []) && t.r == q.r + (if kind == Reliable then [m] else [])
    ensures t.o == q.o + (if kind == Ordered then [m] else []) && t.inbox == q.inbox
    ensures t.localOrder == if kind == Ordered then (q.localOrder + 1) % 4096 else q.localOrder
  {
    assert q.i + [] == q.i && q.r + [] == q.r && q.o + [] == q.o;
  }

  function PackQueue(q: Queue, available: nat, quotas: Quotas): Split
    requires QuotasFit(quotas, available)
  {
    Pack(q.i, q.r, q.o, available, quotas)
  }

  function AfterPack(q: Queue, s: Split): Queue {
    q.(i := s.i, r := s.r, o := s.o)
  }

  function Deliver(x: Inbox, m: Message): Inbox {
    if m.kind == Ordered then Arrive(x, m) else x.(recv := x.recv + [m])
  }

  function DeliverAll(x: Inbox, ms: seq<Message>): Inbox
    decreases |ms|
  {
    if ms == [] then x else DeliverAll(Deliver(x, ms[0]), ms[1..])
  }

  function Requeue(q: Queue, ms: seq<Message>): Queue
    decreases |ms|
  {
    if ms == [] then q
    else
      var m := ms[0];
      Requeue(match m.kind
              case Instant => q
              case Reliable => q.(r := [m] + q.r)
              case Ordered => q.(o := [m] + q.o), ms[1..])
  }

  // ----- validity -----

  predicate InboxValid(x: Inbox) {
    UniqueOrders(x.heap) && x.marks == set m | m in x.heap :: m.order
  }

  predicate Valid(q: Queue) {
    Sorted(q.i, q.r, q.o) && InboxValid(q.inbox)
  }

  lemma {:induction false} DrainKeepsValid(x: Inbox)
    requires InboxValid(x)
    ensures InboxValid(Drain(x))
    decreases |x.heap|
  {
    if HeadMatches(x.heap, x.next) {
      var m := HeadOf(x.heap, x.next);
      DrainKeepsValid(Inbox(NextOrder(x.next), x.recv + [m], x.heap - {m}, x.marks - {x.next}));
    }
  }

  /** The duplicate marks are at all times exactly the order ids in the heap. */
  lemma ArriveKeepsValid(x: Inbox, m: Message)
    requires InboxValid(x)
    ensures InboxValid(Arrive(x, m))
  {
    if m.order == x.next {
      DrainKeepsValid(x.(next := NextOrder(x.next), recv := x.recv + [m]));
    } else if MoreRecent(m.order, x.next) && m.order !in x.marks {
      assert forall n | n in x.heap :: n.order in x.marks;
    }
  }

  lemma {:induction false} DeliverAllKeepsValid(x: Inbox, ms: seq<Message>)
    requires InboxValid(x)
    ensures InboxValid(DeliverAll(x, ms))
    decreases |ms|
  {
    if ms != [] {
      ArriveKeepsValid(x, ms[0]);
      DeliverAllKeepsValid(Deliver(x, ms[0]), ms[1..]);
    }
  }

  /** One iteration of the loop over the heap. */
  lemma DrainStep(x: Inbox, m: Message) returns (y: Inbox)
    requires InboxValid(x) && IsMin(m, x.heap) && m.order == x.next
    ensures y == Inbox(NextOrder(x.next), x.recv + [m], x.heap - {m}, x.marks - {x.next})
    ensures InboxValid(y) && Drain(x) == Drain(y)
  {
    assert HeadMatches(x.heap, x.next) && HeadOf(x.heap, x.next) == m;
    y := Inbox(NextOrder(x.next), x.recv + [m], x.heap - {m}, x.marks - {x.next});
  }

  /** Payloads of one kind given to `send` one after the other. */
  function SendAll(q: Queue, kind: MessageKind, datas: seq<seq<Byte>>): Queue {
    if datas == [] then q else Enqueue(SendAll(q, kind, datas[..|datas| - 1]), kind, datas[|datas| - 1])
  }

  /** A queue with more messages of one kind, `n` of them given so far. */
  function Extended(q: Queue, kind: MessageKind, ms: seq<Message>, n: nat): Queue {
    match kind
    case Instant => q.(i := q.i + ms)
    case Reliable => q.(r := q.r + ms)
    case Ordered => q.(o := q.o + ms, localOrder := n % MAX_ORDER_ID)
  }

  lemma ExtendedByNone(q: Queue, kind: MessageKind)
    requires q.localOrder == 0
    ensures Extended(q, kind, [], 0) == q
  {
    assert q.i + [] == q.i && q.r + [] == q.r && q.o + [] == q.o;
  }

  lemma ExtendedByOne(q: Queue, kind: MessageKind, ms: seq<Message>, n: nat, data: seq<Byte>, m: Message)
    requires q.localOrder == 0 && m == MakeMessage(kind, if kind == Ordered then n % MAX_ORDER_ID else 0, data)
    ensures Enqueue(Extended(q, kind, ms, n), kind, data) == Extended(q, kind, ms + [m], n + 1)
  {
    Assoc(if kind == Instant then q.i else if kind == Reliable then q.r else q.o, ms, [m]);
  }

  lemma BuiltLast(kind: MessageKind, datas: seq<seq<Byte>>, m: Message)
    requires datas != [] && m == Built(kind, datas)[|datas| - 1]
    ensures
      var last := |datas| - 1;
      Built(kind, datas) == Built(kind, datas[..last]) + [m] &&
      m == MakeMessage(kind, if kind == Ordered then last % MAX_ORDER_ID else 0, datas[last])
  {
  }

  /** What a queue without ordered messages makes of them. */
  lemma {:induction false} SendAllBuilds(q: Queue, kind: MessageKind, datas: seq<seq<Byte>>)
    requires q.localOrder == 0
    ensures SendAll(q, kind, datas) == Extended(q, kind, Built(kind, datas), |datas|)
  {
    if datas == [] {
      ExtendedByNone(q, kind);
    } else {
      hide Built, Extended, Enqueue;
      var last := |datas| - 1;
      var m := Built(kind, datas)[last];
      SendAllBuilds(q, kind, datas[..last]);
      BuiltLast(kind, datas, m);
      ExtendedByOne(q, kind, Built(kind, datas[..last]), last, datas[last], m);
    }
  }

  /** Quotas that do not fit are overdrawn by some calls of `send` on a new queue. */
  lemma SendsOverdraw(available: nat, quotas: Quotas)
    returns (instants: seq<seq<Byte>>, reliables: seq<seq<Byte>>, ordereds: seq<seq<Byte>>)
    requires !QuotasFit(quotas, available)
    ensures
      var q := SendAll(SendAll(SendAll(EMPTY_QUEUE, Instant, instants), Reliable, reliables), Ordered, ordereds);
      Overdraws(q.i, q.r, q.o, available, quotas)
  {
    hide Overdraws, Filling, Built, SendAll, Share;
    instants, reliables := Filling(Share(available, quotas.instant)) + [[]], Filling(Share(available, quotas.reliable)) + [[]];
    ordereds := Filling(Share(available, quotas.ordered)) + [[]];
    var i, r, o := FullQueuesOverdraw(available, quotas);
    var q1 := SendAll(EMPTY_QUEUE, Instant, instants);
    var q2 := SendAll(q1, Reliable, reliables);
    SendAllBuilds(EMPTY_QUEUE, Instant, instants);
    SendAllBuilds(q1, Reliable, reliables);
    SendAllBuilds(q2, Ordered, ordereds);
    assert [] + i == i && [] + r == r && [] + o == o;
  }

  function Reversed<T>(s: seq<T>): seq<T> {
    if s == [] then [] else Reversed(s[1..]) + [s[0]]
  }

  /** A lost packet goes back in front of the send queues, its messages in
      reverse; its instant messages are dropped. */
  lemma {:induction false} RequeueReverses(q: Queue, ms: seq<Message>)
    ensures Requeue(q, ms) == q.(r := Reversed(Project(ms, Reliable)) + q.r, o := Reversed(Project(ms, Ordered)) + q.o)
    decreases |ms|
  {
    if ms == [] {
      assert [] + q.r == q.r && [] + q.o == q.o;
    } else {
      var m := ms[0];
      forall kind: MessageKind, tail: seq<Message>
        ensures Reversed(Project(ms, kind)) + tail ==
                Reversed(Project(ms[1..], kind)) + ((if m.kind == kind then [m] else []) + tail)
      {
        if m.kind == kind {
          assert Project(ms, kind)[1..] == Project(ms[1..], kind);
        } else {
          assert [] + Project(ms[1..], kind) == Project(ms[1..], kind);
          assert [] + tail == tail;
        }
      }
      assert [] + q.r == q.r && [] + q.o == q.o;
      var q' := match m.kind
        case Instant => q
        case Reliable => q.(r := [m] + q.r)
        case Ordered => q.(o := [m] + q.o);
      RequeueReverses(q', ms[1..]);
    }
  }

  lemma {:induction false} ProjectAllOf(ms: seq<Message>, kind: MessageKind)
    ensures AllOf(Project(ms, kind), kind)
    ensures AllOf(Reversed(Project(ms, kind)), kind)
  {
    if ms != [] {
      ProjectAllOf(ms[1..], kind);
      if ms[0].kind == kind {
        assert Project(ms, kind)[1..] == Project(ms[1..], kind);
      } else {
        assert Project(ms, kind) == Project(ms[1..], kind);
      }
    }
  }

  lemma RequeueKeepsValid(q: Queue, ms: seq<Message>)
    requires Valid(q)
    ensures Valid(Requeue(q, ms))
  {
    RequeueReverses(q, ms);
    ProjectAllOf(ms, Reliable);
    ProjectAllOf(ms, Ordered);
  }

  lemma PackKeepsValid(q: Queue, available: nat, quotas: Quotas)
    requires Valid(q) && QuotasFit(quotas, available)
    ensures Valid(AfterPack(q, PackQueue(q, available, quotas)))
  {
    hide Pack, InboxValid;
    var s := PackQueue(q, available, quotas);
    PackGuarantees(q.i, q.r, q.o, available, quotas);
    SuffixAllOf(Project(s.out, Instant), s.i, Instant);
    SuffixAllOf(Project(s.out, Reliable), s.r, Reliable);
    SuffixAllOf(Project(s.out, Ordered), s.o, Ordered);
  }

  lemma SuffixAllOf(a: seq<Message>, b: seq<Message>, kind: MessageKind)
    requires AllOf(a + b, kind)
    ensures AllOf(b, kind)
  {
    assert forall m | m in b :: m in a + b;
  }

  lemma MinExists(heap: set<Message>)
    requires heap != {}
    ensures exists m :: IsMin(m, heap)
  {
    var x :| x in heap;
    if heap == {x} {
      assert IsMin(x, heap);
    } else {
      MinExists(heap - {x});
      var y :| IsMin(y, heap - {x});
      assert IsMin(if x.order < y.order then x else y, heap);
    }
  }

  // ----- the class -----

  class MessageQueue {
    const quotas: Quotas
    var localOrderId: OrderId
    var remoteOrderId: OrderId
    var iQueue: seq<Message>
    var rQueue: seq<Message>
    var oQueue: seq<Message>
    var recvQueue: seq<Message>
    var oRecvHeap: set<Message>
    var oRecvSet: set<OrderId>

    constructor (quotas: Quotas)
      ensures this.quotas == quotas && State() == EMPTY_QUEUE
    {
      this.quotas := quotas;
      localOrderId, remoteOrderId := 0, 0;
      iQueue, rQueue, oQueue, recvQueue := [], [], [], [];
      oRecvHeap, oRecvSet := {}, {};
    }

    function State(): Queue
      reads this
    {
      Queue(localOrderId, iQueue, rQueue, oQueue, Inbox(remoteOrderId, recvQueue, oRecvHeap, oRecvSet))
    }

    /** Hands out all received messages and empties the receive queue. */
    method Received() returns (data: seq<seq<Byte>>)
      modifies this
      ensures State() == old(State()).(inbox := old(State()).inbox.(recv := []))
      ensures |data| == |old(recvQueue)| && forall k | 0 <= k < |data| :: data[k] == old(recvQueue)[k].data
    {
      data := [];
      while recvQueue != []
        invariant State() == old(State()).(inbox := old(State()).inbox.(recv := recvQueue))
        invariant |data| <= |old(recvQueue)| && recvQueue == old(recvQueue)[|data|..]
        invariant forall k | 0 <= k < |data| :: data[k] == old(recvQueue)[k].data
        decreases |recvQueue|
      {
        data := data + [recvQueue[0].data];
        recvQueue := recvQueue[1..];
      }
    }

    method Dismiss()
      modifies this
      ensures State() == old(State()).(inbox := old(State()).inbox.(recv := []))
    {
      recvQueue := [];
    }

    method Send(kind: MessageKind, data: seq<Byte>)
      modifies this
      ensures State() == Enqueue(old(State()), kind, data)
    {
      var message := Message(kind, localOrderId, |data| % 0x1_0000, data);
      match kind {
        case Instant => iQueue := iQueue + [message];
        case Reliable => rQueue := rQueue + [message];
        case Ordered =>
          oQueue := oQueue + [message];
          if localOrderId + 1 == MAX_ORDER_ID {
            localOrderId := 0;
          } else {
            localOrderId := localOrderId + 1;
          }
      }
    }

    /** Fills the packet: the quotas first, then rounds of one message per kind. */
    method SendPacket(packet: seq<Byte>, available: nat) returns (packet': seq<Byte>)
      requires QuotasFit(quotas, available)
      modifies this
      ensures var s := PackQueue(old(State()), available, quotas);
              State() == AfterPack(old(State()), s) && packet' == packet + Serialize(s.out)
    {
      hide Pack, Serialize;
      iQueue, rQueue, oQueue, packet' := FillPacket(iQueue, rQueue, oQueue, packet, available, quotas);
    }

    /** Appends the messages of a packet to the receive queue or the reorder buffer. */
    method ReceivePacket(packet: seq<Byte>)
      requires InboxValid(State().inbox)
      modifies this
      ensures State() == old(State()).(inbox := DeliverAll(old(State()).inbox, Parse(packet)))
    {
      var messages := MessagesFromPacket(packet);
      ghost var q0 := State();
      assert messages[0..] == messages;
      for k := 0 to |messages|
        invariant State() == q0.(inbox := State().inbox) && InboxValid(State().inbox)
        invariant DeliverAll(State().inbox, messages[k..]) == DeliverAll(q0.inbox, messages)
      {
        var m := messages[k];
        assert messages[k..][1..] == messages[k + 1..];
        ArriveKeepsValid(State().inbox, m);
        if m.kind == Ordered {
          ReceiveOrderedMessage(m);
        } else {
          recvQueue := recvQueue + [m];
        }
      }
    }

    /** Puts the reliable and ordered messages of a lost packet back in front. */
    method LostPacket(packet: seq<Byte>)
      modifies this
      ensures State() == Requeue(old(State()), Parse(packet))
    {
      var messages := MessagesFromPacket(packet);
      assert messages[0..] == messages;
      for k := 0 to |messages|
        invariant Requeue(State(), messages[k..]) == Requeue(old(State()), messages)
      {
        var m := messages[k];
        assert messages[k..][1..] == messages[k + 1..];
        match m.kind {
          case Instant =>
          case Reliable => rQueue := [m] + rQueue;
          case Ordered => oQueue := [m] + oQueue;
        }
      }
    }

    method Reset()
      modifies this
      ensures State() == EMPTY_QUEUE
    {
      localOrderId, remoteOrderId := 0, 0;
      iQueue, rQueue, oQueue, recvQueue := [], [], [], [];
      oRecvHeap, oRecvSet := {}, {};
    }

    /** The heap's message with the smallest raw order id. */
    method PeekMin() returns (head: Option<Message>)
      requires InboxValid(State().inbox)
      ensures head == None <==> oRecvHeap == {}
      ensures head.Some? ==> IsMin(head.value, oRecvHeap)
      ensures HeadMatches(oRecvHeap, remoteOrderId) <==> head.Some? && head.value.order == remoteOrderId
    {
      if oRecvHeap == {} {
        return None;
      }
      MinExists(oRecvHeap);
      var m :| m in oRecvHeap && IsMin(m, oRecvHeap);
      return Some(m);
    }

    method ReceiveOrderedMessage(m: Message)
      requires InboxValid(State().inbox)
      modifies this
      ensures State() == old(State()).(inbox := Arrive(old(State()).inbox, m))
    {
      if m.order == remoteOrderId {
        recvQueue := recvQueue + [m];
        remoteOrderId := if remoteOrderId + 1 == MAX_ORDER_ID then 0 else remoteOrderId + 1;
        DrainHeap();
      } else if MoreRecent(m.order, remoteOrderId) && m.order !in oRecvSet {
        oRecvSet := oRecvSet + {m.order};
        oRecvHeap := oRecvHeap + {m};
      }
    }

    /** Moves the message expected next from the heap to the receive queue. */
    method PopHead(head: Message)
      modifies this
      ensures State() == old(State()).(inbox := Inbox(NextOrder(old(remoteOrderId)), old(recvQueue) + [head],
                                                      old(oRecvHeap) - {head}, old(oRecvSet) - {old(remoteOrderId)}))
    {
      oRecvSet := oRecvSet - {remoteOrderId};
      oRecvHeap := oRecvHeap - {head};
      recvQueue := recvQueue + [head];
      remoteOrderId := if remoteOrderId + 1 == MAX_ORDER_ID then 0 else remoteOrderId + 1;
    }

    /** Moves buffered messages to the receive queue while the heap's minimum is
        the one expected next. */
    method DrainHeap()
      requires InboxValid(State().inbox)
      modifies this
      ensures State() == old(State()).(inbox := Drain(old(State()).inbox))
    {
      ghost var goal := Drain(State().inbox);
      var matches := true;
      while matches
        invariant InboxValid(State().inbox) && State() == old(State()).(inbox := State().inbox)
        invariant Drain(State().inbox) == goal
        invariant !matches ==> !HeadMatches(oRecvHeap, remoteOrderId)
        decreases |oRecvHeap|, matches
      {
        var head := PeekMin();
        matches := head.Some? && head.value.order == remoteOrderId;
        if matches {
          ghost var next := DrainStep(State().inbox, head.value);
          PopHead(head.value);
        }
      }
    }
  }
}
