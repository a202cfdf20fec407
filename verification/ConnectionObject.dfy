/** The connection object of src/shared/connection.rs, updated in place. */
module ConnectionObjects {
  import opened Bytes
  import opened MessageCodec
  import opened PacketFill
  import opened MessageQueues
  import opened AckHeader
  import opened RateLimiting
  import opened Connections

  class Connection {
    const config: ValidConfig
    const messageQueue: MessageQueue
    const rateLimiter: BinaryRateLimiter
    var randomId: U32
    var peerAddress: nat
    var state: ConnectionState
    var remoteSeqNumber: Byte
    var localSeqNumber: Byte
    var lastReceiveTime: int
    var lastSendTime: int
    var recvAckQueue: seq<Byte>
    var sentAckQueue: seq<SentPacketAck>
    var sentPackets: U32
    var recvPackets: U32
    var lostPackets: U32
    var ackedPackets: U32
    var events: seq<Event>

    constructor (config: ValidConfig, id: U32, peer: nat, sendRate: real, now: int)
      requires sendRate >= 1.0
      ensures fresh(messageQueue) && fresh(rateLimiter) && this.config == config
      ensures Consistent() && State() == NewConn(id, peer, now)
    {
      this.config := config;
      messageQueue := new MessageQueue(config.quotas);
      rateLimiter := new BinaryRateLimiter(sendRate, now);
      randomId, peerAddress := id, peer;
      state := Connecting;
      remoteSeqNumber, localSeqNumber := 0, 0;
      lastReceiveTime, lastSendTime := now, now;
      recvAckQueue, sentAckQueue := [], [];
      sentPackets, recvPackets, lostPackets, ackedPackets := 0, 0, 0, 0;
      events := [];
    }

    function State(): Conn
      reads this, messageQueue, rateLimiter
    {
      Conn(randomId, peerAddress, state, remoteSeqNumber, localSeqNumber, lastReceiveTime, lastSendTime, recvAckQueue,
           sentAckQueue, sentPackets, recvPackets, lostPackets, ackedPackets, messageQueue.State(), rateLimiter.State(), events)
    }

    ghost predicate Wired() {
      messageQueue.quotas == config.quotas && rateLimiter.maxTick == 3
    }

    ghost predicate Consistent()
      reads this, messageQueue, rateLimiter
    {
      Wired() && Connections.Valid(State())
    }

    method Send(kind: MessageKind, payload: seq<Byte>)
      requires Consistent()
      modifies messageQueue
      ensures Consistent() && State() == SentMessage(old(State()), kind, payload)
    {
      messageQueue.Send(kind, payload);
    }

    method SetPeerAddr(addr: nat)
      requires Consistent()
      modifies this`peerAddress
      ensures Consistent() && State() == old(State()).(peer := addr)
    {
      peerAddress := addr;
    }

    method Close()
      requires Consistent()
      modifies this
      ensures Consistent() && State() == CloseRequested(old(State()))
    {
      state := Closing;
    }

    method Reset(now: int)
      requires Wired()
      modifies this, messageQueue, rateLimiter
      ensures State() == Restarted(old(State()), now)
    {
      ResetFields(now);
      messageQueue.Reset();
      rateLimiter.Reset(now);
    }

    method ResetFields(now: int)
      modifies this`state, this`localSeqNumber, this`remoteSeqNumber, this`lastReceiveTime, this`lastSendTime, this`recvAckQueue,
               this`sentAckQueue, this`sentPackets, this`recvPackets, this`ackedPackets, this`lostPackets
      ensures state == Connecting && localSeqNumber == remoteSeqNumber == 0 && lastReceiveTime == lastSendTime == now
      ensures recvAckQueue == [] && sentAckQueue == []
      ensures sentPackets == recvPackets == ackedPackets == lostPackets == 0
    {
      state := Connecting;
      localSeqNumber, remoteSeqNumber := 0, 0;
      lastReceiveTime, lastSendTime := now, now;
      recvAckQueue, sentAckQueue := [], [];
      sentPackets, recvPackets, ackedPackets, lostPackets := 0, 0, 0, 0;
    }

    /** Hands out the queued events and the received messages. */
    method Events() returns (drained: seq<Event>)
      requires Consistent()
      modifies this, messageQueue
      ensures Consistent() && (State(), drained) == Drained(old(State()))
    {
      ghost var recv := messageQueue.recvQueue;
      var messages := messageQueue.Received();
      drained := events;
      for k := 0 to |messages|
        invariant drained == old(events) + MessageEvents(recv[..k])
        invariant events == old(events)
        invariant State() == old(State()).(queue := old(State()).queue.(inbox := old(State()).queue.inbox.(recv := [])))
      {
        assert recv[..k + 1][..k] == recv[..k];
        drained := drained + [MessageEvent(messages[k])];
      }
      assert recv[..|messages|] == recv;
      events := [];
    }

    method UpdateReceiveState(packet: seq<Byte>) returns (accept: bool)
      requires Consistent() && |packet| >= PACKET_HEADER_SIZE
      modifies this
      ensures Consistent() && (State(), accept) == ReceiveState(config, old(State()), packet)
    {
      if packet[0..4] != config.protocolHeader {
        return false;
      }
      match state {
        case Lost => accept := false;
        case Closed => accept := false;
        case FailedToConnect => accept := false;
        case Closing => accept := true;
        case Connecting =>
          state := Connected;
          lostPackets := 0;
          events := events + [ConnectedEvent];
          accept := true;
        case Connected =>
          if packet[8..14] == CLOSURE_PACKET_DATA {
            state := Closed;
            events := events + [ClosedEvent(true)];
            accept := false;
          } else {
            accept := SeqIsMoreRecent(packet[8], remoteSeqNumber);
          }
      }
    }

    method UpdateSendState(now: int) returns (proceed: bool)
      requires Consistent()
      modifies this
      ensures Consistent() && (State(), proceed) == SendState(config, old(State()), now)
    {
      var inactiveReceiveTime := now - lastReceiveTime;
      var inactiveSendTime := now - lastSendTime;
      proceed := true;
      match state {
        case Lost => proceed := false;
        case Closed => proceed := false;
        case FailedToConnect => proceed := false;
        case Connecting =>
          if inactiveReceiveTime > config.connectionInitThreshold {
            state := FailedToConnect;
            events := events + [FailedToConnectEvent];
            proceed := false;
          }
        case Connected =>
          if inactiveReceiveTime > config.connectionDropThreshold {
            state := Lost;
            events := events + [LostEvent(true)];
            proceed := false;
          } else if inactiveSendTime > config.connectionDropThreshold {
            state := Lost;
            events := events + [LostEvent(false)];
            proceed := false;
          }
        case Closing =>
          if inactiveReceiveTime > config.connectionClosingThreshold {
            state := Closed;
            events := events + [ClosedEvent(false)];
            proceed := false;
          }
      }
    }

    method ReceivePacket(packet: seq<Byte>, now: int) returns (accepted: bool)
      requires Consistent()
      modifies this, messageQueue
      ensures Consistent() && (State(), accepted) == Received(config, old(State()), packet, now)
    {
      ReceivedKeepsValid(config, State(), packet, now);
      if |packet| < PACKET_HEADER_SIZE {
        return false;
      }
      var accept := UpdateReceiveState(packet);
      if !accept {
        return false;
      }
      ghost var c := State();
      RequeueAllInbox(c.queue, Packets(c.inFlight, ReadAcks(config, packet, now), Dropped));
      ApplyPacketHeader(packet, now);
      ApplyPacketPayload(packet);
      return true;
    }

    method ApplyPacketHeader(packet: seq<Byte>, now: int)
      requires |packet| >= PACKET_HEADER_SIZE && InFlightValid(sentAckQueue)
      modifies this`lastReceiveTime, this`remoteSeqNumber, this`sentAckQueue, this`ackedPackets, this`lostPackets, this`events,
               messageQueue
      ensures lastReceiveTime == now && remoteSeqNumber == packet[8]
      ensures var es, h := old(sentAckQueue), ReadAcks(config, packet, now);
              sentAckQueue == JudgeAll(es, h) && ackedPackets == Plus32(old(ackedPackets), Count(es, h, Acked)) &&
              lostPackets == Plus32(old(lostPackets), Count(es, h, Dropped)) &&
              events == old(events) + LostEvents(Packets(es, h, Dropped)) &&
              messageQueue.State() == RequeueAll(old(messageQueue.State()), Packets(es, h, Dropped))
    {
      lastReceiveTime := now;
      remoteSeqNumber := packet[8];
      var ackSeqNumber := packet[9];
      var bitfield := FromBigEndian(packet[10], packet[11], packet[12], packet[13]);
      var h := AckInfo(ackSeqNumber, bitfield, now, config.packetDropThreshold);
      sentAckQueue, ackedPackets, lostPackets, events :=
        JudgeSentPackets(messageQueue, h, sentAckQueue, ackedPackets, lostPackets, events);
    }

    method ApplyPacketPayload(packet: seq<Byte>)
      requires |packet| >= PACKET_HEADER_SIZE && InboxValid(messageQueue.State().inbox)
      modifies this, messageQueue
      ensures State() == ApplyPayload(old(State()), packet)
    {
      messageQueue.ReceivePacket(packet[PACKET_HEADER_SIZE..]);
      sentAckQueue := RetainUnknown(sentAckQueue);
      recvAckQueue := [remoteSeqNumber] + recvAckQueue;
      if |recvAckQueue| > MAX_ACK_BITS {
        recvAckQueue := recvAckQueue[..|recvAckQueue| - 1];
      }
      recvPackets := Succ32(recvPackets);
    }

    /** Sends a packet unless the connection is over or the rate limiter holds it
        back; `sent` is the packet given to the socket and `bytes` what it took. */
    method SendPacket(now: int, rtt: nat, ok: bool) returns (sent: Option<seq<Byte>>, bytes: nat)
      requires Consistent()
      modifies this, messageQueue, rateLimiter
      ensures Consistent() && (State(), sent) == Transmitted(config, old(State()), now, rtt, ok)
      ensures bytes == if sent.Some? && ok then |sent.value| else 0
    {
      hide Updated, NextSplit, NextPacket, Track, Connections.Valid;
      TransmittedKeepsValid(config, State(), now, rtt, ok);
      var proceed := UpdateSendState(now);
      if !proceed {
        return None, 0;
      }
      UpdateCongestion(now, rtt);
      if rateLimiter.mode == Bad && rateLimiter.tick != 0 {
        return None, 0;
      }
      var packet;
      packet, bytes := EmitPacket(now, ok);
      sent := Some(packet);
    }

    method UpdateCongestion(now: int, rtt: nat)
      requires Consistent()
      modifies this`events, rateLimiter
      ensures Consistent() && State() == Congest(old(State()), now, rtt)
    {
      var congested := rateLimiter.mode == Bad;
      rateLimiter.Update(now, rtt);
      if congested != (rateLimiter.mode == Bad) {
        events := events + [CongestionStateChangedEvent(!congested)];
      }
    }

    method BuildPacket() returns (packet: seq<Byte>)
      requires Wired()
      modifies messageQueue
      ensures packet == NextPacket(config, old(State()))
      ensures messageQueue.State() == AfterPack(old(messageQueue.State()), NextSplit(config, old(State())))
    {
      hide Pack, AckField, BigEndian;
      packet := config.protocolHeader + BigEndian(randomId);
      if state == Closing {
        packet := packet + CLOSURE_PACKET_DATA;
        assert packet + [] == packet;
      } else {
        var bitfield := BuildAckField(recvAckQueue, remoteSeqNumber);
        packet := packet + ([localSeqNumber, remoteSeqNumber] + BigEndian(bitfield));
        packet := messageQueue.SendPacket(packet, config.packetMaxSize - PACKET_HEADER_SIZE);
      }
    }

    method EmitPacket(now: int, ok: bool) returns (packet: seq<Byte>, bytes: nat)
      requires Wired()
      modifies this`lastSendTime, this`sentAckQueue, this`localSeqNumber, this`sentPackets, messageQueue
      ensures packet == NextPacket(config, old(State()))
      ensures lastSendTime == (if ok then now else old(lastSendTime)) && localSeqNumber == NextNum(old(localSeqNumber))
      ensures sentAckQueue == Track(old(State()), packet, now) && sentPackets == Succ32(old(sentPackets))
      ensures messageQueue.State() == Emit(config, old(State()), now, ok).queue
      ensures bytes == if ok then |packet| else 0
    {
      packet := BuildPacket();
      messageQueue.Dismiss();
      var required := SendAckRequired(localSeqNumber);
      if required {
        sentAckQueue := sentAckQueue + [SentPacketAck(localSeqNumber, now, Unknown, Some(packet))];
      }
      bytes := if ok then |packet| else 0;
      lastSendTime := if ok then now else lastSendTime;
      localSeqNumber := if localSeqNumber + 1 == MAX_SEQ_NUMBER then 0 else localSeqNumber + 1;
      sentPackets := Succ32(sentPackets);
    }

    method SendAckRequired(num: Byte) returns (required: bool)
      ensures required == forall j | 0 <= j < |sentAckQueue| :: sentAckQueue[j].num != num
    {
      required := true;
      for k := 0 to |sentAckQueue|
        invariant required == forall j | 0 <= j < k :: sentAckQueue[j].num != num
      {
        if sentAckQueue[k].num == num {
          required := false;
        }
      }
    }
  }

  method JudgeSentPacket(queue: MessageQueue, h: AckInfo, e: SentPacketAck, acked: U32, lost: U32, events: seq<Event>)
    returns (e': SentPacketAck, acked': U32, lost': U32, events': seq<Event>)
    requires EntryValid(e)
    modifies queue
    ensures e' == Judge(e, h)
    ensures acked' == if Verdict(e, h) == Acked then Succ32(acked) else acked
    ensures lost' == if Verdict(e, h) == Dropped then Succ32(lost) else lost
    ensures events' == if Verdict(e, h) == Dropped then events + [PacketLostEvent(Payload(e.packet.value))] else events
    ensures queue.State() == if Verdict(e, h) == Dropped then Requeue(old(queue.State()), Parse(Payload(e.packet.value)))
                             else old(queue.State())
  {
    e', acked', lost', events' := e, acked, lost, events;
    if SeqWasAcked(e.num, h.ack, h.field) {
      acked' := Succ32(acked);
      e' := e.(state := Acked);
    } else if h.now - e.time > h.threshold {
      lost' := Succ32(lost);
      e' := e.(state := Dropped, packet := None);
      var lostPacket := e.packet.value;
      queue.LostPacket(lostPacket[PACKET_HEADER_SIZE..]);
      events' := events + [PacketLostEvent(lostPacket[PACKET_HEADER_SIZE..])];
    }
  }

  /** The loop over the tracked packets: each is judged by the header `h`, and
      the messages of those that are lost go back to the queue. */
  method JudgeSentPackets(queue: MessageQueue, h: AckInfo, es: seq<SentPacketAck>, acked: U32, lost: U32, events: seq<Event>)
    returns (es': seq<SentPacketAck>, acked': U32, lost': U32, events': seq<Event>)
    requires InFlightValid(es)
    modifies queue
    ensures var packets := Packets(es, h, Dropped);
            es' == JudgeAll(es, h) && acked' == Plus32(acked, Count(es, h, Acked)) &&
            lost' == Plus32(lost, Count(es, h, Dropped)) && events' == events + LostEvents(packets) &&
            queue.State() == RequeueAll(old(queue.State()), packets)
  {
    hide JudgeAll, Count, Packets, Plus32, Succ32, RequeueAll, Requeue, LostEvents, Judge, Verdict;
    es', acked', lost', events' := es, acked, lost, events;
    ghost var done := ProgressOf([], h);
    NoProgress(acked, lost, events, queue.State(), h);
    assert es[..0] == [] && [] + es[0..] == es;
    for i := 0 to |es|
      invariant done == ProgressOf(es[..i], h)
      invariant |done.judged| == i && es' == done.judged + es[i..]
      invariant acked' == Plus32(acked, done.acked) && lost' == Plus32(lost, done.lost)
      invariant queue.State() == RequeueAll(old(queue.State()), done.packets)
      invariant events' == events + LostEvents(done.packets)
    {
      ghost var next := ProgressStep(es, i, h, done);
      UpdateAt(done.judged, es, i, Judge(es[i], h));
      var judged;
      judged, acked', lost', events' := JudgeSentPacket(queue, h, es'[i], acked', lost', events');
      JudgedCounts(acked, lost, events, old(queue.State()), done, next, h, es[i]);
      es' := es'[i := judged];
      done := next;
    }
    assert es[..|es|] == es && es' == done.judged;
  }

  method RetainUnknown(es: seq<SentPacketAck>) returns (kept: seq<SentPacketAck>)
    ensures kept == Retain(es)
  {
    kept := [];
    for k := 0 to |es|
      invariant kept == Retain(es[..k])
    {
      assert es[..k + 1][..k] == es[..k];
      if es[k].state == Unknown {
        kept := kept + [es[k]];
      }
    }
    assert es[..|es|] == es;
  }

  /** What the loop over the tracked packets has made of those it has seen. */
  datatype Progress = Progress(judged: seq<SentPacketAck>, acked: nat, lost: nat, packets: seq<seq<Byte>>)

  function ProgressOf(es: seq<SentPacketAck>, h: AckInfo): Progress {
    Progress(JudgeAll(es, h), Count(es, h, Acked), Count(es, h, Dropped), Packets(es, h, Dropped))
  }

  lemma NoProgress(acked: U32, lost: U32, events: seq<Event>, q: Queue, h: AckInfo)
    ensures ProgressOf([], h) == Progress([], 0, 0, []) && Plus32(acked, 0) == acked && Plus32(lost, 0) == lost
    ensures RequeueAll(q, []) == q && events + LostEvents([]) == events
  {
  }

  lemma ProgressStep(es: seq<SentPacketAck>, i: nat, h: AckInfo, done: Progress) returns (next: Progress)
    requires i < |es| && InFlightValid(es) && done == ProgressOf(es[..i], h)
    ensures next == ProgressOf(es[..i + 1], h)
    ensures EntryValid(es[i]) && |done.judged| == i && |next.judged| == i + 1
    ensures next.judged == done.judged + [Judge(es[i], h)]
    ensures next.acked == if Verdict(es[i], h) == Acked then done.acked + 1 else done.acked
    ensures next.lost == if Verdict(es[i], h) == Dropped then done.lost + 1 else done.lost
    ensures next.packets == if Verdict(es[i], h) == Dropped then done.packets + [es[i].packet.value] else done.packets
  {
    next := ProgressOf(es[..i + 1], h);
    assert es[..i + 1][..i] == es[..i] && es[..i + 1][i] == es[i];
  }

  /** The counters, events and queue of `next`, from those of `done`. */
  lemma JudgedCounts(acked: U32, lost: U32, events: seq<Event>, q: Queue, done: Progress, next: Progress, h: AckInfo, e: SentPacketAck)
    requires EntryValid(e)
    requires next.acked == if Verdict(e, h) == Acked then done.acked + 1 else done.acked
    requires next.lost == if Verdict(e, h) == Dropped then done.lost + 1 else done.lost
    requires next.packets == if Verdict(e, h) == Dropped then done.packets + [e.packet.value] else done.packets
    ensures Plus32(acked, next.acked) ==
            if Verdict(e, h) == Acked then Succ32(Plus32(acked, done.acked)) else Plus32(acked, done.acked)
    ensures Plus32(lost, next.lost) ==
            if Verdict(e, h) == Dropped then Succ32(Plus32(lost, done.lost)) else Plus32(lost, done.lost)
    ensures events + LostEvents(next.packets) ==
            if Verdict(e, h) == Dropped then events + LostEvents(done.packets) + [PacketLostEvent(Payload(e.packet.value))]
            else events + LostEvents(done.packets)
    ensures RequeueAll(q, next.packets) ==
            if Verdict(e, h) == Dropped then Requeue(RequeueAll(q, done.packets), Parse(Payload(e.packet.value)))
            else RequeueAll(q, done.packets)
  {
    PacketsGrow(q, done.packets, e.packet.value);
    Assoc(events, LostEvents(done.packets), [PacketLostEvent(Payload(e.packet.value))]);
  }

  lemma PacketsGrow(q: Queue, packets: seq<seq<Byte>>, packet: seq<Byte>)
    ensures RequeueAll(q, packets + [packet]) == Requeue(RequeueAll(q, packets), Parse(Payload(packet)))
    ensures LostEvents(packets + [packet]) == LostEvents(packets) + [PacketLostEvent(Payload(packet))]
  {
    assert (packets + [packet])[..|packets|] == packets;
  }

  lemma UpdateAt(judged: seq<SentPacketAck>, es: seq<SentPacketAck>, i: nat, e: SentPacketAck)
    requires i < |es| && |judged| == i
    ensures (judged + es[i..])[i := e] == judged + [e] + es[i + 1..]
    ensures e == es[i] ==> judged + es[i..] == judged + [e] + es[i + 1..]
  {
  }
}
