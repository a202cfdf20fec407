# Verification of the cobalt reliability layer

A Dafny 4.11 model of cobalt, a UDP based networking library, and proofs about
it. `dafny verify dfyconfig.toml` checks all of it.

cobalt packs messages of three kinds into packets. Instant messages may be
lost, reliable ones are sent again when their packet is lost, and ordered ones
are in addition delivered in the order in which they were sent. Packets carry
eight-bit sequence numbers and acknowledge each other with a number and a
32-bit field. A rate limiter, a tick timer, a statistics collector and a server
for many connections are built around this.

## Structure

Objects of the source that are updated in place are classes here (the message
queue, the connection, the rate limiter, the tick timer, the statistics
collector, the server). Each method is proved to turn the object's `State()`
into what a function on values says, and the results below are proved about
those functions, over whole runs.

| file | subject |
|---|---|
| Bytes | nibbles, bytes, words, wrapping 32-bit counters |
| MessageCodec | the wire format of messages and both round trips |
| PacketFill, Alternation | quotas and rounds: how queues become a packet, and why in no other way |
| Reorder, PrefixSafety | order ids, the heap and the longest received prefix; what remains where it is not delivered |
| MessageQueue | the queue object |
| AckHeader | sequence numbers and the acknowledgement field |
| RateLimiter, Ticker, Stats | the three supporting machines |
| Connection, ConnectionObject | the connection as a value and as an object |
| Loss, Lifetime, Outgoing | in terms of bytes and clocks alone: what is found lost and sent again, what opens and ends a connection, what a packet holds |
| Sessions, SessionTraces | runs of one connection: conservation, counters, life cycle, congestion |
| Oversized, Blocking, Collision | payloads that do not fit their size field or a packet; headers that look like a closure |
| Endpoints, Delivery, Ordinals, OrderedStream, EndToEnd, Handout | two connections and a network that loses, duplicates and reorders, from the calls of one application to those of the other |
| Server, ServerObject, ServerRuns, ServerReports, ServerEvents | the server's maps, rounds and events |

The packets of the network model have unbounded numbers that the endpoints
never see. Any packet ever built may arrive at any time, any number of times,
or never.

## What the code does not do

Where the code falls short of a property, the condition under which it holds is
proved for all inputs, or a failing input is given, or both.

- Ordered delivery stalls when the heap holds ids from both sides of the
  wrap-around at 4096: the comparison is raw, so id 0 hides id 4095 (`StuckRun`,
  `ArriveRefines`, `OrderedDelivery`). If the hidden message then arrives once
  more, its buffered copy is left behind and is delivered 4096 messages later in
  the place of another one (`OnTrackIff`, `WrongDelivery`).
- An endpoint that has received nothing acknowledges byte 0 (`FreshHeader`,
  `FreshAnswerConfirmsNothingIff`, `FreshPeerAcksPacketZero`).
- Received messages that are not taken before the next packet is built are
  dropped, also reliable and ordered ones that are acknowledged (`HandedOutIff`,
  `BuildingDismisses`).
- A payload of 65536 bytes or more is lost once it is sent
  (`PayloadSurvivesIff`, `OversizedStaysQueued`, `ConservedIffSmall`).
- A message that fits no packet blocks its kind for good (`HeadBlocks`,
  `BlockedForGood`).
- `close` revives a connection that is over (`LifecycleTraces`,
  `TerminalIsFinal`, `CloseRevives`). Its comment says
  that no further packets are received or sent, but a closing connection does both.
- The comment on the tick overflow recovery rate says that values below 0.0 have
  no effect. They underflow (`UnderflowsIffNegativeCorrection`, `ExactRates`).
- A rate of 1.0 does not always recover the whole slack of a tick: the product of
  32-bit floats may lose a nanosecond (`TickRecoversIff`).
- The comments of the rate limiter say that ten good seconds halve its delay. The
  code only clamps the delay from below, so it never shrinks (`DelayCountsDrops`).
- A round that sends without receiving first corrupts the sum of the bytes
  received, and a later subtraction underflows (`ReceivedIsExactIff`,
  `ReceivedUnderflowsIff`, `SkippedReceiveUnderflows`).
- Quotas that sum to more than 100 percent let the packing underflow
  (`NoOverdraftIffQuotasFit`, `QuotasFitEveryPacket`, `SendsOverdraw`).
- A first datagram of 8 to 13 bytes, or a reset by the caller, makes the server
  panic once the connection times out (`PanicsIff`, `FirstPacketConnectsIff`,
  `TurnPanicsIff`, `EightBytesPanic`, `ResetPanics`).
- A peer that is closing as well, or still connecting, accepts a closure packet
  and reads its bytes as acknowledgements; a connecting one even reports itself
  connected (`ClosingPacketAcceptedIff`, `ClosureReadAsAcks`, `ClosureForgets`).
- A data header can have the closure bytes, and then closes the connection
  (`HeaderCollidesIff`, `CollisionClosesPeer`, `FirstPacketCloses`).

## Model

| member | source | states |
|---|---|---|
| MessageCodec.MessagesFromPacket | src/shared/message_queue.rs:353-400 | The parsing loop returns `Parse` of any bytes at all, in bounds and with an end, also when a size points past the packet. |
| MessageCodec.WireFormat | src/shared/message_queue.rs:413-450 | Byte by byte: the upper bits of the order id over the kind, its lower bits, the size with the high byte first, the data. |
| MessageCodec.ParseFormat | src/shared/message_queue.rs:353-400 | Parsing any bytes reads a message by that layout, with as much data as there is, skips it if its kind is unknown, and goes on behind it. |
| MessageCodec.ParseSerialize | src/shared/message_queue.rs:353-450 | Parsing the serialised bytes of a list gives the list back if and only if every size is the length of its data, except that the last message may announce more than it carries. |
| MessageCodec.SerializeParse | src/shared/message_queue.rs:353-450 | Serialising what was parsed gives the bytes back if and only if every header has a known kind and no bytes are left over. |
| MessageCodec.ParsedAreTransportable | src/shared/message_queue.rs:380-394 | On arbitrary bytes only the last parsed message can be cut short, and a second trip over the wire changes nothing. |
| Bytes.BigEndianRoundTrip | src/shared/connection.rs:399-406 | Four bytes carry the connection id and the bitfield without loss. |
| Bytes.BigEndianBytes | src/shared/connection.rs:399-406 | The first of the four bytes is the most significant one. |
| PacketFill.WriteMessage | src/shared/message_queue.rs:413-450 | One attempt takes the front message exactly if it fits into what is left, appends its bytes and charges its size. |
| PacketFill.WriteMessages | src/shared/message_queue.rs:402-411 | The loop over one queue takes the greedy prefix of the queue, no more and no less. |
| PacketFill.GreedyIsLongestPrefix | src/shared/message_queue.rs:402-450 | That prefix is the longest one whose sizes fit into the share: a prefix fits if and only if it is not longer. |
| PacketFill.FillRounds | src/shared/message_queue.rs:230-236 | The rounds over the three queues end, and produce the specified fill and its bytes. |
| PacketFill.FillPacket | src/shared/message_queue.rs:206-238 | The quota phase and the rounds together produce the specified packing and its bytes, and no subtraction in between goes below zero. |
| PacketFill.FillGuarantees | src/shared/message_queue.rs:228-236 | Rounds take a prefix of each queue in order, stay within the room, and end only when no front message fits. |
| PacketFill.PackGuarantees | src/shared/message_queue.rs:206-238 | The whole packing is a first-in first-out split of each queue, stays within the available bytes, and leaves no queue whose front message would still fit. |
| PacketFill.SharesAreHonoured | src/shared/message_queue.rs:190-205 | Whatever the other kinds queue, each kind gets at least the messages that fit into its own share, at its front. |
| PacketFill.AllSentIfAllFits | src/shared/message_queue.rs:228-236 | All three queues are emptied if and only if together they fit into the packet. |
| Alternation.FillIsFair | src/shared/message_queue.rs:228-236 | After the shares no kind has a turn while another that could still write has had fewer turns, or as many if it comes first in the round. |
| Alternation.FillIsTheFairOne | src/shared/message_queue.rs:228-236 | A split of the queues is the one the rounds produce if and only if it takes from the front, keeps within the room, leaves nothing that fits, and is fair in this sense. |
| Alternation.PackIsTheFairOne | src/shared/message_queue.rs:206-238 | So the packing is the one with each kind's longest fitting share first, and then the only fair way to fill what is left. |
| Blocking.HeadBlocks | src/shared/message_queue.rs:426-433 | A front message that does not fit a whole packet blocks its kind: nothing of it is packed. |
| Blocking.BlockedForGood | src/shared/connection.rs:381-625 | Over every run without a reset, a message that fits no packet stays in its queue, and so does everything behind it, in order. |
| PacketFill.NoOverdraftIffQuotasFit | src/shared/message_queue.rs:431 | `available - written` never goes below zero for a queue that still holds a message, whatever the queues hold, if and only if the usable shares fit into the packet. |
| MessageQueues.SendsOverdraw | src/shared/message_queue.rs:161-185 | Quotas that do not fit are overdrawn by some calls of `send` on a new queue. |
| PacketFill.QuotasFitEveryPacket | src/shared/config.rs:45-55 | Percentages are safe for packets of every size if and only if they sum to at most 100. |
| PacketFill.CostsAreBytes | src/shared/message_queue.rs:426-444 | The bytes charged are the bytes written when sizes equal data lengths. |
| MessageQueues.MessageQueue.constructor | src/shared/message_queue.rs:128-140 | A new queue is empty and expects and assigns order id 0. |
| MessageQueues.MessageQueue.Send | src/shared/message_queue.rs:161-185 | The message goes to the back of its kind's queue with a sixteen-bit size; only ordered messages advance the wrapping id. |
| MessageQueues.MessageQueue.SendPacket | src/shared/message_queue.rs:206-238 | Updates the three queues and the packet as the packing specifies. |
| MessageQueues.MessageQueue.ReceivePacket | src/shared/message_queue.rs:242-251 | Delivers the parsed messages in order, ordered ones through the reorder buffer. |
| MessageQueues.MessageQueue.LostPacket | src/shared/message_queue.rs:257-267 | Puts the messages of a lost packet back at the front, one by one. |
| MessageQueues.MessageQueue.ReceiveOrderedMessage | src/shared/message_queue.rs:283-343 | The expected message is delivered and the heap drained; a more recent one is buffered unless its id is marked; all others are dropped. |
| MessageQueues.MessageQueue.DrainHeap | src/shared/message_queue.rs:296-328 | The loop over the heap is the specified drain: it goes on exactly as long as the raw minimum is the expected id. |
| MessageQueues.MessageQueue.PeekMin | src/shared/message_queue.rs:55-61 | The head of the heap is a message with the smallest raw order id. |
| MessageQueues.SendAppends | src/shared/message_queue.rs:161-185 | A message goes to the end of its own queue and no other with its data and its length modulo 65536; only an ordered one takes the next of 4096 ids. |
| MessageQueues.MessageQueue.Received | src/shared/message_queue.rs:148-150 | Hands out the data of all received messages in order and empties the queue. |
| MessageQueues.MessageQueue.Dismiss | src/shared/message_queue.rs:154-156 | Drops the received messages and touches nothing else. |
| MessageQueues.MessageQueue.Reset | src/shared/message_queue.rs:270-279 | All queues, ids and buffers are as in a new queue. |
| MessageQueues.RequeueReverses | src/shared/message_queue.rs:257-267 | A lost packet returns its reliable and its ordered messages in reverse order, in front of the queue, and drops its instant ones. |
| MessageQueues.ArriveKeepsValid | src/shared/message_queue.rs:283-343 | The duplicate marks are at all times exactly the order ids in the heap. |
| MessageQueues.PackKeepsValid | src/shared/message_queue.rs:206-238 | Packing leaves every queue with messages of its own kind only. |
| Reorder.MoreRecentIsLater | src/shared/message_queue.rs:348-351 | Within 2047 ordinals the wrapping comparison of ids is the comparison of ordinals. |
| Reorder.RawOrderWithinBlock | src/shared/message_queue.rs:55-61 | The heap's raw comparison orders two ordinals less than 4096 apart correctly if and only if they lie in one block of 4096. |
| Reorder.ReceiveDescribes | src/shared/message_queue.rs:36-41 | The longest-prefix specification follows the set of received ordinals: the least one missing, and those above it. |
| Reorder.DescribesUnique | src/shared/message_queue.rs:36-41 | No other prefix describes the same set. |
| Reorder.DrainDeliversRun | src/shared/message_queue.rs:296-328 | Draining delivers the whole buffered run that starts at the expected ordinal, if no later block hides its start. |
| Reorder.ArriveRefines | src/shared/message_queue.rs:283-343 | An arrival within the window delivers exactly the messages by which the longest prefix grows, and buffers exactly what lies beyond it, if and only if it does not uncover a run hidden by a later block. |
| Reorder.OrderedDelivery | src/shared/message_queue.rs:283-351 | Over any run of arrivals within the window, with duplicates and any number of id wraps, the delivered messages are ordinals 0..r-1 once each and in order after every arrival, r being the least ordinal missing, if and only if no arrival uncovers a hidden run. |
| Reorder.StuckRun | src/shared/message_queue.rs:55-61 | A run that meets the window but gets stuck: with 4095 and 4096 buffered, the arrival of 4094 delivers 4094 alone. |
| PrefixSafety.ArrivalTracksIff | src/shared/message_queue.rs:283-343 | One arrival near the ordinal the receiver waits for delivers exactly the messages its position passes and leaves exactly the ordinals ahead in the heap, if and only if it is not a second copy of an expected message that is hidden in the heap. |
| PrefixSafety.OnTrackIff | src/shared/message_queue.rs:283-343 | Over any run of arrivals near that ordinal, also where the longest prefix is not delivered: after every arrival what was delivered is a prefix of the stream and the heap holds exactly what lies ahead, if and only if no such second copy arrives. |
| PrefixSafety.WrongDelivery | src/shared/message_queue.rs:296-341 | A run within the window that delivers ordinal 4095 a second time, in the place of 8191, and then drops 8191. |
| AckHeader.BuildAckField | src/shared/connection.rs:544-559 | The loop of the header sets the bits of the specified field. |
| AckHeader.BitIndexIsDistance | src/shared/connection.rs:781-788 | The bit of a number is its wrapping distance behind the acknowledged one, less one. |
| AckHeader.AckedIffBit | src/shared/connection.rs:795-803 | A header acknowledges its ack number, and the number d behind it for d from 1 to 32 if and only if bit d - 1 of the field is set. |
| AckHeader.AckFieldExact | src/shared/connection.rs:544-559 | A number counts as acknowledged if and only if it is the ack number or a queued one at wrapping distance 1 to 32. |
| AckHeader.AckHeaderExact | src/shared/connection.rs:561-567 | The same after encoding the field into four bytes and decoding it again. |
| AckHeader.MoreRecentIsNewer | src/shared/connection.rs:790-793 | Within 127 numbers the wrapping comparison of bytes is the comparison of packet numbers. |
| Connections.RetainJudged | src/shared/connection.rs:409-470 | After judging and retaining, the tracked packets are those neither acknowledged by the header nor too old, in order and untouched. |
| Loss.StaysInFlightIff | src/shared/connection.rs:409-470 | Through an accepted packet a tracked one stays tracked if and only if the header does not acknowledge it and it was sent no longer ago than the threshold. |
| Loss.LostIsSentAgain | src/shared/connection.rs:432-457 | One that is not acknowledged and older is reported lost with its payload, and all its reliable and ordered messages are back in the send queues. |
| Loss.LossesAreReported | src/shared/connection.rs:445-455 | There is one report for every such packet and no other, in the order in which they were sent. |
| Loss.CountersAreExact | src/shared/connection.rs:409-481 | An accepted packet adds to the acknowledged and lost counters exactly the number of packets it acknowledges and finds lost, and one to the received ones, modulo 32 bits; the first packet clears the losses. |
| Loss.LossIsRepaired | src/shared/connection.rs:409-607 | Over every run from the call that built a packet whose number was not in flight: if nothing was accepted that decides about it, the first accepted packet that does not acknowledge it and comes later than the threshold after that call queues its messages again and reports it. |
| Lifetimes.AcceptedIff | src/shared/connection.rs:381-391 | A packet is processed if and only if it has 14 bytes, the protocol header, and finds the connection connecting, closing, or connected and it is no closure and newer; a closure closes a connected one; anything else changes nothing. |
| Lifetimes.AcceptedEvents | src/shared/connection.rs:653-699 | The events of an accepted packet: connected if it is the first, then one per packet found lost, in order. |
| Lifetimes.LostIff | src/shared/connection.rs:729-747 | An attempt to send finds a connected peer lost if and only if nothing was received, or nothing sent, for longer than the drop threshold; it reports which, and sends nothing. |
| Lifetimes.ClosedIff | src/shared/connection.rs:749-761 | A closing connection is closed if and only if nothing was received for longer than the closing threshold; it reports that, and sends nothing. |
| Lifetimes.FailsIff | src/shared/connection.rs:715-727 | A connecting one fails if and only if it waited for longer than the initial threshold; it reports that, and sends nothing. |
| Lifetimes.BuiltIff | src/shared/connection.rs:488-515 | A packet is built if and only if the connection stays open and its updated limiter is in good mode or at the start of its cycle; a change of mode is the only event. |
| Lifetimes.ClocksAreLast | src/shared/connection.rs:393-394 | Over every run the clocks that count are those of the last accepted packet, and of the last one built and taken by the socket, since the last start. |
| Lifetimes.SilenceEndsIt | src/shared/connection.rs:701-747 | So over every run a connected peer is lost at an attempt to send if and only if that comes later than the threshold after either of them. |
| Lifetimes.WaitingEnds | src/shared/connection.rs:701-761 | And a closing or connecting one ends if and only if it comes later than its threshold after the last accepted packet, or the start. |
| Outgoing.PacketIs | src/shared/connection.rs:517-573 | Byte by byte: header, id, and while closing the closure bytes alone, with all messages kept; otherwise its number, the last accepted one, and a field that acknowledges exactly the remembered numbers up to 32 behind. |
| Outgoing.PacketIsFull | src/shared/connection.rs:569-573 | If all payloads are shorter than 65536 bytes: the packet keeps its limit, and no front message it leaves in a queue would still have fitted. |
| Outgoing.BuildingDismisses | src/shared/connection.rs:619-620 | Received messages are dropped by exactly those attempts to send that build a packet. |
| Outgoing.AlwaysCounted | src/shared/connection.rs:480-481 | Over every run the packets received are the number accepted, modulo 32 bits, and the next packet number is the number sent, modulo 256. |
| Connections.OperationsKeepValid | src/shared/connection.rs:381-625 | In every reachable state the tracked packets are all pending, with their bytes, under pairwise distinct numbers; the ack queue holds at most 32; the marks are the heap's ids. |
| ConnectionObjects.Connection.constructor | src/shared/connection.rs:221-251 | A new connection is connecting, with empty queues and counters. |
| ConnectionObjects.Connection.ReceivePacket | src/shared/connection.rs:381-485 | A packet changes the state as `Received` specifies: gate, header, verdicts, requeueing, delivery and ack queue, in this order. |
| ConnectionObjects.Connection.UpdateReceiveState | src/shared/connection.rs:653-699 | Which packets pass, by protocol header, state, closure bytes and recency, and the state and event they lead to. |
| ConnectionObjects.JudgeSentPackets | src/shared/connection.rs:409-457 | The loop over the tracked packets marks, counts, requeues and reports exactly by the verdicts. |
| ConnectionObjects.RetainUnknown | src/shared/connection.rs:470 | Keeps exactly the pending entries, in order. |
| ConnectionObjects.Connection.SendPacket | src/shared/connection.rs:488-625 | Timeouts, congestion check, rate limit, header, packing, tracking and counters, as `Transmitted` specifies; returns the bytes the socket took. |
| ConnectionObjects.Connection.UpdateSendState | src/shared/connection.rs:701-765 | Which timeout ends the connection in each state, with which event. |
| ConnectionObjects.Connection.UpdateCongestion | src/shared/connection.rs:500-510 | Updates the limiter, and reports a change of its mode exactly when it changed. |
| ConnectionObjects.Connection.BuildPacket | src/shared/connection.rs:517-573 | Header bytes, then the closure data alone while closing, otherwise acknowledgements and messages. |
| ConnectionObjects.Connection.SendAckRequired | src/shared/connection.rs:768-770 | True exactly if no tracked packet has the number. |
| ConnectionObjects.Connection.Events | src/shared/connection.rs:368-378 | Hands out the queued events and then one per received message, once. |
| Connections.DrainedIsAll | src/shared/connection.rs:368-378 | What is handed out is the queued events, then the data of each received message, in order; nothing else changes, and neither is handed out again. |
| ConnectionObjects.Connection.Reset | src/shared/connection.rs:628-643 | Everything but id, address and queued events is as in a new connection. |
| Lifetimes.RestartIs | src/shared/connection.rs:628-643 | Field by field: id, address and queued events stay, the clocks start now, the limiter is good with a delay of 1000, and all else is zero or empty. |
| ConnectionObjects.Connection.Close | src/shared/connection.rs:646-648 | The state becomes closing, from any state. |
| Sessions.NextPacketCarries | src/shared/connection.rs:569-607 | If all payloads are shorter than 65536 bytes: what a peer parses from the built packet, together with what stays queued, is the former queue, per kind and in order. |
| Sessions.NextPacketFits | src/shared/connection.rs:569-573 | If all payloads are shorter than 65536 bytes: a built packet never exceeds the configured maximum. |
| Sessions.PacketNamesConnection | src/shared/connection.rs:281-291 | The id that a server reads from a built packet is the id of the connection that built it. |
| Sessions.ClosingPacketAcceptedIff | src/shared/connection.rs:653-699 | A packet of a closing connection is accepted by a peer if and only if that is closing or connecting, and a connecting one becomes connected; a connected peer closes and judges nothing of it; one that is over ignores it. |
| AckHeader.ClosureAcks | src/shared/connection.rs:33-36 | Read as a header the closure bytes acknowledge 128 and the numbers at an odd distance of at most 31 behind it, and no others. |
| Sessions.ClosureReadAsAcks | src/shared/connection.rs:409-430 | To a peer that accepts it the closure packet acknowledges exactly those numbers. |
| Sessions.ClosureForgets | src/shared/connection.rs:409-470 | So a closing or connecting peer stops tracking exactly its packets with those numbers, as if they had arrived. |
| Sessions.VerdictsPartition | src/shared/connection.rs:409-470 | The messages in the tracked packets are split without loss or repetition into acknowledged, lost and pending ones. |
| Sessions.Conservation | src/shared/connection.rs:381-625 | Over every run of sending payloads shorter than 65536 bytes, receiving, packet loss, closing and resetting: each reliable or ordered message given to `send` since the last reset is, as a multiset with order id, size and data intact, in exactly one of the send queue, a tracked packet, an acknowledged packet, or a packet skipped as a duplicate number. |
| Oversized.PayloadSurvivesIff | src/shared/message_queue.rs:161-168 | A message survives the wire, and is charged the bytes it takes, if and only if its payload is shorter than 65536 bytes. |
| Oversized.OversizedStaysQueued | src/shared/message_queue.rs:166 | A longer one is conserved only as long as it has not left the send queue. |
| Oversized.ConservedIffSmall | src/shared/message_queue.rs:166 | A message that fits a packet is conserved over all later runs if and only if its payload is shorter than 65536 bytes. |
| Sessions.ReceivedShape | src/shared/connection.rs:381-485 | An accepted packet leaves the order-preserving filter of the tracked packets and requeues the lost ones; a refused one changes only state and events. |
| SessionTraces.Accounting | src/shared/connection.rs:409-470 | Over every run, acknowledged + lost + in flight + skipped packets equal the packets sent, modulo the counters' 32-bit wrap-around. |
| SessionTraces.AckQueueIsNewest | src/shared/connection.rs:473-478 | Over every run the ack queue is the last min(32, n) accepted numbers, newest first, and the ack number the last of them. |
| SessionTraces.StateIsDetermined | src/shared/connection.rs:653-765 | The life cycle events, and whether `close` was called, leave no doubt about the state. |
| SessionTraces.LifecycleTraces | src/shared/connection.rs:653-765 | Over every run without a reset the life cycle is the specified one throughout if and only if `close` is called only while open: without a close nothing, failed to connect, or connected and then at most one of lost and closed by the peer; after a close, possibly connected, then at most closed by this side. |
| SessionTraces.NothingAnyMore | src/shared/connection.rs:653-765 | A connection that is over accepts, sends and reports nothing, and stays as it is. |
| SessionTraces.TerminalIsFinal | src/shared/connection.rs:653-765 | Over every run a connection that is over stays over if and only if it is neither closed nor reset, and then its packets, counters and reported events never change. |
| SessionTraces.CloseRevives | src/shared/connection.rs:646-648 | Except that `close` is unconditional: a connection that is over opens again and reports its closure once more after the timeout. |
| SessionTraces.CongestionAlternates | src/shared/connection.rs:500-510 | Over every run without a reset the congestion events alternate, starting with true, and the last one is the limiter's mode. |
| SessionTraces.EveryRun | src/shared/connection.rs:221-251 | Every run of a new connection keeps the tracked packets valid, the counters accounted for and the ack queue the newest numbers; without a reset its congestion events alternate, and its life cycle is the specified one if and only if `close` is called only while open. |
| RateLimiting.BinaryRateLimiter.Update | src/shared/binary_rate_limiter.rs:66-150 | The update in place is the specified one, with one clock reading per call. |
| RateLimiting.MaxTickIsThree | src/shared/binary_rate_limiter.rs:54-55 | The divisor of the send rate is three for every rate. |
| RateLimiting.ModeExact | src/shared/binary_rate_limiter.rs:66-141 | Good mode ends if and only if the round trip time exceeds 250; bad mode ends if and only if more than the delay has passed since the last such reading, this one included. |
| RateLimiting.RecoversIff | src/shared/binary_rate_limiter.rs:131-141 | Over every run: in bad mode after k drops, a reading returns to good mode if and only if it is at most 250 and comes more than min(1000 * 2^k, 60000) ms after the last one above. |
| RateLimiting.DelayCountsDrops | src/shared/binary_rate_limiter.rs:72-132 | After k drops into bad mode the delay is exactly min(1000 * 2^k, 60000), for every sequence of readings: nothing ever halves it. |
| RateLimiting.ReturnsTakeTime | src/shared/binary_rate_limiter.rs:134-141 | Completing k returns to good mode takes more than the sum of the first k delays, for every round trip time and monotone clock. |
| RateLimiting.CongestedSendsOneInThree | src/shared/binary_rate_limiter.rs:143-160 | Over any N updates in bad mode sending is allowed between floor(N/3) and ceil(N/3) times. |
| Ticking.TickTimer.EndTick | src/shared/ticker.rs:56-91 | Unless the tick underflows, overflow and sleep are the specified ones. |
| Ticking.UnderflowsIffNegativeCorrection | src/shared/ticker.rs:69-89 | A tick underflows if and only if recovery is on and its slack times the rate, as scaled and rounded by the code, is negative. |
| Ticking.ExactRates | src/shared/ticker.rs:72-75 | But for rounding that product is negative if and only if it is -1 nanosecond or less, and at a rate of 1.0 or more it is the whole slack. |
| Ticking.TickRecoversIff | src/shared/ticker.rs:71-85 | A quick tick makes up for its whole slack if and only if the scaled slack is no smaller, whatever the rounding. |
| Ticking.DriftLaw | src/shared/ticker.rs:56-91 | Over any run with recovery on and any scaling and rounding of the corrections, time taken plus slept is N delays plus the overflow gathered, so the mean rate is the target whenever the overflow is back where it was; no tick underflows if and only if no slack scales below zero. |
| Ticking.DriftWithoutRecovery | src/shared/ticker.rs:61-64 | Without recovery the excess of every slow tick is lost for good. |
| Ticking.QuickTicksRecover | src/shared/ticker.rs:71-85 | Over quick ticks the overflow shrinks by what they may recover and stops at zero. |
| Ticking.FullRecovery | src/shared/ticker.rs:71-85 | If every tick recovers its whole slack, the overflow shrinks by the slack of the ticks and stops at zero. |
| Statistics.StatsCollector.SetBytesSent | src/shared/stats.rs:88-93 | Replaces the current bucket and adjusts the sum by the bucket that leaves the window. |
| Statistics.StatsCollector.Reset | src/shared/stats.rs:115-121 | All buckets and sums are zero; the position stays. |
| Statistics.PushSlides | src/shared/stats.rs:88-106 | One value set per tick slides the window of the ring by one. |
| Statistics.SentIsWindowSum | src/shared/stats.rs:88-121 | Over every run with one set per tick and any resets, the reported value is the sum of the last `send_rate` values since the reset, and no subtraction goes below zero. |
| Statistics.ReceivedIsWindowSum | src/shared/stats.rs:96-121 | The same for bytes received when every tick sets them. |
| Statistics.SkipIsExactIff | src/shared/stats.rs:96-106 | A tick that sets nothing counts as zero bytes if and only if the value leaving the window and the one left in its slot are both zero. |
| Statistics.ReceivedIsExactIff | src/shared/stats.rs:96-121 | Over every run the bytes received are the window sum throughout if and only if ticks are skipped only in that silence. |
| Statistics.ReceivedUnderflowsIff | src/shared/stats.rs:96-101 | After every run, setting the bytes received underflows if and only if more would have been taken out of the sum, in terms of what each tick set, than was ever added. |
| Statistics.SkippedReceiveUnderflows | src/shared/stats.rs:96-101 | A run with a skipped tick after which the subtraction goes below zero. |
| Endpoints.AcceptedIffNewer | src/shared/connection.rs:679-693 | A connected receiver accepts a packet within 127 numbers of the newest accepted one if and only if it is newer and its bytes do not look like a closure. |
| Collision.HeaderCollidesIff | src/shared/connection.rs:534-567 | A connection that is not closing builds the closure bytes if and only if its next number is 0, the last accepted one is 128, and of the 32 numbers before that it remembers exactly those at an odd distance. |
| Collision.CollisionClosesPeer | src/shared/connection.rs:679-685 | A connected peer takes a packet for a closure, closes and processes nothing of it, if and only if the header has these bytes. |
| Collision.FirstPacketCloses | src/shared/connection.rs:679-685 | A run in which this happens: a new connection hears 97, 99, .., 127 and 128, and its first packet closes its peer. |
| Endpoints.AcceptedAlwaysIncrease | src/shared/connection.rs:679-693 | Over every run between two endpoints in which no packet is more than 127 numbers off, the accepted numbers strictly increase, so none is processed twice. |
| Endpoints.AckedWasAccepted | src/shared/connection.rs:409-430 | A number that a header acknowledges, and that it cannot mistake for another one, had been accepted when the header was built. |
| Endpoints.NoFalseAckEver | src/shared/connection.rs:409-430 | Over every run on a network that loses, duplicates and reorders, every packet the sender takes for acknowledged was accepted by the peer, as long as the packets in flight do not alias when an answer is accepted; for an answer built before the peer accepted anything that means no packet in flight with byte 0. |
| Endpoints.FreshHeader | src/shared/connection.rs:541-561 | A header built before anything was accepted acknowledges number 0 and no other. |
| Endpoints.FreshAnswerConfirmsNothingIff | src/shared/connection.rs:541-561 | What a peer sends before it has accepted anything confirms nothing if and only if no packet in flight has byte 0. |
| Endpoints.FreshPeerAcksPacketZero | src/shared/connection.rs:541-542 | A run of three steps in which the first packet is taken for acknowledged though the peer accepted nothing. |
| Delivery.NothingIsEverLost | src/shared/connection.rs:409-470 | Over every orderly run between two new endpoints (payloads shorter than 65536 bytes, no aliasing, no number reused in flight) each reliable or ordered message is still queued, still in flight, or in a packet the peer accepted. |
| Ordinals.NextLabelled | src/shared/connection.rs:569-607 | Every step keeps each ordered message in the send queue and in every packet ever built equal to the one given under its ordinal, through packing, loss and requeueing. |
| Ordinals.NextOnce | src/shared/connection.rs:409-470 | Every orderly step keeps each ordinal in exactly one place: the send queue, a packet in flight, or a confirmed packet. |
| OrderedStreams.PacketDelivers | src/shared/message_queue.rs:242-251 | A packet whose ordinals are on time adds to the receive queue, among others, exactly the ordered messages by which the longest prefix grew. |
| OrderedStreams.IdsDetermineOrdinals | src/shared/message_queue.rs:348-351 | The twelve-bit ids of a packet that is on time determine its ordinals. |
| OrderedStreams.OrderedEndToEnd | src/shared/message_queue.rs:36-41 | Over every run between two new endpoints in which payloads are shorter than 65536 bytes and ordinals arrive on time, through packing, the wire, loss and retransmission: the ordered messages that enter the receive queue are a prefix of those given, in order, once each, and the longest one, for the prefix describes the ordinals of the accepted packets. |
| OrderedStreams.NetworkIsGenuine | src/shared/connection.rs:569-607 | Over every run with payloads shorter than 65536 bytes, no packet in the network, however old, carries an ordered message that was not given to the sender. |
| OrderedStreams.DeliverAllUnordered | src/shared/message_queue.rs:242-251 | Of a packet exactly the reliable messages, in order, and exactly the instant ones, in order, enter the receive queue. |
| EndToEnd.OrdinalsConserved | src/shared/connection.rs:409-470 | Over every orderly run between two new endpoints each ordinal is exactly once queued, in flight or confirmed. |
| EndToEnd.ReliableArrives | src/shared/message_queue.rs:31-34 | Over every orderly run each reliable message given is, as a multiset, still queued, still in flight, or has entered the receive queue of the peer. |
| EndToEnd.EnteredIsAccepted | src/shared/message_queue.rs:242-251 | Over every run with payloads shorter than 65536 bytes the reliable and the instant messages that entered the receive queue are those of the accepted packets, as multisets. |
| EndToEnd.IdleMeansDelivered | src/shared/message_queue.rs:36-41 | Once an orderly and timely run leaves the sender with nothing ordered queued and nothing in flight, the receiver has been given the whole stream, in order and once each. |
| Handouts.HandedOutIff | src/shared/connection.rs:368-378 | Over every run: what the receiving application was handed, and what waits, is the data of all that entered the receive queue, in order, if and only if no packet is built while a message waits. |
| Handouts.SaidIsGiven | src/shared/connection.rs:363-365 | The messages given carry, kind by kind and in order, the data of the calls of `send`. |
| Handouts.SaidIsTold | src/shared/message_queue.rs:36-41 | From call to call: after an orderly and timely run that ends idle, with an attentive receiver, its application was handed all that entered, and the ordered ones among that are the data said, in order and once each. |
| Servers.ReceiveAllAgrees | src/server.rs:338-404 | Receiving any datagrams keeps the two maps and the list in agreement. |
| Servers.ServeAllExact | src/server.rs:276-297 | A pass over the connections in any order gives each exactly one turn, lists exactly those that are over, and keeps the maps in agreement. |
| ServerRuns.MapsAlwaysAgree | src/server.rs:151-404 | In every reachable state, also when the caller closes, resets or uses a connection, the maps have equal keys, each connection has the id and address it is filed under, and the list names existing connections, once each. |
| ServerRuns.OrderDoesNotMatter | src/server.rs:278-297 | Connections, list and bytes sent do not depend on the order in which the map is iterated. |
| ServerObjects.Server.Listen | src/server.rs:199-219 | Succeeds once, and only then lets the server receive. |
| ServerObjects.Server.AcceptReceive | src/server.rs:223-259 | Takes in all datagrams once per round, sets the bytes received, and hands out one event at a time. |
| ServerObjects.Server.ReceiveConnectionPacket | src/server.rs:338-404 | The address follows accepted packets only; an unknown id makes a connection whatever becomes of its packet. |
| ServerObjects.Server.MapConnectionEvents | src/server.rs:409-425 | All events of the connection are appended under its id, and taken from it. |
| ServerReports.DatagramReports | src/server.rs:338-425 | A datagram with header and id tells: what was pending; opened, for a first packet, and one loss per packet found lost, or closed by remote for a closure; then the data of the waiting messages, in order. The address becomes the sender's if and only if the connection is new or the packet passes. |
| ServerReports.TurnReports | src/server.rs:278-297 | A turn tells nothing of a connection that stays open; otherwise what was pending, then lost and by whom, closed by this side, or the unreachable arm, as its state and the clocks say, then its messages; and exactly then it is listed. |
| ServerReports.PassReports | src/server.rs:276-297 | A round tells what the turns tell, one after the other, each depending on its own connection alone. |
| ServerReports.TurnBytes | src/server.rs:284-288 | A turn counts the length of its packet, at least 14, if one is built and the socket takes it, and otherwise nothing. |
| ServerReports.ForeignIsIgnored | src/server.rs:236-243 | A datagram shorter than 8 bytes or without the protocol header changes nothing and counts for nothing. |
| ServerReports.DatagramsInOrder | src/server.rs:236-245 | Datagrams are taken in one by one, in order, and the bytes received are the sum of the lengths of those not ignored. |
| ServerReports.ListedAreForgotten | src/server.rs:270-274 | A round forgets exactly the connections on the list, and leaves the others and their addresses alone. |
| ServerObjects.Server.RemoveDropped | src/server.rs:270-274 | Every listed connection is found in the map, so that its removal cannot fail, and is gone from both maps. |
| ServerObjects.Server.Send | src/server.rs:267-314 | One round: former drops are gone, every other connection had one turn, the list names exactly those now over, and the reported bytes sent are the sum over the last `send_rate` rounds. |
| ServerObjects.Server.Shutdown | src/server.rs:318-335 | Maps, list, events, statistics and reported figures are empty, once. |
| ServerEvents.FirstPacketConnectsIff | src/server.rs:374-398 | A first datagram establishes its connection if and only if it holds a whole packet header. |
| ServerEvents.TurnPanicsIff | src/server.rs:290-295 | A turn reaches the unreachable arm of the event mapping if and only if the connection is still connecting and its time has run out. |
| ServerEvents.PanicsIff | src/server.rs:276-297 | Over every run, resets by the caller included, the unreachable arm is not reached if and only if at the start of every round no connection that is kept has been connecting for longer than the time to connect. |
| ServerEvents.NeverUnreachable | src/server.rs:409-425 | No run in which every datagram that names a connection holds a whole header, and the caller resets no connection, reaches that arm. |
| ServerEvents.ResetPanics | src/server.rs:151-163 | A caller that resets a connection reaches it with a late round. |
| ServerEvents.EightBytesPanic | src/server.rs:418 | A datagram of eight bytes and a late round reach it. |

## Left out

- src/client.rs: maps the events of one connection and adds no state that is not modelled for connection and statistics.
- Packet modifiers: user code; packets are as src/shared/noop_packet_modifier.rs leaves them.
- Sockets, the clock, sleeping and random ids: parameters; a socket accepts a packet or fails, and `end_tick` returns the time to sleep.
- Clock readings: one per operation, so that two readings within one call do not differ.
- The smoothed round trip time and the packet loss percentage: any round trip time may be passed to each send instead.
- Rounding of 32-bit floats: quotas are whole percentages of exact numbers and send rates are reals; the scaled slack of a tick is an arbitrary function, so its rounding is covered.
- `set_config` while running: no claim is made about objects whose configuration changes.
- Bit operations: shifts and masks are written as arithmetic on nibbles, bytes and words.
- The overflow of the 32-bit byte sums in the statistics and in a server round: the sums are unbounded.
- The layout of `BinaryHeap`: a set of messages with a raw minimum; which of several messages with one id comes first does not arise, since ids in the heap are unique.
- The server's connections: the map owns them, so it holds their values; the in-place update of a connection is proved for the class in ConnectionObject.
- The server's ticker, its local address and the errors of binding: not part of the server's state here.
- Endpoints that close or reset: the results between two endpoints are for connections that stay open or time out.
- ServerObjects.Server.AcceptReceive: requires that the sum of the bytes received does not underflow, which `ReceivedIsExactIff` and `ReceivedSafe` characterise, because nothing is specified for the panic.
- Ticking.TickTimer.EndTick: requires that the tick does not underflow, because nothing is specified for the panic; `UnderflowsIffNegativeCorrection` says exactly when it would.
- Connections.ConfigValid: requires quotas that fit the packet and room for the header, without which the subtractions at src/shared/message_queue.rs:431 and src/shared/connection.rs:572 underflow.
- Sessions.NextPacketCarries: assumes payloads shorter than 65536 bytes, as do `NextPacketFits` and `Conservation`; `PayloadSurvivesIff` and `ConservedIffSmall` show that longer ones break them.
- Sessions.NextPacketFits: assumes payloads shorter than 65536 bytes, see `PayloadSurvivesIff`.
- Sessions.Conservation: assumes payloads shorter than 65536 bytes, see `ConservedIffSmall`.
- Endpoints.NoFalseAckEver: assumes that packets in flight do not alias when an answer is accepted; with eight bits two packets 256 apart look the same.
- Delivery.NothingIsEverLost: assumes short payloads, that answers arrive before their numbers alias and that no number is reused while it is in flight; without it a byte stands for two packets.
- OrderedStreams.OrderedEndToEnd: assumes short payloads and that ordinals arrive within 2047 of the expected one and uncover no hidden run, the latter of which `OrderedDelivery` shows to be necessary; nothing is assumed of what is on the wire.
- ServerRuns.MapsAlwaysAgree: a caller that borrows a connection may also receive or send on it itself, or change its id, address or configuration; these are not among the actions of a run.
- Loss.LossIsRepaired: the number of the packet must not be in flight when it is built; otherwise the code does not track it, and it is neither acknowledged nor sent again (the skipped packets of `Conservation`).
- Outgoing.PacketIsFull: assumes payloads shorter than 65536 bytes, see `PayloadSurvivesIff`.
- EndToEnd.EnteredIsAccepted: assumes payloads shorter than 65536 bytes, as do `HandedOutIff` and `SaidIsGiven`, because they use the runs of `OrderedEndToEnd`.
- Handouts.SaidIsTold: assumes orderly and timely runs, as `NothingIsEverLost` and `OrderedEndToEnd` do, and an application that takes its events before each packet is built, which `HandedOutIff` shows to be necessary.
