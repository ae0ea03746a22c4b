# RTP over QUIC: a model and its proofs

`roq` carries RTP packets over QUIC ("Encapsulation" section of
draft-ietf-avtcore-rtp-over-quic). On a stream goes one flow ID varint and then packets
prefixed with their length; in a datagram goes the flow ID and one packet. This project
models the core of it in Dafny and proves:

- **Codec** (`Varint`, `Framing`, `SendStream`, `ReceiveStream`, `Transfer`, `Datagram`).
  Whatever part of each write the stream takes, whatever errors it reports, and however
  reads cut the bytes up, the peer gets the flow ID and the accepted packets, in order and
  each once; of a stream cut anywhere, exactly the packets that are on the wire whole and,
  if its length is there and the stream was not reset, the part of the next one that is. The
  qlog events of both ends agree and reproduce the stream. A write schedule is a script of
  `WriteOutcome`s, a read schedule a list of chunk sizes; the theorems are for all of them.
- **Receive flow** (`FlowMachine`, `FlowInvariants`, `FlowSafety`, `FlowReads`, `Flows`). Critical
  sections, channel operations, pool operations and timer callbacks are atomic steps of any
  number of goroutines. In every reachable state: no channel is closed twice, no wake-up is
  lost, an expired deadline stops every Read that looks at it, no packet is lost, duplicated or overwritten by buffer reuse, and a completed Close
  has reached every stream there will ever be. `Flows` is the code of the critical sections,
  proved against the steps; what panics in Go is a precondition there.
- **Application to application** (`Playback`). The two together, for a stream among any others
  that feed the flow: what `WriteRTPBytes` accepted is queued and returned by the Reads of the
  peer in its order, each packet at most once, in every interleaving; and all of it exactly if
  no push of that stream finds the flow closed or full.
- **Claiming** (`FlowBuffer`, `Routing`, `Sessions`, `Claiming`). The map and queue of unknown
  flows are a bounded list in order of arrival; claiming hands over the very flow the packets
  went to, with all of them in it, and at most once per ID. The flows of `Claiming` are the
  machines of `FlowMachine`, with all their goroutines.
- **Shutdown** (`Shutdown`, `ShutdownCalls`, `ShutdownFlows`, `ShutdownLoops`, `SendFlows`,
  `LockOrder`). The first close wins, with its code; the connection is closed once, every
  Close reports the same error, exactly which flows are closed, nothing runs after Wait, and
  no interleaving of any number of calls deadlocks on the session's mutexes or races for what
  they guard.

`dafny verify dfyconfig.toml` checks the whole project.

Where the code and its comments or promises part, the model follows the code:

- `WriteRTPBytes` asks callers not to re-send a packet reported short (rtp_send_stream.go:41-45).
  A call whose flush fails reports the same `(0, err)` without having queued its packet
  (rtp_send_stream.go:51-55): `ShortReportIsAmbiguous`; `CallOutcome` says exactly when a
  packet is queued.
- `HandleDatagram` cuts at the shortest length of the flow ID instead of at the bytes parsed
  (session.go:295, 316). A flow ID in a longer form, which section 16 of RFC 9000 allows,
  leaves its tail in the packet: `LongFlowIDCorruptsPacket`, and `PayloadExactIffShortest` for
  the exact condition.
- Eviction cancels streams but not the flow's context (receive_flow_buffer.go:40), so a stream
  can register behind it that nothing will cancel: `EvictionLeavesDoorOpen`. Every stream read
  now or later is cancelled iff the context is cancelled and all streams registered now are:
  `EveryStreamCancelledIff`. A call that holds the evicted flow goes on pushing to it, and no
  one will read it: `EvictionLeavesCallBehind`, and `RoutedIsCurrentIff` for the exact
  condition.
- `NewSendFlow` and `NewReceiveFlow` test for closure and insert in separate steps
  (session.go:174-180, 187-199), so a flow can be registered behind a shutdown and stay open:
  `ReceiveFlowEscapes`, and `ReceiveFlowClosedIff` for the exact condition.
- `SendFlow.Close` deletes by ID each time it is called (send_flow.go:123, session.go:177-179).
  Closing a flow twice can free the ID of another: `DoubleCloseSharesID`, and
  `CloseKeepsExactIff` for the exact condition. A shutdown then misses that other flow:
  `SendFlowEscapes`, and `SendFlowClosedIff` for the exact condition.
- A stream that ends inside a payload delivers the cut packet, because `bytes.Buffer.ReadFrom`
  takes EOF for success (receive_flow.go:132, 160): part of `PrefixDelivery`.

## Model

| member | source | states |
|---|---|---|
| `Varint.ParseCodeword` | receive_flow.go:164-186 | decoding inverts every encoding in 1, 2, 4 and 8 bytes (section 16 of RFC 9000) and leaves what follows alone |
| `Varint.ParseSound` | receive_flow.go:126-126 | whatever parses is a codeword of a value below 2^62, and the bytes taken are exactly its encoding |
| `Varint.ParseLocal` | receive_flow.go:184-185 | parsing the bytes of the varint alone gives what parsing the whole buffer gives |
| `Varint.PrefixFree` | receive_flow.go:164-186 | no codeword is a prefix of another, whatever follows |
| `Varint.CutCodeword` | receive_flow.go:179-183 | a varint cut short does not parse |
| `Varint.EncodeShortest` | send_flow.go:29-30 | the encoding written is the shortest of all that can hold the value |
| `Varint.ParseTable` | receive_flow.go:176-185 | every byte string as a varint, byte by byte: the top two bits of the first byte give 1, 2, 4 or 8 bytes, the rest is the value in network order; too few bytes do not parse (section 16 of RFC 9000) |
| `Varint.EncodeTable` | send_flow.go:29-30 | the bytes written for every value, tag and digits |
| `Varint.Samples` | receive_flow.go:164-186 | the sample encodings of appendix A.1 of RFC 9000 |
| `Framing.NextFrame` | receive_flow.go:110-160 | a round of the reading loop consumes bytes or stops with an error |
| `Framing.ReadStep` | receive_flow.go:110-160 | a frame whose payload is there is read as such, in any prefix encoding, and reading goes on behind it |
| `Framing.ReadWholeFrames` | receive_flow.go:108-161 | any sequence of frames in any mix of prefix widths is read back frame by frame, whatever follows |
| `Framing.PrefixDelivery` | receive_flow.go:110-161 | cut at any byte: exactly the complete packets, then a proper prefix of the next if its length was complete and the stream ended in order, else nothing |
| `Framing.HowReadingEnds` | receive_flow.go:112-125 | the error reading ends with: the stream's own if it was reset, else EOF, but for one in the middle of a length |
| `Framing.WholeFramesExact` | receive_flow.go:110-161 | the number of complete frames is the largest whose images fit in the bytes there are |
| `Framing.DeliveryIsPrefix` | receive_flow.go:126-132 | what a cut stream delivers: every packet complete in it and no other, at most one proper prefix behind them, and everything if nothing is cut |
| `Framing.CutInFlowID` | session.go:334-340 | a stream that ends inside its flow ID is cancelled |
| `Framing.CompleteDelivery` | session.go:334-343 | a complete stream is read into the flow it names: all packets, in order, each once |
| `Framing.LogReproducesStream` | receive_flow.go:129-159 | without a data limit the events' data is the stream byte for byte, less an incomplete length varint at the end (and, on a broken stream, a frame whose payload did not arrive) |
| `Framing.LogsAgree` | rtp_send_stream.go:78-93 | the events the receiver logs for a complete stream are those the sender logged |
| `Framing.RawDataIs` | qlogger.go:28-36 | nothing without data logging, else the wire image up to the limit, all of it if there is none |
| `Framing.CreatedEventIs` | rtp_send_stream.go:78-92 | length and bytes of the packet's own frame, and the packet's length |
| `Framing.FrameLogged` | receive_flow.go:144-157 | the event of a whole frame has its length and bytes as on the wire, in any prefix width |
| `Framing.CutFrameLogged` | receive_flow.go:144-157 | the event of a cut frame has the length and bytes that came and the payload length announced |
| `SendStream.StreamImageAppend` | rtp_send_stream.go:57-68 | one more packet adds its frame at the end of the stream, and the flow ID ahead of the first only |
| `SendStream.CallKeeps` | rtp_send_stream.go:46-106 | wire plus pending stays the image of the accepted packets; a packet is accepted iff nothing was pending or the flush succeeded; the count returned is its payload bytes on the wire; success means all of it is; a refused packet leaves no trace |
| `SendStream.CallOutcome` | rtp_send_stream.go:46-106 | a packet is accepted iff the stream takes the whole tail without an error; success iff it then takes the whole frame without one; otherwise the Write's error, or a short write if it gave none; the wire grows by exactly what was taken |
| `SendStream.HealthyAccepts` | rtp_send_stream.go:37-45 | on a stream that takes everything, every packet is accepted and nothing is left pending |
| `SendStream.Recovers` | rtp_send_stream.go:41-45 | whatever failures came before, all packets behind the last of them are accepted |
| `SendStream.RunConsistent` | rtp_send_stream.go:46-106 | the invariant after any calls under any schedule of writes |
| `SendStream.EndToEnd` | rtp_send_stream.go:37-45 | once nothing is pending, the peer gets the flow ID and exactly the accepted packets |
| `SendStream.EndToEndCut` | rtp_send_stream.go:115-120 | for a stream that ends at any moment, closed or reset, and any part of the wire that arrives: the flow is named iff its whole ID arrived; delivered are exactly the accepted packets that arrived whole, and the part there is of the next if its length arrived and the stream was not reset |
| `SendStream.ShortReportIsAmbiguous` | rtp_send_stream.go:51-55 | the same short result comes from a call that queued its packet and from one that did not |
| `SendStream.CopyDown` | rtp_send_stream.go:101-101 | the overlapping copy in place moves the tail to the front |
| `SendStream.RTPSendStream.WriteRTPBytes` | rtp_send_stream.go:46-95 | the code does what the model of one call says, and logs the frame of an accepted packet only |
| `SendStream.RTPSendStream.WriteFrame` | rtp_send_stream.go:57-94 | framing and writing, with the tail kept and the count clamped |
| `SendStream.RTPSendStream.FillBuffer` | rtp_send_stream.go:57-68 | the buffer is flow ID if first, length, packet; the part logged is the packet's own frame |
| `SendStream.RTPSendStream.Flush` | rtp_send_stream.go:99-106 | what the stream takes of the tail leaves it; the rest stays, with an error |
| `SendStream.RTPSendStream.KeepTail` | rtp_send_stream.go:72-73 | the tail is copied, into the old array if it fits |
| `ReceiveStream.ReadByte` | receive_flow.go:172-175 | the next byte, or the stream's error only at its end, however Read cuts |
| `ReceiveStream.ReadFull` | receive_flow.go:179-183 | fills the buffer with the next bytes; EOF in the middle is an unexpected one |
| `ReceiveStream.ReadVarint` | receive_flow.go:171-186 | agrees with parsing the whole remaining stream, and returns the very bytes it was encoded in |
| `ReceiveStream.ReadPayload` | receive_flow.go:126-143 | the payload, or all there is if the stream ends first, in Reads of whatever size the buffer has room for |
| `ReceiveStream.ReadFrame` | receive_flow.go:110-160 | one round of the loop: packet, event and error as the model says |
| `ReceiveStream.ReadStream` | receive_flow.go:108-161 | packets pushed and events logged depend on the bytes only, not on how they were read |
| `ReceiveStream.ReadFlowID` | session.go:336-340 | the flow ID, read byte by byte, and nothing behind it |
| `ReceiveStream.HandleUniStream` | session.go:334-343 | cancelled with the packet error without a flow ID; otherwise read into its flow |
| `Transfer.Transfer` | rtp_send_stream.go:46-120 | both ends in code, for all packets, write schedules and read schedules: delivered equals accepted and both logs agree; unflushed, the flow is named iff its ID is on the wire, and delivered is exactly what the wire holds |
| `Playback.AcceptedIff` | receive_flow.go:71-83 | a flow accepts everything pushed, in order, iff no push finds it closed or full |
| `Playback.CapacitySuffices` | receive_flow.go:71-83 | none does if the queue has room for all packets and is not closed before the last push |
| `Playback.PlacesSound` | receive_flow.go:71-83 | whoever else pushes, what one goroutine pushes is accepted in its order, each at most once, and all of it iff none of its own pushes finds the flow closed or full |
| `Playback.PlacesApart` | receive_flow.go:71-83 | no place among the accepted packets belongs to two goroutines |
| `Playback.SentIsRead` | receive_flow.go:195-223 | from sender to Reads, for all write schedules, all interleavings and any other producers on the flow: of the accepted packets those that arrived are queued in order, all iff all were pushed and none of these pushes was dropped; each Read returns the packet it took or reports it too long |
| `Playback.StreamAllRead` | receive_flow.go:100-161 | with room for everything ever pushed and no close before it, every packet of the stream is returned by a Read, in order, whatever other streams and datagrams brought |
| `Playback.EveryPacketRead` | receive_flow.go:188-213 | the single-stream corollary: if nothing else feeds the flow, the results of the Reads in order of taking are exactly the packets the sender accepted |
| `Playback.NextRead` | receive_flow.go:195-213 | a Read of a flow with a packet queued and no expired deadline can return it |
| `Datagram.DatagramRoundTrip` | send_flow.go:45-66 | a datagram sent reaches the flow with that ID with exactly the packet, and both ends log it alike |
| `Datagram.CutInBounds` | session.go:316-316 | the cut never leaves the datagram |
| `Datagram.PayloadExactIffShortest` | session.go:294-318 | payload and logged length are right iff the flow ID has its shortest form; otherwise its tail is delivered too; the whole datagram is logged |
| `Datagram.InvalidIffTruncated` | session.go:295-299 | a datagram is invalid iff it does not hold a whole flow ID |
| `Datagram.LongFlowIDCorruptsPacket` | session.go:316-316 | flow 5 in two bytes: every packet gets an extra first byte |
| `FlowInvariants.DeadlineStep` | receive_flow.go:230-270 | every step keeps: a deadline channel is closed iff replaced or due, expired iff due, a set timer is still to fire |
| `FlowInvariants.SoundAfterSet` | receive_flow.go:230-259 | setting a deadline wakes the old one's waiters and installs the new one, expired iff in the past |
| `FlowInvariants.SoundAfterFire` | receive_flow.go:253-257 | a callback that runs late changes nothing |
| `FlowInvariants.OwnStep` | receive_flow.go:71-83 | every step keeps buffers in one place each |
| `FlowInvariants.QueueStep` | receive_flow.go:71-83 | every step keeps the history of the queue |
| `FlowInvariants.RegStep` | receive_flow.go:85-106 | every step keeps the registered streams those being read, cancelled once a Close is done |
| `FlowSafety.InvRun` | receive_flow.go:71-308 | all four invariants in every state of every run |
| `FlowSafety.NeverPanics` | receive_flow.go:239-270 | no channel is closed twice and nothing is sent on the closed queue |
| `FlowSafety.DeadlineProtocol` | receive_flow.go:225-270 | the current deadline is expired iff its own time came; every replaced channel is closed; Read times out only on a deadline that came due |
| `FlowReads.ExpiredRun` | receive_flow.go:197-202 | from any state with the deadline expired, in every run that does not set it again, a Read that starts or starts over waits no more and takes no packet, even if some are queued; it can only time out on the deadline in force |
| `FlowReads.ExpiredReturns` | receive_flow.go:200-202 | and its next step does |
| `FlowReads.WokenTimesOut` | receive_flow.go:209-211 | a Read waiting on the deadline that expires is woken and then times out on it |
| `FlowReads.ReadsSeeDeadlineInForce` | receive_flow.go:196-202 | a Read times out only while the deadline in force has expired, and waits only on one that has not |
| `FlowSafety.NoLostWakeUp` | receive_flow.go:195-213 | a waiting Read is stuck iff queue empty, flow open and its channel the current, unexpired one |
| `FlowSafety.QueueHistory` | receive_flow.go:195-223 | accepted packets are those taken in order followed by those queued, within capacity; Read returns what was pushed; it reports closure with an error, after everything was taken |
| `FlowSafety.PushesWhatWasWritten` | receive_flow.go:127-132 | what is pushed is what was written since the buffer was got, whoever had it before |
| `FlowReads.DrainedRead` | receive_flow.go:204-207 | a Read of a closed flow with nothing left in it reports the closure with an error |
| `FlowSafety.PushDropsIff` | receive_flow.go:69-83 | a packet is dropped, its buffer recycled, iff the flow is closed or the queue full |
| `FlowSafety.EachPacketOnce` | receive_flow.go:203-208 | no packet goes to two Reads |
| `FlowSafety.BuffersOwned` | receive_flow.go:127-131 | pool, queue and hands of readers and writers are disjoint and duplicate-free |
| `FlowReads.BufferHandedOn` | receive_flow.go:215-223 | no step loses a buffer: it stays in hand or goes to the queue or the pool |
| `FlowReads.AbandonedIsGone` | receive_flow.go:132-143 | but one whose payload could not be read is neither queued nor pooled |
| `FlowSafety.CloseReachesEveryStream` | receive_flow.go:86-98 | after a Close returned, any stream read now or later is one it cancelled |
| `FlowSafety.ClosedRun` | receive_flow.go:285-308 | after cancellation nothing registers; after closing nothing is accepted |
| `FlowReads.RefusedAfterCancel` | receive_flow.go:89-96 | a stream that comes after cancellation is never read, and is cancelled when readStream returns |
| `FlowReads.ReadUntilLeave` | receive_flow.go:97-106 | a stream is read and registered until its goroutine leaves, however many packets it pushes |
| `FlowReads.DatagramPushedOnce` | session.go:313-318 | a datagram is pushed once |
| `FlowReads.EvictionCancelsRegistered` | receive_flow.go:276-282 | eviction cancels the streams registered at that time, for good |
| `FlowSafety.EvictionLeavesDoorOpen` | receive_flow_buffer.go:36-44 | a run from a new flow: it is evicted, and then a stream registers and is read uncancelled |
| `FlowSafety.EveryStreamCancelledIff` | receive_flow.go:86-98 | in every reachable state: whoever reads a stream now or in any later state has had it cancelled iff the context is cancelled and every registered stream has been |
| `FlowSafety.LateStream` | receive_flow.go:89-98 | while the context is not cancelled a new stream registers and is read uncancelled |
| `Flows.ReceiveFlow.GetBuffer` | receive_flow.go:127-128 | an empty buffer that is in no one else's hands; the packets queued stay as they are |
| `Flows.ReceiveFlow.Push` | receive_flow.go:71-83 | never sends on the closed queue; queues the packet behind the others iff the flow is open and not full, else pools its buffer; the machine's step |
| `Flows.ReceiveFlow.PushCopy` | session.go:314-317 | the bytes of the packet are queued, whichever buffer is reused, iff the flow is open and not full |
| `Flows.ReceiveFlow.PushFrames` | receive_flow.go:108-161 | the packets of the stream are queued, as many as there is room for, and all are logged, whatever the Reads return |
| `Flows.ReceiveFlow.ReadStream` | receive_flow.go:85-162 | a cancelled flow cancels the stream and queues nothing; otherwise its packets are queued and it is not left registered |
| `Flows.ReceiveFlow.CopyPacket` | receive_flow.go:215-223 | all of the packet or nothing, the buffer pooled either way |
| `Flows.ReceiveFlow.SetReadDeadline` | receive_flow.go:230-259 | closes no channel twice; every earlier channel is closed, the new one iff its time has passed, and it has a timer iff its time is to come; the machine's step |
| `Flows.ReceiveFlow.ReplaceDeadline` | receive_flow.go:237-243 | leaves all channels there were closed, each once, and a fresh open one |
| `Flows.ReceiveFlow.ExpireDeadline` | receive_flow.go:264-270 | expires and closes the channel only if it is the current one and not yet closed |
| `Flows.ReceiveFlow.TimerCallback` | receive_flow.go:253-257 | expires its own deadline; a late one changes nothing |
| `Flows.ReceiveFlow.CloseWithError` | receive_flow.go:276-282 | cancels exactly the registered streams |
| `Flows.ReceiveFlow.CloseBuffer` | receive_flow.go:296-308 | closes the queue once under any number of calls and leaves it no deadline timer; what is queued stays |
| `Flows.ReceiveFlow.Close` | receive_flow.go:285-292 | closed and cancelled, every registered stream too, and the queued packets still there |
| `FlowBuffer.ReceiveFlowBuffer.GetOrCreate` | receive_flow_buffer.go:30-49 | the flow there is, or a new one, whose ID goes to the end of the queue; only a full queue loses its first ID, whose flow is evicted, and no other flow changes |
| `FlowBuffer.ReceiveFlowBuffer.EvictOldest` | receive_flow_buffer.go:36-44 | ends with room; the queue is as it was, without its first ID if it was full, and the streams of that flow are cancelled |
| `FlowBuffer.ReceiveFlowBuffer.Pop` | receive_flow_buffer.go:54-69 | removes the entry wherever it is, the others keep their order |
| `FlowBuffer.AgreeRemove` | receive_flow_buffer.go:57-67 | map and queue still agree after a removal, on the list without that entry |
| `FlowBuffer.AgreeAppend` | receive_flow_buffer.go:45-47 | map and queue still agree after an insertion, on the list with one more entry |
| `Routing.RouteKeeps` | session.go:282-289 | an ID stays registered or waiting, not both; it leads to the flow it led to, or a new one |
| `Routing.RouteEvictsOldest` | receive_flow_buffer.go:36-47 | routing forgets only the oldest flow of a full buffer; maxLen - 1 newer ones stay |
| `Routing.RouteAppends` | receive_flow_buffer.go:36-47 | a new flow goes last and the others keep their order of arrival |
| `Routing.ClaimKeeps` | session.go:190-200 | claiming registers the waiting flow, or a new one, and redirects no other ID |
| `Sessions.Session.FlowFor` | session.go:282-289 | the code routes as the table says; registered flows do not change, and of the waiting ones only the oldest of a full buffer |
| `Sessions.Session.NewReceiveFlow` | session.go:186-201 | the session error if closed, the duplicate error if registered, otherwise the waiting flow unchanged, with the packets queued for the ID, or a new one |
| `Sessions.Session.FindFlow` | session.go:282-289 | routing moves no packet: the flow found holds what was queued for the ID |
| `Sessions.Session.Deliver` | session.go:313-317 | the payload is queued behind what the flow of its ID holds, iff that is open and not full; the packets of all other flows stay |
| `Sessions.Session.HandleDatagram` | session.go:294-318 | closes the session, first code wins, or queues the payload in the flow of its ID and logs the datagram; no other flow's packets are touched |
| `Sessions.Session.ReadInto` | session.go:324-332 | the packets of the stream are queued behind what the flow of its ID holds; no other flow's packets are touched |
| `Sessions.Session.HandleUniStream` | session.go:334-343 | cancelled without a flow ID; otherwise its packets end up in the queue of the flow it names, as many as there is room for |
| `Claiming.InvStep` | session.go:186-201 | every step, of the table or inside a flow, keeps table, flows and calls consistent |
| `Claiming.UntouchedStep` | session.go:186-201 | nothing but the application reads or closes a flow |
| `Claiming.InvRun` | session.go:282-289 | so does every run |
| `Claiming.RegisteredOrWaiting` | session.go:190-199 | in every reachable state registered and waiting IDs are disjoint and the buffer within bounds |
| `Claiming.OldestEvictedFirst` | receive_flow_buffer.go:36-47 | over whole runs: when a flow has been evicted, every flow made before it has been evicted or claimed |
| `Claiming.EvictsOldestOfFull` | receive_flow_buffer.go:36-44 | a step evicts only when it brings a new flow to a full list, and then the oldest waiting; the maxLen - 1 newer ones stay |
| `Claiming.ArriveRoutes` | session.go:282-289 | a packet goes to the flow its ID leads to, or to a new one of the session's buffer size |
| `Claiming.OneClaimPerID` | session.go:192-194 | at most one claim of an ID ever succeeds |
| `Claiming.ClaimIff` | session.go:190-200 | a claim succeeds iff the ID is not registered, and gets the flow the ID leads to or a new one |
| `Claiming.RefusedIffClosed` | session.go:187-189 | a claim is refused iff it finds the session closed |
| `Claiming.NoClaimAfterClose` | session.go:187-189 | no call that starts on a closed session ever claims a flow |
| `Claiming.ClosedIff` | session.go:212-218 | the session is closed iff a close has happened |
| `Claiming.OneFlowPerID` | session.go:282-288 | all who hold a flow for an ID hold the same one, unless theirs was evicted |
| `Claiming.RoutedIsCurrentIff` | session.go:282-288 | a call holds the flow its ID leads to iff that flow was not evicted |
| `Claiming.EvictionLeavesCallBehind` | receive_flow_buffer.go:36-48 | a run after which two calls hold different flows for one ID |
| `Claiming.ClaimWithoutStranding` | session.go:195-200 | the claim returns the flow packets have been going to; every packet it ever accepted is in its queue, in order and byte for byte, none of them read |
| `Shutdown.LoopsStep` | session.go:153-171 | the counter is the goroutines counted and not done; once started it only grows from a positive value |
| `Shutdown.InvStep` | session.go:209-256 | every step keeps the progress of the shutdown and what each call may assume |
| `Shutdown.SectionStep` | session.go:209-223 | under the mutex the shutdown moves on in order, and once finished stays finished |
| `Shutdown.ClosesConnectionOnce` | session.go:221-221 | the connection is closed at most once, with the session error's code |
| `Shutdown.ErrorIsFinal` | session.go:212-218 | the session error never changes |
| `ShutdownCalls.FirstCallerWins` | session.go:209-221 | over whole runs: the session error and the code the connection is closed with are the code given by the caller that took the mutex first |
| `ShutdownCalls.ConnErrorReported` | session.go:221-256 | every Close that returns reports what closing the connection returned |
| `ShutdownCalls.PublicCloseWaits` | session.go:238-256 | a public Close returns only after everything is closed and no goroutine of the session runs; an internal close never waits for them |
| `ShutdownCalls.CloseNeverStuck` | session.go:209-223 | an unfinished close, or the one that has the mutex, can go on, unless it waits for goroutines that still run |
| `ShutdownCalls.OpenIff` | session.go:225-229 | a call finds the session open iff the session error is not set |
| `ShutdownCalls.TurnedAway` | session.go:173-189 | once the error is set, no call that had not passed the test ever makes a flow |
| `ShutdownCalls.CreatesOnce` | session.go:180-182 | a call makes one flow, or none |
| `ShutdownLoops.LoopsLaunched` | session.go:153-171 | a started session has launched the stream loop, and ahead of it the datagram loop iff it accepts datagrams |
| `ShutdownLoops.RunningIff` | session.go:258-270 | over whole runs: every stream accepted gets one handler, and a goroutine is running iff it was launched and is not done |
| `ShutdownLoops.AllDoneAfterWait` | session.go:245-256 | when a public Close has returned, every goroutine ever launched is done and every stream accepted was handled |
| `Shutdown.ReturnedMeansFinished` | session.go:203-223 | whoever's close returned finds everything closed, both snapshots included |
| `Shutdown.CloseReportsSameError` | session.go:238-256 | all Closes, now and later, report the one connection error |
| `ShutdownFlows.ReceiveFlowsAllClosed` | session.go:220-220 | every receive flow registered before the snapshot is closed when a close returns |
| `ShutdownFlows.ReceiveFlowClosedIff` | session.go:186-220 | over whole runs: a receive flow registered when a close returns is closed iff it was registered by the time of the snapshot or the application closed it |
| `ShutdownFlows.ReceiveFlowEscapes` | session.go:187-199 | a run from a new session: the call finds it open, a close returns, and then the call registers its flow, which stays open |
| `ShutdownFlows.FlowsStep` | session.go:173-184 | every step keeps registered send flows open, each under its own ID, and what a close has left part of its snapshot |
| `ShutdownFlows.SendFlowClosedIff` | session.go:219-219 | a send flow registered before the snapshot is closed when a close returns iff the application closes it, or closes no flow that had its ID until the snapshot |
| `ShutdownFlows.SendFlowEscapes` | session.go:177-179 | a run from a new session: the ID's previous flow is closed again, a close returns, and the flow stays open |
| `Shutdown.WaitIsFinal` | session.go:245-252 | after Wait nothing runs and nothing is ever started |
| `Shutdown.WaitGroupSound` | session.go:258-270 | the counter's meaning, and Add only on a positive counter, in every reachable state |
| `SendFlows.CloseKeepsExactIff` | send_flow.go:116-126 | closing keeps the map exact (it holds the open flows, each under its ID) iff the flow is open or its ID free |
| `SendFlows.OneOpenFlowPerID` | session.go:173-184 | no two open flows share an ID as long as none is closed twice |
| `SendFlows.DoubleCloseSharesID` | session.go:177-179 | a second close lets two open flows share an ID |
| `SendFlows.SendFlow.Close` | send_flow.go:116-126 | every stream closed, the entry deleted, the flow marked |
| `SendFlows.SendFlow.WriteRTPBytes` | send_flow.go:45-66 | nothing is sent or logged on a closed flow; otherwise whoever handles the datagram delivers exactly the packet to this flow, with the same event |
| `SendFlows.SendFlowMap.GetOrInsert` | sync_map.go:20-30 | inserts iff the key is free; returns what the map then holds |
| `SendFlows.SendFlowMap.CloseAll` | sync_map.go:52-62 | ranging over a clone closes every flow though they delete themselves |
| `LockOrder.EveryEntryPointOrdered` | session.go:186-223 | every entry point takes mutexes in strict rank order, touches what they guard only while holding them, and returns them all |
| `LockOrder.Climb` | receive_flow_buffer.go:31-40 | from any lock holder, up the ranks, to one that can go on |
| `LockOrder.DeadlockFree` | session.go:190-222 | in every reachable state of any number of calls, some lock holder can go on, or no lock is held and every call can |
| `LockOrder.NoDataRace` | session.go:186-289 | in every reachable state no two calls are about to touch the same guarded state |

## Left out

- Real time: expiry is a step that may happen at any moment after the deadline is set.
- Liveness that depends on QUIC delivery, flow control or fair scheduling.
- quic_connection.go: replaced by streams and a connection that may do anything their interfaces allow.
- qlog/event.go, qlog/qlog.go: only the lengths and data put into events are modelled, not their encoding.
- options.go beyond positive sizes, errors.go beyond codes, logging, stream priorities, and the programs under examples/.
- The codes `closeWithError` of a flow cancels its streams with: the model knows which streams are cancelled.
- A Read of a stream that returns data together with an error other than EOF: here such an error comes on its own.
- Flow IDs of 2^62 and above, on which `quicvarint.Append` panics, and packets that long.
- `ReceiveFlow.Read` as code: its loop blocks on a select, so it is modelled by its steps in `FlowMachine` only.
- Concurrent `WriteRTPBytes` on one stream: the stream's lock makes calls one after the other, which is what a sequence of calls is.
- Two streams with the same ID on one connection, which QUIC rules out.
- `wg.Wait` in the lock order: it waits for goroutines, not for a mutex, and is called with no mutex held.
- Flows.ReceiveFlow.Close: states the outcome with nothing in between; what other goroutines do between its three steps is in `FlowSafety.CloseReachesEveryStream`.
- Sessions.Session.HandleDatagram: of closing the session it states the error code only; the rest of a close is in `Shutdown`.
- Flows.ReceiveFlow.ReadStream: states the outcome with nothing in between; any interleaving with other producers, Reads and closes is in `Playback`.
- Sessions.Session.HandleUniStream: likewise.
