/** The receiving side of `Session` (session.go) in code, proved against the table of `Routing`. */
module Sessions {
  import opened Common
  import opened Varint
  import opened Framing
  import opened FlowMachine
  import opened Flows
  import opened FlowBuffer
  import opened Routing
  import opened ReceiveStream
  import Datagram

  datatype SessionError = NoError | Closed(code: nat) | DuplicateFlowID

  /** Looking up the list is looking up the map. */
  lemma FindZip<F>(queue: seq<nat>, buffer: map<nat, F>, id: nat)
    requires Agree(queue, buffer)
    ensures Find(Zip(queue, buffer), id) == if id in buffer then Some(buffer[id]) else None
  {
    var l := Zip(queue, buffer);
    if id in buffer {
      var i :| 0 <= i < |queue| && queue[i] == id;
      FindAt(l, i);
    } else {
      assert forall i :: 0 <= i < |l| ==> l[i].id in queue;
      FindAbsent(l, id);
    }
  }

  lemma RegisteredNotFound<F>(t: Table<F>, id: nat)
    requires TableInv(t) && id in t.registered
    ensures Find(t.waiting, id).None?
  {
    FindAbsent(t.waiting, id);
  }

  class Session {
    const receiveBufferSize: nat
    const flowBuffer: ReceiveFlowBuffer
    var receiveFlows: map<nat, ReceiveFlow>
    /** The code the session was closed with. */
    var closedErr: Option<nat>

    ghost predicate Valid()
      reads this, flowBuffer
    {
      && flowBuffer.Valid() && TableInv(Flows())
      && (forall id :: id in receiveFlows ==> receiveFlows[id].id == id)
    }

    ghost predicate FlowsValid()
      reads this, flowBuffer, receiveFlows.Values, flowBuffer.buffer.Values
    {
      && (forall id :: id in receiveFlows ==> receiveFlows[id].Valid())
      && (forall id :: id in flowBuffer.buffer ==> flowBuffer.buffer[id].Valid())
    }

    ghost function Flows(): Table<ReceiveFlow>
      reads this, flowBuffer
      requires flowBuffer.Valid()
    {
      Table(receiveFlows, flowBuffer.Contents(), flowBuffer.maxLen)
    }

    /** The packets waiting in the flow that `id` leads to. */
    ghost function Queued(id: nat): seq<seq<byte>>
      reads this, flowBuffer, receiveFlows.Values, flowBuffer.buffer.Values
      requires FlowsValid()
    {
      if id in receiveFlows then receiveFlows[id].Packets()
      else if id in flowBuffer.buffer then flowBuffer.buffer[id].Packets()
      else []
    }

    constructor (unknownFlowBufferSize: nat, receiveBufferSize: nat)
      requires unknownFlowBufferSize > 0
      ensures Valid() && fresh(flowBuffer) && closedErr.None?
      ensures Flows() == Table(map[], [], unknownFlowBufferSize)
    {
      this.receiveBufferSize := receiveBufferSize;
      receiveFlows, closedErr := map[], None;
      flowBuffer := new ReceiveFlowBuffer(unknownFlowBufferSize);
    }

    lemma RegisteredApart()
      requires Valid()
      ensures forall k :: k in receiveFlows ==> receiveFlows[k] !in flowBuffer.buffer.Values
    {
      forall k | k in receiveFlows
        ensures receiveFlows[k] !in flowBuffer.buffer.Values
      {
        FindZip(flowBuffer.queue, flowBuffer.buffer, k);
        RegisteredNotFound(Flows(), k);
      }
    }

    /** `receiveFlow`: the flow packets for `id` go to, made if there is none. */
    method FlowFor(id: nat) returns (f: ReceiveFlow)
      requires Valid()
      modifies flowBuffer, flowBuffer.buffer.Values`cancelled
      ensures Valid() && Flows() == Route(old(Flows()), id, f) && Lookup(Flows(), id) == Some(f)
      ensures old(Lookup(Flows(), id)).None? ==> fresh(f) && f.id == id && f.State() == NewFlow(receiveBufferSize)
      ensures old(Lookup(Flows(), id)).Some? ==> old(Lookup(Flows(), id)) == Some(f)
      ensures id in receiveFlows ==> f == receiveFlows[id] && flowBuffer.buffer == old(flowBuffer.buffer)
      ensures id !in receiveFlows ==>
                && id in flowBuffer.buffer && flowBuffer.buffer[id] == f
                && if id in old(flowBuffer.buffer) then f == old(flowBuffer.buffer[id])
                   else fresh(f) && f.Valid() && f.Packets() == []
      ensures forall k :: k in flowBuffer.buffer && k != id ==>
                k in old(flowBuffer.buffer) && flowBuffer.buffer[k] == old(flowBuffer.buffer[k])
      // No flow changes but the oldest of a full buffer that has to make room.
      ensures forall k :: k in receiveFlows ==> receiveFlows[k].cancelled == old(receiveFlows[k].cancelled)
      ensures forall k :: k in old(flowBuffer.buffer) ==>
                var g := old(flowBuffer.buffer[k]);
                g.cancelled == if old(Lookup(Flows(), id)).None? && |old(flowBuffer.queue)| == flowBuffer.maxLen
                                  && k == old(flowBuffer.queue)[0]
                               then old(flowBuffer.buffer[k].cancelled) + g.streams.Keys
                               else old(flowBuffer.buffer[k].cancelled)
    {
      FindZip(flowBuffer.queue, flowBuffer.buffer, id);
      if id in receiveFlows {
        return receiveFlows[id];
      }
      RegisteredApart();
      f := flowBuffer.GetOrCreate(id, receiveBufferSize);
      RouteKeeps(old(Flows()), id, f);
    }

    /** `NewReceiveFlow`: no ID is handed out twice, and a waiting flow is handed over as it is. */
    method NewReceiveFlow(id: nat) returns (f: ReceiveFlow?, err: SessionError)
      requires Valid()
      modifies this`receiveFlows, flowBuffer
      ensures Valid()
      ensures err.NoError? <==> f != null
      ensures err == if closedErr.Some? then Closed(closedErr.value)
                     else if id in old(receiveFlows) then DuplicateFlowID else SessionError.NoError
      ensures f == null ==> Flows() == old(Flows())
      ensures f != null ==>
                && Flows() == Claim<ReceiveFlow>(old(Flows()), id, f) && id in receiveFlows && receiveFlows[id] == f
                && match old(Lookup(Flows(), id))
                   case Some(g) => f == g && f.State() == old(Lookup(Flows(), id).value.State())
                   case None => fresh(f) && f.id == id && f.State() == NewFlow(receiveBufferSize)
      ensures old(FlowsValid()) ==> FlowsValid() && (f != null ==> f.Packets() == old(Queued(id)))
    {
      hide TableInv, Agree, Zip, Find, Without, ReceiveFlow.Valid, ReceiveFlow.Packets;
      if closedErr.Some? {
        return null, Closed(closedErr.value);
      }
      if id in receiveFlows {
        return null, DuplicateFlowID;
      }
      FindZip(flowBuffer.queue, flowBuffer.buffer, id);
      f := PopOrMake(id);
      ClaimKeeps<ReceiveFlow>(old(Flows()), id, f);
      receiveFlows := receiveFlows[id := f];
      err := SessionError.NoError;
    }

    /** The flow waiting for the ID, taken out of the buffer, or a new one. */
    method PopOrMake(id: nat) returns (f: ReceiveFlow)
      requires flowBuffer.Valid()
      modifies flowBuffer
      ensures flowBuffer.Valid() && flowBuffer.Contents() == Without(old(flowBuffer.Contents()), id)
      ensures flowBuffer.buffer == old(flowBuffer.buffer) - {id} && f.id == id
      ensures if id in old(flowBuffer.buffer) then f == old(flowBuffer.buffer[id])
              else fresh(f) && f.State() == NewFlow(receiveBufferSize) && f.Valid() && f.Packets() == []
    {
      var waiting := flowBuffer.Pop(id);
      if waiting != null {
        return waiting;
      }
      f := new ReceiveFlow(id, receiveBufferSize);
    }

    /** `receiveFlow` as seen by the packets: it moves none, whichever flows come and go. */
    method FindFlow(id: nat) returns (f: ReceiveFlow)
      requires Valid() && FlowsValid()
      modifies flowBuffer, flowBuffer.buffer.Values`cancelled
      ensures Valid() && Flows() == Route(old(Flows()), id, f) && Lookup(Flows(), id) == Some(f)
      ensures FlowsValid() && f.Valid() && f.Packets() == old(Queued(id))
      ensures fresh(f) || f in receiveFlows.Values || f in old(flowBuffer.buffer.Values)
    {
      hide TableInv, Route, Lookup, Agree, Zip, ReceiveFlow.Valid, ReceiveFlow.Packets, ReceiveFlowBuffer.Valid,
           ReceiveFlowBuffer.Contents;
      f := FlowFor(id);
    }

    /** The rest of `HandleDatagram`: the payload is queued in the flow of its ID, if that is open and has room. */
    method Deliver(id: nat, payload: seq<byte>) returns (f: ReceiveFlow)
      requires Valid() && FlowsValid()
      modifies flowBuffer, flowBuffer.buffer.Values, receiveFlows.Values
      ensures Valid() && FlowsValid() && f.Valid()
      ensures Flows() == Route(old(Flows()), id, f) && Lookup(Flows(), id) == Some(f)
      ensures f.Packets() == Pushed(old(Queued(id)), payload, f.closed, f.capacity)
      // The packets of every other flow stay as they are.
      ensures forall g :: g in old(receiveFlows.Values) || g in old(flowBuffer.buffer.Values) ==>
                g == f || (g.queue == old(g.queue) && g.content == old(g.content))
    {
      hide TableInv, Route, Lookup, Agree, Zip, ReceiveFlow.Valid, ReceiveFlow.Packets, ReceiveFlowBuffer.Valid,
           ReceiveFlowBuffer.Contents;
      f := FindFlow(id);
      f.PushCopy(payload);
    }

    /**
     `HandleDatagram`: closes the session, or gives the payload to the flow of its ID and logs
     the datagram. No packet of another flow is touched.
     */
    method HandleDatagram(q: Qlogger, datagram: seq<byte>) returns (f: ReceiveFlow?, events: seq<FrameEvent>)
      requires Valid() && FlowsValid()
      modifies this`closedErr, flowBuffer, flowBuffer.buffer.Values, receiveFlows.Values
      ensures Valid() && FlowsValid()
      ensures match Datagram.HandleDatagram(q, datagram)
              case InvalidFlowID =>
                && f == null && events == [] && Flows() == old(Flows())
                && closedErr == if old(closedErr).Some? then old(closedErr) else Some(ERR_ROQ_PACKET_ERROR)
              case Deliver(id, bytes, event) =>
                && f != null && events == [event] && closedErr == old(closedErr)
                && Flows() == Route<ReceiveFlow>(old(Flows()), id, f) && Lookup(Flows(), id) == Some(f)
                && f.Valid() && f.Packets() == Pushed(old(Queued(id)), bytes, f.closed, f.capacity)
      ensures forall g :: g in old(receiveFlows.Values) || g in old(flowBuffer.buffer.Values) ==>
                g == f || (g.queue == old(g.queue) && g.content == old(g.content))
    {
      hide TableInv, Route, Lookup, Agree, Zip, ReceiveFlow.Valid, ReceiveFlow.Packets, ReceiveFlowBuffer.Valid,
           ReceiveFlowBuffer.Contents;
      var parsed := Parse(datagram);
      if parsed.Truncated? {
        // closeWithError: the first close wins
        if closedErr.None? {
          closedErr := Some(ERR_ROQ_PACKET_ERROR);
        }
        return null, [];
      }
      Datagram.CutInBounds(datagram);
      events := [FrameEvent(|datagram|, |datagram| - parsed.size, RawData(q, datagram))];
      f := Deliver(parsed.value, datagram[Len(parsed.value)..]);
    }

    /** `HandleUniStreamWithFlowID`: the stream is read into the flow of its ID. */
    method ReadInto(id: nat, rs: QuicReceiveStream, sid: StreamID, reader: Tid, q: Qlogger)
      returns (f: ReceiveFlow, events: seq<FrameEvent>)
      requires Valid() && FlowsValid() && rs.cancelled.None?
      modifies flowBuffer, flowBuffer.buffer.Values, receiveFlows.Values, rs
      ensures Valid() && FlowsValid() && f.Valid()
      ensures rs.cancelled == if f.ctxDone then Some(ERR_ROQ_NO_ERROR) else None
      ensures Flows() == Route(old(Flows()), id, f) && Lookup(Flows(), id) == Some(f)
      ensures var r := ReadFrames(old(rs.data), rs.end);
              if f.ctxDone then f.Packets() == old(Queued(id)) && events == []
              else
                && f.Packets() == PushedAll(old(Queued(id)), Payloads(r.frames), f.closed, f.capacity)
                && events == ParsedEvents(q, r.frames)
      ensures forall g :: g in old(receiveFlows.Values) || g in old(flowBuffer.buffer.Values) ==>
                g == f || (g.queue == old(g.queue) && g.content == old(g.content))
    {
      hide TableInv, Route, Lookup, Agree, Zip, ReceiveFlow.Valid, ReceiveFlow.Packets, ReceiveFlowBuffer.Valid,
           ReceiveFlowBuffer.Contents, ReadFrames, PushedAll;
      f := FindFlow(id);
      events := f.ReadStream(rs, sid, reader, q);
    }

    /**
     `handleUniStream`, with nothing else going on: cancelled without a flow ID; otherwise the
     packets of the stream are queued in the flow it names, as many as there is room for. No
     packet of another flow is touched.
     */
    method HandleUniStream(rs: QuicReceiveStream, sid: StreamID, reader: Tid, q: Qlogger)
      returns (f: ReceiveFlow?, events: seq<FrameEvent>)
      requires Valid() && FlowsValid() && rs.cancelled.None?
      modifies flowBuffer, flowBuffer.buffer.Values, receiveFlows.Values, rs
      ensures Valid() && FlowsValid()
      ensures match Receive(old(rs.data), rs.end)
              case Cancelled =>
                && f == null && rs.cancelled == Some(ERR_ROQ_PACKET_ERROR) && events == []
                && Flows() == old(Flows())
              case Routed(id, r) =>
                && f != null && Flows() == Route<ReceiveFlow>(old(Flows()), id, f) && Lookup(Flows(), id) == Some(f)
                && f.Valid() && rs.cancelled == (if f.ctxDone then Some(ERR_ROQ_NO_ERROR) else None)
                && if f.ctxDone then f.Packets() == old(Queued(id)) && events == []
                   else
                     && f.Packets() == PushedAll(old(Queued(id)), Payloads(r.frames), f.closed, f.capacity)
                     && events == ParsedEvents(q, r.frames)
      ensures forall g :: g in old(receiveFlows.Values) || g in old(flowBuffer.buffer.Values) ==>
                g == f || (g.queue == old(g.queue) && g.content == old(g.content))
    {
      hide TableInv, Route, Lookup, Agree, Zip, ReceiveFlow.Valid, ReceiveFlow.Packets, ReceiveFlowBuffer.Valid,
           ReceiveFlowBuffer.Contents, ReadFrames, PushedAll;
      var flowID, err := ReadFlowID(rs);
      if !err.NoError? {
        rs.CancelRead(ERR_ROQ_PACKET_ERROR);
        return null, [];
      }
      f, events := ReadInto(flowID, rs, sid, reader, q);
    }
  }
}
