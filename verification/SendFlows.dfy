/**
 The send flows of a session (session.go `NewSendFlow`, `close`; send_flow.go `Close`;
 sync_map.go): a map from flow ID to flow, from which a flow deletes itself by ID.
 */
module SendFlows {
  import opened Varint
  import opened Framing
  import opened Common
  import Datagram

  type Handle = nat

  // ----- One flow per ID, and what it takes -----

  /** `live` is the session's map; `ids` knows every flow ever made, `open` those not closed. */
  datatype Registry = Registry(live: map<nat, Handle>, ids: map<Handle, nat>, open: set<Handle>)

  const EMPTY: Registry := Registry(map[], map[], {})

  /** `NewSendFlow` with a flow `h` not made before: refused if the map has an entry for the ID. */
  function New(r: Registry, id: nat, h: Handle): Registry
    requires h !in r.ids
  {
    if id in r.live then r else Registry(r.live[id := h], r.ids[h := id], r.open + {h})
  }

  /** `SendFlow.Close`: marks the flow closed, and deletes whatever the map has under its ID. */
  function Close(r: Registry, h: Handle): Registry
    requires h in r.ids
  {
    r.(live := r.live - {r.ids[h]}, open := r.open - {h})
  }

  /** The map holds the open flows, each under its own ID; so no two open flows share one. */
  ghost predicate Exact(r: Registry) {
    && (forall id :: id in r.live ==> r.live[id] in r.open && r.live[id] in r.ids && r.ids[r.live[id]] == id)
    && (forall h :: h in r.open ==> h in r.ids && r.ids[h] in r.live && r.live[r.ids[h]] == h)
  }

  lemma NewKeepsExact(r: Registry, id: nat, h: Handle)
    requires Exact(r) && h !in r.ids
    ensures Exact(New(r, id, h))
  {
  }

  /** Closing a flow keeps the map exact if and only if the flow is open or its ID is free. */
  lemma CloseKeepsExactIff(r: Registry, h: Handle)
    requires Exact(r) && h in r.ids
    ensures Exact(Close(r, h)) <==> h in r.open || r.ids[h] !in r.live
  {
  }

  datatype Op = Create(id: nat, h: Handle) | CloseFlow(h: Handle)

  predicate Possible(r: Registry, ops: seq<Op>)
    decreases |ops|
  {
    ops == [] ||
    match ops[0]
    case Create(id, h) => h !in r.ids && Possible(New(r, id, h), ops[1..])
    case CloseFlow(h) => h in r.ids && Possible(Close(r, h), ops[1..])
  }

  function Run(r: Registry, ops: seq<Op>): Registry
    requires Possible(r, ops)
    decreases |ops|
  {
    if ops == [] then r
    else
      match ops[0]
      case Create(id, h) => Run(New(r, id, h), ops[1..])
      case CloseFlow(h) => Run(Close(r, h), ops[1..])
  }

  predicate ClosedAtMostOnce(ops: seq<Op>) {
    forall i, j :: 0 <= i < j < |ops| && ops[i].CloseFlow? ==> ops[i] != ops[j]
  }

  /** If no flow is closed twice, no two open flows ever share an ID. */
  lemma OneOpenFlowPerID(ops: seq<Op>)
    requires Possible(EMPTY, ops) && ClosedAtMostOnce(ops)
    ensures Exact(Run(EMPTY, ops))
    ensures var r := Run(EMPTY, ops);
            forall h, g :: h in r.open && g in r.open && r.ids[h] == r.ids[g] ==> h == g
  {
    ExactRun(EMPTY, ops);
  }

  lemma {:induction false} ExactRun(r: Registry, ops: seq<Op>)
    requires Possible(r, ops) && ClosedAtMostOnce(ops) && Exact(r)
    requires forall i :: 0 <= i < |ops| && ops[i].CloseFlow? && ops[i].h in r.ids ==> ops[i].h in r.open
    ensures Exact(Run(r, ops))
    decreases |ops|
  {
    if ops != [] {
      var rest := ops[1..];
      assert forall i :: 0 <= i < |rest| ==> rest[i] == ops[i + 1];
      match ops[0]
      case Create(id, h) =>
        NewKeepsExact(r, id, h);
        ExactRun(New(r, id, h), rest);
      case CloseFlow(h) =>
        CloseKeepsExactIff(r, h);
        assert forall i :: 0 <= i < |rest| ==> rest[i] != ops[0];
        ExactRun(Close(r, h), rest);
    }
  }

  /** Closing a flow again once its ID is in use frees that ID: two open flows then share it. */
  lemma DoubleCloseSharesID(id: nat)
    ensures var r := New(Close(New(Close(New(EMPTY, id, 0), 0), id, 1), 0), id, 2);
            1 in r.open && 2 in r.open && r.ids[1] == r.ids[2] == id && !Exact(r)
  {
  }

  // ----- The code -----

  class SendFlow {
    const id: FlowID
    const flowID: seq<byte>
    /** The streams of the flow: whether each has been closed. */
    var streams: seq<bool>
    var closed: bool

    predicate AllClosed()
      reads this
    {
      closed && forall i :: 0 <= i < |streams| ==> streams[i]
    }

    constructor (id: FlowID)
      ensures this.id == id && flowID == Encode(id) && streams == [] && !closed
    {
      this.id, flowID, streams, closed := id, Encode(id), [], false;
    }

    /**
     `WriteRTPBytes`: the datagram handed to the connection and the event logged, or nothing
     of either on a closed flow. Whoever handles the datagram finds the flow and the packet.
     */
    method WriteRTPBytes(packet: seq<byte>, q: Qlogger) returns (datagram: Option<seq<byte>>, events: seq<FrameEvent>)
      requires flowID == Encode(id)
      ensures datagram.None? <==> closed
      ensures closed ==> events == []
      ensures !closed ==>
                && |datagram.value| == Len(id) + |packet|
                && events == [FrameEvent(|datagram.value|, |packet|, RawData(q, datagram.value))]
                && Datagram.HandleDatagram(q, datagram.value) == Datagram.Deliver(id, packet, events[0])
    {
      if closed {
        return None, [];
      }
      var buf := flowID + packet;
      Datagram.DatagramRoundTrip(q, id, packet);
      return Some(buf), [FrameEvent(|buf|, |packet|, RawData(q, buf))];
    }

    /** `Close`: every stream, then the entry in the session's map, then the mark. */
    method Close(flows: SendFlowMap)
      modifies this, flows
      ensures AllClosed() && |streams| == |old(streams)|
      ensures flows.elements == old(flows.elements) - {id}
    {
      var i := 0;
      while i < |streams|
        invariant 0 <= i <= |streams| == |old(streams)| && flows.elements == old(flows.elements)
        invariant forall j :: 0 <= j < i ==> streams[j]
      {
        streams := streams[i := true];
        i := i + 1;
      }
      flows.Delete(id);
      closed := true;
    }
  }

  /** `syncMap` of send flows. */
  class SendFlowMap {
    var elements: map<nat, SendFlow>

    constructor ()
      ensures elements == map[]
    {
      elements := map[];
    }

    /** `getOrInsert`. */
    method GetOrInsert(k: nat, v: SendFlow) returns (r: SendFlow, inserted: bool)
      modifies this
      ensures inserted <==> k !in old(elements)
      ensures k in elements && r == elements[k]
      ensures elements == if inserted then old(elements)[k := v] else old(elements)
    {
      if k in elements {
        return elements[k], false;
      }
      elements := elements[k := v];
      return v, true;
    }

    method Delete(k: nat)
      modifies this
      ensures elements == old(elements) - {k}
    {
      elements := elements - {k};
    }

    /**
     `rangeFn` with the callback of `close`: it runs over a clone, so that the flows may
     delete themselves from the live map. Every flow of the clone ends up closed, and of
     the live map only what the clone did not have is left.
     */
    method CloseAll()
      requires forall k :: k in elements ==> elements[k].id == k
      modifies this, elements.Values
      ensures forall k :: k in old(elements) ==> old(elements)[k].AllClosed()
      ensures elements == map[]
    {
      var snapshot := elements;
      var left := snapshot.Keys;
      while left != {}
        invariant left <= snapshot.Keys
        invariant elements.Keys == left
        invariant forall k :: k in snapshot ==> snapshot[k].id == k
        invariant forall k :: k in snapshot.Keys - left ==> snapshot[k].AllClosed()
        decreases |left|
      {
        var k :| k in left;
        snapshot[k].Close(this);
        left := left - {k};
      }
    }
  }
}
