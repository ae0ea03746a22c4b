/**
 `receiveFlowBuffer` (receive_flow_buffer.go): the flows no one has claimed yet. A map
 and a queue in code; a bounded list of flows in order of arrival in what it does.
 */
module FlowBuffer {
  import opened Common
  import opened FlowMachine
  import opened Flows

  // ----- The list -----

  datatype Entry<+F> = Entry(id: nat, flow: F)

  predicate Distinct<F>(l: seq<Entry<F>>) {
    forall i, j :: 0 <= i < j < |l| ==> l[i].id != l[j].id
  }

  function Find<F>(l: seq<Entry<F>>, id: nat): Option<F> {
    if l == [] then None else if l[0].id == id then Some(l[0].flow) else Find(l[1..], id)
  }

  /** The oldest entries make room until fewer than `maxLen` are left. */
  function MakeRoom<F>(l: seq<Entry<F>>, maxLen: nat): seq<Entry<F>>
    requires maxLen > 0
  {
    if |l| < maxLen then l else l[|l| - maxLen + 1..]
  }

  /** The list without the entry for `id`, the others in their order. */
  function Without<F>(l: seq<Entry<F>>, id: nat): seq<Entry<F>> {
    if l == [] then []
    else if l[0].id == id then l[1..]
    else [l[0]] + Without(l[1..], id)
  }

  lemma {:induction false} WithoutAt<F>(l: seq<Entry<F>>, i: nat)
    requires i < |l| && Distinct(l)
    ensures Without(l, l[i].id) == l[..i] + l[i + 1..]
  {
    if i > 0 {
      WithoutAt(l[1..], i - 1);
      CutInTail(l, i);
    } else {
      assert l[..0] + l[1..] == l[1..];
    }
  }

  lemma CutInTail<T>(l: seq<T>, i: nat)
    requires 0 < i < |l|
    ensures l[..i] + l[i + 1..] == [l[0]] + (l[1..][..i - 1] + l[1..][i..])
  {
  }

  lemma {:induction false} WithoutAbsent<F>(l: seq<Entry<F>>, id: nat)
    requires forall i :: 0 <= i < |l| ==> l[i].id != id
    ensures Without(l, id) == l
  {
    if l != [] {
      assert l[0].id != id;
      assert forall i :: 0 <= i < |l[1..]| ==> l[1..][i] == l[i + 1];
      WithoutAbsent(l[1..], id);
    }
  }

  // ----- A map and a queue that agree -----

  /** No ID is queued twice, and those queued are those in the map. */
  ghost predicate Agree<F>(queue: seq<nat>, buffer: map<nat, F>) {
    && (forall i, j :: 0 <= i < j < |queue| ==> queue[i] != queue[j])
    && (forall id :: id in queue <==> id in buffer)
  }

  function Zip<F>(queue: seq<nat>, buffer: map<nat, F>): (l: seq<Entry<F>>)
    requires Agree(queue, buffer)
    ensures |l| == |queue|
    ensures forall i :: 0 <= i < |l| ==> l[i] == Entry(queue[i], buffer[queue[i]])
  {
    seq(|queue|, i requires 0 <= i < |queue| => Entry(queue[i], buffer[queue[i]]))
  }

  lemma AgreeRemove<F>(queue: seq<nat>, buffer: map<nat, F>, i: nat)
    requires Agree(queue, buffer) && i < |queue|
    ensures queue[i] in buffer
    ensures var q, b := queue[..i] + queue[i + 1..], buffer - {queue[i]};
            Agree(q, b) && Zip(q, b) == Zip(queue, buffer)[..i] + Zip(queue, buffer)[i + 1..]
  {
  }

  lemma AgreeDropFirst<F>(queue: seq<nat>, buffer: map<nat, F>)
    requires Agree(queue, buffer) && queue != []
    ensures queue[0] in buffer && Agree(queue[1..], buffer - {queue[0]})
    ensures Zip(queue[1..], buffer - {queue[0]}) == Zip(queue, buffer)[1..]
  {
  }

  lemma AgreeAppend<F>(queue: seq<nat>, buffer: map<nat, F>, id: nat, f: F)
    requires Agree(queue, buffer) && id !in buffer
    ensures Agree(queue + [id], buffer[id := f])
    ensures Zip(queue + [id], buffer[id := f]) == Zip(queue, buffer) + [Entry(id, f)]
  {
  }

  lemma AgreeIndex<F>(queue: seq<nat>, buffer: map<nat, F>, i: nat, id: nat)
    requires Agree(queue, buffer) && i <= |queue|
    requires forall j :: 0 <= j < i ==> queue[j] != id
    requires i < |queue| ==> queue[i] == id
    ensures i < |queue| <==> id in buffer
    ensures var l := Zip(queue, buffer);
            Without(l, id) == if i < |queue| then l[..i] + l[i + 1..] else l
  {
    var l := Zip(queue, buffer);
    if i < |queue| {
      assert queue[i] in queue;
      WithoutAt(l, i);
    } else {
      WithoutAbsent(l, id);
    }
  }

  // ----- The code -----

  class ReceiveFlowBuffer {
    const maxLen: nat
    var buffer: map<nat, ReceiveFlow>
    var queue: seq<nat>

    /** Map and queue agree, and there are never more than `maxLen` flows. */
    ghost predicate Valid()
      reads this
    {
      && 0 < maxLen && |queue| <= maxLen && Agree(queue, buffer)
      && (forall id :: id in buffer ==> buffer[id].id == id)
    }

    ghost function Contents(): seq<Entry<ReceiveFlow>>
      reads this
      requires Valid()
    {
      Zip(queue, buffer)
    }

    constructor (maxLen: nat)
      requires 0 < maxLen
      ensures Valid() && this.maxLen == maxLen && Contents() == []
    {
      this.maxLen, buffer, queue := maxLen, map[], [];
    }

    /**
     Finds the flow or appends a new one. Only a full buffer evicts, and only its oldest
     flow: that one has its registered streams cancelled, and no other flow changes.
     */
    method GetOrCreate(id: nat, receiveBufferSize: nat) returns (f: ReceiveFlow)
      requires Valid()
      modifies this, buffer.Values`cancelled
      ensures Valid()
      ensures id in old(buffer) ==> f == old(buffer[id]) && Contents() == old(Contents())
      ensures id !in old(buffer) ==>
                && fresh(f) && f.id == id && f.State() == NewFlow(receiveBufferSize) && f.Valid() && f.Packets() == []
                && Contents() == MakeRoom(old(Contents()), maxLen) + [Entry(id, f)]
      ensures id in buffer && buffer[id] == f
      // Order of arrival: the new ID goes last, and only a full queue loses its first.
      ensures id !in old(buffer) ==>
                queue == (if |old(queue)| < maxLen then old(queue) else old(queue)[1..]) + [id]
      ensures forall k :: k in buffer && k != id ==> k in old(buffer) && buffer[k] == old(buffer[k])
      ensures forall g :: g in old(buffer.Values) ==>
                g.cancelled == if id !in old(buffer) && |old(queue)| == maxLen && g.id == old(queue)[0]
                               then old(g.cancelled) + g.streams.Keys else old(g.cancelled)
    {
      hide Agree, Zip;
      if id in buffer {
        return buffer[id];
      }
      EvictOldest();
      f := new ReceiveFlow(id, receiveBufferSize);
      AgreeAppend(queue, buffer, id, f);
      queue := queue + [id];
      buffer := buffer[id := f];
    }

    /** The eviction loop of `getOrCreate`. */
    method EvictOldest()
      requires Valid()
      modifies this, buffer.Values`cancelled
      ensures Valid() && |queue| < maxLen && Contents() == MakeRoom(old(Contents()), maxLen)
      ensures queue == if |old(queue)| < maxLen then old(queue) else old(queue)[1..]
      ensures forall k :: k in buffer ==> k in old(buffer) && buffer[k] == old(buffer[k])
      ensures forall g :: g in old(buffer.Values) ==>
                g.cancelled == if |old(queue)| == maxLen && g.id == old(queue)[0]
                               then old(g.cancelled) + g.streams.Keys else old(g.cancelled)
    {
      hide Agree, Zip;
      ghost var l := Contents();
      while |queue| >= maxLen
        invariant Valid()
        invariant forall k :: k in buffer ==> k in old(buffer) && buffer[k] == old(buffer[k])
        invariant if |queue| == |old(queue)| then queue == old(queue) && Contents() == l
                  else |old(queue)| == maxLen == |queue| + 1 && queue == old(queue)[1..] && Contents() == l[1..]
        invariant forall g :: g in old(buffer.Values) ==>
                    g.cancelled == if |queue| < |old(queue)| && g.id == old(queue)[0]
                                   then old(g.cancelled) + g.streams.Keys else old(g.cancelled)
        decreases |queue|
      {
        var front := queue[0];
        AgreeDropFirst(queue, buffer);
        if front in buffer {
          buffer[front].CloseWithError();
        }
        buffer := buffer - {front};
        queue := queue[1..];
      }
    }

    /** Takes the flow out of the buffer, wherever it is in the queue; null if there is none. */
    method Pop(id: nat) returns (f: ReceiveFlow?)
      requires Valid()
      modifies this
      ensures Valid() && Contents() == Without(old(Contents()), id)
      ensures (f == null <==> id !in old(buffer)) && (f != null ==> f == old(buffer[id]))
      ensures buffer == old(buffer) - {id}
    {
      hide Agree, Zip, Without;
      var i := 0;
      while i < |queue| && queue[i] != id
        invariant 0 <= i <= |queue|
        invariant forall j :: 0 <= j < i ==> queue[j] != id
      {
        i := i + 1;
      }
      AgreeIndex(queue, buffer, i, id);
      if i < |queue| {
        AgreeRemove(queue, buffer, i);
        queue := queue[..i] + queue[i + 1..];
      }
      if id !in buffer {
        return null;
      }
      f := buffer[id];
      buffer := buffer - {id};
    }
  }
}
