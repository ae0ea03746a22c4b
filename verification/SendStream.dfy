/**
 `RTPSendStream` (rtp_send_stream.go): framing onto a stream whose Write may take
 any part of what it is given and fail at any time. The tail it did not take is
 kept and goes out before anything else.
 */
module SendStream {
  import opened Varint
  import opened Framing

  /** What one Write does: how many bytes it is willing to take, and the error it reports. */
  datatype WriteOutcome = WriteOutcome(accept: nat, err: IoError)

  /** The outcome of writing `len` bytes; past the end of the script everything is taken. */
  function Outcome(script: seq<WriteOutcome>, len: nat): (o: WriteOutcome)
    ensures o.accept <= len
  {
    if script == [] then WriteOutcome(len, NoError)
    else WriteOutcome(if script[0].accept < len then script[0].accept else len, script[0].err)
  }

  function Rest(script: seq<WriteOutcome>): seq<WriteOutcome> {
    if script == [] then [] else script[1..]
  }

  /** A sender, the bytes its stream has taken so far, and how the writes to come will go. */
  datatype Sender = Sender(id: FlowID, sentFlowID: bool, pending: seq<byte>,
                           wire: seq<byte>, script: seq<WriteOutcome>)

  function Fresh(id: FlowID, script: seq<WriteOutcome>): Sender {
    Sender(id, false, [], [], script)
  }

  /** `flush`. */
  function AfterFlush(s: Sender): (Sender, IoError) {
    var o := Outcome(s.script, |s.pending|);
    var tail := s.pending[o.accept..];
    (s.(pending := tail, wire := s.wire + s.pending[..o.accept], script := Rest(s.script)),
     if o.err.NoError? && tail != [] then ShortWrite else o.err)
  }

  /** The bytes ahead of the packet itself: the flow ID if it is the first one, then the length. */
  function Header(s: Sender, packet: Packet): seq<byte> {
    (if s.sentFlowID then [] else Encode(s.id)) + Encode(|packet|)
  }

  /** The result of a call; `accepted` tells whether the packet was framed at all. */
  datatype Call = Call(sender: Sender, accepted: bool, n: nat, err: IoError)

  function AfterFrame(s: Sender, packet: Packet): Call {
    var header := Header(s, packet);
    var buffer := header + packet;
    var o := Outcome(s.script, |buffer|);
    Call(s.(sentFlowID := true,
            pending := if o.accept < |buffer| then buffer[o.accept..] else s.pending,
            wire := s.wire + buffer[..o.accept],
            script := Rest(s.script)),
         true,
         if o.accept < |header| then 0 else o.accept - |header|,
         if o.accept < |buffer| && o.err.NoError? then ShortWrite else o.err)
  }

  /** `WriteRTPBytes`. */
  function AfterWrite(s: Sender, packet: Packet): Call {
    if s.pending == [] then AfterFrame(s, packet)
    else
      var (flushed, err) := AfterFlush(s);
      if err.NoError? then AfterFrame(flushed, packet) else Call(flushed, false, 0, err)
  }

  /** The outcome of a sequence of calls: the sender after them and the packets accepted on the way. */
  datatype Run = Run(sender: Sender, accepted: seq<Packet>)

  function SendAll(s: Sender, packets: seq<Packet>): Run {
    if packets == [] then Run(s, [])
    else
      var before := SendAll(s, packets[..|packets| - 1]);
      var packet := packets[|packets| - 1];
      var call := AfterWrite(before.sender, packet);
      Run(call.sender, if call.accepted then before.accepted + [packet] else before.accepted)
  }

  // ----- What every call keeps -----

  /** What the peer has and what is still owed are together the stream of the accepted packets. */
  predicate Consistent(s: Sender, accepted: seq<Packet>) {
    && s.wire + s.pending == StreamImage(s.id, accepted)
    && (s.sentFlowID <==> accepted != [])
  }

  lemma {:induction false} StreamImageAppend(id: FlowID, ps: seq<Packet>, p: Packet)
    ensures StreamImage(id, ps + [p]) ==
            StreamImage(id, ps) + ((if ps == [] then Encode(id) else []) + Encode(|p|) + p)
  {
    var f := Minimal(p);
    MinimalsAppend(ps, p);
    ImagesConcat(Minimals(ps), [f]);
    assert Images([f]) == f.Image() + Images([]) == f.Image() == Encode(|p|) + p;
    if ps == [] {
      ConcatAssoc(Encode(id), Encode(|p|), p);
      assert ps + [p] == [p] && Images(Minimals(ps)) == [];
      assert StreamImage(id, [p]) == Encode(id) + f.Image();
    } else {
      ConcatAssoc(Encode(id), Images(Minimals(ps)), f.Image());
      assert [] + Encode(|p|) == Encode(|p|);
    }
  }

  lemma MinimalsAppend(ps: seq<Packet>, p: Packet)
    ensures Minimals(ps + [p]) == Minimals(ps) + [Minimal(p)]
  {
  }

  /** How many bytes of the last of `accepted` a wire of that length holds. */
  function PayloadOnWire(id: FlowID, accepted: seq<Packet>, wire: seq<byte>): int
    requires accepted != []
  {
    var start := |StreamImage(id, accepted)| - |accepted[|accepted| - 1]|;
    if |wire| < start then 0 else |wire| - start
  }

  lemma {:induction false} WriteFrameKeeps(s: Sender, accepted: seq<Packet>, packet: Packet)
    requires Consistent(s, accepted) && s.pending == []
    ensures var c := AfterFrame(s, packet);
            && Consistent(c.sender, accepted + [packet])
            && c.n == PayloadOnWire(s.id, accepted + [packet], c.sender.wire) <= |packet|
            && (c.err.NoError? ==> c.sender.pending == [] && c.n == |packet|)
  {
    var c := AfterFrame(s, packet);
    var buffer := Header(s, packet) + packet;
    StreamImageAppend(s.id, accepted, packet);
    assert s.wire + [] == s.wire;
    CutAndJoin(s.wire, buffer, Outcome(s.script, |buffer|).accept);
  }

  lemma CutAndJoin(a: seq<byte>, b: seq<byte>, n: nat)
    requires n <= |b|
    ensures (a + b[..n]) + b[n..] == a + b
  {
  }

  /**
   One call from any consistent state. An accepted packet joins the stream behind the
   earlier ones, and the count returned is the number of its bytes the peer has; a
   refused one leaves no trace, and is reported with an error.
   */
  lemma {:induction false} CallKeeps(s: Sender, accepted: seq<Packet>, packet: Packet)
    requires Consistent(s, accepted)
    ensures var c := AfterWrite(s, packet);
            && Consistent(c.sender, if c.accepted then accepted + [packet] else accepted)
            && s.wire <= c.sender.wire
            && (c.accepted <==> s.pending == [] || AfterFlush(s).1.NoError?)
            && (c.accepted ==> c.n == PayloadOnWire(s.id, accepted + [packet], c.sender.wire) <= |packet|)
            && (!c.accepted ==> c.n == 0 && !c.err.NoError?)
            && (c.err.NoError? ==> c.sender.pending == [] && c.n == |packet|)
  {
    if s.pending == [] {
      WriteFrameKeeps(s, accepted, packet);
    } else {
      var (flushed, err) := AfterFlush(s);
      CutAndJoin(s.wire, s.pending, Outcome(s.script, |s.pending|).accept);
      if err.NoError? {
        WriteFrameKeeps(flushed, accepted, packet);
      }
    }
  }

  /** What a caller is told of a Write of `len` bytes: success if all were taken without an error, and why not. */
  predicate Reports(err: IoError, o: WriteOutcome, len: nat) {
    && (err.NoError? <==> o == WriteOutcome(len, NoError))
    && (!o.err.NoError? ==> err == o.err)
    && (o.err.NoError? && o.accept < len ==> err == ShortWrite)
  }

  /**
   When a call succeeds, in terms of what the stream does with its Writes: the first one gets
   the tail, if there is one, and the packet is framed exactly if it takes all of it without
   an error; the next one gets the frame, with the flow ID ahead of the first. The wire grows
   by what they take.
   */
  lemma {:induction false} CallOutcome(s: Sender, accepted: seq<Packet>, packet: Packet)
    requires Consistent(s, accepted)
    ensures var c, tail := AfterWrite(s, packet), Outcome(s.script, |s.pending|);
            var len := |StreamImage(s.id, accepted + [packet])| - |StreamImage(s.id, accepted)|;
            && (c.accepted <==> s.pending == [] || tail == WriteOutcome(|s.pending|, NoError))
            && (if c.accepted
                then
                  var script := if s.pending == [] then s.script else Rest(s.script);
                  && 0 <= len && Reports(c.err, Outcome(script, len), len) && c.sender.script == Rest(script)
                  && |c.sender.wire| == |s.wire| + |s.pending| + Outcome(script, len).accept
                  && |c.sender.pending| == len - Outcome(script, len).accept
                else
                  && Reports(c.err, tail, |s.pending|) && c.sender.script == Rest(s.script)
                  && |c.sender.wire| == |s.wire| + tail.accept)
  {
    hide AfterFrame, StreamImage;
    if s.pending == [] {
      FrameOutcome(s, accepted, packet);
    } else {
      var (flushed, err) := AfterFlush(s);
      CutAndJoin(s.wire, s.pending, Outcome(s.script, |s.pending|).accept);
      if err.NoError? {
        FrameOutcome(flushed, accepted, packet);
      }
    }
  }

  lemma {:induction false} FrameOutcome(s: Sender, accepted: seq<Packet>, packet: Packet)
    requires Consistent(s, accepted) && s.pending == []
    ensures var c := AfterFrame(s, packet);
            var len := |StreamImage(s.id, accepted + [packet])| - |StreamImage(s.id, accepted)|;
            && 0 <= len && c.accepted && Reports(c.err, Outcome(s.script, len), len)
            && c.sender.script == Rest(s.script)
            && |c.sender.wire| == |s.wire| + Outcome(s.script, len).accept
            && |c.sender.pending| == len - Outcome(s.script, len).accept
  {
    StreamImageAppend(s.id, accepted, packet);
    assert |Header(s, packet) + packet| == |StreamImage(s.id, accepted + [packet])| - |StreamImage(s.id, accepted)|;
  }

  lemma {:induction false} HealthyCall(s: Sender, accepted: seq<Packet>, packet: Packet)
    requires Consistent(s, accepted) && s.script == []
    ensures var c := AfterWrite(s, packet);
            && c.accepted && c.err.NoError? && c.n == |packet|
            && c.sender.script == [] && c.sender.pending == [] && Consistent(c.sender, accepted + [packet])
  {
    hide AfterWrite, StreamImage;
    CallOutcome(s, accepted, packet);
    CallKeeps(s, accepted, packet);
  }

  /** On a stream that takes everything, every packet is accepted and sent whole, the tail of an earlier one first. */
  lemma {:induction false} HealthyAccepts(s: Sender, accepted: seq<Packet>, packets: seq<Packet>)
    requires Consistent(s, accepted) && s.script == []
    ensures var r := SendAll(s, packets);
            && r.accepted == packets && r.sender.script == []
            && Consistent(r.sender, accepted + packets) && (packets != [] ==> r.sender.pending == [])
  {
    hide AfterWrite, Consistent;
    if packets == [] {
      assert accepted + packets == accepted;
    } else {
      var init, last := packets[..|packets| - 1], packets[|packets| - 1];
      HealthyAccepts(s, accepted, init);
      var before := SendAll(s, init);
      HealthyCall(before.sender, accepted + init, last);
      assert accepted + init + [last] == accepted + packets && init + [last] == packets;
    }
  }

  /** A sender recovers: every call makes a Write, so once the stream has no more failures in store all is accepted. */
  lemma {:induction false} Recovers(id: FlowID, script: seq<WriteOutcome>, packets: seq<Packet>)
    requires |script| <= |packets|
    ensures var r, rest := SendAll(Fresh(id, script), packets), packets[|script|..];
            && r.accepted == SendAll(Fresh(id, script), packets[..|script|]).accepted + rest
            && (rest != [] ==> r.sender.pending == [])
  {
    var first, rest := packets[..|script|], packets[|script|..];
    var before := SendAll(Fresh(id, script), first);
    RunConsistent(id, script, first);
    ScriptShrinks(id, script, first);
    HealthyAccepts(before.sender, before.accepted, rest);
    SendConcat(Fresh(id, script), first, rest);
    assert first + rest == packets;
  }

  lemma {:induction false} ScriptShrinks(id: FlowID, script: seq<WriteOutcome>, packets: seq<Packet>)
    ensures var left := SendAll(Fresh(id, script), packets).sender.script;
            |left| <= if |packets| <= |script| then |script| - |packets| else 0
  {
    if packets != [] {
      var init, last := packets[..|packets| - 1], packets[|packets| - 1];
      ScriptShrinks(id, script, init);
      RunConsistent(id, script, init);
      var before := SendAll(Fresh(id, script), init);
      CallOutcome(before.sender, before.accepted, last);
    }
  }

  lemma {:induction false} SendConcat(s: Sender, first: seq<Packet>, rest: seq<Packet>)
    ensures var a := SendAll(s, first);
            var b := SendAll(a.sender, rest);
            SendAll(s, first + rest) == Run(b.sender, a.accepted + b.accepted)
  {
    hide AfterWrite;
    var a := SendAll(s, first);
    if rest == [] {
      assert first + rest == first && a.accepted + [] == a.accepted;
    } else {
      var init, last := rest[..|rest| - 1], rest[|rest| - 1];
      SendConcat(s, first, init);
      var all := first + rest;
      assert all[..|all| - 1] == first + init && all[|all| - 1] == last;
      var b := SendAll(a.sender, init);
      assert a.accepted + b.accepted + [last] == a.accepted + (b.accepted + [last]);
    }
  }

  /** The run invariant, for every sequence of packets and every schedule of writes. */
  lemma {:induction false} RunConsistent(id: FlowID, script: seq<WriteOutcome>, packets: seq<Packet>)
    ensures var r := SendAll(Fresh(id, script), packets);
            r.sender.id == id && Consistent(r.sender, r.accepted)
  {
    if packets != [] {
      var init := packets[..|packets| - 1];
      RunConsistent(id, script, init);
      var before := SendAll(Fresh(id, script), init);
      CallKeeps(before.sender, before.accepted, packets[|packets| - 1]);
    }
  }

  /**
   End to end: once nothing is owed, the peer gets the flow ID and then exactly the
   accepted packets, in order and each once.
   */
  lemma {:induction false} EndToEnd(id: FlowID, script: seq<WriteOutcome>, packets: seq<Packet>)
    ensures var r := SendAll(Fresh(id, script), packets);
            r.sender.pending == [] && r.accepted != [] ==>
              var got := Receive(r.sender.wire, Fin);
              got.Routed? && got.id == id && Payloads(got.readout.frames) == r.accepted
  {
    var r := SendAll(Fresh(id, script), packets);
    RunConsistent(id, script, packets);
    if r.sender.pending == [] && r.accepted != [] {
      assert r.sender.wire + [] == r.sender.wire;
      CompleteDelivery(id, r.accepted);
    }
  }

  /**
   A stream that ends at any moment, closed (Close does not flush) or reset, and of which the
   peer gets the first `n` bytes on the wire: the flow is named as soon as its ID is there,
   and the peer gets exactly the accepted packets that are there whole. Of the next one it
   gets the part that is there, if its length is, unless the stream was reset.
   */
  lemma {:induction false} EndToEndCut(id: FlowID, script: seq<WriteOutcome>, packets: seq<Packet>, n: nat, end: Ending)
    requires n <= |SendAll(Fresh(id, script), packets).sender.wire|
    ensures var r := SendAll(Fresh(id, script), packets);
            var got := Receive(r.sender.wire[..n], end);
            if n < Len(id) then got.Cancelled?
            else got.Routed? && got.id == id && Payloads(got.readout.frames) == Delivery(r.accepted, n - Len(id), end)
  {
    hide SendAll, Receive, Delivery;
    var r := SendAll(Fresh(id, script), packets);
    RunConsistent(id, script, packets);
    if r.accepted != [] {
      CutAgain(r.sender.wire, r.sender.pending, n);
      ReceiveCut(id, r.accepted, r.sender.wire[..n], r.sender.wire[n..] + r.sender.pending, end);
    } else {
      ReceiveNothing(id, end);
      assert r.sender.wire == [];
    }
  }

  lemma CutAgain(a: seq<byte>, b: seq<byte>, n: nat)
    requires n <= |a|
    ensures a[..n] + (a[n..] + b) == a + b
  {
  }

  lemma ReceiveNothing(id: FlowID, end: Ending)
    ensures Receive([], end).Cancelled? && Len(id) > 0
  {
  }

  lemma {:induction false} ReceiveCut(id: FlowID, ps: seq<Packet>, wire: seq<byte>, pending: seq<byte>, end: Ending)
    requires ps != [] && wire + pending == StreamImage(id, ps)
    ensures var got := Receive(wire, end);
            if |wire| < Len(id) then got.Cancelled?
            else got.Routed? && got.id == id && Payloads(got.readout.frames) == Delivery(ps, |wire| - Len(id), end)
  {
    hide Receive, ReadFrames, Delivery;
    if |wire| < Len(id) {
      FirstPart(wire, pending);
      CutInFlowID(id, ps, |wire|, end);
    } else {
      var cut := |wire| - Len(id);
      SplitWire(Encode(id), Images(Minimals(ps)), wire, pending);
      ReceiveNamed(id, Images(Minimals(ps))[..cut], end);
      CutDelivers(ps, cut, end);
    }
  }

  lemma FirstPart(a: seq<byte>, b: seq<byte>)
    ensures (a + b)[..|a|] == a
  {
  }

  /** `wire` reaches into `b`. */
  lemma SplitWire(a: seq<byte>, b: seq<byte>, wire: seq<byte>, pending: seq<byte>)
    requires wire + pending == a + b && |a| <= |wire|
    ensures |wire| - |a| <= |b|
    ensures wire == a + wire[|a|..] && wire[|a|..] == b[..|wire| - |a|]
  {
    assert wire == (a + b)[..|wire|];
  }

  lemma {:induction false} CutDelivers(ps: seq<Packet>, cut: nat, end: Ending)
    requires cut <= |Images(Minimals(ps))|
    ensures Payloads(ReadFrames(Images(Minimals(ps))[..cut], end).frames) == Delivery(ps, cut, end)
  {
    hide ReadFrames, Images, CutPacket, PacketsOf, Payloads, WholeFrames;
    var fs := Minimals(ps);
    var whole := WholeFrames(fs, cut);
    WholeFramesFit(fs, cut);
    PrefixDelivery(fs, cut, whole, end);
    PacketsOfMinimals(ps, whole);
    if whole == |ps| {
      assert ps[..whole] + [] == ps;
    }
  }

  lemma PacketsOfMinimals(ps: seq<Packet>, n: nat)
    requires n <= |ps|
    ensures PacketsOf(Minimals(ps)[..n]) == ps[..n]
  {
  }

  /**
   The comment on `WriteRTPBytes` asks callers not to re-send a packet reported short.
   The report cannot tell such a packet from one that was never queued: for every packet
   and every failure code, the same result comes from a call that queued the packet and
   from the next one, which did not.
   */
  lemma {:induction false} ShortReportIsAmbiguous(id: FlowID, code: nat, packet: Packet)
    ensures var fail := WriteOutcome(0, Failed(code));
            var first := AfterWrite(Fresh(id, [fail, fail]), packet);
            var second := AfterWrite(first.sender, packet);
            && first.accepted && !second.accepted
            && first.n == second.n == 0 && first.err == second.err == Failed(code)
            && second.sender.wire + second.sender.pending == StreamImage(id, [packet])
  {
    var fail := WriteOutcome(0, Failed(code));
    var s := Fresh(id, [fail, fail]);
    var first := AfterWrite(s, packet);
    CallKeeps(s, [], packet);
    assert [] + [packet] == [packet];
    assert first.sender.script == [fail];
    assert first.sender.pending == Header(s, packet) + packet;
    CallKeeps(first.sender, [packet], packet);
  }

  // ----- The code -----

  /** The stream of the QUIC connection, as far as the sender can see it. */
  class QuicSendStream {
    var wire: seq<byte>
    var script: seq<WriteOutcome>

    constructor (script: seq<WriteOutcome>)
      ensures this.wire == [] && this.script == script
    {
      this.wire := [];
      this.script := script;
    }

    method Write(p: seq<byte>) returns (n: nat, err: IoError)
      modifies this
      ensures n == Outcome(old(script), |p|).accept && err == Outcome(old(script), |p|).err
      ensures wire == old(wire) + p[..n] && script == Rest(old(script))
    {
      var o := Outcome(script, |p|);
      n, err := o.accept, o.err;
      wire := wire + p[..n];
      script := Rest(script);
    }
  }

  /** Go's `copy(a, a[n:len])`, source and target overlapping. */
  method CopyDown(a: array<byte>, n: nat, len: nat)
    requires n <= len <= a.Length
    modifies a
    ensures a[..len - n] == old(a[n..len])
  {
    var i := 0;
    while i < len - n
      invariant 0 <= i <= len - n
      invariant forall k :: 0 <= k < i ==> a[k] == old(a[n + k])
      invariant forall k :: i <= k < len ==> a[k] == old(a[k])
    {
      a[i] := a[n + i];
      i := i + 1;
    }
  }

  class RTPSendStream {
    const stream: QuicSendStream
    const flowID: FlowID
    const flowIDBytes: seq<byte>
    const qlog: Qlogger
    var log: seq<FrameEvent>
    var sentFlowID: bool
    var buffer: seq<byte>
    /** The first `pendingLen` bytes are the tail the stream has not taken. */
    var pending: array<byte>
    var pendingLen: nat

    ghost predicate Valid()
      reads this
    {
      flowIDBytes == Encode(flowID) && pendingLen <= pending.Length
    }

    ghost function State(): Sender
      reads this, stream, pending
      requires Valid()
    {
      Sender(flowID, sentFlowID, pending[..pendingLen], stream.wire, stream.script)
    }

    constructor (stream: QuicSendStream, flowID: FlowID, qlog: Qlogger)
      requires stream.wire == []
      ensures Valid() && fresh(pending) && this.qlog == qlog && log == []
      ensures this.stream == stream && State() == Fresh(flowID, stream.script)
    {
      this.stream := stream;
      this.flowID := flowID;
      flowIDBytes := Encode(flowID);
      this.qlog, log := qlog, [];
      sentFlowID := false;
      buffer := [];
      pending := new byte[0];
      pendingLen := 0;
    }

    method WriteRTPBytes(packet: Packet) returns (n: nat, err: IoError, ghost accepted: bool)
      requires Valid()
      modifies this, stream, pending
      ensures Valid() && (pending == old(pending) || fresh(pending))
      ensures Call(State(), accepted, n, err) == AfterWrite(old(State()), packet)
      ensures log == if accepted then old(log) + [CreatedEvent(qlog, packet)] else old(log)
    {
      if pendingLen > 0 {
        err := Flush();
        if !err.NoError? {
          return 0, err, false;
        }
      }
      n, err := WriteFrame(packet);
      accepted := true;
    }

    /** The rest of `WriteRTPBytes`: frames the packet and writes the frame. */
    method WriteFrame(packet: Packet) returns (n: nat, err: IoError)
      requires Valid() && pendingLen == 0
      modifies this, stream, pending
      ensures Valid() && (pending == old(pending) || fresh(pending))
      ensures Call(State(), true, n, err) == AfterFrame(old(State()), packet)
      ensures log == old(log) + [CreatedEvent(qlog, packet)]
    {
      hide Header, RawData, Minimal, Frame.Image;
      var frameStart, headerLen := FillBuffer(packet);
      n, err := stream.Write(buffer);
      if n < |buffer| {
        KeepTail(buffer[n..]);
        if err.NoError? {
          err := ShortWrite;
        }
      }
      log := log + [FrameEvent(|buffer| - frameStart, |packet|, RawData(qlog, buffer[frameStart..]))];
      var payload := if n < headerLen then 0 else n - headerLen;
      n := if payload < |packet| then payload else |packet|;
    }

    /** Lays out the frame, behind the flow ID if it is the first one. */
    method FillBuffer(packet: Packet) returns (frameStart: nat, headerLen: nat)
      requires Valid()
      modifies this`buffer, this`sentFlowID
      ensures sentFlowID && buffer == Header(old(State()), packet) + packet
      ensures headerLen == |Header(old(State()), packet)|
      ensures frameStart <= |buffer| && buffer[frameStart..] == Minimal(packet).Image()
    {
      buffer := [];
      frameStart := 0;
      if !sentFlowID {
        buffer := buffer + flowIDBytes;
        sentFlowID := true;
        frameStart := |buffer|;
      }
      buffer := buffer + Encode(|packet|);
      headerLen := |buffer|;
      assert buffer == Header(old(State()), packet);
      buffer := buffer + packet;
    }

    /** Writes the tail an earlier partial write left behind. */
    method Flush() returns (err: IoError)
      requires Valid()
      modifies this, stream, pending
      ensures Valid() && pending == old(pending)
      ensures (State(), err) == AfterFlush(old(State())) && log == old(log)
    {
      var n;
      n, err := stream.Write(pending[..pendingLen]);
      CopyDown(pending, n, pendingLen);
      pendingLen := pendingLen - n;
      if err.NoError? && pendingLen > 0 {
        err := ShortWrite;
      }
    }

    /** Go's `append(s.pending[0:0], tail...)`: in place if there is room, else in a new array. */
    method KeepTail(tail: seq<byte>)
      requires Valid()
      modifies this, pending
      ensures Valid() && (pending == old(pending) || fresh(pending))
      ensures pending[..pendingLen] == tail
      ensures sentFlowID == old(sentFlowID) && buffer == old(buffer) && log == old(log)
    {
      if pending.Length < |tail| {
        pending := new byte[|tail|];
      }
      forall i | 0 <= i < |tail| {
        pending[i] := tail[i];
      }
      pendingLen := |tail|;
    }
  }
}
