/** Both ends together, in code: any packets, any schedule of writes, any chunking of reads. */
module Transfer {
  import opened Varint
  import opened Framing
  import opened SendStream
  import opened ReceiveStream

  /**
   Sends `packets` through an `RTPSendStream`, closes the stream and lets a session read
   what reached the wire. `flushed` tells whether nothing was owed at that point.
   */
  method Transfer(id: FlowID, packets: seq<Packet>, script: seq<WriteOutcome>, cuts: seq<nat>, eager: bool, q: Qlogger)
    returns (flushed: bool, named: bool, flowID: nat, delivered: seq<seq<byte>>,
             sent: seq<FrameEvent>, received: seq<FrameEvent>)
    ensures var r := SendAll(Fresh(id, script), packets);
            && flushed == (r.sender.pending == [])
            && (flushed && r.accepted != [] ==>
                  named && flowID == id && delivered == r.accepted && received == sent)
            && sent == CreatedEvents(q, r.accepted)
            && (named <==> |r.sender.wire| >= Len(id))
            && (named ==> flowID == id && delivered == Delivery(r.accepted, |r.sender.wire| - Len(id), Fin))
            && (!named ==> delivered == [])
  {
    hide SendAll, Receive, ReadFrames, Delivery, ParsedEvents, CreatedEvents, Payloads;
    var wire;
    wire, flushed, sent := Send(id, packets, script, q);
    var rs := new QuicReceiveStream(wire, cuts, Fin, eager);
    named, flowID, delivered, received := HandleUniStream(rs, q);
    ghost var r := SendAll(Fresh(id, script), packets);
    EndToEnd(id, script, packets);
    EndToEndCut(id, script, packets, |wire|, Fin);
    assert wire[..|wire|] == wire;
    RunConsistent(id, script, packets);
    if flushed && r.accepted != [] {
      assert r.sender.wire + [] == r.sender.wire;
      LogsAgree(q, id, r.accepted);
    }
  }

  /** The sending end: what reached the wire, whether nothing is owed, and what was logged. */
  method Send(id: FlowID, packets: seq<Packet>, script: seq<WriteOutcome>, q: Qlogger)
    returns (wire: seq<byte>, flushed: bool, sent: seq<FrameEvent>)
    ensures var r := SendAll(Fresh(id, script), packets);
            wire == r.sender.wire && flushed == (r.sender.pending == []) && sent == CreatedEvents(q, r.accepted)
  {
    hide AfterWrite;
    var out := new QuicSendStream(script);
    var s := new RTPSendStream(out, id, q);
    var i := 0;
    while i < |packets|
      invariant 0 <= i <= |packets|
      invariant s.Valid() && fresh(s) && s.stream == out && fresh(out) && fresh(s.pending)
      invariant s.qlog == q && s.log == CreatedEvents(q, SendAll(Fresh(id, script), packets[..i]).accepted)
      invariant s.State() == SendAll(Fresh(id, script), packets[..i]).sender
    {
      var n, err;
      ghost var accepted;
      assert packets[..i + 1][..i] == packets[..i];
      n, err, accepted := s.WriteRTPBytes(packets[i]);
      i := i + 1;
    }
    assert packets[..i] == packets;
    return out.wire, s.pendingLen == 0, s.log;
  }
}
