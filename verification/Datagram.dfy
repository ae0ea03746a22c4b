/** RTP packets in QUIC datagrams: `SendFlow.WriteRTPBytes` (send_flow.go) and `HandleDatagram` (session.go). */
module Datagram {
  import opened Varint
  import opened Framing

  /** What `SendFlow.WriteRTPBytes` hands to the connection. */
  function DatagramImage(id: FlowID, packet: seq<byte>): seq<byte> {
    Encode(id) + packet
  }

  /** The outcome of a datagram: the session is closed with a packet error, or a flow gets a payload. */
  datatype Dispatch = InvalidFlowID | Deliver(id: nat, payload: seq<byte>, event: FrameEvent)

  /** `HandleDatagram`. It cuts at the shortest length of the flow ID, not at the bytes that were parsed. */
  function HandleDatagram(q: Qlogger, datagram: seq<byte>): Dispatch {
    match Parse(datagram)
    case Truncated => InvalidFlowID
    case Parsed(id, n) =>
      CutInBounds(datagram);
      Deliver(id, datagram[Len(id)..], FrameEvent(|datagram|, |datagram| - n, RawData(q, datagram)))
  }

  lemma CutInBounds(datagram: seq<byte>)
    requires Parse(datagram).Parsed?
    ensures Len(Parse(datagram).value) <= Parse(datagram).size <= |datagram|
  {
    ParseSound(datagram);
    EncodeShortest(Parse(datagram).value, ClassOf(datagram[0]));
  }

  /** What this implementation sends reaches the flow it was meant for, byte for byte, and both ends log it alike. */
  lemma DatagramRoundTrip(q: Qlogger, id: FlowID, packet: seq<byte>)
    ensures var d := DatagramImage(id, packet);
            HandleDatagram(q, d) == Deliver(id, packet, FrameEvent(|d|, |packet|, RawData(q, d)))
  {
    ParseEncode(id, packet);
  }

  /**
   For any datagram with a readable flow ID, the flow gets the bytes behind that ID, and
   the log the length of what the flow gets, exactly if the ID is encoded in its shortest
   form. Otherwise the tail of the ID is taken for the start of the packet.
   */
  lemma PayloadExactIffShortest(q: Qlogger, datagram: seq<byte>)
    requires Parse(datagram).Parsed?
    ensures var Parsed(id, n) := Parse(datagram);
            var d := HandleDatagram(q, datagram);
            && d.Deliver? && d.id == id && Len(id) <= n <= |datagram|
            && (d.payload == datagram[n..] <==> ClassOf(datagram[0]) == MinClass(id))
            && (d.event.payloadLength == |d.payload| <==> ClassOf(datagram[0]) == MinClass(id))
            && d.payload == datagram[Len(id)..n] + datagram[n..]
            && d.event == FrameEvent(|datagram|, |datagram| - n, RawData(q, datagram))
  {
    ParseSound(datagram);
    EncodeShortest(Parse(datagram).value, ClassOf(datagram[0]));
    TwoTails(datagram, Len(Parse(datagram).value), Parse(datagram).size);
  }

  /** A datagram closes the session exactly if it has no whole flow ID. */
  lemma InvalidIffTruncated(q: Qlogger, datagram: seq<byte>)
    ensures HandleDatagram(q, datagram).InvalidFlowID? <==>
            datagram == [] || |datagram| < Width(ClassOf(datagram[0]))
  {
    ParseTable(datagram);
  }

  lemma TwoTails(d: seq<byte>, i: nat, n: nat)
    requires i <= n <= |d|
    ensures d[i..] == d[i..n] + d[n..]
    ensures d[i..] == d[n..] <==> i == n
    ensures |d| - n == |d[i..]| <==> i == n
  {
  }

  /** Flow 5 in two bytes: the flow gets a packet that starts with the second of them. */
  lemma LongFlowIDCorruptsPacket(q: Qlogger, packet: seq<byte>)
    ensures var d := HandleDatagram(q, [0x40, 5] + packet);
            d.Deliver? && d.id == 5 && d.payload == [5] + packet
  {
    var datagram := [0x40, 5] + packet;
    Capacities();
    assert Codeword(5, 1) == [0x40, 5];
    ParseCodeword(5, 1, packet);
    assert datagram[1..] == [5] + packet;
  }
}
