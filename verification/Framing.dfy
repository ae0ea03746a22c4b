/**
 The encapsulation of RTP packets on a QUIC stream ("Encapsulation" section of
 draft-ietf-avtcore-rtp-over-quic): one flow ID varint, then packets prefixed
 with their length as a varint; what a receiver makes of any byte string; and
 what both ends put in the qlog.
 */
module Framing {
  import opened Varint

  type Packet = p: seq<byte> | |p| < VARINT_LIMIT

  type FlowID = id: nat | id < VARINT_LIMIT

  datatype IoError = NoError | EOF | UnexpectedEOF | ShortWrite | ShortBuffer | Failed(code: nat)

  /** How the peer ended the stream: FIN, or an error no Read gets past. */
  datatype Ending = Fin | Broken(code: nat)

  function ErrorOf(end: Ending): IoError {
    if end.Fin? then EOF else Failed(end.code)
  }

  // ----- What a sender may put on the wire -----

  /** A packet and the width class its length prefix is written in. */
  datatype Frame = Frame(payload: Packet, width: WidthClass) {
    predicate Valid() {
      |payload| < Capacity(Width(width))
    }

    function Image(): (s: seq<byte>)
      requires Valid()
      ensures |s| == Width(width) + |payload|
    {
      Codeword(|payload|, width) + payload
    }
  }

  predicate AllValid(fs: seq<Frame>) {
    forall i :: 0 <= i < |fs| ==> fs[i].Valid()
  }

  function Images(fs: seq<Frame>): seq<byte>
    requires AllValid(fs)
  {
    if fs == [] then [] else fs[0].Image() + Images(fs[1..])
  }

  /** The frame this implementation writes for a packet: shortest length prefix. */
  function Minimal(p: Packet): (f: Frame)
    ensures f.Valid() && f.payload == p
  {
    Capacities();
    Frame(p, MinClass(|p|))
  }

  function Minimals(ps: seq<Packet>): (fs: seq<Frame>)
    ensures |fs| == |ps| && AllValid(fs)
    ensures forall i :: 0 <= i < |ps| ==> fs[i] == Minimal(ps[i])
  {
    seq(|ps|, i requires 0 <= i < |ps| => Minimal(ps[i]))
  }

  /** Everything on a stream that carries `ps`; the flow ID goes out with the first packet. */
  function StreamImage(id: FlowID, ps: seq<Packet>): seq<byte> {
    if ps == [] then [] else Encode(id) + Images(Minimals(ps))
  }

  // ----- What the receiver makes of a byte string -----

  /** A frame as read: the bytes of its length prefix, the length they announce, the payload found. */
  datatype FrameRead = FrameRead(prefix: seq<byte>, declared: nat, payload: seq<byte>)

  datatype Readout = Readout(frames: seq<FrameRead>, err: IoError)

  /** The error of a length varint that the stream ends in. */
  function VarintError(data: seq<byte>, end: Ending): IoError {
    if data == [] || end.Broken? then ErrorOf(end)
    // io.ReadFull reports a plain EOF when it could not read a single byte.
    else if |data| == 1 then EOF
    else UnexpectedEOF
  }

  /** One round of the loop in `readStream`: a frame and the bytes behind it, or the error it stops with. */
  datatype Round = Got(frame: FrameRead, rest: seq<byte>) | Stop(err: IoError)

  function NextFrame(data: seq<byte>, end: Ending): (r: Round)
    ensures r.Got? ==> |r.rest| < |data|
    ensures r.Stop? ==> !r.err.NoError?
  {
    match Parse(data)
    case Truncated => Stop(VarintError(data, end))
    case Parsed(length, size) =>
      ParseSound(data);
      var body := data[size..];
      if length <= |body| then
        Got(FrameRead(data[..size], length, body[..length]), body[length..])
      else if end.Fin? then
        // bytes.Buffer.ReadFrom takes EOF for success: the cut packet is pushed.
        Got(FrameRead(data[..size], length, body), [])
      else
        Stop(ErrorOf(end))
  }

  /** The frames `readStream` pushes, and the error it stops with. */
  function ReadFrames(data: seq<byte>, end: Ending): Readout
    decreases |data|
  {
    match NextFrame(data, end)
    case Got(f, rest) => Prepend([f], ReadFrames(rest, end))
    case Stop(err) => Readout([], err)
  }

  function Prepend(done: seq<FrameRead>, r: Readout): Readout {
    Readout(done + r.frames, r.err)
  }

  function Payloads(frames: seq<FrameRead>): (ps: seq<seq<byte>>)
    ensures |ps| == |frames|
  {
    seq(|frames|, i requires 0 <= i < |frames| => frames[i].payload)
  }

  function PacketsOf(fs: seq<Frame>): (ps: seq<seq<byte>>)
    ensures |ps| == |fs|
  {
    seq(|fs|, i requires 0 <= i < |fs| => fs[i].payload)
  }

  /** A stream either never names its flow and is cancelled, or is read into the flow it names. */
  datatype Received = Cancelled | Routed(id: nat, readout: Readout)

  function Receive(data: seq<byte>, end: Ending): Received {
    match Parse(data)
    case Truncated => Cancelled
    case Parsed(id, size) =>
      ParseSound(data);
      Routed(id, ReadFrames(data[size..], end))
  }

  // ----- Reading back -----

  lemma {:induction false} ImagesConcat(a: seq<Frame>, b: seq<Frame>)
    requires AllValid(a) && AllValid(b)
    ensures Images(a + b) == Images(a) + Images(b)
  {
    if a == [] {
      assert a + b == b;
    } else {
      assert (a + b)[1..] == a[1..] + b;
      ImagesConcat(a[1..], b);
    }
  }

  /** One round of the loop in `readStream`, on a frame whose payload is all there. */
  lemma {:induction false} ReadStep(prefix: seq<byte>, payload: seq<byte>, tail: seq<byte>, end: Ending)
    requires Parse(prefix) == Parsed(|payload|, |prefix|)
    ensures ReadFrames(prefix + payload + tail, end) ==
            Prepend([FrameRead(prefix, |payload|, payload)], ReadFrames(tail, end))
  {
    var data := prefix + payload + tail;
    assert data == prefix + (payload + tail);
    ParseLocal(prefix, payload + tail);
    var body := data[|prefix|..];
    assert data[..|prefix|] == prefix && body == payload + tail;
    assert body[..|payload|] == payload && body[|payload|..] == tail;
  }

  /** A frame as the receiver reads it when it is all there. */
  function AsRead(f: Frame): FrameRead
    requires f.Valid()
  {
    FrameRead(Codeword(|f.payload|, f.width), |f.payload|, f.payload)
  }

  function AllRead(fs: seq<Frame>): (r: seq<FrameRead>)
    requires AllValid(fs)
    ensures |r| == |fs|
  {
    seq(|fs|, i requires 0 <= i < |fs| => AsRead(fs[i]))
  }

  lemma ReadOneFrame(f: Frame, tail: seq<byte>, end: Ending)
    requires f.Valid()
    ensures ReadFrames(f.Image() + tail, end) ==
            Prepend([AsRead(f)], ReadFrames(tail, end))
  {
    var prefix := Codeword(|f.payload|, f.width);
    ParseCodeword(|f.payload|, f.width, []);
    assert prefix + [] == prefix;
    ReadStep(prefix, f.payload, tail, end);
  }

  /** Whole frames, in any mix of prefix widths, are read back one by one, whatever follows them. */
  lemma {:induction false} ReadWholeFrames(fs: seq<Frame>, tail: seq<byte>, end: Ending)
    requires AllValid(fs)
    ensures ReadFrames(Images(fs) + tail, end) ==
            Prepend(AllRead(fs), ReadFrames(tail, end))
  {
    var rest := ReadFrames(tail, end);
    if fs == [] {
      assert Images(fs) + tail == tail;
      assert AllRead(fs) + rest.frames == rest.frames;
    } else {
      var f, more := fs[0], fs[1..];
      ConcatAssoc(f.Image(), Images(more), tail);
      ReadOneFrame(f, Images(more) + tail, end);
      ReadWholeFrames(more, tail, end);
      AllReadFirst(fs);
      ConcatAssoc([AsRead(f)], AllRead(more), rest.frames);
    }
  }

  lemma ConcatAssoc<T>(a: seq<T>, b: seq<T>, c: seq<T>)
    ensures (a + b) + c == a + (b + c)
  {
  }

  lemma AllReadFirst(fs: seq<Frame>)
    requires AllValid(fs) && fs != []
    ensures AllRead(fs) == [AsRead(fs[0])] + AllRead(fs[1..])
  {
  }

  /**
   What a stream that ends inside a frame still delivers of it: nothing unless it ended in
   order and the prefix is whole.
   */
  function CutPacket(f: Frame, cut: nat, end: Ending): seq<seq<byte>>
    requires f.Valid() && cut < |f.Image()|
  {
    if cut < Width(f.width) || end.Broken? then [] else [f.payload[..cut - Width(f.width)]]
  }

  lemma {:induction false} ReadCutFrame(f: Frame, cut: nat, end: Ending)
    requires f.Valid() && cut < |f.Image()|
    ensures Payloads(ReadFrames(f.Image()[..cut], end).frames) == CutPacket(f, cut, end)
  {
    var prefix := Codeword(|f.payload|, f.width);
    var data := f.Image()[..cut];
    if cut < |prefix| {
      CutCodeword(|f.payload|, f.width, cut);
      assert data == prefix[..cut];
    } else {
      var body := f.payload[..cut - |prefix|];
      assert data == prefix + body;
      ParseCodeword(|f.payload|, f.width, body);
      assert data[|prefix|..] == body;
    }
  }

  /**
   The error reading ends with, on a stream that ends in a frame: its own if it was reset;
   otherwise a plain EOF, but for one in the middle of a length of which more than its first
   byte was there.
   */
  lemma {:induction false} HowReadingEnds(f: Frame, cut: nat, end: Ending)
    requires f.Valid() && cut < |f.Image()|
    ensures ReadFrames(f.Image()[..cut], end).err ==
            match end
            case Broken(code) => Failed(code)
            case Fin => if 1 < cut < Width(f.width) then UnexpectedEOF else EOF
  {
    var prefix := Codeword(|f.payload|, f.width);
    var data := f.Image()[..cut];
    if cut < |prefix| {
      CutCodeword(|f.payload|, f.width, cut);
      assert data == prefix[..cut];
    } else {
      var body := f.payload[..cut - |prefix|];
      assert data == prefix + body;
      ParseCodeword(|f.payload|, f.width, body);
      assert data[|prefix|..] == body && data[..|prefix|] == prefix;
      if end.Fin? {
        assert NextFrame(data, end) == Got(FrameRead(prefix, |f.payload|, body), []);
        assert NextFrame([], end) == Stop(EOF);
      } else {
        assert NextFrame(data, end).Stop?;
      }
    }
  }

  /**
   Prefix behaviour: of a stream cut at any byte, exactly the `whole` frames complete in
   it are delivered, then at most one proper prefix of the packet the cut falls in; and not
   even that if the stream was reset.
   */
  lemma {:induction false} PrefixDelivery(fs: seq<Frame>, cut: nat, whole: nat, end: Ending)
    requires AllValid(fs) && whole <= |fs| && cut <= |Images(fs)|
    requires |Images(fs[..whole])| <= cut
    requires whole < |fs| ==> cut < |Images(fs[..whole + 1])|
    ensures whole < |fs| ==> cut - |Images(fs[..whole])| < |fs[whole].Image()|
    ensures Payloads(ReadFrames(Images(fs)[..cut], end).frames) ==
            PacketsOf(fs[..whole]) +
            (if whole == |fs| then [] else CutPacket(fs[whole], cut - |Images(fs[..whole])|, end))
  {
    hide ReadFrames, Images, CutPacket, Payloads, PacketsOf;
    if whole == |fs| {
      assert fs[..whole] == fs && Images(fs)[..cut] == Images(fs);
      ReadAll(fs, end);
      assert PacketsOf(fs) + [] == PacketsOf(fs);
    } else {
      var done, f, after := fs[..whole], fs[whole], fs[whole + 1..];
      SplitAt(fs, whole);
      var n := cut - |Images(done)|;
      CutAfter(Images(done), f.Image(), Images(after), cut);
      ReadThenCut(done, f, n, end);
    }
  }

  /** How many of the frames are complete in the first `cut` bytes. */
  function WholeFrames(fs: seq<Frame>, cut: nat): (whole: nat)
    requires AllValid(fs)
    ensures whole <= |fs|
  {
    if fs == [] || cut < |fs[0].Image()| then 0
    else 1 + WholeFrames(fs[1..], cut - |fs[0].Image()|)
  }

  lemma {:induction false} WholeFramesExact(fs: seq<Frame>, cut: nat, n: nat)
    requires AllValid(fs) && n <= |fs|
    ensures |Images(fs[..n])| <= cut <==> n <= WholeFrames(fs, cut)
  {
    if n > 0 {
      assert fs[..n][1..] == fs[1..][..n - 1];
      if |fs[0].Image()| <= cut {
        WholeFramesExact(fs[1..], cut - |fs[0].Image()|, n - 1);
      }
    }
  }

  lemma {:induction false} WholeFramesFit(fs: seq<Frame>, cut: nat)
    requires AllValid(fs)
    ensures var whole := WholeFrames(fs, cut);
            && |Images(fs[..whole])| <= cut
            && (whole < |fs| ==> cut < |Images(fs[..whole + 1])|)
  {
    var whole := WholeFrames(fs, cut);
    WholeFramesExact(fs, cut, whole);
    if whole < |fs| {
      WholeFramesExact(fs, cut, whole + 1);
    }
  }

  /** What the receiver gets of the packets when the stream ends `cut` bytes behind the flow ID. */
  function Delivery(ps: seq<Packet>, cut: nat, end: Ending): seq<seq<byte>> {
    var fs := Minimals(ps);
    var whole := WholeFrames(fs, cut);
    WholeFramesFit(fs, cut);
    if whole == |ps| then ps
    else
      SplitAt(fs, whole);
      ps[..whole] + CutPacket(fs[whole], cut - |Images(fs[..whole])|, end)
  }

  /** What a cut leaves of a packet is less than the packet. */
  lemma CutPacketIsProper(f: Frame, cut: nat, end: Ending)
    requires f.Valid() && cut < |f.Image()|
    ensures var last := CutPacket(f, cut, end);
            last == [] || (|last| == 1 && last[0] < f.payload)
  {
  }

  /** Whole packets first, as many as are there; the last one delivered may be a proper prefix of the next. */
  lemma {:induction false} DeliveryIsPrefix(ps: seq<Packet>, cut: nat, end: Ending)
    ensures var got, whole := Delivery(ps, cut, end), WholeFrames(Minimals(ps), cut);
            && whole <= |got| <= whole + 1 && |got| <= |ps| && got[..whole] == ps[..whole]
            && (|got| > whole ==> end.Fin? && got[whole] < ps[whole])
            && (cut >= |Images(Minimals(ps))| ==> got == ps)
  {
    var fs := Minimals(ps);
    var whole := WholeFrames(fs, cut);
    WholeFramesFit(fs, cut);
    if whole < |ps| {
      SplitAt(fs, whole);
      CutPacketIsProper(fs[whole], cut - |Images(fs[..whole])|, end);
    }
    WholeFramesExact(fs, cut, |fs|);
    assert fs[..|fs|] == fs;
  }

  lemma {:induction false} ReadAll(fs: seq<Frame>, end: Ending)
    requires AllValid(fs)
    ensures var r := ReadFrames(Images(fs), end);
            r == Readout(AllRead(fs), ErrorOf(end)) && Payloads(r.frames) == PacketsOf(fs)
  {
    assert Images(fs) + [] == Images(fs);
    ReadWholeFrames(fs, [], end);
    assert AllRead(fs) + [] == AllRead(fs);
    assert Payloads(AllRead(fs)) == PacketsOf(fs);
  }

  lemma CutAfter(a: seq<byte>, b: seq<byte>, c: seq<byte>, cut: nat)
    requires |a| <= cut <= |a + b|
    ensures (a + b + c)[..cut] == a + b[..cut - |a|]
  {
  }

  lemma {:induction false} ReadThenCut(fs: seq<Frame>, f: Frame, cut: nat, end: Ending)
    requires AllValid(fs) && f.Valid() && cut < |f.Image()|
    ensures Payloads(ReadFrames(Images(fs) + f.Image()[..cut], end).frames) == PacketsOf(fs) + CutPacket(f, cut, end)
  {
    hide ReadFrames;
    ReadWholeFrames(fs, f.Image()[..cut], end);
    ReadCutFrame(f, cut, end);
    var rest := ReadFrames(f.Image()[..cut], end).frames;
    assert Payloads(AllRead(fs) + rest) == PacketsOf(fs) + Payloads(rest);
  }

  lemma {:induction false} SplitAt(fs: seq<Frame>, i: nat)
    requires AllValid(fs) && i < |fs|
    ensures Images(fs[..i + 1]) == Images(fs[..i]) + fs[i].Image()
    ensures Images(fs) == Images(fs[..i]) + fs[i].Image() + Images(fs[i + 1..])
  {
    assert fs[..i + 1] == fs[..i] + [fs[i]];
    assert Images([fs[i]]) == fs[i].Image() + Images([]);
    ImagesConcat(fs[..i], [fs[i]]);
    assert fs == fs[..i + 1] + fs[i + 1..];
    ImagesConcat(fs[..i + 1], fs[i + 1..]);
  }

  /** A complete stream names its flow and delivers its packets: all, in order, each once. */
  lemma {:induction false} CompleteDelivery(id: FlowID, ps: seq<Packet>)
    requires ps != []
    ensures var r := Receive(StreamImage(id, ps), Fin);
            r.Routed? && r.id == id && Payloads(r.readout.frames) == ps && r.readout.err == EOF
  {
    var fs := Minimals(ps);
    ParseEncode(id, Images(fs));
    ReadAll(fs, Fin);
    assert PacketsOf(fs) == ps;
  }

  /** A stream that ends inside the flow ID is cancelled: no flow hears of it. */
  lemma CutInFlowID(id: FlowID, ps: seq<Packet>, cut: nat, end: Ending)
    requires ps != [] && cut < Len(id)
    ensures cut <= |StreamImage(id, ps)| && Receive(StreamImage(id, ps)[..cut], end).Cancelled?
  {
    Capacities();
    CutCodeword(id, MinClass(id), cut);
    assert StreamImage(id, ps)[..cut] == Encode(id)[..cut];
  }

  lemma {:induction false} ReceiveNamed(id: FlowID, body: seq<byte>, end: Ending)
    ensures Receive(Encode(id) + body, end) == Routed(id, ReadFrames(body, end))
  {
    ParseEncode(id, body);
  }

  // ----- The wire image in the log -----

  /** `qlogger`: whether packet bytes are logged, and how many of each at most (0: all). */
  datatype Qlogger = Qlogger(logData: bool, dataLimit: nat)

  /** `qlogger.rawData`. */
  function RawData(q: Qlogger, b: seq<byte>): seq<byte> {
    if !q.logData then []
    else if q.dataLimit > 0 && |b| > q.dataLimit then b[..q.dataLimit]
    else b
  }

  /** What is logged of a wire image: nothing, or all of it, or its first bytes up to the limit. */
  lemma RawDataIs(q: Qlogger, b: seq<byte>)
    ensures RawData(q, b) <= b
    ensures RawData(q, b) == b <==> b == [] || (q.logData && (q.dataLimit == 0 || |b| <= q.dataLimit))
    ensures q.logData && 0 < q.dataLimit <= |b| ==> |RawData(q, b)| == q.dataLimit
    ensures !q.logData ==> RawData(q, b) == []
  {
  }

  /** The packet fields of a `StreamPacketCreated` or `StreamPacketParsed` event. */
  datatype FrameEvent = FrameEvent(length: nat, payloadLength: nat, data: seq<byte>)

  /** What the sender logs for a packet: its own frame, without the flow ID ahead of the first one. */
  function CreatedEvent(q: Qlogger, p: Packet): FrameEvent {
    var image := Minimal(p).Image();
    FrameEvent(|image|, |p|, RawData(q, image))
  }

  function CreatedEvents(q: Qlogger, ps: seq<Packet>): (es: seq<FrameEvent>)
    ensures |es| == |ps|
  {
    seq(|ps|, i requires 0 <= i < |ps| => CreatedEvent(q, ps[i]))
  }

  function ParsedEvent(q: Qlogger, f: FrameRead): FrameEvent {
    FrameEvent(|f.prefix| + |f.payload|, f.declared, RawData(q, f.prefix + f.payload))
  }

  function ParsedEvents(q: Qlogger, frames: seq<FrameRead>): (es: seq<FrameEvent>)
    ensures |es| == |frames|
  {
    seq(|frames|, i requires 0 <= i < |frames| => ParsedEvent(q, frames[i]))
  }

  function LoggedBytes(es: seq<FrameEvent>): seq<byte> {
    if es == [] then [] else es[0].data + LoggedBytes(es[1..])
  }

  /** The bytes at the end of a stream that make up no frame event. */
  predicate Unframed(rest: seq<byte>, end: Ending) {
    match Parse(rest)
    case Truncated => true
    case Parsed(length, size) => end.Broken? && |rest| < size + length
  }

  /**
   With no data limit the log reproduces the stream byte for byte, whatever mix of
   prefix widths the peer used. Only an incomplete length varint at the end is missing,
   and on a broken stream a frame whose payload did not arrive.
   */
  lemma {:induction false} LogReproducesStream(data: seq<byte>, end: Ending)
    ensures LogCovers(data, end)
    decreases |data|
  {
    match Parse(data)
    case Truncated =>
      LogNothing(data, end);
    case Parsed(length, size) =>
      ParseSound(data);
      if size + length <= |data| {
        var tail := data[size + length..];
        LogReproducesStream(tail, end);
        ParseLocal(data, []);
        ThreeParts(data, size, length);
        LogStep(data[..size], data[size..size + length], tail, end);
      } else if end.Fin? {
        LogCutFrame(data, length, size);
      } else {
        LogNothing(data, end);
      }
  }

  lemma {:induction false} LogNothing(data: seq<byte>, end: Ending)
    requires Unframed(data, end)
    ensures LogCovers(data, end)
  {
  }

  lemma {:induction false} LogCutFrame(data: seq<byte>, length: nat, size: nat)
    requires Parse(data) == Parsed(length, size) && size <= |data| < size + length
    ensures LogCovers(data, Fin)
  {
  }

  lemma ThreeParts(data: seq<byte>, i: nat, n: nat)
    requires i + n <= |data|
    ensures data[..i] + data[i..i + n] + data[i + n..] == data
  {
  }

  predicate LogCovers(data: seq<byte>, end: Ending) {
    var logged := LoggedBytes(ParsedEvents(Qlogger(true, 0), ReadFrames(data, end).frames));
    logged <= data && Unframed(data[|logged|..], end)
  }

  lemma {:induction false} LogStep(prefix: seq<byte>, payload: seq<byte>, tail: seq<byte>, end: Ending)
    requires Parse(prefix) == Parsed(|payload|, |prefix|)
    requires LogCovers(tail, end)
    ensures LogCovers(prefix + payload + tail, end)
  {
    var q := Qlogger(true, 0);
    ReadStep(prefix, payload, tail, end);
    LoggedFirst(q, FrameRead(prefix, |payload|, payload), ReadFrames(tail, end).frames);
    ExtendPrefix(prefix + payload, LoggedBytes(ParsedEvents(q, ReadFrames(tail, end).frames)), tail);
  }

  lemma ExtendPrefix(a: seq<byte>, b: seq<byte>, c: seq<byte>)
    requires b <= c
    ensures a + b <= a + c && (a + c)[|a + b|..] == c[|b|..]
  {
  }

  lemma LoggedFirst(q: Qlogger, f: FrameRead, rest: seq<FrameRead>)
    ensures LoggedBytes(ParsedEvents(q, [f] + rest)) ==
            RawData(q, f.prefix + f.payload) + LoggedBytes(ParsedEvents(q, rest))
  {
    assert ParsedEvents(q, [f] + rest)[1..] == ParsedEvents(q, rest);
  }

  /** For complete streams of this implementation, sender and receiver log the same events. */
  lemma {:induction false} LogsAgree(q: Qlogger, id: FlowID, ps: seq<Packet>)
    requires ps != []
    ensures var r := Receive(StreamImage(id, ps), Fin);
            r.Routed? && ParsedEvents(q, r.readout.frames) == CreatedEvents(q, ps)
  {
    hide ReadFrames, Receive;
    var fs := Minimals(ps);
    ReceiveNamed(id, Images(fs), Fin);
    ReadAll(fs, Fin);
  }

  /** The event of a frame sent: its own length and bytes, and the packet's length. */
  lemma CreatedEventIs(q: Qlogger, p: Packet)
    ensures CreatedEvent(q, p) == FrameEvent(Len(|p|) + |p|, |p|, RawData(q, Encode(|p|) + p))
  {
  }

  /** The event of a whole frame received: its length and bytes as they were on the wire, in any prefix width. */
  lemma {:induction false} FrameLogged(q: Qlogger, f: Frame, tail: seq<byte>, end: Ending)
    requires f.Valid()
    ensures var es := ParsedEvents(q, ReadFrames(f.Image() + tail, end).frames);
            es != [] && es[0] == FrameEvent(Width(f.width) + |f.payload|, |f.payload|, RawData(q, f.Image()))
  {
    hide ReadFrames;
    ReadOneFrame(f, tail, end);
  }

  /** The event of a frame cut in its payload: the length and bytes that came, and the length announced. */
  lemma {:induction false} CutFrameLogged(q: Qlogger, f: Frame, cut: nat)
    requires f.Valid() && Width(f.width) <= cut < |f.Image()|
    ensures ParsedEvents(q, ReadFrames(f.Image()[..cut], Fin).frames) ==
            [FrameEvent(cut, |f.payload|, RawData(q, f.Image()[..cut]))]
  {
    var prefix := Codeword(|f.payload|, f.width);
    var data, body := f.Image()[..cut], f.payload[..cut - |prefix|];
    assert data == prefix + body;
    ParseCodeword(|f.payload|, f.width, body);
    assert data[|prefix|..] == body && data[..|prefix|] == prefix;
    assert NextFrame(data, Fin) == Got(FrameRead(prefix, |f.payload|, body), []);
    assert NextFrame([], Fin).Stop?;
  }
}
