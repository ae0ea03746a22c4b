/**
 Reading a stream back (receive_flow.go `readStream`, `readVarint`; session.go
 `handleUniStream`) through Reads that return whatever chunks they like.
 */
module ReceiveStream {
  import opened Varint
  import opened Framing
  import opened Common

  /** The receiving end of a QUIC stream: the bytes to come and how Read will cut them up. */
  class QuicReceiveStream {
    var data: seq<byte>
    /** How many bytes each Read to come is willing to return; past the end, all that fit. */
    var cuts: seq<nat>
    const end: Ending
    /** Whether EOF is reported along with the last bytes, as io.Reader allows. */
    const eager: bool
    /** The code of CancelRead, once it has been called. */
    var cancelled: Option<nat>

    constructor (data: seq<byte>, cuts: seq<nat>, end: Ending, eager: bool)
      ensures this.data == data && this.cuts == cuts && this.end == end && this.eager == eager
      ensures cancelled.None?
    {
      this.data, this.cuts, this.end, this.eager, cancelled := data, cuts, end, eager, None;
    }

    method Read(max: nat) returns (chunk: seq<byte>, err: IoError)
      requires max > 0
      modifies this`data, this`cuts
      ensures |chunk| <= max && old(data) == chunk + data
      ensures old(data) == [] ==> err == ErrorOf(end)
      ensures old(data) != [] && !err.NoError? ==> err == EOF && end.Fin? && data == []
      ensures err.NoError? ==> |data| + |cuts| < old(|data| + |cuts|)
    {
      if data == [] {
        return [], ErrorOf(end);
      }
      var n := if |data| < max then |data| else max;
      if cuts != [] {
        n := if cuts[0] < n then cuts[0] else n;
        cuts := cuts[1..];
      }
      chunk := data[..n];
      data := data[n..];
      err := if eager && end.Fin? && data == [] then EOF else NoError;
    }

    method CancelRead(code: nat)
      modifies this`cancelled
      ensures cancelled == Some(code)
    {
      cancelled := Some(code);
    }
  }

  /** `ReadByte` of the reader `quicvarint.NewReader` wraps a stream in: it buffers nothing. */
  method ReadByte(rs: QuicReceiveStream) returns (b: byte, err: IoError)
    modifies rs`data, rs`cuts
    ensures old(rs.data) == [] ==> err == ErrorOf(rs.end) && rs.data == []
    ensures old(rs.data) != [] ==> err.NoError? && b == old(rs.data)[0] && rs.data == old(rs.data)[1..]
  {
    var chunk: seq<byte> := [];
    err := NoError;
    while chunk == [] && err.NoError?
      invariant |chunk| <= 1 && old(rs.data) == chunk + rs.data
      invariant !err.NoError? ==> if old(rs.data) == [] then err == ErrorOf(rs.end) else err == EOF && rs.data == []
      decreases if err.NoError? then 1 else 0, |rs.data| + |rs.cuts|
    {
      chunk, err := rs.Read(1);
    }
    if chunk == [] {
      return 0, err;
    }
    return chunk[0], NoError;
  }

  /** `io.ReadFull(r, buf[from:to])`. */
  method ReadFull(rs: QuicReceiveStream, buf: array<byte>, from: nat, to: nat) returns (err: IoError)
    requires from < to <= buf.Length
    modifies rs`data, rs`cuts, buf
    ensures buf[..from] == old(buf[..from])
    ensures to - from <= |old(rs.data)| ==>
              err.NoError? && buf[from..to] == old(rs.data)[..to - from] && rs.data == old(rs.data)[to - from..]
    ensures |old(rs.data)| < to - from ==>
              && rs.data == []
              && err == if old(rs.data) == [] || rs.end.Broken? then ErrorOf(rs.end) else UnexpectedEOF
  {
    ghost var all := rs.data;
    var i := from;
    err := NoError;
    while i < to && err.NoError?
      invariant from <= i <= to && i - from <= |all|
      invariant forall k :: 0 <= k < from ==> buf[k] == old(buf[k])
      invariant forall k :: from <= k < i ==> buf[k] == all[k - from]
      invariant rs.data == all[i - from..]
      invariant !err.NoError? ==> rs.data == [] && err == ErrorOf(rs.end)
      decreases if err.NoError? then 1 else 0, |rs.data| + |rs.cuts|
    {
      var chunk;
      chunk, err := rs.Read(to - i);
      assert forall k :: 0 <= k < |chunk| ==> chunk[k] == all[i - from + k];
      forall k | 0 <= k < |chunk| {
        buf[i + k] := chunk[k];
      }
      i := i + |chunk|;
    }
    if i >= to {
      err := NoError;
    } else if i > from && err == EOF {
      err := UnexpectedEOF;
    }
  }

  /** `readVarint`: the value and the very bytes it was encoded in, shortest or not. */
  method ReadVarint(rs: QuicReceiveStream, buf: array<byte>) returns (v: nat, encoded: seq<byte>, err: IoError)
    requires buf.Length == 8
    modifies rs`data, rs`cuts, buf
    ensures match Parse(old(rs.data))
            case Parsed(value, size) =>
              && err.NoError? && v == value
              && size <= |old(rs.data)|
              && encoded == old(rs.data)[..size] && rs.data == old(rs.data)[size..]
            case Truncated =>
              err == VarintError(old(rs.data), rs.end) && !err.NoError? && rs.data == []
  {
    ghost var all := rs.data;
    var first;
    first, err := ReadByte(rs);
    if !err.NoError? {
      return 0, [], err;
    }
    var n := Width(ClassOf(first));
    buf[0] := first;
    if n > 1 {
      err := ReadFull(rs, buf, 1, n);
      if !err.NoError? {
        return 0, [], err;
      }
    }
    encoded := buf[..n];
    assert encoded == [buf[..1][0]] + buf[1..n];
    assert encoded == all[..n];
    ParseLocal(all, []);
    v := Parse(encoded).value;
  }

  const MIN_READ: nat := 512

  /** `bytes.Buffer.ReadFrom` an `io.LimitReader`: EOF, of either kind, is success. */
  method ReadPayload(rs: QuicReceiveStream, limit: nat) returns (payload: seq<byte>, err: IoError)
    modifies rs`data, rs`cuts
    ensures limit <= |old(rs.data)| ==>
              err.NoError? && payload == old(rs.data)[..limit] && rs.data == old(rs.data)[limit..]
    ensures |old(rs.data)| < limit ==>
              && rs.data == []
              && if rs.end.Fin? then err.NoError? && payload == old(rs.data) else err == ErrorOf(rs.end)
  {
    ghost var all := rs.data;
    payload := [];
    while |payload| < limit
      invariant |payload| <= limit && all == payload + rs.data
      decreases |rs.data| + |rs.cuts|
    {
      var left := limit - |payload|;
      // The room the buffer has to spare, grown to MIN_READ if it was less.
      var spare: nat :| MIN_READ <= spare;
      var chunk;
      chunk, err := rs.Read(if left < spare then left else spare);
      payload := payload + chunk;
      if err == EOF {
        assert payload == all;
        return payload, NoError;
      } else if !err.NoError? {
        return payload, err;
      }
    }
    err := NoError;
  }

  /** One round of the loop: length, payload, event, packet. */
  method ReadFrame(rs: QuicReceiveStream, lengthBuf: array<byte>, q: Qlogger)
    returns (packet: seq<byte>, event: FrameEvent, err: IoError)
    requires lengthBuf.Length == 8
    modifies rs`data, rs`cuts, lengthBuf
    ensures match NextFrame(old(rs.data), rs.end)
            case Got(f, rest) =>
              err.NoError? && packet == f.payload && event == ParsedEvent(q, f) && rs.data == rest
            case Stop(e) => err == e
  {
    ghost var before := rs.data;
    event := FrameEvent(0, 0, []);
    var length, encodedLength;
    length, encodedLength, err := ReadVarint(rs, lengthBuf);
    if !err.NoError? {
      return [], event, err;
    }
    ParseSound(before);
    var payload;
    payload, err := ReadPayload(rs, length);
    if !err.NoError? {
      return [], event, err;
    }
    // What is logged is the whole frame; the length is skipped only afterwards.
    var b := encodedLength + payload;
    event := FrameEvent(|b|, length, RawData(q, b));
    packet := b[|encodedLength|..];
  }

  /** The loop of `readStream`: what it pushes and logs, whatever the Reads return. */
  method ReadStream(rs: QuicReceiveStream, q: Qlogger)
    returns (pushed: seq<seq<byte>>, events: seq<FrameEvent>, err: IoError)
    modifies rs`data, rs`cuts
    ensures var r := ReadFrames(old(rs.data), rs.end);
            pushed == Payloads(r.frames) && events == ParsedEvents(q, r.frames) && err == r.err
  {
    var lengthBuf := new byte[8];
    ghost var all := ReadFrames(rs.data, rs.end);
    ghost var done: seq<FrameRead> := [];
    pushed, events := [], [];
    while true
      invariant pushed == Payloads(done) && events == ParsedEvents(q, done)
      invariant all == Prepend(done, ReadFrames(rs.data, rs.end))
      decreases |rs.data|
    {
      ghost var before := rs.data;
      var packet, event;
      packet, event, err := ReadFrame(rs, lengthBuf, q);
      if !err.NoError? {
        assert done + [] == done;
        return;
      }
      ghost var f := NextFrame(before, rs.end).frame;
      ConcatAssoc(done, [f], ReadFrames(rs.data, rs.end).frames);
      OneMore(q, done, f);
      done := done + [f];
      pushed := pushed + [packet];
      events := events + [event];
    }
  }

  lemma OneMore(q: Qlogger, done: seq<FrameRead>, f: FrameRead)
    ensures Payloads(done + [f]) == Payloads(done) + [f.payload]
    ensures ParsedEvents(q, done + [f]) == ParsedEvents(q, done) + [ParsedEvent(q, f)]
  {
  }

  /** `quicvarint.Read`, byte by byte. */
  method ReadFlowID(rs: QuicReceiveStream) returns (v: nat, err: IoError)
    modifies rs`data, rs`cuts
    ensures match Parse(old(rs.data))
            case Parsed(value, size) =>
              err.NoError? && v == value && size <= |old(rs.data)| && rs.data == old(rs.data)[size..]
            case Truncated => !err.NoError?
  {
    ghost var all := rs.data;
    var first;
    first, err := ReadByte(rs);
    if !err.NoError? {
      return 0, err;
    }
    var n := Width(ClassOf(first));
    var i := 1;
    v := first % 64;
    assert FromBigEndian([first % 64] + all[1..1]) == v;
    while i < n
      invariant 1 <= i <= n && i <= |all| && rs.data == all[i..] && err.NoError?
      invariant v == FromBigEndian([first % 64] + all[1..i])
    {
      var b;
      b, err := ReadByte(rs);
      if !err.NoError? {
        return 0, err;
      }
      FromBigEndianAppend([first % 64] + all[1..i], b);
      assert [first % 64] + all[1..i] + [b] == [first % 64] + all[1..i + 1];
      v := 256 * v + b;
      i := i + 1;
    }
  }

  /** `handleUniStream` as far as the bytes go: the flow named, and what is pushed to it and logged. */
  method HandleUniStream(rs: QuicReceiveStream, q: Qlogger)
    returns (named: bool, flowID: nat, pushed: seq<seq<byte>>, events: seq<FrameEvent>)
    requires rs.cancelled.None?
    modifies rs
    ensures match Receive(old(rs.data), rs.end)
            case Cancelled => !named && rs.cancelled == Some(ERR_ROQ_PACKET_ERROR) && pushed == []
            case Routed(id, r) =>
              && named && rs.cancelled.None? && flowID == id
              && pushed == Payloads(r.frames) && events == ParsedEvents(q, r.frames)
  {
    pushed, events := [], [];
    var err;
    flowID, err := ReadFlowID(rs);
    named := err.NoError?;
    if !named {
      rs.CancelRead(ERR_ROQ_PACKET_ERROR);
      return;
    }
    pushed, events, err := ReadStream(rs, q);
  }
}
