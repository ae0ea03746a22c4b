/**
 The methods of `ReceiveFlow` (receive_flow.go), each the body of one critical section,
 proved against the step of the machine in `FlowMachine` that stands for it. What panics in
 Go, a second close of a channel or a send on a closed one, is a precondition here: that the
 methods verify means that it does not happen.
 */
module Flows {
  import opened Varint
  import opened Framing
  import opened Common
  import opened FlowMachine
  import opened FlowInvariants
  import opened ReceiveStream

  /** The packets queued once another one has been pushed. */
  function Pushed(packets: seq<seq<byte>>, packet: seq<byte>, closed: bool, capacity: nat): seq<seq<byte>> {
    if !closed && |packets| < capacity then packets + [packet] else packets
  }

  /** The packets queued once several have been: as many of them as there is room for. */
  function PushedAll(packets: seq<seq<byte>>, more: seq<seq<byte>>, closed: bool, capacity: nat): seq<seq<byte>> {
    if closed || capacity <= |packets| then packets
    else if |packets| + |more| <= capacity then packets + more
    else packets + more[..capacity - |packets|]
  }

  lemma PushedOneMore(packets: seq<seq<byte>>, more: seq<seq<byte>>, packet: seq<byte>, closed: bool, capacity: nat)
    ensures Pushed(PushedAll(packets, more, closed, capacity), packet, closed, capacity) ==
            PushedAll(packets, more + [packet], closed, capacity)
  {
    if !closed && |packets| < capacity {
      if |packets| + |more| < capacity {
        assert packets + more + [packet] == packets + (more + [packet]);
      } else {
        var room := capacity - |packets|;
        assert more[..room] == (more + [packet])[..room];
      }
    }
  }

  lemma PushedNone(packets: seq<seq<byte>>, closed: bool, capacity: nat)
    ensures PushedAll(packets, [], closed, capacity) == packets
  {
  }

  lemma StartOfFrames(all: Readout)
    ensures Prepend([], all) == all
  {
  }

  lemma FrameByFrame(data: seq<byte>, end: Ending)
    ensures ReadFrames(data, end) ==
            match NextFrame(data, end)
            case Got(f, rest) => Prepend([f], ReadFrames(rest, end))
            case Stop(err) => Readout([], err)
  {
  }

  function Contents(content: map<Buf, seq<byte>>, bufs: seq<Buf>): (ps: seq<seq<byte>>)
    requires forall b :: b in bufs ==> b in content
    ensures |ps| == |bufs| && forall i :: 0 <= i < |bufs| ==> ps[i] == content[bufs[i]]
  {
    seq(|bufs|, i requires 0 <= i < |bufs| => content[bufs[i]])
  }

  class ReceiveFlow {
    const id: nat
    const capacity: nat
    var queue: seq<Buf>
    var queueClosed: bool
    var pool: set<Buf>
    /** What the buffers hold, and the next one to be allocated. */
    var content: map<Buf, seq<byte>>
    var nextBuf: Buf
    var ctxDone: bool
    var streams: map<StreamID, Tid>
    var closed: bool
    /** Streams whose CancelRead has been called. */
    var cancelled: set<StreamID>
    var deadlineCh: Chan
    var deadlineExpired: bool
    var deadlineTimer: Option<Chan>
    /** The channels closed so far, the next one to be made, and the callbacks still to run. */
    var closedChans: set<Chan>
    var nextChan: Chan
    var timers: set<Chan>

    ghost function State(): Flow
      reads this
    {
      Flow(capacity, queue, queueClosed, pool, ctxDone, streams, closed, cancelled,
           ReadDeadline(), false)
    }

    ghost function ReadDeadline(): Deadline
      reads this`deadlineCh, this`deadlineExpired, this`deadlineTimer, this`closedChans, this`nextChan, this`timers
    {
      Deadline(deadlineCh, deadlineExpired, deadlineTimer, nextChan, closedChans, timers, false)
    }

    ghost predicate Valid()
      reads this`deadlineCh, this`deadlineExpired, this`deadlineTimer, this`closedChans, this`nextChan, this`timers
      reads this`queue, this`closed, this`queueClosed, this`ctxDone, this`pool, this`content, this`nextBuf
    {
      && ChansOk(ReadDeadline())
      && QueueOk(queue, capacity, closed, queueClosed, ctxDone)
      && BuffersOk(pool, queue, content, nextBuf)
    }

    /** The packets waiting to be read. */
    ghost function Packets(): (ps: seq<seq<byte>>)
      reads this`deadlineCh, this`deadlineExpired, this`deadlineTimer, this`closedChans, this`nextChan, this`timers
      reads this`queue, this`closed, this`queueClosed, this`ctxDone, this`pool, this`content, this`nextBuf
      requires Valid()
      ensures |ps| == |queue|
    {
      Contents(content, queue)
    }

    /** The buffer belongs to the caller. */
    predicate Handed(b: Buf)
      reads this
    {
      b < nextBuf && b in content && b !in pool && b !in queue
    }

    constructor (id: nat, receiveBufferSize: nat)
      ensures this.id == id && State() == NewFlow(receiveBufferSize)
      ensures Valid() && Packets() == []
    {
      this.id, capacity := id, receiveBufferSize;
      queue, queueClosed, pool, content, nextBuf := [], false, {}, map[], 0;
      ctxDone, streams, closed, cancelled := false, map[], false, {};
      deadlineCh, deadlineExpired, deadlineTimer := 0, false, None;
      closedChans, nextChan, timers := {}, 1, {};
    }

    // ----- Packets -----

    /** `bufferPool.Get` and `Reset`: a pooled buffer or a new one, and no one else's. */
    method GetBuffer() returns (b: Buf)
      requires Valid()
      modifies this`pool, this`content, this`nextBuf
      ensures Valid() && Handed(b) && content[b] == []
      ensures Packets() == old(Packets())
    {
      var reuse: bool := *;
      if pool == {} || !reuse {
        b := nextBuf;
        nextBuf := nextBuf + 1;
      } else {
        b :| b in pool;
        pool := pool - {b};
      }
      content := content[b := []];
    }

    method WriteBuffer(b: Buf, bytes: seq<byte>)
      requires Valid() && Handed(b)
      modifies this`content
      ensures Valid() && Handed(b) && content[b] == old(content[b]) + bytes
      ensures Packets() == old(Packets())
    {
      content := content[b := content[b] + bytes];
    }

    /** Queues the packet exactly if the flow is open and has room; otherwise the buffer is pooled. */
    method Push(packet: Buf)
      requires Valid() && Handed(packet)
      modifies this`queue, this`pool
      ensures Valid() && State() == PushBuffer(old(State()), packet)
      ensures Packets() == Pushed(old(Packets()), content[packet], closed, capacity)
      ensures packet in pool <==> closed || |old(queue)| == capacity
    {
      if closed {
        pool := pool + {packet};
        return;
      }
      var sent := TrySend(packet);
      if !sent {
        pool := pool + {packet};
      }
    }

    /** A send that does not wait: it panics if the channel is closed. */
    method TrySend(packet: Buf) returns (sent: bool)
      requires !queueClosed
      modifies this`queue
      ensures sent <==> |old(queue)| < capacity
      ensures queue == if sent then old(queue) + [packet] else old(queue)
    {
      sent := |queue| < capacity;
      if sent {
        queue := queue + [packet];
      }
    }

    /** The end of `HandleDatagram`: a packet copied into a buffer of the flow and pushed. */
    method PushCopy(packet: seq<byte>)
      requires Valid()
      modifies this`queue, this`pool, this`content, this`nextBuf
      ensures Valid() && Packets() == Pushed(old(Packets()), packet, closed, capacity)
    {
      var b := GetBuffer();
      WriteBuffer(b, packet);
      assert content[b] == packet;
      Push(b);
    }

    /** `copyPacket`: all of the packet or nothing, and the buffer back to the pool. */
    method CopyPacket(buf: array<byte>, packet: Buf) returns (n: nat, err: IoError)
      requires Valid() && Handed(packet)
      modifies this`pool, buf
      ensures Valid() && pool == old(pool) + {packet} && Packets() == old(Packets())
      ensures var bytes := content[packet];
              if |bytes| <= buf.Length
              then n == |bytes| && err.NoError? && buf[..n] == bytes && buf[n..] == old(buf[n..])
              else n == 0 && err == ShortBuffer && buf[..] == old(buf[..])
    {
      var bytes := content[packet];
      if buf.Length < |bytes| {
        pool := pool + {packet};
        return 0, ShortBuffer;
      }
      forall i | 0 <= i < |bytes| {
        buf[i] := bytes[i];
      }
      pool := pool + {packet};
      return |bytes|, NoError;
    }

    // ----- Streams -----

    /** The registration at the start of `readStream`. */
    method StartStream(sid: StreamID, reader: Tid) returns (registered: bool)
      requires Valid()
      modifies this`streams
      ensures Valid() && State() == Register(old(State()), sid, reader)
      ensures registered <==> !ctxDone
    {
      if ctxDone {
        return false;
      }
      streams := streams[sid := reader];
      return true;
    }

    /** What `readStream` defers. */
    method EndStream(sid: StreamID)
      requires Valid()
      modifies this`streams
      ensures Valid() && State() == Unregister(old(State()), sid)
    {
      streams := streams - {sid};
    }

    /**
     `readStream`, with nothing else going on: a flow that is cancelled cancels the stream;
     otherwise the packets of the stream are queued, as many as there is room for, whatever
     Read returns, and the stream is not left registered.
     */
    method ReadStream(rs: QuicReceiveStream, sid: StreamID, reader: Tid, q: Qlogger)
      returns (events: seq<FrameEvent>)
      requires Valid() && rs.cancelled.None?
      modifies this`queue, this`pool, this`content, this`nextBuf, this`streams, rs
      ensures Valid() && rs.cancelled == (if ctxDone then Some(ERR_ROQ_NO_ERROR) else None)
      ensures var r := ReadFrames(old(rs.data), rs.end);
              if ctxDone then Packets() == old(Packets()) && events == [] && streams == old(streams)
              else
                && Packets() == PushedAll(old(Packets()), Payloads(r.frames), closed, capacity)
                && events == ParsedEvents(q, r.frames) && streams == old(streams) - {sid}
    {
      hide ReadFrames, NextFrame;
      events := [];
      var registered := StartStream(sid, reader);
      if !registered {
        rs.CancelRead(ERR_ROQ_NO_ERROR);
        return;
      }
      events := PushFrames(rs, q);
      EndStream(sid);
    }

    /** The loop of `readStream`. */
    method PushFrames(rs: QuicReceiveStream, q: Qlogger) returns (events: seq<FrameEvent>)
      requires Valid()
      modifies this`queue, this`pool, this`content, this`nextBuf, rs`data, rs`cuts
      ensures Valid()
      ensures var r := ReadFrames(old(rs.data), rs.end);
              && Packets() == PushedAll(old(Packets()), Payloads(r.frames), closed, capacity)
              && events == ParsedEvents(q, r.frames)
    {
      hide Valid, Packets, PushedAll, ReadFrames, NextFrame;
      var lengthBuf := new byte[8];
      ghost var before := Packets();
      ghost var all := ReadFrames(rs.data, rs.end);
      ghost var done: seq<FrameRead> := [];
      events := [];
      PushedNone(before, closed, capacity);
      StartOfFrames(all);
      while true
        invariant Valid() && Packets() == PushedAll(before, Payloads(done), closed, capacity)
        invariant events == ParsedEvents(q, done)
        invariant all == Prepend(done, ReadFrames(rs.data, rs.end))
        decreases |rs.data|
      {
        ghost var data := rs.data;
        FrameByFrame(data, rs.end);
        var packet, event, err;
        packet, event, err := ReadFrame(rs, lengthBuf, q);
        if !err.NoError? {
          assert done + [] == done;
          return;
        }
        ghost var f := NextFrame(data, rs.end).frame;
        PushedOneMore(before, Payloads(done), packet, closed, capacity);
        PushCopy(packet);
        ConcatAssoc(done, [f], ReadFrames(rs.data, rs.end).frames);
        OneMore(q, done, f);
        done := done + [f];
        events := events + [event];
      }
    }

    /** `closeWithError`: cancels the streams one by one, in no particular order. */
    method CloseWithError()
      modifies this`cancelled
      ensures State() == CancelStreams(old(State()))
    {
      var left: set<StreamID> := streams.Keys;
      while left != {}
        invariant left <= streams.Keys
        invariant cancelled == old(cancelled) + (streams.Keys - left)
        decreases |left|
      {
        ghost var some := Member(left);
        var sid :| sid in left;
        cancelled := cancelled + {sid};
        left := left - {sid};
      }
      assert cancelled == old(cancelled) + streams.Keys;
    }

    // ----- The read deadline -----

    /** Closing a channel, which must not be closed yet. */
    method CloseChan(ch: Chan)
      requires ch !in closedChans
      modifies this`closedChans
      ensures closedChans == old(closedChans) + {ch}
    {
      closedChans := closedChans + {ch};
    }

    method StopDeadlineTimer(inTime: bool)
      requires ChansOk(ReadDeadline())
      modifies this`deadlineTimer, this`timers
      ensures ChansOk(ReadDeadline()) && ReadDeadline() == StopTimer(old(ReadDeadline()), inTime)
      ensures deadlineTimer.None?
      ensures inTime && old(deadlineTimer).Some? ==> old(deadlineTimer.value) !in timers
    {
      if deadlineTimer.Some? {
        if inTime {
          timers := timers - {deadlineTimer.value};
        }
        deadlineTimer := None;
      }
    }

    /**
     Whatever the deadline was: every earlier channel is closed, so that no one waits on it
     for longer; the new one is closed exactly if its time has passed; and exactly if its
     time is to come there is a timer for it.
     */
    method SetReadDeadline(time: Time, inTime: bool)
      requires Valid()
      modifies this`deadlineCh, this`deadlineExpired, this`deadlineTimer, this`closedChans, this`nextChan, this`timers
      ensures Valid() && ReadDeadline() == SetDeadline(old(ReadDeadline()), time, inTime)
      ensures old(deadlineCh) < deadlineCh && forall c: Chan :: c < deadlineCh ==> c in closedChans
      ensures (deadlineCh in closedChans <==> time.Past?) && (deadlineExpired <==> time.Past?)
      ensures deadlineTimer == (if time.Future? then Some(deadlineCh) else None)
      ensures deadlineCh in timers <==> time.Future?
    {
      StopDeadlineTimer(inTime);
      ReplaceDeadline();
      if time.Past? {
        ExpireDeadline(deadlineCh);
      } else if time.Future? {
        var ch := deadlineCh;
        deadlineTimer := Some(ch);
        timers := timers + {ch};
      }
    }

    /** Leaves every channel there was closed, and a new one that is not. */
    method ReplaceDeadline()
      requires Valid() && deadlineTimer.None?
      modifies this`deadlineCh, this`deadlineExpired, this`closedChans, this`nextChan
      ensures Valid() && ReadDeadline() == Replace(old(ReadDeadline()))
      ensures deadlineCh == old(deadlineCh) + 1 && !deadlineExpired
      ensures forall c: Chan :: c in closedChans <==> c <= old(deadlineCh)
    {
      if !deadlineExpired {
        CloseChan(deadlineCh);
      }
      deadlineCh := nextChan;
      nextChan := nextChan + 1;
      deadlineExpired := false;
    }

    /** Only the deadline in force expires: a stale channel changes nothing, and a second expiry neither. */
    method ExpireDeadline(ch: Chan)
      requires Valid()
      modifies this`deadlineExpired, this`closedChans
      ensures Valid() && ReadDeadline() == Expire(old(ReadDeadline()), ch)
      ensures deadlineExpired <==> old(deadlineExpired) || ch == deadlineCh
      ensures closedChans == if ch == deadlineCh then old(closedChans) + {ch} else old(closedChans)
    {
      if deadlineCh != ch || deadlineExpired {
        return;
      }
      deadlineExpired := true;
      CloseChan(ch);
    }

    /** The callback of a timer, however late. */
    method TimerCallback(ch: Chan)
      requires Valid() && ch in timers
      modifies this`deadlineExpired, this`closedChans, this`timers
      ensures Valid() && ReadDeadline() == Fire(old(ReadDeadline()), ch)
      ensures if ch == deadlineCh then deadlineExpired && ch in closedChans
              else deadlineExpired == old(deadlineExpired) && closedChans == old(closedChans)
    {
      ExpireDeadline(ch);
      timers := timers - {ch};
    }

    // ----- Closing -----

    /** Closing the queue's channel, which must not be closed yet. */
    method CloseQueueChan()
      requires !queueClosed
      modifies this`queueClosed
      ensures queueClosed
    {
      queueClosed := true;
    }

    /** `closeBuffer`: closed afterwards, with what is queued still there; a second call changes nothing. */
    method CloseBuffer(inTime: bool)
      requires Valid() && ctxDone
      modifies this`closed, this`queueClosed, this`deadlineTimer, this`timers
      ensures Valid() && State() == FlowMachine.CloseBuffer(old(State()), inTime)
      ensures closed && queueClosed && (old(closed) ==> State() == old(State()))
      ensures !old(closed) ==> deadlineTimer.None?
    {
      if closed {
        return;
      }
      closed := true;
      StopDeadlineTimer(inTime);
      CloseQueueChan();
    }

    /**
     `Close`, with nothing else going on: no stream is left uncancelled or can register, no
     packet can be pushed, and those queued can still be read.
     */
    method Close(inTime: bool)
      requires Valid()
      modifies this`ctxDone, this`closed, this`queueClosed, this`deadlineTimer, this`timers, this`cancelled
      ensures Valid() && State() == CancelStreams(FlowMachine.CloseBuffer(old(State()).(ctxDone := true), inTime))
      ensures ctxDone && closed && streams.Keys <= cancelled && Packets() == old(Packets())
    {
      ctxDone := true;
      CloseBuffer(inTime);
      CloseWithError();
    }
  }
}
