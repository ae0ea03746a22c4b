/**
 A `ReceiveFlow` (receive_flow.go) shared by any number of goroutines. Every
 critical section under the flow's lock, every channel operation, every use of the
 buffer pool and every timer callback is one atomic step; a run is any sequence of
 enabled steps.
 */
module FlowMachine {
  import opened Common
  import opened Varint

  type Chan = nat
  type Buf = nat
  type StreamID = int

  // ----- The read deadline -----

  /**
   The deadline fields of a flow, with the channels and timers behind them. A timer is
   named by the channel its callback closes.
   */
  datatype Deadline = Deadline(
    ch: Chan,                 // deadlineCh
    expired: bool,            // deadlineExpired
    timer: Option<Chan>,      // deadlineTimer
    next: Chan,               // the next channel to be made
    closedChans: set<Chan>,
    timers: set<Chan>,        // callbacks that may still run
    panicked: bool)           // a closed channel was closed again

  function CloseChan(d: Deadline, ch: Chan): Deadline {
    if ch in d.closedChans then d.(panicked := true)
    else d.(closedChans := d.closedChans + {ch})
  }

  /** `expireDeadline`. */
  function Expire(d: Deadline, ch: Chan): Deadline {
    if d.ch != ch || d.expired then d
    else CloseChan(d.(expired := true), ch)
  }

  /** `Timer.Stop`: it may come too late to keep the callback from running. */
  function StopTimer(d: Deadline, inTime: bool): Deadline {
    if d.timer.None? then d
    else d.(timer := None, timers := if inTime then d.timers - {d.timer.value} else d.timers)
  }

  datatype Time = Cleared | Past | Future

  /** A fresh channel for the new deadline; those waiting on the old one are woken. */
  function Replace(d: Deadline): Deadline {
    var woken := if d.expired then d else CloseChan(d, d.ch);
    woken.(ch := d.next, next := d.next + 1, expired := false)
  }

  /** `SetReadDeadline`. */
  function SetDeadline(d: Deadline, time: Time, inTime: bool): Deadline {
    var replaced := Replace(StopTimer(d, inTime));
    match time
    case Cleared => replaced
    case Past => Expire(replaced, replaced.ch)
    case Future => replaced.(timer := Some(replaced.ch), timers := replaced.timers + {replaced.ch})
  }

  /** The callback of timer `ch`. */
  function Fire(d: Deadline, ch: Chan): Deadline {
    Expire(d.(timers := d.timers - {ch}), ch)
  }

  // ----- The flow -----

  datatype Flow = Flow(
    capacity: nat,
    queue: seq<Buf>,                // chan *bytes.Buffer
    queueClosed: bool,
    pool: set<Buf>,
    ctxDone: bool,
    streams: map<StreamID, Tid>,    // the stream is named by the goroutine that reads it
    closed: bool,
    cancelled: set<StreamID>,       // streams whose CancelRead has been called
    deadline: Deadline,
    panicked: bool)                 // send on, or second close of, the closed queue

  function NewFlow(capacity: nat): Flow {
    Flow(capacity, [], false, {}, false, map[], false, {}, Deadline(0, false, None, 1, {}, {}, false), false)
  }

  /** Whether `push` queues a packet rather than dropping it. */
  predicate Queues(f: Flow) {
    !f.closed && !f.queueClosed && |f.queue| < f.capacity
  }

  /** `push`. */
  function PushBuffer(f: Flow, b: Buf): Flow {
    if f.closed then f.(pool := f.pool + {b})
    else if f.queueClosed then f.(panicked := true)
    else if |f.queue| < f.capacity then f.(queue := f.queue + [b])
    else f.(pool := f.pool + {b})
  }

  /** `closeBuffer`. */
  function CloseBuffer(f: Flow, inTime: bool): Flow {
    if f.closed then f
    else
      var stopped := f.(closed := true, deadline := StopTimer(f.deadline, inTime));
      if f.queueClosed then stopped.(panicked := true) else stopped.(queueClosed := true)
  }

  /** `closeWithError`. */
  function CancelStreams(f: Flow): Flow {
    f.(cancelled := f.cancelled + f.streams.Keys)
  }

  /** The registration at the start of `readStream`: refused once the context is cancelled. */
  function Register(f: Flow, sid: StreamID, t: Tid): Flow {
    if f.ctxDone then f else f.(streams := f.streams[sid := t])
  }

  function Unregister(f: Flow, sid: StreamID): Flow {
    f.(streams := f.streams - {sid})
  }

  // ----- Goroutines -----

  datatype ReadResult =
    | Delivered(bytes: seq<byte>, index: nat)
    | TooShort(index: nat)
    | DeadlineExceeded(ch: Chan)
    | FlowClosed(hasError: bool)

  datatype Source = Datagram | Stream(sid: StreamID)

  /** Where a call stands. `index` numbers the packets taken off the queue. */
  datatype Pc =
    // Read into a buffer of `room` bytes
    | ReadStart(room: nat)
    | ReadWait(room: nat, ch: Chan)
    | ReadHave(room: nat, buf: Buf, index: nat)
    | ReadCopied(room: nat, buf: Buf, bytes: seq<byte>, index: nat)
    | ReadDrained(room: nat)
    | ReadDone(room: nat, result: ReadResult)
    // readStream and HandleDatagram
    | StreamStart(sid: StreamID)
    | StreamRejected(sid: StreamID)
    | Refused(sid: StreamID)
    | Idle(src: Source)
    | Holds(src: Source, buf: Buf, written: seq<byte>)    // what it has written to the buffer
    | Left(src: Source)
    // Close
    | CloseStart | CloseCancelled | CloseBuffered | CloseDone
    // eviction from the buffer of unknown flows
    | EvictStart | EvictDone

  /** The call took packet `i` off the queue. */
  predicate Took(pc: Pc, i: nat) {
    match pc
    case ReadHave(_, _, index) => index == i
    case ReadCopied(_, _, _, index) => index == i
    case ReadDone(_, Delivered(_, index)) => index == i
    case ReadDone(_, TooShort(index)) => index == i
    case _ => false
  }

  /** The stream a goroutine of `readStream` serves. */
  function SidOf(pc: Pc): Option<StreamID> {
    match pc
    case StreamStart(sid) => Some(sid)
    case StreamRejected(sid) => Some(sid)
    case Refused(sid) => Some(sid)
    case Idle(Stream(sid)) => Some(sid)
    case Holds(Stream(sid), _, _) => Some(sid)
    case Left(Stream(sid)) => Some(sid)
    case _ => None
  }

  /** `readStream` is past its registration and has not returned. */
  predicate Reading(pc: Pc) {
    (pc.Idle? || pc.Holds?) && pc.src.Stream?
  }

  // ----- The machine -----

  /**
   `accepted` lists the packets queued so far, `takers` the calls that took them off the
   queue, `due` the deadlines whose time has come.
   */
  datatype State = State(
    flow: Flow,
    content: map<Buf, seq<byte>>,
    nextBuf: Buf,
    threads: map<Tid, Pc>,
    accepted: seq<seq<byte>>,
    takers: seq<Tid>,
    due: set<Chan>)

  function Init(capacity: nat): State {
    State(NewFlow(capacity), map[], 0, map[], [], [], {})
  }

  datatype ReadStep = Snapshot | Take | SeesClosed | Woken | ReadErr | Copy | PutBack

  datatype ProduceStep =
    StartStream | Reject | Leave | Get(b: Buf) | Fill(bytes: seq<byte>) | Push | Abandon

  datatype CloseStep = CancelCtx | CloseQueue(inTime: bool) | CancelAll | Evict

  datatype Action =
    | Spawn(t: Tid, pc: Pc)
    | SetReadDeadline(time: Time, inTime: bool)
    | TimerFires(ch: Chan)
    | PoolDrops(b: Buf)
    | Reads(t: Tid, r: ReadStep)
    | Produces(t: Tid, p: ProduceStep)
    | Closes(t: Tid, c: CloseStep)

  /** A new call; streams of one connection have distinct IDs. */
  predicate MayStart(s: State, pc: Pc) {
    match pc
    case ReadStart(_) => true
    case Idle(src) => src == Datagram
    case StreamStart(sid) => forall u :: u in s.threads ==> SidOf(s.threads[u]) != Some(sid)
    case CloseStart => true
    case EvictStart => true
    case _ => false
  }

  predicate CanRead(s: State, t: Tid, r: ReadStep)
    requires t in s.threads
  {
    var pc := s.threads[t];
    match r
    case Snapshot => pc.ReadStart?
    case Take => pc.ReadWait? && s.flow.queue != []
    case SeesClosed => pc.ReadWait? && s.flow.queue == [] && s.flow.queueClosed
    case Woken => pc.ReadWait? && pc.ch in s.flow.deadline.closedChans
    case ReadErr => pc.ReadDrained?
    case Copy => pc.ReadHave? && pc.buf in s.content
    case PutBack => pc.ReadCopied?
  }

  predicate CanProduce(s: State, t: Tid, p: ProduceStep)
    requires t in s.threads
  {
    var pc := s.threads[t];
    match p
    case StartStream => pc.StreamStart?
    case Reject => pc.StreamRejected?
    case Leave => pc.Idle? && pc.src.Stream?
    // sync.Pool hands out any pooled buffer, or a new one.
    case Get(b) => pc.Idle? && (b in s.flow.pool || b == s.nextBuf)
    case Fill(_) => pc.Holds? && pc.buf in s.content
    case Push => pc.Holds? && pc.buf in s.content
    case Abandon => pc.Holds? && pc.src.Stream?
  }

  predicate CanClose(s: State, t: Tid, c: CloseStep)
    requires t in s.threads
  {
    var pc := s.threads[t];
    match c
    case CancelCtx => pc.CloseStart?
    case CloseQueue(_) => pc.CloseCancelled?
    case CancelAll => pc.CloseBuffered?
    case Evict => pc.EvictStart?
  }

  predicate Enabled(s: State, a: Action) {
    match a
    case Spawn(t, pc) => t !in s.threads && MayStart(s, pc)
    case SetReadDeadline(_, _) => true
    case TimerFires(ch) => ch in s.flow.deadline.timers
    case PoolDrops(b) => b in s.flow.pool
    case Reads(t, r) => t in s.threads && CanRead(s, t, r)
    case Produces(t, p) => t in s.threads && CanProduce(s, t, p)
    case Closes(t, c) => t in s.threads && CanClose(s, t, c)
  }

  function Goes(s: State, t: Tid, pc: Pc, f: Flow): State {
    s.(threads := s.threads[t := pc], flow := f)
  }

  function DoRead(s: State, t: Tid, r: ReadStep): State
    requires t in s.threads && CanRead(s, t, r)
  {
    var f, pc := s.flow, s.threads[t];
    match r
    case Snapshot =>
      Goes(s, t, if f.deadline.expired then ReadDone(pc.room, DeadlineExceeded(f.deadline.ch))
                 else ReadWait(pc.room, f.deadline.ch), f)
    case Take =>
      Goes(s, t, ReadHave(pc.room, f.queue[0], |s.takers|), f.(queue := f.queue[1..])).(takers := s.takers + [t])
    case SeesClosed => Goes(s, t, ReadDrained(pc.room), f)
    case Woken => Goes(s, t, ReadStart(pc.room), f)
    case ReadErr => Goes(s, t, ReadDone(pc.room, FlowClosed(f.ctxDone)), f)
    case Copy =>
      if pc.room < |s.content[pc.buf]| then
        Goes(s, t, ReadDone(pc.room, TooShort(pc.index)), f.(pool := f.pool + {pc.buf}))
      else Goes(s, t, ReadCopied(pc.room, pc.buf, s.content[pc.buf], pc.index), f)
    case PutBack =>
      Goes(s, t, ReadDone(pc.room, Delivered(pc.bytes, pc.index)), f.(pool := f.pool + {pc.buf}))
  }

  function DoProduce(s: State, t: Tid, p: ProduceStep): State
    requires t in s.threads && CanProduce(s, t, p)
  {
    var f, pc := s.flow, s.threads[t];
    match p
    case StartStream =>
      Goes(s, t, if f.ctxDone then StreamRejected(pc.sid) else Idle(Stream(pc.sid)), Register(f, pc.sid, t))
    case Reject => Goes(s, t, Refused(pc.sid), f.(cancelled := f.cancelled + {pc.sid}))
    case Leave => Goes(s, t, Left(pc.src), Unregister(f, pc.src.sid))
    case Get(b) =>
      Goes(s, t, Holds(pc.src, b, []), f.(pool := f.pool - {b}))
      .(content := s.content[b := []], nextBuf := if b == s.nextBuf then b + 1 else s.nextBuf)
    case Fill(bytes) =>
      Goes(s, t, Holds(pc.src, pc.buf, pc.written + bytes), f)
      .(content := s.content[pc.buf := s.content[pc.buf] + bytes])
    case Push =>
      Goes(s, t, if pc.src.Datagram? then Left(pc.src) else Idle(pc.src), PushBuffer(f, pc.buf))
      .(accepted := if Queues(f) then s.accepted + [s.content[pc.buf]] else s.accepted)
    // A payload that could not be read: the buffer is left to the garbage collector. The code
    // then leaves; the model lets it go on as well.
    case Abandon => Goes(s, t, Idle(pc.src), f)
  }

  function DoClose(s: State, t: Tid, c: CloseStep): State
    requires t in s.threads && CanClose(s, t, c)
  {
    var f := s.flow;
    match c
    case CancelCtx => Goes(s, t, CloseCancelled, f.(ctxDone := true))
    case CloseQueue(inTime) => Goes(s, t, CloseBuffered, CloseBuffer(f, inTime))
    case CancelAll => Goes(s, t, CloseDone, CancelStreams(f))
    case Evict => Goes(s, t, EvictDone, CancelStreams(f))
  }

  function Apply(s: State, a: Action): State
    requires Enabled(s, a)
  {
    var f := s.flow;
    match a
    case Spawn(t, pc) => Goes(s, t, pc, f)
    case SetReadDeadline(time, inTime) =>
      s.(flow := f.(deadline := SetDeadline(f.deadline, time, inTime)),
         due := if time.Past? then s.due + {f.deadline.next} else s.due)
    case TimerFires(ch) => s.(flow := f.(deadline := Fire(f.deadline, ch)), due := s.due + {ch})
    case PoolDrops(b) => s.(flow := f.(pool := f.pool - {b}))
    case Reads(t, r) => DoRead(s, t, r)
    case Produces(t, p) => DoProduce(s, t, p)
    case Closes(t, c) => DoClose(s, t, c)
  }

  predicate Possible(s: State, actions: seq<Action>)
    decreases |actions|
  {
    actions == [] || (Enabled(s, actions[0]) && Possible(Apply(s, actions[0]), actions[1..]))
  }

  function Run(s: State, actions: seq<Action>): State
    requires Possible(s, actions)
    decreases |actions|
  {
    if actions == [] then s else Run(Apply(s, actions[0]), actions[1..])
  }
}
