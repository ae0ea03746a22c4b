/**
 What every step of a `ReceiveFlow` keeps: the deadline protocol, buffer ownership, the
 history of the queue, and which streams are registered.
 */
module FlowInvariants {
  import opened Common
  import opened Varint
  import opened FlowMachine

  // ----- The deadline protocol -----

  ghost predicate DeadlineInv(s: State) {
    && Sound(s.flow.deadline, s.due)
    && (forall t :: t in s.threads ==> DeadlineSeen(s, s.threads[t]))
  }

  /** A deadline channel is closed exactly when it was replaced or its own deadline came due. */
  ghost predicate Sound(d: Deadline, due: set<Chan>) {
    && ChansOk(d)
    && (d.expired <==> d.ch in due)
    && (forall c :: c in due ==> c <= d.ch)
  }

  /** The part of it the flow's own fields show. */
  ghost predicate ChansOk(d: Deadline) {
    && d.next == d.ch + 1
    && (forall c: Chan :: c in d.closedChans <==> c < d.ch || (c == d.ch && d.expired))
    && (forall c :: c in d.timers ==> c <= d.ch)
    // A deadline with a timer has expired, or its callback is still to come.
    && (d.timer.Some? ==> d.timer.value == d.ch && (d.expired || d.ch in d.timers))
    && !d.panicked
  }

  /** A reader waits on a channel that exists, and times out only on a deadline that came due. */
  predicate DeadlineSeen(s: State, pc: Pc) {
    match pc
    case ReadWait(_, ch) => ch <= s.flow.deadline.ch
    case ReadDone(_, DeadlineExceeded(ch)) => ch in s.due
    case _ => true
  }

  lemma DeadlineStep(s: State, a: Action)
    requires DeadlineInv(s) && Enabled(s, a)
    ensures DeadlineInv(Apply(s, a))
  {
    hide SetDeadline, Fire, Sound, DoRead, DoProduce, DoClose, CanRead, CanProduce, CanClose;
    match a
    case Spawn(t, pc) => DeadlineKept(s, Goes(s, t, pc, s.flow), t);
    case SetReadDeadline(time, inTime) => SoundAfterSet(s.flow.deadline, s.due, time, inTime);
    case TimerFires(ch) => SoundAfterFire(s.flow.deadline, s.due, ch);
    case PoolDrops(b) =>
    case Reads(t, r) => DeadlineRead(s, t, r);
    case Produces(t, p) => DeadlineProduce(s, t, p);
    case Closes(t, c) => DeadlineClose(s, t, c);
  }

  lemma SoundAfterStop(d: Deadline, due: set<Chan>, inTime: bool)
    requires Sound(d, due)
    ensures Sound(StopTimer(d, inTime), due)
    ensures inTime && d.timer.Some? ==> d.timer.value !in StopTimer(d, inTime).timers
  {
  }

  lemma SoundAfterSet(d: Deadline, due: set<Chan>, time: Time, inTime: bool)
    requires Sound(d, due)
    ensures var d' := SetDeadline(d, time, inTime);
            && Sound(d', if time.Past? then due + {d.next} else due) && d'.ch == d.ch + 1
            && (d'.timer.Some? <==> time.Future?) && (d'.expired <==> time.Past?)
  {
  }

  /** A callback that runs late finds its channel replaced and does nothing. */
  lemma SoundAfterFire(d: Deadline, due: set<Chan>, ch: Chan)
    requires Sound(d, due) && ch in d.timers
    ensures var d' := Fire(d, ch);
            && Sound(d', due + {ch}) && d'.ch == d.ch
            && (ch != d.ch ==> d' == d.(timers := d.timers - {ch}))
  {
  }

  lemma DeadlineRead(s: State, t: Tid, r: ReadStep)
    requires DeadlineInv(s) && t in s.threads && CanRead(s, t, r)
    ensures DeadlineInv(DoRead(s, t, r))
  {
  }

  lemma DeadlineProduce(s: State, t: Tid, p: ProduceStep)
    requires DeadlineInv(s) && t in s.threads && CanProduce(s, t, p)
    ensures DeadlineInv(DoProduce(s, t, p))
  {
  }

  lemma DeadlineClose(s: State, t: Tid, c: CloseStep)
    requires DeadlineInv(s) && t in s.threads && CanClose(s, t, c)
    ensures DeadlineInv(DoClose(s, t, c))
  {
    hide Sound, StopTimer;
    if c.CloseQueue? {
      SoundAfterStop(s.flow.deadline, s.due, c.inTime);
      KeepsChan(s.flow.deadline, c.inTime);
    }
    DeadlineKept(s, DoClose(s, t, c), t);
  }

  lemma KeepsChan(d: Deadline, inTime: bool)
    ensures StopTimer(d, inTime).ch == d.ch
  {
  }

  /** A step of `t` that does not replace the deadline. */
  lemma DeadlineKept(s: State, s': State, t: Tid)
    requires DeadlineInv(s) && s'.due == s.due
    requires StepOf(s, s', t) && DeadlineSeen(s, s'.threads[t])
    requires Sound(s'.flow.deadline, s.due) && s'.flow.deadline.ch == s.flow.deadline.ch
    ensures DeadlineInv(s')
  {
  }

  /** No call but `t` moves. */
  predicate StepOf(s: State, s': State, t: Tid) {
    t in s'.threads && s'.threads == s.threads[t := s'.threads[t]]
  }

  // ----- Buffer ownership -----

  /** A buffer is pooled, queued or in the hands of one call: in one place, once. */
  ghost predicate OwnInv(s: State) {
    && BuffersOk(s.flow.pool, s.flow.queue, s.content, s.nextBuf)
    && (forall t :: t in s.threads ==> Owns(s, s.threads[t]))
    && (forall t, u :: t in s.threads && u in s.threads && t != u ==> Apart(s.threads[t], s.threads[u]))
  }

  ghost predicate BuffersOk(pool: set<Buf>, queue: seq<Buf>, content: map<Buf, seq<byte>>, nextBuf: Buf) {
    && (forall b :: b in pool ==> b < nextBuf && b !in queue)
    && (forall b :: b in queue ==> b < nextBuf && b in content)
    && (forall i, j :: 0 <= i < j < |queue| ==> queue[i] != queue[j])
  }

  function InHand(pc: Pc): Option<Buf> {
    match pc
    case ReadHave(_, buf, _) => Some(buf)
    case ReadCopied(_, buf, _, _) => Some(buf)
    case Holds(_, buf, _) => Some(buf)
    case _ => None
  }

  predicate Owns(s: State, pc: Pc) {
    var h := InHand(pc);
    h.Some? ==> h.value < s.nextBuf && h.value in s.content && h.value !in s.flow.pool && h.value !in s.flow.queue
  }

  predicate Apart(p: Pc, q: Pc) {
    InHand(p).None? || InHand(p) != InHand(q)
  }

  lemma OwnStep(s: State, a: Action)
    requires OwnInv(s) && Enabled(s, a)
    ensures OwnInv(Apply(s, a))
  {
    hide OwnInv, SetDeadline, Fire, DoRead, DoProduce, DoClose, CanRead, CanProduce, CanClose;
    match a
    case Spawn(t, pc) => OwnKept(s, Goes(s, t, pc, s.flow), t);
    case SetReadDeadline(_, _) => OwnKept(s, Apply(s, a), 0);
    case TimerFires(_) => OwnKept(s, Apply(s, a), 0);
    case PoolDrops(_) => OwnKept(s, Apply(s, a), 0);
    case Reads(t, r) => OwnRead(s, t, r);
    case Produces(t, p) => OwnProduce(s, t, p);
    case Closes(t, c) => OwnClose(s, t, c);
  }

  lemma OwnClose(s: State, t: Tid, c: CloseStep)
    requires OwnInv(s) && t in s.threads && CanClose(s, t, c)
    ensures OwnInv(DoClose(s, t, c))
  {
    OwnKept(s, DoClose(s, t, c), t);
  }

  lemma OwnRead(s: State, t: Tid, r: ReadStep)
    requires OwnInv(s) && t in s.threads && CanRead(s, t, r)
    ensures OwnInv(DoRead(s, t, r))
  {
    hide OwnInv;
    var s' := DoRead(s, t, r);
    match r
    case Take => OwnTake(s, s', t);
    case Copy => if s'.threads[t].ReadDone? { OwnRelease(s, s', t); } else { OwnKept(s, s', t); }
    case PutBack => OwnRelease(s, s', t);
    case _ => OwnKept(s, s', t);
  }

  lemma OwnProduce(s: State, t: Tid, p: ProduceStep)
    requires OwnInv(s) && t in s.threads && CanProduce(s, t, p)
    ensures OwnInv(DoProduce(s, t, p))
  {
    hide OwnInv;
    var s' := DoProduce(s, t, p);
    match p
    case Get(b) => OwnGet(s, s', t, b);
    case Push =>
      if Queues(s.flow) { OwnQueue(s, s', t); }
      else if s'.flow.pool == s.flow.pool { OwnKept(s, s', t); }
      else { OwnRelease(s, s', t); }
    case _ => OwnKept(s, s', t);
  }

  /** Nothing moves but out of the pool or out of `t`'s hands, to be collected. */
  lemma OwnKept(s: State, s': State, t: Tid)
    requires OwnInv(s)
    requires || s'.threads == s.threads
             || (&& StepOf(s, s', t)
                 && (InHand(s'.threads[t]).None? || (t in s.threads && InHand(s'.threads[t]) == InHand(s.threads[t]))))
    requires s'.flow.pool <= s.flow.pool && s'.flow.queue == s.flow.queue
    requires s'.nextBuf == s.nextBuf && s.content.Keys <= s'.content.Keys
    ensures OwnInv(s')
  {
  }

  lemma OwnRelease(s: State, s': State, t: Tid)
    requires OwnInv(s) && t in s.threads && InHand(s.threads[t]).Some?
    requires StepOf(s, s', t) && InHand(s'.threads[t]).None?
    requires s'.flow.pool == s.flow.pool + {InHand(s.threads[t]).value} && s'.flow.queue == s.flow.queue
    requires s'.nextBuf == s.nextBuf && s'.content == s.content
    ensures OwnInv(s')
  {
  }

  lemma OwnQueue(s: State, s': State, t: Tid)
    requires OwnInv(s) && t in s.threads && InHand(s.threads[t]).Some?
    requires StepOf(s, s', t) && InHand(s'.threads[t]).None?
    requires s'.flow.pool == s.flow.pool && s'.flow.queue == s.flow.queue + [InHand(s.threads[t]).value]
    requires s'.nextBuf == s.nextBuf && s'.content == s.content
    ensures OwnInv(s')
  {
  }

  lemma OwnTake(s: State, s': State, t: Tid)
    requires OwnInv(s) && t in s.threads && InHand(s.threads[t]).None? && s.flow.queue != []
    requires StepOf(s, s', t)
    requires InHand(s'.threads[t]) == Some(s.flow.queue[0])
    requires s'.flow.pool == s.flow.pool && s'.flow.queue == s.flow.queue[1..]
    requires s'.nextBuf == s.nextBuf && s'.content == s.content
    ensures OwnInv(s')
  {
    assert forall i :: 0 <= i < |s'.flow.queue| ==> s'.flow.queue[i] == s.flow.queue[i + 1];
    assert s.flow.queue[0] in s.flow.queue && s.flow.queue[0] !in s'.flow.queue;
    assert forall b :: b in s'.flow.queue ==> b in s.flow.queue;
    forall u | u in s.threads && u != t
      ensures Apart(s.threads[u], s'.threads[t])
    {
      assert Owns(s, s.threads[u]);
    }
  }

  lemma OwnGet(s: State, s': State, t: Tid, b: Buf)
    requires OwnInv(s) && t in s.threads && InHand(s.threads[t]).None?
    requires b in s.flow.pool || b == s.nextBuf
    requires StepOf(s, s', t) && InHand(s'.threads[t]) == Some(b)
    requires s'.flow.pool == s.flow.pool - {b} && s'.flow.queue == s.flow.queue
    requires s'.nextBuf == (if b == s.nextBuf then b + 1 else s.nextBuf)
    requires s'.content.Keys == s.content.Keys + {b}
    ensures OwnInv(s')
  {
  }

  // ----- Queue history -----

  /** The packets accepted are those taken, in order, followed by those queued. */
  ghost predicate QueueInv(s: State) {
    var f := s.flow;
    && QueueOk(f.queue, f.capacity, f.closed, f.queueClosed, f.ctxDone) && !f.panicked
    && |s.accepted| == |s.takers| + |f.queue|
    && (forall i :: 0 <= i < |f.queue| ==>
          f.queue[i] in s.content && s.content[f.queue[i]] == s.accepted[|s.takers| + i])
    && (forall i :: 0 <= i < |s.takers| ==> s.takers[i] in s.threads && Took(s.threads[s.takers[i]], i))
    && (forall t :: t in s.threads ==> HistorySeen(s, t))
  }

  /** Closed means that the queue is, once and after the context was cancelled. */
  predicate QueueOk(queue: seq<Buf>, capacity: nat, closed: bool, queueClosed: bool, ctxDone: bool) {
    |queue| <= capacity && closed == queueClosed && (closed ==> ctxDone)
  }

  /** What a call has in hand, or returned, is what was pushed. */
  predicate HistorySeen(s: State, t: Tid)
    requires t in s.threads && |s.takers| <= |s.accepted|
  {
    match s.threads[t]
    case ReadHave(_, b, i) =>
      i < |s.takers| && s.takers[i] == t && b in s.content && s.content[b] == s.accepted[i]
    case ReadCopied(room, _, bytes, i) =>
      i < |s.takers| && s.takers[i] == t && bytes == s.accepted[i] && |bytes| <= room
    case ReadDrained(_) => s.flow.closed && s.flow.queue == []
    case Holds(_, b, written) => b in s.content && s.content[b] == written
    case ReadDone(room, Delivered(bytes, i)) =>
      i < |s.takers| && s.takers[i] == t && bytes == s.accepted[i] && |bytes| <= room
    case ReadDone(room, TooShort(i)) => i < |s.takers| && s.takers[i] == t && room < |s.accepted[i]|
    case ReadDone(_, FlowClosed(hasError)) => hasError && s.flow.closed && s.flow.queue == []
    case CloseCancelled => s.flow.ctxDone
    case CloseBuffered => s.flow.ctxDone && s.flow.closed
    case CloseDone => s.flow.ctxDone && s.flow.closed
    case _ => true
  }

  lemma QueueStep(s: State, a: Action)
    requires QueueInv(s) && OwnInv(s) && Enabled(s, a)
    ensures QueueInv(Apply(s, a))
  {
    hide QueueInv, OwnInv, SetDeadline, Fire, DoRead, DoProduce, DoClose, CanRead, CanProduce, CanClose;
    match a
    case Spawn(t, pc) => QueueSpawn(s, t, pc);
    case SetReadDeadline(_, _) => QueueIdle(s, Apply(s, a));
    case TimerFires(_) => QueueIdle(s, Apply(s, a));
    case PoolDrops(_) => QueueIdle(s, Apply(s, a));
    case Reads(t, r) => QueueRead(s, t, r);
    case Produces(t, p) => QueueProduce(s, t, p);
    case Closes(t, c) => QueueClose(s, t, c);
  }

  /** No call moves and the queue stays as it is. */
  lemma QueueIdle(s: State, s': State)
    requires QueueInv(s)
    requires s'.threads == s.threads && s'.takers == s.takers && s'.accepted == s.accepted && s'.content == s.content
    requires s'.flow.queue == s.flow.queue && s'.flow.capacity == s.flow.capacity && s'.flow.ctxDone == s.flow.ctxDone
    requires s'.flow.panicked == s.flow.panicked
    requires s'.flow.closed == s.flow.closed && s'.flow.queueClosed == s.flow.queueClosed
    ensures QueueInv(s')
  {
  }

  lemma QueueSpawn(s: State, t: Tid, pc: Pc)
    requires QueueInv(s) && t !in s.threads && MayStart(s, pc)
    ensures QueueInv(Goes(s, t, pc, s.flow))
  {
  }

  /** A step of `t` that leaves the queue as it is. */
  lemma QueueKept(s: State, s': State, t: Tid)
    requires QueueInv(s) && StepOf(s, s', t)
    requires s'.takers == s.takers && s'.accepted == s.accepted && s'.content == s.content
    requires |s.takers| <= |s.accepted| && HistorySeen(s', t)
    requires forall i :: t in s.threads && Took(s.threads[t], i) ==> Took(s'.threads[t], i)
    requires s'.flow.queue == s.flow.queue && s'.flow.capacity == s.flow.capacity
    requires s'.flow.panicked == s.flow.panicked
    requires s'.flow.closed == s.flow.closed && s'.flow.queueClosed == s.flow.queueClosed
    requires s.flow.ctxDone ==> s'.flow.ctxDone
    ensures QueueInv(s')
  {
  }

  lemma QueueRead(s: State, t: Tid, r: ReadStep)
    requires QueueInv(s) && t in s.threads && CanRead(s, t, r)
    ensures QueueInv(DoRead(s, t, r))
  {
    assert HistorySeen(s, t);
    if r.Take? {
      QueueTake(s, t);
    } else {
      QueueKept(s, DoRead(s, t, r), t);
    }
  }

  lemma QueueTake(s: State, t: Tid)
    requires QueueInv(s) && t in s.threads && CanRead(s, t, Take)
    ensures QueueInv(DoRead(s, t, Take))
  {
  }

  lemma QueueProduce(s: State, t: Tid, p: ProduceStep)
    requires QueueInv(s) && OwnInv(s) && t in s.threads && CanProduce(s, t, p)
    ensures QueueInv(DoProduce(s, t, p))
  {
    hide OwnInv;
    match p
    case Get(b) => QueueWrite(s, DoProduce(s, t, p), t, b);
    case Fill(_) => QueueWrite(s, DoProduce(s, t, p), t, s.threads[t].buf);
    case Push => QueuePush(s, t);
    case _ => QueueKept(s, DoProduce(s, t, p), t);
  }

  /** Writing to a buffer that is `t`'s own, or about to be, is seen by no one else. */
  lemma QueueWrite(s: State, s': State, t: Tid, b: Buf)
    requires QueueInv(s) && OwnInv(s) && t in s.threads
    requires InHand(s.threads[t]) == Some(b) || b in s.flow.pool || b == s.nextBuf
    requires s.threads[t].Holds? || s.threads[t].Idle?
    requires t in s'.threads && s'.threads[t].Holds? && s'.threads == s.threads[t := s'.threads[t]]
    requires b in s'.content && s'.content == s.content[b := s'.content[b]]
    requires s'.threads[t].buf == b && s'.threads[t].written == s'.content[b]
    requires s'.takers == s.takers && s'.accepted == s.accepted
    requires s'.flow.queue == s.flow.queue && s'.flow.capacity == s.flow.capacity
    requires s'.flow.panicked == s.flow.panicked
    requires s'.flow.closed == s.flow.closed && s'.flow.queueClosed == s.flow.queueClosed
    requires s'.flow.ctxDone == s.flow.ctxDone
    ensures QueueInv(s')
  {
    assert b !in s.flow.queue by {
      assert Owns(s, s.threads[t]);
    }
    forall u | u in s'.threads
      ensures HistorySeen(s', u)
    {
      assert HistorySeen(s, u);
      assert Owns(s, s.threads[u]);
      assert u != t ==> Apart(s.threads[t], s.threads[u]);
    }
  }

  lemma QueuePush(s: State, t: Tid)
    requires QueueInv(s) && t in s.threads && CanProduce(s, t, Push)
    ensures QueueInv(DoProduce(s, t, Push))
  {
    assert forall u :: u in s.threads ==> HistorySeen(s, u);
    if !Queues(s.flow) {
      QueueKept(s, DoProduce(s, t, Push), t);
    }
  }

  lemma QueueClose(s: State, t: Tid, c: CloseStep)
    requires QueueInv(s) && t in s.threads && CanClose(s, t, c)
    ensures QueueInv(DoClose(s, t, c))
  {
    assert forall u :: u in s.threads ==> HistorySeen(s, u);
    if !c.CloseQueue? {
      QueueKept(s, DoClose(s, t, c), t);
    }
  }

  // ----- Close and registration -----

  ghost predicate RegInv(s: State) {
    && (forall t, u :: t in s.threads && u in s.threads && t != u ==> OtherStream(s.threads[t], s.threads[u]))
    && (forall t :: t in s.threads ==> RegSeen(s, t))
    && (forall sid :: sid in s.flow.streams ==> Registered(s, sid))
  }

  predicate OtherStream(p: Pc, q: Pc) {
    SidOf(p).None? || SidOf(p) != SidOf(q)
  }

  /** The entry for `sid` belongs to a goroutine that reads it. */
  predicate Registered(s: State, sid: StreamID)
    requires sid in s.flow.streams
  {
    var t := s.flow.streams[sid];
    t in s.threads && Reading(s.threads[t]) && SidOf(s.threads[t]) == Some(sid)
  }

  /** Readers are registered; after a Close, every registered stream has been cancelled. */
  predicate RegSeen(s: State, t: Tid)
    requires t in s.threads
  {
    var pc := s.threads[t];
    && (Reading(pc) ==> pc.src.sid in s.flow.streams && s.flow.streams[pc.src.sid] == t)
    && (pc.CloseCancelled? || pc.CloseBuffered? || pc.CloseDone? ==> s.flow.ctxDone)
    && (pc.CloseDone? ==> s.flow.streams.Keys <= s.flow.cancelled)
    && (pc.StreamRejected? ==> s.flow.ctxDone)
    && (pc.Refused? ==> s.flow.ctxDone && pc.sid in s.flow.cancelled)
  }

  lemma RegStep(s: State, a: Action)
    requires RegInv(s) && Enabled(s, a)
    ensures RegInv(Apply(s, a))
  {
    hide RegInv, SetDeadline, Fire, DoRead, DoProduce, DoClose, CanRead, CanProduce, CanClose;
    match a
    case Spawn(t, pc) => RegSpawn(s, t, pc);
    case SetReadDeadline(_, _) => RegIdle(s, Apply(s, a));
    case TimerFires(_) => RegIdle(s, Apply(s, a));
    case PoolDrops(_) => RegIdle(s, Apply(s, a));
    case Reads(t, r) => RegRead(s, t, r);
    case Produces(t, p) => RegProduce(s, t, p);
    case Closes(t, c) => RegClose(s, t, c);
  }

  lemma RegIdle(s: State, s': State)
    requires RegInv(s) && s'.threads == s.threads
    requires s'.flow.streams == s.flow.streams && s'.flow.cancelled == s.flow.cancelled
    requires s'.flow.ctxDone == s.flow.ctxDone
    ensures RegInv(s')
  {
  }

  lemma RegSpawn(s: State, t: Tid, pc: Pc)
    requires RegInv(s) && t !in s.threads && MayStart(s, pc)
    ensures RegInv(Goes(s, t, pc, s.flow))
  {
  }

  /** A step of `t` that registers and unregisters nothing. */
  lemma RegKept(s: State, s': State, t: Tid)
    requires RegInv(s) && t in s.threads && StepOf(s, s', t)
    requires SidOf(s'.threads[t]) == SidOf(s.threads[t]) && Reading(s'.threads[t]) == Reading(s.threads[t])
    requires s'.flow.streams == s.flow.streams && s.flow.cancelled <= s'.flow.cancelled
    requires s.flow.ctxDone ==> s'.flow.ctxDone
    requires RegSeen(s', t)
    ensures RegInv(s')
  {
  }

  lemma RegRead(s: State, t: Tid, r: ReadStep)
    requires RegInv(s) && t in s.threads && CanRead(s, t, r)
    ensures RegInv(DoRead(s, t, r))
  {
    RegKept(s, DoRead(s, t, r), t);
  }

  lemma RegProduce(s: State, t: Tid, p: ProduceStep)
    requires RegInv(s) && t in s.threads && CanProduce(s, t, p)
    ensures RegInv(DoProduce(s, t, p))
  {
    hide RegInv;
    if p.StartStream? && !s.flow.ctxDone {
      RegStart(s, t);
    } else if p.Leave? {
      RegLeave(s, t);
    } else {
      RegSeenOf(s, t);
      RegKept(s, DoProduce(s, t, p), t);
    }
  }

  lemma RegSeenOf(s: State, t: Tid)
    requires RegInv(s) && t in s.threads
    ensures RegSeen(s, t)
  {
  }

  lemma RegStart(s: State, t: Tid)
    requires RegInv(s) && t in s.threads && CanProduce(s, t, StartStream) && !s.flow.ctxDone
    ensures RegInv(DoProduce(s, t, StartStream))
  {
    var s' := DoProduce(s, t, StartStream);
    var sid := s.threads[t].sid;
    forall x | x in s'.flow.streams
      ensures Registered(s', x)
    {
      if x != sid {
        assert Registered(s, x);
      }
    }
    forall u | u in s'.threads
      ensures RegSeen(s', u)
    {
      assert RegSeen(s, u);
      assert u != t ==> OtherStream(s.threads[t], s.threads[u]);
    }
    forall u, v | u in s'.threads && v in s'.threads && u != v
      ensures OtherStream(s'.threads[u], s'.threads[v])
    {
      assert OtherStream(s.threads[u], s.threads[v]);
    }
  }

  lemma RegLeave(s: State, t: Tid)
    requires RegInv(s) && t in s.threads && CanProduce(s, t, Leave)
    ensures RegInv(DoProduce(s, t, Leave))
  {
  }

  lemma RegClose(s: State, t: Tid, c: CloseStep)
    requires RegInv(s) && t in s.threads && CanClose(s, t, c)
    ensures RegInv(DoClose(s, t, c))
  {
    assert RegSeen(s, t);
    RegKept(s, DoClose(s, t, c), t);
  }
}
