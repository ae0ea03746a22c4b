/** What holds of a `ReceiveFlow` in every state of every run, with any number of goroutines. */
module FlowSafety {
  import opened Common
  import opened FlowMachine
  import opened FlowInvariants

  ghost predicate Inv(s: State) {
    DeadlineInv(s) && OwnInv(s) && QueueInv(s) && RegInv(s)
  }

  /** Every state of every run keeps the four invariants. */
  lemma {:induction false} InvRun(s: State, actions: seq<Action>)
    requires Inv(s) && Possible(s, actions)
    ensures Inv(Run(s, actions))
    decreases |actions|
  {
    if actions != [] {
      InvStep(s, actions[0]);
      InvRun(Apply(s, actions[0]), actions[1..]);
    }
  }

  lemma InvStep(s: State, a: Action)
    requires Inv(s) && Enabled(s, a)
    ensures Inv(Apply(s, a))
  {
    hide DeadlineInv, OwnInv, QueueInv, RegInv, Apply, Enabled;
    DeadlineStep(s, a);
    OwnStep(s, a);
    QueueStep(s, a);
    RegStep(s, a);
  }

  ghost predicate Reachable(s: State) {
    exists capacity, actions :: Possible(Init(capacity), actions) && s == Run(Init(capacity), actions)
  }

  lemma ReachableInv(s: State)
    requires Reachable(s)
    ensures Inv(s)
  {
    var capacity, actions :| Possible(Init(capacity), actions) && s == Run(Init(capacity), actions);
    assert Inv(Init(capacity));
    InvRun(Init(capacity), actions);
  }

  lemma InitReachable(capacity: nat)
    ensures Reachable(Init(capacity))
  {
    assert Possible(Init(capacity), []) && Run(Init(capacity), []) == Init(capacity);
  }

  lemma ReachableStep(s: State, a: Action)
    requires Reachable(s) && Enabled(s, a)
    ensures Reachable(Apply(s, a))
  {
    var capacity, actions :| Possible(Init(capacity), actions) && s == Run(Init(capacity), actions);
    RunLast(Init(capacity), actions, a);
  }

  lemma {:induction false} RunLast(s: State, actions: seq<Action>, a: Action)
    requires Possible(s, actions) && Enabled(Run(s, actions), a)
    ensures Possible(s, actions + [a]) && Run(s, actions + [a]) == Apply(Run(s, actions), a)
    decreases |actions|
  {
    if actions == [] {
      assert actions + [a] == [a];
    } else {
      assert (actions + [a])[1..] == actions[1..] + [a];
      RunLast(Apply(s, actions[0]), actions[1..], a);
    }
  }

  /** No channel is closed twice, and nothing is sent on the closed queue. */
  lemma NeverPanics(s: State)
    requires Reachable(s)
    ensures !s.flow.panicked && !s.flow.deadline.panicked
  {
    ReachableInv(s);
  }

  /**
   The deadline in force has expired exactly when its own time has come, no matter how many
   timers of replaced deadlines fired late; every replaced channel is closed; and while a
   timer is set, the deadline has expired or can still do so.
   */
  lemma DeadlineProtocol(s: State)
    requires Reachable(s)
    ensures s.flow.deadline.expired <==> s.flow.deadline.ch in s.due
    ensures forall c: Chan :: c in s.flow.deadline.closedChans <==>
              c < s.flow.deadline.ch || (c == s.flow.deadline.ch && s.flow.deadline.expired)
    ensures s.flow.deadline.timer.Some? ==> s.flow.deadline.expired || Enabled(s, TimerFires(s.flow.deadline.ch))
    ensures forall t :: t in s.threads && s.threads[t].ReadDone? && s.threads[t].result.DeadlineExceeded? ==>
              s.threads[t].result.ch in s.due
  {
    ReachableInv(s);
    forall t | t in s.threads && s.threads[t].ReadDone? && s.threads[t].result.DeadlineExceeded?
      ensures s.threads[t].result.ch in s.due
    {
      assert DeadlineSeen(s, s.threads[t]);
    }
  }

  predicate Blocked(s: State, t: Tid)
    requires t in s.threads
  {
    !CanRead(s, t, Take) && !CanRead(s, t, SeesClosed) && !CanRead(s, t, Woken)
  }

  /**
   No lost wake-up: a waiting Read is stuck exactly while the queue is empty, the flow is
   open and it waits on the very deadline in force, which has not expired.
   */
  lemma NoLostWakeUp(s: State, t: Tid)
    requires Reachable(s) && t in s.threads && s.threads[t].ReadWait?
    ensures Blocked(s, t) <==>
            && s.flow.queue == [] && !s.flow.closed
            && s.threads[t].ch == s.flow.deadline.ch && !s.flow.deadline.expired
  {
    ReachableInv(s);
    assert DeadlineSeen(s, s.threads[t]);
  }

  /**
   Nothing lost, nothing twice, nothing overwritten: the packets accepted are those taken
   by one Read each, in order, and then those queued; what a Read returns is what was
   pushed, and it drops a packet only if its buffer is too short for it.
   */
  lemma QueueHistory(s: State)
    requires Reachable(s)
    ensures |s.flow.queue| <= s.flow.capacity && |s.accepted| == |s.takers| + |s.flow.queue|
    ensures forall i :: 0 <= i < |s.flow.queue| ==>
              s.flow.queue[i] in s.content && s.content[s.flow.queue[i]] == s.accepted[|s.takers| + i]
    ensures forall i :: 0 <= i < |s.takers| ==>
              s.takers[i] in s.threads && Took(s.threads[s.takers[i]], i)
    ensures forall t :: t in s.threads && s.threads[t].ReadDone? ==>
              match s.threads[t].result
              case Delivered(bytes, i) => i < |s.accepted| && bytes == s.accepted[i] && |bytes| <= s.threads[t].room
              case TooShort(i) => i < |s.accepted| && s.threads[t].room < |s.accepted[i]|
              // A Read of the closed flow reports an error, after everything was taken.
              case FlowClosed(hasError) => hasError && |s.takers| == |s.accepted|
              case DeadlineExceeded(_) => true
  {
    ReachableInv(s);
    assert forall t :: t in s.threads ==> HistorySeen(s, t);
  }

  /**
   What is pushed is what the goroutine wrote since it got the buffer, whoever had that
   buffer before.
   */
  lemma PushesWhatWasWritten(s: State, t: Tid)
    requires Reachable(s) && t in s.threads && s.threads[t].Holds?
    ensures s.threads[t].buf in s.content && s.content[s.threads[t].buf] == s.threads[t].written
  {
    ReachableInv(s);
    assert HistorySeen(s, t);
  }

  /** A packet is dropped, and its buffer recycled, exactly if the flow is closed or its queue is full. */
  lemma PushDropsIff(s: State, t: Tid)
    requires Reachable(s) && t in s.threads && CanProduce(s, t, Push)
    ensures var s' := DoProduce(s, t, Push);
            var b := s.threads[t].buf;
            if s.flow.closed || |s.flow.queue| == s.flow.capacity
            then s'.accepted == s.accepted && s'.flow.queue == s.flow.queue && b in s'.flow.pool
            else s'.accepted == s.accepted + [s.content[b]] && s'.flow.queue == s.flow.queue + [b] && b !in s'.flow.pool
  {
    ReachableInv(s);
    assert Owns(s, s.threads[t]);
  }

  /** No packet is handed to two Reads. */
  lemma EachPacketOnce(s: State, t: Tid, u: Tid, i: nat)
    requires Reachable(s) && t in s.threads && u in s.threads
    requires Took(s.threads[t], i) && Took(s.threads[u], i)
    ensures t == u && i < |s.takers| && s.takers[i] == t
  {
    ReachableInv(s);
    assert HistorySeen(s, t) && HistorySeen(s, u);
  }

  /** Pool, queue and hands never share a buffer. */
  lemma BuffersOwned(s: State)
    requires Reachable(s)
    ensures forall b :: b in s.flow.pool ==> b !in s.flow.queue
    ensures forall i, j :: 0 <= i < j < |s.flow.queue| ==> s.flow.queue[i] != s.flow.queue[j]
    ensures forall t :: t in s.threads && InHand(s.threads[t]).Some? ==>
              InHand(s.threads[t]).value !in s.flow.pool && InHand(s.threads[t]).value !in s.flow.queue
    ensures forall t, u :: t in s.threads && u in s.threads && t != u && InHand(s.threads[t]).Some? ==>
              InHand(s.threads[t]) != InHand(s.threads[u])
  {
    ReachableInv(s);
    assert forall t :: t in s.threads ==> Owns(s, s.threads[t]);
    assert forall t, u :: t in s.threads && u in s.threads && t != u ==> Apart(s.threads[t], s.threads[u]);
  }

  /**
   Close against registration: once some Close has returned, every goroutine still reading
   a stream has had that stream cancelled, now and in any later state.
   */
  lemma CloseReachesEveryStream(s: State, closer: Tid, later: seq<Action>, t: Tid)
    requires Reachable(s) && closer in s.threads && s.threads[closer].CloseDone?
    requires Possible(s, later)
    requires t in Run(s, later).threads && Reading(Run(s, later).threads[t])
    ensures var sid := Run(s, later).threads[t].src.sid;
            sid in s.flow.streams && s.flow.streams[sid] == t && sid in s.flow.cancelled
  {
    ReachableInv(s);
    InvRun(s, later);
    assert RegSeen(s, closer);
    assert RegSeen(Run(s, later), t);
    ClosedRun(s, later);
  }

  /** After the context is cancelled no stream registers; after the queue is closed no packet is accepted. */
  lemma {:induction false} ClosedRun(s: State, actions: seq<Action>)
    requires Possible(s, actions)
    ensures StaysClosed(s, Run(s, actions))
    decreases |actions|
  {
    if actions != [] {
      ClosedStep(s, actions[0]);
      ClosedRun(Apply(s, actions[0]), actions[1..]);
    }
  }

  /** From `s` to `s'` nothing reopens. */
  predicate StaysClosed(s: State, s': State) {
    && s.flow.cancelled <= s'.flow.cancelled
    && (s.flow.ctxDone ==>
          && s'.flow.ctxDone
          && forall sid :: sid in s'.flow.streams ==>
               sid in s.flow.streams && s'.flow.streams[sid] == s.flow.streams[sid])
    && (s.flow.closed ==> s'.flow.closed && s'.accepted == s.accepted)
  }

  lemma ClosedStep(s: State, a: Action)
    requires Enabled(s, a)
    ensures StaysClosed(s, Apply(s, a))
  {
    hide SetDeadline, Fire, DoRead, DoProduce, DoClose, CanRead, CanProduce, CanClose;
    match a
    case Reads(t, r) => ClosedRead(s, t, r);
    case Produces(t, p) => ClosedProduce(s, t, p);
    case Closes(t, c) => ClosedClose(s, t, c);
    case _ =>
  }

  lemma ClosedRead(s: State, t: Tid, r: ReadStep)
    requires t in s.threads && CanRead(s, t, r)
    ensures StaysClosed(s, DoRead(s, t, r))
  {
  }

  lemma ClosedProduce(s: State, t: Tid, p: ProduceStep)
    requires t in s.threads && CanProduce(s, t, p)
    ensures StaysClosed(s, DoProduce(s, t, p))
  {
  }

  lemma ClosedClose(s: State, t: Tid, c: CloseStep)
    requires t in s.threads && CanClose(s, t, c)
    ensures StaysClosed(s, DoClose(s, t, c))
  {
  }

  // ----- Eviction against registration -----

  /** Whoever reads a stream, now or in any later state, has had it cancelled. */
  ghost predicate EveryStreamCancelled(s: State) {
    forall later, t :: Possible(s, later) && t in Run(s, later).threads && Reading(Run(s, later).threads[t]) ==>
      Run(s, later).threads[t].src.sid in Run(s, later).flow.cancelled
  }

  /**
   Eviction cancels the streams registered so far but not the context. That reaches every
   stream there will ever be if and only if the context is cancelled as well, whatever else
   has happened to the flow.
   */
  lemma EveryStreamCancelledIff(s: State)
    requires Reachable(s)
    ensures EveryStreamCancelled(s) <==> s.flow.ctxDone && s.flow.streams.Keys <= s.flow.cancelled
  {
    ReachableInv(s);
    if s.flow.ctxDone && s.flow.streams.Keys <= s.flow.cancelled {
      CancelledForGood(s);
    }
    if EveryStreamCancelled(s) {
      RegisteredAreCancelled(s);
      if !s.flow.ctxDone {
        var t, sid := Novel(s);
        LateStream(s, t, sid);
      }
    }
  }

  lemma CancelledForGood(s: State)
    requires Inv(s) && s.flow.ctxDone && s.flow.streams.Keys <= s.flow.cancelled
    ensures EveryStreamCancelled(s)
  {
    forall later, t | Possible(s, later) && t in Run(s, later).threads && Reading(Run(s, later).threads[t])
      ensures Run(s, later).threads[t].src.sid in Run(s, later).flow.cancelled
    {
      InvRun(s, later);
      ClosedRun(s, later);
      assert RegSeen(Run(s, later), t);
    }
  }

  lemma RegisteredAreCancelled(s: State)
    requires Inv(s) && EveryStreamCancelled(s)
    ensures s.flow.streams.Keys <= s.flow.cancelled
  {
    assert Possible(s, []) && Run(s, []) == s;
    forall sid | sid in s.flow.streams
      ensures sid in s.flow.cancelled
    {
      assert Registered(s, sid);
      assert s.flow.streams[sid] in Run(s, []).threads;
    }
  }

  /** A call and a stream that there have not been yet. */
  lemma Novel(s: State) returns (t: Tid, sid: StreamID)
    ensures t !in s.threads && sid !in s.flow.cancelled && MayStart(s, StreamStart(sid))
  {
    t := Unused(s.threads.Keys);
    var sids := set u | u in s.threads && SidOf(s.threads[u]).Some? :: SidOf(s.threads[u]).value;
    var bounded := set x: StreamID | x in sids + s.flow.cancelled && x >= 0;
    sid := Unused(bounded);
    assert sid !in sids + s.flow.cancelled;
    assert forall u :: u in s.threads && SidOf(s.threads[u]).Some? ==> SidOf(s.threads[u]).value in sids;
  }

  /** While the context is not cancelled, a further stream registers and is read uncancelled. */
  lemma LateStream(s: State, t: Tid, sid: StreamID)
    requires !s.flow.ctxDone && t !in s.threads && MayStart(s, StreamStart(sid)) && sid !in s.flow.cancelled
    ensures var actions := [Spawn(t, StreamStart(sid))] + [Produces(t, StartStream)];
            && Possible(s, actions)
            && var s' := Run(s, actions);
               && s'.threads == s.threads[t := Idle(Stream(sid))] && Reading(s'.threads[t])
               && sid in s'.flow.streams && s'.flow.cancelled == s.flow.cancelled
  {
    var s1 := Apply(s, Spawn(t, StreamStart(sid)));
    var s2 := Apply(s1, Produces(t, StartStream));
    RunOne(s1, Produces(t, StartStream), []);
    assert [Produces(t, StartStream)] + [] == [Produces(t, StartStream)];
    RunOne(s, Spawn(t, StreamStart(sid)), [Produces(t, StartStream)]);
    assert Idle(Stream(sid)).src.Stream?;
  }

  lemma RunOne(s: State, a: Action, rest: seq<Action>)
    requires Enabled(s, a) && Possible(Apply(s, a), rest)
    ensures Possible(s, [a] + rest) && Run(s, [a] + rest) == Run(Apply(s, a), rest)
  {
  }

  /**
   The door eviction leaves open, from a new flow on: it is evicted, and the next stream is
   registered and read though nothing will cancel it.
   */
  lemma EvictionLeavesDoorOpen(capacity: nat, evictor: Tid, t: Tid, sid: StreamID)
    requires evictor != t
    ensures var actions := [Spawn(evictor, EvictStart)] + ([Closes(evictor, Evict)] +
                             ([Spawn(t, StreamStart(sid))] + [Produces(t, StartStream)]));
            && Possible(Init(capacity), actions)
            && var s := Run(Init(capacity), actions);
               && Reachable(s) && evictor in s.threads && s.threads[evictor].EvictDone?
               && t in s.threads && Reading(s.threads[t]) && s.threads[t].src.sid == sid
               && sid in s.flow.streams && sid !in s.flow.cancelled
               && !EveryStreamCancelled(s)
  {
    var i0 := Init(capacity);
    var i1 := Apply(i0, Spawn(evictor, EvictStart));
    var i2 := Apply(i1, Closes(evictor, Evict));
    LateStream(i2, t, sid);
    var late := [Spawn(t, StreamStart(sid))] + [Produces(t, StartStream)];
    RunOne(i1, Closes(evictor, Evict), late);
    RunOne(i0, Spawn(evictor, EvictStart), [Closes(evictor, Evict)] + late);
    var s := Run(i2, late);
    assert Reachable(s);
    EveryStreamCancelledIff(s);
  }
}
