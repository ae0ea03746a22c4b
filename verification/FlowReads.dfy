/**
 What calls on a `ReceiveFlow` come to: Reads against the deadline and the end of the flow,
 streams against cancellation and eviction, and buffers, none of which gets lost.
 */
module FlowReads {
  import opened Common
  import opened FlowMachine
  import opened FlowInvariants
  import opened FlowSafety

  // ----- The deadline and the Reads -----

  predicate SetsDeadline(a: Action) {
    a.SetReadDeadline?
  }

  predicate NoneSets(actions: seq<Action>) {
    forall i :: 0 <= i < |actions| ==> !SetsDeadline(actions[i])
  }

  predicate IsRead(pc: Pc) {
    pc.ReadStart? || pc.ReadWait? || pc.ReadHave? || pc.ReadCopied? || pc.ReadDrained? || pc.ReadDone?
  }

  /** The call has not got past looking at the deadline, or has timed out on `ch`. */
  predicate TimesOut(pc: Pc, ch: Chan) {
    pc.ReadStart? || (pc.ReadDone? && pc.result == DeadlineExceeded(ch))
  }

  /** The deadline on `ch` has expired and is in force, and whatever Read `t` is, it times out. */
  predicate Expired(s: State, t: Tid, ch: Chan) {
    && s.flow.deadline.expired && s.flow.deadline.ch == ch
    && (t in s.threads && IsRead(s.threads[t]) ==> TimesOut(s.threads[t], ch))
  }

  /**
   Once the deadline has expired, a Read that starts, or starts over because it was woken,
   waits no more and takes no packet, even if some are queued: until the deadline is set
   again, all it can do is to time out on the deadline in force.
   */
  lemma {:induction false} ExpiredRun(s: State, later: seq<Action>, t: Tid)
    requires s.flow.deadline.expired && (t !in s.threads || s.threads[t].ReadStart?)
    requires Possible(s, later) && NoneSets(later)
    ensures Expired(Run(s, later), t, s.flow.deadline.ch)
    ensures forall i :: |s.takers| <= i < |Run(s, later).takers| ==> Run(s, later).takers[i] != t
  {
    StaysExpired(s, later, t, s.flow.deadline.ch);
  }

  lemma {:induction false} StaysExpired(s: State, later: seq<Action>, t: Tid, ch: Chan)
    requires Expired(s, t, ch) && Possible(s, later) && NoneSets(later)
    ensures Expired(Run(s, later), t, ch)
    ensures |s.takers| <= |Run(s, later).takers|
    ensures forall i :: |s.takers| <= i < |Run(s, later).takers| ==> Run(s, later).takers[i] != t
    decreases |later|
  {
    hide Apply, Enabled, Expired;
    if later != [] {
      ExpiredStep(s, later[0], t, ch);
      assert !SetsDeadline(later[0]);
      assert forall i :: 0 <= i < |later[1..]| ==> later[1..][i] == later[i + 1];
      StaysExpired(Apply(s, later[0]), later[1..], t, ch);
      TakersGrow(Apply(s, later[0]), later[1..]);
    }
  }

  lemma ExpiredStep(s: State, a: Action, t: Tid, ch: Chan)
    requires Expired(s, t, ch) && Enabled(s, a) && !SetsDeadline(a)
    ensures Expired(Apply(s, a), t, ch)
    ensures s.takers <= Apply(s, a).takers
    ensures forall i :: |s.takers| <= i < |Apply(s, a).takers| ==> Apply(s, a).takers[i] != t
  {
    hide DoRead, CanRead, DoProduce, CanProduce, DoClose, CanClose;
    match a
    case Reads(u, r) => ExpiredRead(s, u, r, t, ch);
    case Produces(u, p) => ExpiredProduce(s, u, p, t, ch);
    case Closes(u, c) => ExpiredClose(s, u, c, t, ch);
    case _ =>
  }

  lemma ExpiredRead(s: State, u: Tid, r: ReadStep, t: Tid, ch: Chan)
    requires Expired(s, t, ch) && u in s.threads && CanRead(s, u, r)
    ensures var s' := DoRead(s, u, r);
            Expired(s', t, ch) && s'.takers == if r.Take? then s.takers + [u] else s.takers
    ensures r.Take? ==> u != t
  {
  }

  lemma ExpiredClose(s: State, u: Tid, c: CloseStep, t: Tid, ch: Chan)
    requires Expired(s, t, ch) && u in s.threads && CanClose(s, u, c)
    ensures Expired(DoClose(s, u, c), t, ch) && DoClose(s, u, c).takers == s.takers
  {
  }

  lemma ExpiredProduce(s: State, u: Tid, p: ProduceStep, t: Tid, ch: Chan)
    requires Expired(s, t, ch) && u in s.threads && CanProduce(s, u, p)
    ensures Expired(DoProduce(s, u, p), t, ch) && DoProduce(s, u, p).takers == s.takers
  {
  }

  lemma {:induction false} TakersGrow(s: State, later: seq<Action>)
    requires Possible(s, later)
    ensures s.takers <= Run(s, later).takers
    decreases |later|
  {
    hide Apply, Enabled;
    if later != [] {
      TakersStep(s, later[0]);
      TakersGrow(Apply(s, later[0]), later[1..]);
    }
  }

  lemma TakersStep(s: State, a: Action)
    requires Enabled(s, a)
    ensures s.takers <= Apply(s, a).takers
  {
    hide SetDeadline, Fire, PushBuffer, CloseBuffer;
  }

  /** And it can: the next step of such a Read returns the timeout. */
  lemma ExpiredReturns(s: State, t: Tid)
    requires s.flow.deadline.expired && t in s.threads && s.threads[t].ReadStart?
    ensures Enabled(s, Reads(t, Snapshot))
    ensures Apply(s, Reads(t, Snapshot)).threads[t] ==
            ReadDone(s.threads[t].room, DeadlineExceeded(s.flow.deadline.ch))
  {
  }

  /** A Read that waits on a deadline when it expires is woken, and then times out on it. */
  lemma WokenTimesOut(s: State, t: Tid, later: seq<Action>)
    requires Reachable(s) && t in s.threads && s.threads[t].ReadWait?
    requires s.flow.deadline.expired && s.threads[t].ch == s.flow.deadline.ch
    ensures Enabled(s, Reads(t, Woken))
    ensures var woken := Apply(s, Reads(t, Woken));
            Possible(woken, later) && NoneSets(later) ==> Expired(Run(woken, later), t, s.flow.deadline.ch)
  {
    ReachableInv(s);
    var woken := Apply(s, Reads(t, Woken));
    if Possible(woken, later) && NoneSets(later) {
      ExpiredRun(woken, later, t);
    }
  }

  /** A Read times out only while the deadline in force has expired, and waits only on one that has not. */
  lemma ReadsSeeDeadlineInForce(s: State, a: Action, t: Tid)
    requires Enabled(s, a) && t in Apply(s, a).threads && (t in s.threads ==> Apply(s, a).threads[t] != s.threads[t])
    ensures var pc := Apply(s, a).threads[t];
            && (pc.ReadDone? && pc.result.DeadlineExceeded? ==>
                  s.flow.deadline.expired && pc.result.ch == s.flow.deadline.ch)
            && (pc.ReadWait? ==> !s.flow.deadline.expired && pc.ch == s.flow.deadline.ch)
  {
    hide SetDeadline, Fire, PushBuffer, DoProduce, CanProduce, DoClose, CanClose;
    match a
    case Produces(u, p) => ProduceIsNoRead(s, u, p);
    case Closes(u, c) => CloseIsNoRead(s, u, c);
    case _ =>
  }

  lemma ProduceIsNoRead(s: State, u: Tid, p: ProduceStep)
    requires u in s.threads && CanProduce(s, u, p)
    ensures var s' := DoProduce(s, u, p);
            u in s'.threads && s'.threads == s.threads[u := s'.threads[u]] && !IsRead(s'.threads[u])
  {
  }

  lemma CloseIsNoRead(s: State, u: Tid, c: CloseStep)
    requires u in s.threads && CanClose(s, u, c)
    ensures var s' := DoClose(s, u, c);
            u in s'.threads && s'.threads == s.threads[u := s'.threads[u]] && !IsRead(s'.threads[u])
  {
  }

  /** A Read of a closed flow with nothing left in it, left to itself, reports that it is closed. */
  lemma DrainedRead(s: State, t: Tid, room: nat)
    requires Reachable(s) && s.flow.closed && s.flow.queue == [] && !s.flow.deadline.expired && t !in s.threads
    ensures var actions := [Spawn(t, ReadStart(room))] + ([Reads(t, Snapshot)] +
                             ([Reads(t, SeesClosed)] + ([Reads(t, ReadErr)] + [])));
            && Possible(s, actions)
            && var s' := Run(s, actions);
               t in s'.threads && s'.threads[t] == ReadDone(room, FlowClosed(true))
  {
    ReachableInv(s);
    hide DeadlineInv, OwnInv, RegInv;
    var s1 := Apply(s, Spawn(t, ReadStart(room)));
    var s2 := Apply(s1, Reads(t, Snapshot));
    var s3 := Apply(s2, Reads(t, SeesClosed));
    RunOne(s3, Reads(t, ReadErr), []);
    RunOne(s2, Reads(t, SeesClosed), [Reads(t, ReadErr)] + []);
    RunOne(s1, Reads(t, Snapshot), [Reads(t, SeesClosed)] + ([Reads(t, ReadErr)] + []));
    RunOne(s, Spawn(t, ReadStart(room)),
           [Reads(t, Snapshot)] + ([Reads(t, SeesClosed)] + ([Reads(t, ReadErr)] + [])));
  }

  // ----- Buffers -----

  /** No buffer is lost: who had one hands it to the queue or the pool, or keeps it; a failed payload is let go. */
  lemma BufferHandedOn(s: State, a: Action, t: Tid)
    requires Reachable(s) && Enabled(s, a) && t in s.threads && InHand(s.threads[t]).Some?
    requires a != Produces(t, Abandon)
    ensures var s', b := Apply(s, a), InHand(s.threads[t]).value;
            t in s'.threads && (InHand(s'.threads[t]) == Some(b) || b in s'.flow.pool || b in s'.flow.queue)
  {
    ReachableInv(s);
    hide DeadlineInv, OwnInv, RegInv, QueueInv, SetDeadline, Fire, DoRead, CanRead, DoProduce, CanProduce, DoClose,
         CanClose;
    match a
    case Reads(u, r) => ReadHandsOn(s, u, r, t);
    case Produces(u, p) => ProduceHandsOn(s, u, p, t);
    case Closes(u, c) => CloseHandsOn(s, u, c, t);
    case _ =>
  }

  /** A buffer whose payload could not be read is neither queued nor used again. */
  lemma AbandonedIsGone(s: State, t: Tid)
    requires Reachable(s) && Enabled(s, Produces(t, Abandon))
    ensures var s', b := Apply(s, Produces(t, Abandon)), s.threads[t].buf;
            b !in s'.flow.pool && b !in s'.flow.queue && b < s'.nextBuf
  {
    ReachableInv(s);
    assert Owns(s, s.threads[t]);
  }

  predicate HandedOn(s: State, t: Tid, s': State)
    requires t in s.threads && InHand(s.threads[t]).Some?
  {
    var b := InHand(s.threads[t]).value;
    t in s'.threads && (InHand(s'.threads[t]) == Some(b) || b in s'.flow.pool || b in s'.flow.queue)
  }

  lemma ReadHandsOn(s: State, u: Tid, r: ReadStep, t: Tid)
    requires u in s.threads && CanRead(s, u, r) && t in s.threads && InHand(s.threads[t]).Some?
    ensures HandedOn(s, t, DoRead(s, u, r))
  {
  }

  lemma ProduceHandsOn(s: State, u: Tid, p: ProduceStep, t: Tid)
    requires QueueInv(s) && u in s.threads && CanProduce(s, u, p) && t in s.threads && InHand(s.threads[t]).Some?
    requires !(p.Abandon? && u == t)
    ensures HandedOn(s, t, DoProduce(s, u, p))
  {
  }

  lemma CloseHandsOn(s: State, u: Tid, c: CloseStep, t: Tid)
    requires u in s.threads && CanClose(s, u, c) && t in s.threads && InHand(s.threads[t]).Some?
    ensures HandedOn(s, t, DoClose(s, u, c))
  {
  }

  // ----- Streams -----

  /** Where a stream goes that comes to a cancelled flow. */
  predicate TurnedAway(pc: Pc) {
    SidOf(pc).Some? ==> pc.StreamStart? || pc.StreamRejected? || pc.Refused?
  }

  /** After the context is cancelled, a stream that comes is never read, and is cancelled when `readStream` returns. */
  lemma {:induction false} RefusedAfterCancel(s: State, later: seq<Action>, t: Tid)
    requires Inv(s) && s.flow.ctxDone && (t in s.threads ==> TurnedAway(s.threads[t])) && Possible(s, later)
    ensures var s' := Run(s, later);
            t in s'.threads ==>
              && TurnedAway(s'.threads[t])
              && (s'.threads[t].Refused? ==> s'.threads[t].sid in s'.flow.cancelled)
    decreases |later|
  {
    hide Apply, Enabled, DeadlineInv, OwnInv, QueueInv;
    if later == [] {
      assert t in s.threads ==> RegSeen(s, t);
    } else {
      InvStep(s, later[0]);
      ClosedStep(s, later[0]);
      TurnedAwayStep(s, later[0], t);
      RefusedAfterCancel(Apply(s, later[0]), later[1..], t);
    }
  }

  lemma TurnedAwayStep(s: State, a: Action, t: Tid)
    requires s.flow.ctxDone && (t in s.threads ==> TurnedAway(s.threads[t])) && Enabled(s, a)
    ensures var s' := Apply(s, a); t in s'.threads ==> TurnedAway(s'.threads[t])
  {
    hide SetDeadline, Fire, DoRead, CanRead, DoClose, CanClose, PushBuffer;
    match a
    case Reads(u, r) => ReadIsNoStream(s, u, r);
    case Closes(u, c) => CloseIsNoStream(s, u, c);
    case _ =>
  }

  lemma ReadIsNoStream(s: State, u: Tid, r: ReadStep)
    requires u in s.threads && CanRead(s, u, r)
    ensures var s' := DoRead(s, u, r);
            u in s'.threads && s'.threads == s.threads[u := s'.threads[u]] && SidOf(s'.threads[u]).None?
    ensures SidOf(s.threads[u]).None?
  {
  }

  lemma CloseIsNoStream(s: State, u: Tid, c: CloseStep)
    requires u in s.threads && CanClose(s, u, c)
    ensures var s' := DoClose(s, u, c);
            u in s'.threads && s'.threads == s.threads[u := s'.threads[u]] && SidOf(s'.threads[u]).None?
    ensures SidOf(s.threads[u]).None?
  {
  }

  predicate Leaves(a: Action, t: Tid) {
    a == Produces(t, ProduceStep.Leave)
  }

  /** A stream is read, and registered, until its goroutine leaves. */
  lemma {:induction false} ReadUntilLeave(s: State, later: seq<Action>, t: Tid)
    requires Inv(s) && t in s.threads && Reading(s.threads[t]) && Possible(s, later)
    requires forall i :: 0 <= i < |later| ==> !Leaves(later[i], t)
    ensures var s', sid := Run(s, later), s.threads[t].src.sid;
            && t in s'.threads && Reading(s'.threads[t]) && s'.threads[t].src.sid == sid
            && sid in s'.flow.streams && s'.flow.streams[sid] == t
    decreases |later|
  {
    hide Apply, Enabled, DeadlineInv, OwnInv, QueueInv;
    if later == [] {
      assert RegSeen(s, t);
    } else {
      InvStep(s, later[0]);
      assert !Leaves(later[0], t);
      ReadingStep(s, later[0], t);
      assert forall i :: 0 <= i < |later[1..]| ==> later[1..][i] == later[i + 1];
      ReadUntilLeave(Apply(s, later[0]), later[1..], t);
    }
  }

  lemma ReadingStep(s: State, a: Action, t: Tid)
    requires t in s.threads && Reading(s.threads[t]) && Enabled(s, a) && !Leaves(a, t)
    ensures var s' := Apply(s, a);
            t in s'.threads && Reading(s'.threads[t]) && s'.threads[t].src == s.threads[t].src
  {
    hide SetDeadline, Fire, DoRead, CanRead, DoClose, CanClose, PushBuffer;
    match a
    case Reads(u, r) => ReadIsNoStream(s, u, r);
    case Closes(u, c) => CloseIsNoStream(s, u, c);
    case _ =>
  }

  /** A datagram is pushed once: after that its call does nothing more. */
  lemma {:induction false} DatagramPushedOnce(s: State, t: Tid, later: seq<Action>)
    requires Enabled(s, Produces(t, Push)) && s.threads[t].src.Datagram?
    requires Possible(Apply(s, Produces(t, Push)), later)
    ensures forall i, p :: 0 <= i < |later| ==> later[i] != Produces(t, p)
  {
    LeftForGood(Apply(s, Produces(t, Push)), later, t);
  }

  lemma {:induction false} LeftForGood(s: State, later: seq<Action>, t: Tid)
    requires t in s.threads && s.threads[t].Left? && Possible(s, later)
    ensures forall i, p :: 0 <= i < |later| ==> later[i] != Produces(t, p)
    decreases |later|
  {
    hide Apply;
    if later != [] {
      LeftStep(s, later[0], t);
      LeftForGood(Apply(s, later[0]), later[1..], t);
      assert forall i :: 1 <= i < |later| ==> later[i] == later[1..][i - 1];
    }
  }

  lemma LeftStep(s: State, a: Action, t: Tid)
    requires t in s.threads && s.threads[t].Left? && Enabled(s, a)
    ensures t in Apply(s, a).threads && Apply(s, a).threads[t].Left? && forall p :: a != Produces(t, p)
  {
    hide SetDeadline, Fire, PushBuffer, CloseBuffer;
  }

  /** Eviction cancels the streams that are registered, and for good. */
  lemma EvictionCancelsRegistered(s: State, evictor: Tid, later: seq<Action>)
    requires evictor in s.threads && CanClose(s, evictor, Evict)
    requires Possible(Apply(s, Closes(evictor, Evict)), later)
    ensures s.flow.streams.Keys <= Run(Apply(s, Closes(evictor, Evict)), later).flow.cancelled
  {
    ClosedRun(Apply(s, Closes(evictor, Evict)), later);
  }
}
