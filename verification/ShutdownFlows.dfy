/**
 Which flows a shutdown closes (session.go `close`): exactly those that its snapshots of the
 two maps find, or that the application closes itself.
 */
module ShutdownFlows {
  import opened Common
  import opened Shutdown
  import SendFlows

  /**
   Whose flows are whose: a registered send flow is open, a send flow is open unless it was
   closed, and no receive flow is a send flow, in the maps and in the snapshots.
   */
  ghost predicate FlowsInv(s: State) {
    var x := s.session;
    && (forall id :: id in x.sends.live ==> Registered(x, id))
    && x.sends.open == x.sends.ids.Keys - x.closedFlows
    && x.sends.ids.Keys <= x.made
    && x.closedFlows <= x.made
    && (forall id :: id in x.receiveFlows ==> IsReceiveFlow(x, x.receiveFlows[id]))
    && (x.sendSnap.Some? ==> x.sendSnap.value <= x.sends.ids.Keys)
    && (x.receiveSnap.Some? ==> forall h :: h in x.receiveSnap.value ==> IsReceiveFlow(x, h))
    && (forall t :: t in s.threads ==> LeftOk(x, s.threads[t]))
  }

  /** The entry for the ID is an open flow of that ID. */
  predicate Registered(x: Session, id: nat)
    requires id in x.sends.live
  {
    var h := x.sends.live[id];
    h in x.sends.ids && x.sends.ids[h] == id && h !in x.closedFlows
  }

  predicate IsReceiveFlow(x: Session, h: Handle) {
    h in x.made && h !in x.sends.ids
  }

  /** What a close has still to close is part of its snapshot. */
  predicate LeftOk(x: Session, pc: Pc) {
    match pc
    case ClosingSend(_, left) => x.sendSnap.Some? && left <= x.sendSnap.value
    case ClosingReceive(_, left) => x.receiveSnap.Some? && left <= x.receiveSnap.value
    case _ => true
  }

  lemma FlowsStep(s: State, a: Action)
    requires Inv(s) && FlowsInv(s) && Enabled(s, a)
    ensures FlowsInv(Apply(s, a))
  {
    hide SessionInv, LoopsInv, FlowsInv, DoLoop, CanLoop, DoStep, CanStep;
    match a
    case Loop(_) => FlowsSame(s, Apply(s, a));
    case Call(_, _, _) => FlowsSame(s, Apply(s, a));
    case CheckOpen(_) => FlowsSame(s, Apply(s, a));
    case NewSendFlow(t, id, h) => FlowsAfterSend(s, t, id, h);
    case NewReceiveFlow(t, id, h) => FlowsAfterReceive(s, t, id, h);
    case GiveUp(_) => FlowsSame(s, Apply(s, a));
    case CloseFlow(h) => FlowsAfterCloseFlow(s, h);
    case Step(t, h, err) => FlowsAfterStep(s, t, h, err);
  }

  lemma FlowsSame(s: State, s': State)
    requires FlowsInv(s) && s'.session == s.session
    requires forall t :: t in s'.threads ==> s'.threads[t].Start? || (t in s.threads && s'.threads[t] == s.threads[t])
    ensures FlowsInv(s')
  {
  }

  lemma FlowsAfterSend(s: State, t: Tid, id: nat, h: Handle)
    requires FlowsInv(s) && Enabled(s, NewSendFlow(t, id, h))
    ensures FlowsInv(Apply(s, NewSendFlow(t, id, h)))
  {
    var x, x' := s.session, Apply(s, NewSendFlow(t, id, h)).session;
    assert x'.sends.live == x.sends.live[id := h] && x'.sends.ids == x.sends.ids[h := id];
    forall k | k in x'.sends.live
      ensures Registered(x', k)
    {
      assert k != id ==> Registered(x, k);
    }
    assert forall u :: u in s.threads ==> LeftOk(x, s.threads[u]);
  }

  lemma FlowsAfterReceive(s: State, t: Tid, id: nat, h: Handle)
    requires FlowsInv(s) && Enabled(s, NewReceiveFlow(t, id, h))
    ensures FlowsInv(Apply(s, NewReceiveFlow(t, id, h)))
  {
    var x, x' := s.session, Apply(s, NewReceiveFlow(t, id, h)).session;
    assert forall k :: k in x.sends.live ==> Registered(x, k) && Registered(x', k);
    assert forall u :: u in s.threads ==> LeftOk(x, s.threads[u]);
  }

  lemma FlowsAfterCloseFlow(s: State, h: Handle)
    requires FlowsInv(s) && h in s.session.made
    ensures FlowsInv(Apply(s, CloseFlow(h)))
  {
    hide CloseOne;
    FlowsAfterClose(s.session, h);
    OnlyCloses(s.session, h);
    assert forall u :: u in s.threads ==> LeftOk(s.session, s.threads[u]);
  }

  lemma OnlyCloses(x: Session, h: Handle)
    ensures CloseOne(x, h) == x.(closedFlows := x.closedFlows + {h}, sends := CloseOne(x, h).sends)
  {
  }

  lemma FlowsAfterStep(s: State, t: Tid, h: Handle, err: nat)
    requires Inv(s) && FlowsInv(s) && t in s.threads && CanStep(s, t, h)
    ensures FlowsInv(DoStep(s, t, h, err))
  {
    hide SessionInv, LoopsInv, DoStep, CanStep, CloseOne;
    StepOnFlows(s, t, h, err);
    StepOnLeft(s, t, h, err);
    if Closes(s.threads[t], h) {
      assert LeftOk(s.session, s.threads[t]);
      FlowsAfterClose(s.session, h);
    }
  }

  /** Closing a flow keeps registered send flows open. */
  lemma FlowsAfterClose(x: Session, h: Handle)
    requires forall id :: id in x.sends.live ==> Registered(x, id)
    requires x.sends.open == x.sends.ids.Keys - x.closedFlows
    ensures forall id :: id in CloseOne(x, h).sends.live ==> Registered(CloseOne(x, h), id)
    ensures CloseOne(x, h).sends.open == x.sends.ids.Keys - (x.closedFlows + {h})
    ensures CloseOne(x, h).sends.ids == x.sends.ids && CloseOne(x, h).closedFlows == x.closedFlows + {h}
  {
  }

  predicate Closes(pc: Pc, h: Handle) {
    (pc.ClosingSend? || pc.ClosingReceive?) && h in pc.left
  }

  /** What a step of a close does to flows: it takes the snapshot of the send flows, closes a flow, or neither. */
  lemma StepOnFlows(s: State, t: Tid, h: Handle, err: nat)
    requires SessionInv(s) && t in s.threads && CanStep(s, t, h)
    ensures var x, pc, x' := s.session, s.threads[t], DoStep(s, t, h, err).session;
            && x'.sends.ids == x.sends.ids && x'.made == x.made && x'.receiveFlows == x.receiveFlows
            && (if pc.SnapSend? then x.sendSnap.None? && x'.sendSnap == Some(x.sends.live.Values)
                else x'.sendSnap == x.sendSnap)
            && (if pc.SnapReceive? then x.receiveSnap.None? && x'.receiveSnap == Some(x.receiveFlows.Values)
                else x'.receiveSnap == x.receiveSnap)
            && (if Closes(pc, h)
                then x.sendSnap.Some? && x'.closedFlows == x.closedFlows + {h}
                     && x'.sends == CloseOne(x, h).sends
                else x'.closedFlows == x.closedFlows && x'.sends == x.sends)
  {
    SnapshotWhileClosing(s, t);
  }

  lemma StepOnLeft(s: State, t: Tid, h: Handle, err: nat)
    requires SessionInv(s) && FlowsInv(s) && t in s.threads && CanStep(s, t, h)
    ensures var s' := DoStep(s, t, h, err);
            && s'.threads == s.threads[t := s'.threads[t]]
            && forall u :: u in s'.threads ==> LeftOk(s'.session, s'.threads[u])
  {
    hide SessionInv, FlowsInv, DoStep, CanStep;
    OwnLeft(s, t, h, err);
    StepOnFlows(s, t, h, err);
    OthersLeft(s, DoStep(s, t, h, err), t);
  }

  lemma OwnLeft(s: State, t: Tid, h: Handle, err: nat)
    requires SessionInv(s) && FlowsInv(s) && t in s.threads && CanStep(s, t, h)
    ensures var s' := DoStep(s, t, h, err);
            s'.threads == s.threads[t := s'.threads[t]] && LeftOk(s'.session, s'.threads[t])
  {
    hide SessionInv;
    SnapshotWhileClosing(s, t);
    assert LeftOk(s.session, s.threads[t]);
  }

  lemma OthersLeft(s: State, s': State, t: Tid)
    requires SessionInv(s) && FlowsInv(s) && t in s.threads && t in s'.threads
    requires s'.threads == s.threads[t := s'.threads[t]] && LeftOk(s'.session, s'.threads[t])
    requires s.threads[t].SnapSend? || s'.session.sendSnap == s.session.sendSnap
    requires s.threads[t].SnapReceive? || s'.session.receiveSnap == s.session.receiveSnap
    ensures forall u :: u in s'.threads ==> LeftOk(s'.session, s'.threads[u])
  {
    hide SessionInv;
    if s.threads[t].SnapSend? || s.threads[t].SnapReceive? {
      OneInSection(s, t);
    }
    assert forall u :: u in s.threads ==> LeftOk(s.session, s.threads[u]);
  }

  lemma OneInSection(s: State, t: Tid)
    requires SessionInv(s) && t in s.threads && InSection(s.threads[t])
    ensures forall u :: u in s.threads && u != t ==> !InSection(s.threads[u])
  {
    assert PcOk(s, t);
    assert forall u :: u in s.threads ==> PcOk(s, u);
  }

  lemma FlowsRun(s: State, actions: seq<Action>)
    requires Inv(s) && FlowsInv(s) && Possible(s, actions)
    ensures FlowsInv(Run(s, actions))
    decreases |actions|
  {
    hide SessionInv, LoopsInv, FlowsInv;
    if actions != [] {
      InvStep(s, actions[0]);
      FlowsStep(s, actions[0]);
      FlowsRun(Apply(s, actions[0]), actions[1..]);
    }
  }

  // ----- Receive flows -----

  /**
   Receive flows stay registered, so every one that was there before `close` took its
   snapshot is closed by the time any close or Close returns.
   */
  lemma ReceiveFlowsAllClosed(s: State, id: nat, later: seq<Action>, t: Tid)
    requires Reachable(s) && id in s.session.receiveFlows && s.session.receiveSnap.None?
    requires Possible(s, later)
    requires var s' := Run(s, later); t in s'.threads && (s'.threads[t].Returned? || s'.threads[t].Done?)
    ensures s.session.receiveFlows[id] in Run(s, later).session.closedFlows
  {
    ReachableInv(s);
    InvRun(s, later);
    assert PcOk(Run(s, later), t);
    ReceiveCovered(s, id, s.session.receiveFlows[id], later);
  }

  /** The flow is in the map, or in the snapshot taken of it. */
  predicate Covers(m: map<nat, Handle>, snap: Option<set<Handle>>, id: nat, h: Handle) {
    (id in m && m[id] == h && snap.None?) || (snap.Some? && h in snap.value)
  }

  lemma {:induction false} ReceiveCovered(s: State, id: nat, h: Handle, later: seq<Action>)
    requires Possible(s, later) && Covers(s.session.receiveFlows, s.session.receiveSnap, id, h)
    requires Inv(s)
    ensures Covers(Run(s, later).session.receiveFlows, Run(s, later).session.receiveSnap, id, h)
    decreases |later|
  {
    if later != [] {
      InvStep(s, later[0]);
      ReceiveCoveredStep(s, id, h, later[0]);
      ReceiveCovered(Apply(s, later[0]), id, h, later[1..]);
    }
  }

  lemma ReceiveCoveredStep(s: State, id: nat, h: Handle, a: Action)
    requires Inv(s) && Enabled(s, a) && Covers(s.session.receiveFlows, s.session.receiveSnap, id, h)
    ensures Covers(Apply(s, a).session.receiveFlows, Apply(s, a).session.receiveSnap, id, h)
  {
    hide SessionInv, LoopsInv, DoLoop, CanLoop, DoStep, CanStep;
    if a.Step? {
      StepOnFlows(s, a.t, a.h, a.err);
      if id in s.session.receiveFlows {
        assert s.session.receiveFlows[id] in s.session.receiveFlows.Values;
      }
    }
  }

  /** How many of the actions it takes until `close` has looked at the receive flows. */
  function UntilReceiveSnap(s: State, later: seq<Action>): (n: nat)
    requires Possible(s, later)
    ensures n <= |later|
    decreases |later|
  {
    if later == [] || s.session.receiveSnap.Some? then 0
    else 1 + UntilReceiveSnap(Apply(s, later[0]), later[1..])
  }

  predicate Registers(a: Action, h: Handle) {
    a.NewReceiveFlow? && a.h == h
  }

  predicate AnyRegisters(actions: seq<Action>, h: Handle) {
    exists i :: 0 <= i < |actions| && Registers(actions[i], h)
  }

  /**
   Over whole runs: a receive flow that is registered when a close or Close returns has been
   closed if and only if it was registered by the time of the snapshot or the application
   closed it.
   */
  lemma ReceiveFlowClosedIff(acceptDatagrams: bool, actions: seq<Action>, id: nat, t: Tid)
    requires Possible(Init(acceptDatagrams), actions)
    requires var s := Run(Init(acceptDatagrams), actions);
             && t in s.threads && (s.threads[t].Returned? || s.threads[t].Done?)
             && id in s.session.receiveFlows
    ensures var s := Run(Init(acceptDatagrams), actions);
            var h := s.session.receiveFlows[id];
            h in s.session.closedFlows <==>
            || CloseFlow(h) in actions
            || AnyRegisters(actions[..UntilReceiveSnap(Init(acceptDatagrams), actions)], h)
  {
    hide SessionInv, LoopsInv, UntilReceiveSnap, Possible, Run;
    var s := Run(Init(acceptDatagrams), actions);
    assert Reachable(s);
    ReachableInv(s);
    ReachableFlowsInv(s);
    ReturnedMeansFinished(s, t);
    InitOk(acceptDatagrams);
    UnmadeRun(Init(acceptDatagrams), s.session.receiveFlows[id], actions);
  }

  lemma InitOk(acceptDatagrams: bool)
    ensures Inv(Init(acceptDatagrams)) && FlowsInv(Init(acceptDatagrams))
  {
  }

  /** The flow is open, and in neither snapshot, and the one of the receive flows has been taken. */
  predicate Missed(x: Session, h: Handle) {
    && IsReceiveFlow(x, h) && h !in x.closedFlows && x.receiveSnap.Some? && h !in x.receiveSnap.value
  }

  lemma {:induction false} UnmadeRun(s: State, h: Handle, later: seq<Action>)
    requires Possible(s, later) && Inv(s) && FlowsInv(s) && h !in s.session.made
    requires IsReceiveFlow(Run(s, later).session, h)
    requires AllClosed(Run(s, later).session, Run(s, later).session.receiveSnap)
    ensures h in Run(s, later).session.closedFlows <==>
            CloseFlow(h) in later || AnyRegisters(later[..UntilReceiveSnap(s, later)], h)
    decreases |later|
  {
    hide SessionInv, LoopsInv, FlowsInv;
    var a, rest := later[0], later[1..];
    var s' := Apply(s, a);
    InvStep(s, a);
    FlowsStep(s, a);
    UnmadeStep(s, h, a);
    FirstRegisters(later, h, UntilReceiveSnap(s', rest));
    if Registers(a, h) {
      if s.session.receiveSnap.None? {
        ReceiveCovered(s', a.id, h, rest);
      } else {
        MissedRun(s', h, rest);
      }
    } else if h in s'.session.sends.ids {
      SendIDsGrow(s', h, rest);
    } else {
      UnmadeRun(s', h, rest);
    }
  }

  lemma FirstRegisters(later: seq<Action>, h: Handle, n: nat)
    requires later != [] && n < |later|
    ensures AnyRegisters(later[..1 + n], h) <==> Registers(later[0], h) || AnyRegisters(later[1..][..n], h)
    ensures !AnyRegisters(later[..0], h)
    ensures forall a :: a in later <==> a == later[0] || a in later[1..]
  {
    var all, rest := later[..1 + n], later[1..][..n];
    assert all == [later[0]] + rest;
    if i :| 0 <= i < |rest| && Registers(rest[i], h) {
      assert Registers(all[i + 1], h);
    }
    if Registers(later[0], h) {
      assert Registers(all[0], h);
    }
  }

  lemma UnmadeStep(s: State, h: Handle, a: Action)
    requires Inv(s) && FlowsInv(s) && Enabled(s, a) && h !in s.session.made
    ensures a != CloseFlow(h)
    ensures var x := Apply(s, a).session;
            if Registers(a, h)
            then if s.session.receiveSnap.None? then Covers(x.receiveFlows, x.receiveSnap, a.id, h) else Missed(x, h)
            else h !in x.made || h in x.sends.ids
  {
    hide SessionInv, LoopsInv, DoLoop, CanLoop, DoStep, CanStep;
    if a.Step? {
      StepOnFlows(s, a.t, a.h, a.err);
    }
  }

  lemma {:induction false} SendIDsGrow(s: State, h: Handle, later: seq<Action>)
    requires Possible(s, later) && Inv(s) && h in s.session.sends.ids
    ensures h in Run(s, later).session.sends.ids
    decreases |later|
  {
    hide SessionInv, LoopsInv, DoLoop, CanLoop, DoStep, CanStep;
    if later != [] {
      var a := later[0];
      InvStep(s, a);
      if a.Step? {
        StepOnFlows(s, a.t, a.h, a.err);
      }
      SendIDsGrow(Apply(s, a), h, later[1..]);
    }
  }

  lemma {:induction false} MissedRun(s: State, h: Handle, later: seq<Action>)
    requires Possible(s, later) && Inv(s) && FlowsInv(s) && Missed(s.session, h)
    ensures h in Run(s, later).session.closedFlows <==> CloseFlow(h) in later
    decreases |later|
  {
    hide SessionInv, LoopsInv, FlowsInv;
    if later != [] {
      var a := later[0];
      InvStep(s, a);
      FlowsStep(s, a);
      MissedStep(s, h, a);
      assert forall b :: b in later <==> b == a || b in later[1..];
      if a == CloseFlow(h) {
        ClosedStays(Apply(s, a), h, later[1..]);
      } else {
        MissedRun(Apply(s, a), h, later[1..]);
      }
    }
  }

  lemma MissedStep(s: State, h: Handle, a: Action)
    requires Inv(s) && FlowsInv(s) && Enabled(s, a) && Missed(s.session, h)
    ensures if a == CloseFlow(h) then h in Apply(s, a).session.closedFlows else Missed(Apply(s, a).session, h)
  {
    hide SessionInv, LoopsInv, DoLoop, CanLoop, DoStep, CanStep;
    if a.Step? {
      StepOnFlows(s, a.t, a.h, a.err);
      assert LeftOk(s.session, s.threads[a.t]);
    }
  }

  lemma {:induction false} ClosedStays(s: State, h: Handle, later: seq<Action>)
    requires Possible(s, later) && Inv(s) && h in s.session.closedFlows
    ensures h in Run(s, later).session.closedFlows
    decreases |later|
  {
    hide SessionInv, LoopsInv, DoLoop, CanLoop, DoStep, CanStep;
    if later != [] {
      var a := later[0];
      InvStep(s, a);
      if a.Step? {
        StepOnFlows(s, a.t, a.h, a.err);
      }
      ClosedStays(Apply(s, a), h, later[1..]);
    }
  }

  // ----- Send flows -----

  /** The action closes one of the flows `ids` knows by this ID, and so frees the ID. */
  predicate Frees(ids: map<Handle, nat>, id: nat, a: Action) {
    a.CloseFlow? && a.h in ids && ids[a.h] == id
  }

  predicate AnyFrees(ids: map<Handle, nat>, id: nat, actions: seq<Action>) {
    exists i :: 0 <= i < |actions| && Frees(ids, id, actions[i])
  }

  /** How many of the actions it takes until `close` has looked at the send flows. */
  function UntilSnap(s: State, later: seq<Action>): (n: nat)
    requires Possible(s, later)
    ensures n <= |later|
    decreases |later|
  {
    if later == [] || s.session.sendSnap.Some? then 0
    else 1 + UntilSnap(Apply(s, later[0]), later[1..])
  }

  /**
   Send flows delete by ID. One that is registered before the snapshot is closed by the time
   a close or Close returns if and only if the application closes it, or closes no flow that
   ever had its ID until the snapshot is taken.
   */
  lemma SendFlowClosedIff(s: State, id: nat, later: seq<Action>, t: Tid)
    requires Reachable(s) && id in s.session.sends.live && s.session.sendSnap.None?
    requires Possible(s, later)
    requires var s' := Run(s, later); t in s'.threads && (s'.threads[t].Returned? || s'.threads[t].Done?)
    ensures var h := s.session.sends.live[id];
            h in Run(s, later).session.closedFlows <==>
            CloseFlow(h) in later || !AnyFrees(s.session.sends.ids, id, later[..UntilSnap(s, later)])
  {
    ReachableInv(s);
    ReachableFlowsInv(s);
    InvRun(s, later);
    assert PcOk(Run(s, later), t);
    HookedRun(s, s.session.sends.ids, id, s.session.sends.live[id], later);
  }

  lemma ReachableFlowsInv(s: State)
    requires Reachable(s)
    ensures FlowsInv(s)
  {
    hide SessionInv, LoopsInv, FlowsInv;
    var acceptDatagrams, actions :|
      Possible(Init(acceptDatagrams), actions) && s == Run(Init(acceptDatagrams), actions);
    InitOk(acceptDatagrams);
    FlowsRun(Init(acceptDatagrams), actions);
  }

  /** The flow is registered, the snapshot still to come, and the flows of its ID are those of `ids`. */
  ghost predicate Hooked(x: Session, ids: map<Handle, nat>, id: nat, h: Handle) {
    && x.sendSnap.None? && id in x.sends.live && x.sends.live[id] == h
    && forall g :: (g in x.sends.ids && x.sends.ids[g] == id) <==> (g in ids && ids[g] == id)
  }

  /** The flow is open, and neither in the map nor in the snapshot: only the application can close it. */
  predicate Lost(x: Session, h: Handle) {
    && h in x.sends.ids && h !in x.closedFlows && h !in x.sends.live.Values
    && (x.sendSnap.Some? ==> h !in x.sendSnap.value)
  }

  /** The flow is closed, or in the snapshot and about to be. */
  predicate Doomed(x: Session, h: Handle) {
    h in x.closedFlows || (x.sendSnap.Some? && h in x.sendSnap.value)
  }

  lemma {:induction false} HookedRun(s: State, ids: map<Handle, nat>, id: nat, h: Handle, later: seq<Action>)
    requires Possible(s, later) && Inv(s) && FlowsInv(s) && Hooked(s.session, ids, id, h)
    requires AllClosed(Run(s, later).session, Run(s, later).session.sendSnap)
    ensures h in Run(s, later).session.closedFlows <==>
            CloseFlow(h) in later || !AnyFrees(ids, id, later[..UntilSnap(s, later)])
    decreases |later|
  {
    hide SessionInv, LoopsInv, FlowsInv;
    var a, rest := later[0], later[1..];
    var s' := Apply(s, a);
    InvStep(s, a);
    FlowsStep(s, a);
    HookedStep(s, ids, id, h, a);
    var n := UntilSnap(s', rest);
    FirstFrees(ids, id, later, n);
    if a == CloseFlow(h) {
      DoomedRun(s', h, rest);
    } else if Frees(ids, id, a) {
      LostRun(s', h, rest);
    } else if s'.session.sendSnap.Some? {
      DoomedRun(s', h, rest);
    } else {
      HookedRun(s', ids, id, h, rest);
    }
  }

  lemma FirstFrees(ids: map<Handle, nat>, id: nat, later: seq<Action>, n: nat)
    requires later != [] && n < |later|
    ensures AnyFrees(ids, id, later[..1 + n]) <==> Frees(ids, id, later[0]) || AnyFrees(ids, id, later[1..][..n])
    ensures forall a :: a in later <==> a == later[0] || a in later[1..]
  {
    var all, rest := later[..1 + n], later[1..][..n];
    assert all == [later[0]] + rest;
    if i :| 0 <= i < |rest| && Frees(ids, id, rest[i]) {
      assert Frees(ids, id, all[i + 1]);
    }
    if Frees(ids, id, later[0]) {
      assert Frees(ids, id, all[0]);
    }
  }

  lemma HookedStep(s: State, ids: map<Handle, nat>, id: nat, h: Handle, a: Action)
    requires Inv(s) && FlowsInv(s) && Enabled(s, a) && Hooked(s.session, ids, id, h)
    ensures var x := Apply(s, a).session;
            if a == CloseFlow(h) then Doomed(x, h)
            else if Frees(ids, id, a) then Lost(x, h)
            else if x.sendSnap.Some? then Doomed(x, h)
            else Hooked(x, ids, id, h)
  {
    hide SessionInv, LoopsInv, DoLoop, CanLoop, DoStep, CanStep;
    if a.Step? {
      StepOnFlows(s, a.t, a.h, a.err);
    }
  }

  lemma {:induction false} DoomedRun(s: State, h: Handle, later: seq<Action>)
    requires Possible(s, later) && Inv(s) && Doomed(s.session, h)
    ensures Doomed(Run(s, later).session, h)
    decreases |later|
  {
    if later != [] {
      InvStep(s, later[0]);
      DoomedStep(s, h, later[0]);
      DoomedRun(Apply(s, later[0]), h, later[1..]);
    }
  }

  lemma DoomedStep(s: State, h: Handle, a: Action)
    requires Inv(s) && Enabled(s, a) && Doomed(s.session, h)
    ensures Doomed(Apply(s, a).session, h)
  {
    hide SessionInv, LoopsInv, DoLoop, CanLoop, DoStep, CanStep;
    if a.Step? {
      StepOnFlows(s, a.t, a.h, a.err);
    }
  }

  lemma {:induction false} LostRun(s: State, h: Handle, later: seq<Action>)
    requires Possible(s, later) && Inv(s) && FlowsInv(s) && Lost(s.session, h)
    ensures CloseFlow(h) in later ==> Doomed(Run(s, later).session, h)
    ensures CloseFlow(h) !in later ==> Lost(Run(s, later).session, h)
    decreases |later|
  {
    hide SessionInv, LoopsInv, FlowsInv, Lost;
    if later != [] {
      var s' := Apply(s, later[0]);
      InvStep(s, later[0]);
      FlowsStep(s, later[0]);
      LostStep(s, h, later[0]);
      if later[0] == CloseFlow(h) {
        DoomedRun(s', h, later[1..]);
      } else {
        LostRun(s', h, later[1..]);
        assert forall a :: a in later <==> a == later[0] || a in later[1..];
      }
    }
  }

  lemma LostStep(s: State, h: Handle, a: Action)
    requires Inv(s) && FlowsInv(s) && Enabled(s, a) && Lost(s.session, h)
    ensures if a == CloseFlow(h) then Doomed(Apply(s, a).session, h) else Lost(Apply(s, a).session, h)
  {
    hide SessionInv, LoopsInv, DoLoop, CanLoop, DoStep, CanStep;
    if a.Step? {
      StepOnFlows(s, a.t, a.h, a.err);
    }
  }

  // ----- Runs that leave a flow open -----

  lemma RunOne(s: State, a: Action, rest: seq<Action>)
    requires Enabled(s, a) && Possible(Apply(s, a), rest)
    ensures Possible(s, [a] + rest) && Run(s, [a] + rest) == Run(Apply(s, a), rest)
  {
    assert ([a] + rest)[1..] == rest;
  }

  lemma {:induction false} RunConcat(s: State, first: seq<Action>, second: seq<Action>)
    requires Possible(s, first) && Possible(Run(s, first), second)
    ensures Possible(s, first + second) && Run(s, first + second) == Run(Run(s, first), second)
    decreases |first|
  {
    if first == [] {
      assert first + second == second;
    } else {
      assert (first + second)[1..] == first[1..] + second;
      RunConcat(Apply(s, first[0]), first[1..], second);
    }
  }

  function Repeat(a: Action, n: nat): seq<Action> {
    if n == 0 then [] else [a] + Repeat(a, n - 1)
  }

  /** A close by call `t` from its start to its return, with no flows in its way. */
  function WholeClose(t: Tid, code: nat, err: nat): seq<Action> {
    [Call(t, false, code)] + Repeat(Step(t, 0, err), 8)
  }

  /** Where such a close stands when it has `n` steps to go. */
  function Stage(code: nat, n: nat): Pc {
    match n
    case 0 => Returned
    case 1 => CancelCtx(false)
    case 2 => CloseConn(false)
    case 3 => ClosingReceive(false, {})
    case 4 => SnapReceive(false)
    case 5 => ClosingSend(false, {})
    case 6 => SnapSend(false)
    case 7 => Locked(false, code)
    case _ => Start(false, code)
  }

  /** No flow came or went. */
  predicate SameFlows(s: State, s': State) {
    && s'.creating == s.creating && s'.session.closedFlows == s.session.closedFlows
    && s'.session.made == s.session.made && s'.session.sends == s.session.sends
    && s'.session.receiveFlows == s.session.receiveFlows
  }

  predicate NothingToClose(s: State, n: nat) {
    && s.session.sends.live == map[] && s.session.receiveFlows == map[]
    && (n == 8 ==> s.session.mutex.None?) && (n >= 7 ==> s.session.closedErr.None?)
  }

  lemma EmptyStep(s: State, t: Tid, code: nat, err: nat, n: nat)
    requires 0 < n <= 8 && NothingToClose(s, n) && t in s.threads && s.threads[t] == Stage(code, n)
    ensures Enabled(s, Step(t, 0, err))
    ensures var s' := Apply(s, Step(t, 0, err));
            && SameFlows(s, s') && NothingToClose(s', n - 1)
            && t in s'.threads && s'.threads[t] == Stage(code, n - 1)
  {
  }

  lemma {:induction false} EmptySteps(s: State, t: Tid, code: nat, err: nat, n: nat)
    requires n <= 8 && NothingToClose(s, n) && t in s.threads && s.threads[t] == Stage(code, n)
    ensures Possible(s, Repeat(Step(t, 0, err), n))
    ensures var s' := Run(s, Repeat(Step(t, 0, err), n));
            SameFlows(s, s') && t in s'.threads && s'.threads[t].Returned?
    decreases n
  {
    hide Apply, Enabled, NothingToClose;
    if n > 0 {
      EmptyStep(s, t, code, err, n);
      var s' := Apply(s, Step(t, 0, err));
      EmptySteps(s', t, code, err, n - 1);
      RunOne(s, Step(t, 0, err), Repeat(Step(t, 0, err), n - 1));
    }
  }

  lemma EmptyClose(s: State, t: Tid, code: nat, err: nat)
    requires t !in s.threads && s.session.mutex.None? && s.session.closedErr.None?
    requires s.session.sends.live == map[] && s.session.receiveFlows == map[]
    ensures Possible(s, WholeClose(t, code, err))
    ensures var s' := Run(s, WholeClose(t, code, err));
            SameFlows(s, s') && t in s'.threads && s'.threads[t].Returned?
  {
    hide Possible, Run, Repeat;
    EmptySteps(Apply(s, Call(t, false, code)), t, code, err, 8);
    RunOne(s, Call(t, false, code), Repeat(Step(t, 0, err), 8));
  }

  /** The first two steps of the run below, and the last two: a send flow is made. */
  lemma MakeSendFlow(s: State, t: Tid, id: nat, h: Handle)
    requires t !in s.creating && s.session.mutex.None? && s.session.closedErr.None?
    requires id !in s.session.sends.live && h !in s.session.made && h !in s.session.sends.ids
    ensures var actions := [CheckOpen(t), NewSendFlow(t, id, h)];
            && Possible(s, actions)
            && var s' := Run(s, actions);
               s' == s.(session := s.session.(sends := SendFlows.New(s.session.sends, id, h),
                                              made := s.session.made + {h}))
  {
    var s1 := Apply(s, CheckOpen(t));
    RunOne(s1, NewSendFlow(t, id, h), []);
    RunOne(s, CheckOpen(t), [NewSendFlow(t, id, h)]);
    assert s.creating + {t} - {t} == s.creating;
  }

  /**
   The exception for send flows is real. Flow 0 is made and closed, flow 1 made under the same
   ID; flow 0 is closed again and a close runs to its end: it never sees flow 1, which stays open.
   */
  lemma SendFlowEscapes(id: nat, code: nat, err: nat)
    ensures var before := [CheckOpen(0), NewSendFlow(0, id, 0)] +
                          ([CloseFlow(0)] + [CheckOpen(0), NewSendFlow(0, id, 1)]);
            var later := [CloseFlow(0)] + WholeClose(0, code, err);
            && Possible(Init(true), before)
            && var s := Run(Init(true), before);
               && id in s.session.sends.live && s.session.sends.live[id] == 1 && s.session.sendSnap.None?
               && Possible(s, later)
               && var s' := Run(s, later);
                  0 in s'.threads && s'.threads[0].Returned? && 1 !in s'.session.closedFlows
  {
    hide Possible, Run;
    var i0 := Init(true);
    var make0, make1 := [CheckOpen(0), NewSendFlow(0, id, 0)], [CheckOpen(0), NewSendFlow(0, id, 1)];
    MakeSendFlow(i0, 0, id, 0);
    var i1 := Run(i0, make0);
    var i2 := Apply(i1, CloseFlow(0));
    assert i2.session.sends.live == map[];
    MakeSendFlow(i2, 0, id, 1);
    RunOne(i1, CloseFlow(0), make1);
    RunConcat(i0, make0, [CloseFlow(0)] + make1);

    var s := Run(i2, make1);
    var freed := Apply(s, CloseFlow(0));
    assert freed.session.sends.live == map[];
    EmptyClose(freed, 0, code, err);
    RunOne(s, CloseFlow(0), WholeClose(0, code, err));
  }

  /**
   So is the one for receive flows. A call of `NewReceiveFlow` finds the session open, a close
   runs to its end, and then the call registers its flow: it stays open.
   */
  lemma ReceiveFlowEscapes(id: nat, code: nat, err: nat)
    ensures var actions := [CheckOpen(1)] + (WholeClose(0, code, err) + [NewReceiveFlow(1, id, 0)]);
            && Possible(Init(true), actions)
            && var s := Run(Init(true), actions);
               && 0 in s.threads && s.threads[0].Returned?
               && id in s.session.receiveFlows && s.session.receiveFlows[id] == 0 && 0 !in s.session.closedFlows
  {
    hide Possible, WholeClose;
    var i0 := Init(true);
    var i1 := Apply(i0, CheckOpen(1));
    EmptyClose(i1, 0, code, err);
    var closed := Run(i1, WholeClose(0, code, err));
    LastStep(closed, NewReceiveFlow(1, id, 0));
    RunConcat(i1, WholeClose(0, code, err), [NewReceiveFlow(1, id, 0)]);
    RunOne(i0, CheckOpen(1), WholeClose(0, code, err) + [NewReceiveFlow(1, id, 0)]);
  }

  lemma LastStep(s: State, a: Action)
    requires Enabled(s, a)
    ensures Possible(s, [a]) && Run(s, [a]) == Apply(s, a)
  {
    RunOne(s, a, []);
  }
}
