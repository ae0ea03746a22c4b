/**
 Shutting a session down (session.go `start`, `close`, `Close`, `receiveUniStreams`): any
 number of internal and public closes, interleaved with the session's own goroutines and
 with the application making and closing flows.
 */
module Shutdown {
  import opened Common
  import SendFlows

  type Handle = SendFlows.Handle

  // ----- The session's goroutines and its WaitGroup -----

  datatype Goroutine = DatagramLoop | UniLoop | Handler(n: nat)

  /**
   `toStart` and `starting` are what is left of `start`; `accepting` says that the stream
   loop has counted a handler it has not launched yet.
   */
  datatype Loops = Loops(
    toStart: seq<Goroutine>,
    starting: Option<Goroutine>,
    live: set<Goroutine>,
    accepting: bool,
    nextHandler: nat,
    wg: int)

  function InitLoops(acceptDatagrams: bool): Loops {
    Loops(if acceptDatagrams then [DatagramLoop, UniLoop] else [UniLoop], None, {}, false, 0, 0)
  }

  datatype LoopStep = AddLoop | GoLoop | Accept | GoHandler | Finish(g: Goroutine)

  predicate CanLoop(l: Loops, a: LoopStep) {
    match a
    case AddLoop => l.toStart != [] && l.starting.None?
    case GoLoop => l.starting.Some?
    case Accept => UniLoop in l.live && !l.accepting
    case GoHandler => l.accepting
    case Finish(g) => g in l.live && (g == UniLoop ==> !l.accepting)
  }

  function DoLoop(l: Loops, a: LoopStep): Loops
    requires CanLoop(l, a)
  {
    match a
    case AddLoop => l.(wg := l.wg + 1, starting := Some(l.toStart[0]), toStart := l.toStart[1..])
    case GoLoop => l.(live := l.live + {l.starting.value}, starting := None)
    case Accept => l.(wg := l.wg + 1, accepting := true)
    case GoHandler =>
      l.(live := l.live + {Handler(l.nextHandler)}, nextHandler := l.nextHandler + 1, accepting := false)
    case Finish(g) => l.(live := l.live - {g}, wg := l.wg - 1)
  }

  predicate Started(l: Loops) {
    l.toStart == [] && l.starting.None?
  }

  /** The counter is the number of goroutines counted and not done. */
  ghost predicate LoopsInv(l: Loops) {
    && l.wg == |l.live| + (if l.starting.Some? then 1 else 0) + (if l.accepting then 1 else 0)
    && (forall n: nat :: Handler(n) in l.live ==> n < l.nextHandler)
    && (l.accepting ==> UniLoop in l.live)
    && Order(l)
  }

  /** `start` launches the datagram loop, if any, and then the stream loop. */
  predicate Order(l: Loops) {
    || (l.toStart == [DatagramLoop, UniLoop] && l.starting.None? && l.live == {})
    || (l.toStart == [UniLoop] && UniLoop !in l.live && (l.starting == Some(DatagramLoop) ==> l.live == {})
        && (l.starting.Some? ==> l.starting.value == DatagramLoop))
    || (l.toStart == [] && (l.starting.Some? ==> l.starting.value == UniLoop && UniLoop !in l.live))
  }

  lemma LoopsStep(l: Loops, a: LoopStep)
    requires LoopsInv(l) && CanLoop(l, a)
    ensures LoopsInv(DoLoop(l, a))
    // Once started, a goroutine is only ever added while the counter is positive.
    ensures Started(l) && DoLoop(l, a).wg > l.wg ==> l.wg > 0
    ensures Started(l) ==> Started(DoLoop(l, a))
  {
  }

  /** Nothing is running and nothing will. */
  predicate Quiet(l: Loops) {
    Started(l) && l.live == {} && !l.accepting && l.wg == 0
  }

  // ----- Closing -----

  /** A call of `close`, or of `Close` if it is public. */
  datatype Pc =
    | Start(public: bool, code: nat)
    | Locked(public: bool, code: nat)
    | SnapSend(public: bool)
    | ClosingSend(public: bool, left: set<Handle>)
    | SnapReceive(public: bool)
    | ClosingReceive(public: bool, left: set<Handle>)
    | CloseConn(public: bool)
    | CancelCtx(public: bool)
    | Waiting
    | Waited
    | Done(connErr: nat)
    | Returned

  predicate InSection(pc: Pc) {
    !(pc.Start? || pc.Waiting? || pc.Waited? || pc.Done? || pc.Returned?)
  }

  predicate IsPublic(pc: Pc) {
    match pc
    case Waiting => true
    case Waited => true
    case Done(_) => true
    case Returned => false
    case _ => pc.public
  }

  datatype ConnClose = ConnClose(code: nat, err: nat)

  /** Errors are numbers; `connCloses` lists the calls of `CloseWithError` on the connection. */
  datatype Session = Session(
    mutex: Option<Tid>,
    closedErr: Option<nat>,
    connCloses: seq<ConnClose>,
    connCloseErr: nat,
    ctxDone: bool,
    sends: SendFlows.Registry,
    receiveFlows: map<nat, Handle>,
    made: set<Handle>,                   // every flow ever made
    closedFlows: set<Handle>,
    sendSnap: Option<set<Handle>>,       // what `close` found in the maps
    receiveSnap: Option<set<Handle>>)

  /** `creating` are the calls of `NewSendFlow` and `NewReceiveFlow` that found the session open. */
  datatype State = State(loops: Loops, session: Session, threads: map<Tid, Pc>, creating: set<Tid>)

  function Init(acceptDatagrams: bool): State {
    State(InitLoops(acceptDatagrams),
          Session(None, None, [], 0, false, SendFlows.EMPTY, map[], {}, {}, None, None), map[], {})
  }

  datatype Action =
    | Loop(a: LoopStep)
    | Call(t: Tid, public: bool, code: nat)
    | CheckOpen(t: Tid)
    | NewSendFlow(t: Tid, id: nat, h: Handle)
    | NewReceiveFlow(t: Tid, id: nat, h: Handle)
    | GiveUp(t: Tid)                       // the ID is taken
    | CloseFlow(h: Handle)
    | Step(t: Tid, h: Handle, err: nat)    // the flow closed next, and what closing the connection returns

  predicate CanStep(s: State, t: Tid, h: Handle)
    requires t in s.threads
  {
    match s.threads[t]
    case Start(_, _) => s.session.mutex.None?
    case ClosingSend(_, left) => left == {} || h in left
    case ClosingReceive(_, left) => left == {} || h in left
    case Waiting => s.loops.wg == 0
    case Waited => s.session.mutex.None?
    case Done(_) => false
    case Returned => false
    case _ => true
  }

  predicate Enabled(s: State, a: Action) {
    match a
    case Loop(l) => CanLoop(s.loops, l)
    // A public Close needs the session, which NewSession returns after start.
    case Call(t, public, _) => t !in s.threads && (public ==> Started(s.loops))
    // The test for closure and the insertion are steps of their own, so the insertion may come late.
    case CheckOpen(t) => t !in s.creating && s.session.mutex.None?
    case NewSendFlow(t, id, h) =>
      t in s.creating && id !in s.session.sends.live && h !in s.session.made && h !in s.session.sends.ids
    case NewReceiveFlow(t, id, h) => t in s.creating && id !in s.session.receiveFlows && h !in s.session.made
    case GiveUp(t) => t in s.creating
    case CloseFlow(h) => h in s.session.made
    case Step(t, h, _) => t in s.threads && CanStep(s, t, h)
  }

  /** Closes a flow. The `onClose` of a send flow deletes by ID, whatever flow is registered there now. */
  function CloseOne(x: Session, h: Handle): Session {
    x.(closedFlows := x.closedFlows + {h},
       sends := if h in x.sends.ids then SendFlows.Close(x.sends, h) else x.sends)
  }

  function Goes(s: State, t: Tid, pc: Pc, x: Session): State {
    s.(threads := s.threads[t := pc], session := x)
  }

  function AfterClose(public: bool): Pc {
    if public then Waiting else Returned
  }

  function DoStep(s: State, t: Tid, h: Handle, err: nat): State
    requires t in s.threads && CanStep(s, t, h)
  {
    var x := s.session;
    match s.threads[t]
    case Start(public, code) => Goes(s, t, Locked(public, code), x.(mutex := Some(t)))
    case Locked(public, code) =>
      if x.closedErr.Some? then Goes(s, t, AfterClose(public), x.(mutex := None))
      else Goes(s, t, SnapSend(public), x.(closedErr := Some(code)))
    case SnapSend(public) =>
      Goes(s, t, ClosingSend(public, x.sends.live.Values), x.(sendSnap := Some(x.sends.live.Values)))
    case ClosingSend(public, left) =>
      if left == {} then Goes(s, t, SnapReceive(public), x)
      else Goes(s, t, ClosingSend(public, left - {h}), CloseOne(x, h))
    case SnapReceive(public) =>
      Goes(s, t, ClosingReceive(public, x.receiveFlows.Values), x.(receiveSnap := Some(x.receiveFlows.Values)))
    case ClosingReceive(public, left) =>
      if left == {} then Goes(s, t, CloseConn(public), x)
      else Goes(s, t, ClosingReceive(public, left - {h}), CloseOne(x, h))
    case CloseConn(public) =>
      Goes(s, t, CancelCtx(public),
           x.(connCloseErr := err,
              connCloses := x.connCloses + [ConnClose(if x.closedErr.Some? then x.closedErr.value else 0, err)]))
    case CancelCtx(public) => Goes(s, t, AfterClose(public), x.(ctxDone := true, mutex := None))
    case Waiting => Goes(s, t, Waited, x)
    case Waited => Goes(s, t, Done(x.connCloseErr), x)
  }

  function Apply(s: State, a: Action): State
    requires Enabled(s, a)
  {
    var x := s.session;
    match a
    case Loop(l) => s.(loops := DoLoop(s.loops, l))
    case Call(t, public, code) => Goes(s, t, Start(public, code), x)
    case CheckOpen(t) => s.(creating := if x.closedErr.None? then s.creating + {t} else s.creating)
    case NewSendFlow(t, id, h) =>
      s.(session := x.(sends := SendFlows.New(x.sends, id, h), made := x.made + {h}), creating := s.creating - {t})
    case NewReceiveFlow(t, id, h) =>
      s.(session := x.(receiveFlows := x.receiveFlows[id := h], made := x.made + {h}), creating := s.creating - {t})
    case GiveUp(t) => s.(creating := s.creating - {t})
    // The application closes a flow of its own.
    case CloseFlow(h) => s.(session := CloseOne(x, h))
    case Step(t, h, err) => DoStep(s, t, h, err)
  }

  predicate Possible(s: State, actions: seq<Action>)
    decreases |actions|
  {
    actions == [] || (Enabled(s, actions[0]) && Possible(Apply(s, actions[0]), actions[1..]))
  }

  function Run(s: State, actions: seq<Action>): State
    requires Possible(s, actions)
    decreases |actions|
  {
    if actions == [] then s else Run(Apply(s, actions[0]), actions[1..])
  }

  // ----- What every step keeps -----

  predicate Untouched(x: Session) {
    x.closedErr.None? && x.connCloses == [] && x.sendSnap.None? && x.receiveSnap.None?
  }

  predicate AllClosed(x: Session, snap: Option<set<Handle>>) {
    snap.Some? && snap.value <= x.closedFlows
  }

  /** The shutdown has run to its end, once. */
  predicate Finished(x: Session) {
    && x.closedErr.Some? && x.connCloses == [ConnClose(x.closedErr.value, x.connCloseErr)] && x.ctxDone
    && AllClosed(x, x.sendSnap) && AllClosed(x, x.receiveSnap)
  }

  /** How far it has got while `pc` holds the mutex. */
  predicate Progress(x: Session, pc: Pc) {
    match pc
    case Locked(_, _) => Untouched(x) || Finished(x)
    case SnapSend(_) => x.closedErr.Some? && x.connCloses == [] && x.sendSnap.None? && x.receiveSnap.None?
    case ClosingSend(_, left) =>
      && x.closedErr.Some? && x.connCloses == [] && x.receiveSnap.None?
      && x.sendSnap.Some? && x.sendSnap.value - left <= x.closedFlows
    case SnapReceive(_) =>
      x.closedErr.Some? && x.connCloses == [] && x.receiveSnap.None? && AllClosed(x, x.sendSnap)
    case ClosingReceive(_, left) =>
      && x.closedErr.Some? && x.connCloses == [] && AllClosed(x, x.sendSnap)
      && x.receiveSnap.Some? && x.receiveSnap.value - left <= x.closedFlows
    case CloseConn(_) =>
      x.closedErr.Some? && x.connCloses == [] && AllClosed(x, x.sendSnap) && AllClosed(x, x.receiveSnap)
    case CancelCtx(_) =>
      && x.closedErr.Some? && x.connCloses == [ConnClose(x.closedErr.value, x.connCloseErr)]
      && AllClosed(x, x.sendSnap) && AllClosed(x, x.receiveSnap)
    case _ => false
  }

  ghost predicate SessionInv(s: State) {
    var x := s.session;
    && (if x.mutex.None? then Untouched(x) || Finished(x)
        else x.mutex.value in s.threads && Progress(x, s.threads[x.mutex.value]))
    && (forall t :: t in s.threads ==> PcOk(s, t))
  }

  predicate PcOk(s: State, t: Tid)
    requires t in s.threads
  {
    var x, pc := s.session, s.threads[t];
    && (InSection(pc) ==> x.mutex == Some(t))
    && (pc.Waiting? || pc.Waited? || pc.Done? || pc.Returned? ==> Finished(x))
    && (pc.Done? ==> pc.connErr == x.connCloseErr)
    && (IsPublic(pc) ==> Started(s.loops))
    && (pc.Waited? || pc.Done? ==> Quiet(s.loops))
  }

  ghost predicate Inv(s: State) {
    LoopsInv(s.loops) && SessionInv(s)
  }

  lemma InvStep(s: State, a: Action)
    requires Inv(s) && Enabled(s, a)
    ensures Inv(Apply(s, a))
  {
    hide SessionInv, LoopsInv, DoStep, CanStep, DoLoop, CanLoop;
    match a
    case Loop(l) => LoopKeeps(s, l);
    case Call(t, public, code) => CallKeeps(s, t, public, code);
    case CheckOpen(_) => FlowsKeep(s, Apply(s, a));
    case NewSendFlow(_, _, _) => FlowsKeep(s, Apply(s, a));
    case NewReceiveFlow(_, _, _) => FlowsKeep(s, Apply(s, a));
    case GiveUp(_) => FlowsKeep(s, Apply(s, a));
    case CloseFlow(_) => FlowsKeep(s, Apply(s, a));
    case Step(t, h, err) => StepKeeps(s, t, h, err);
  }

  lemma LoopKeeps(s: State, l: LoopStep)
    requires Inv(s) && CanLoop(s.loops, l)
    ensures Inv(s.(loops := DoLoop(s.loops, l)))
  {
    hide LoopsInv, DoLoop;
    LoopsStep(s.loops, l);
    QuietLoop(s.loops, l);
    assert forall t :: t in s.threads ==> PcOk(s, t);
  }

  lemma QuietLoop(l: Loops, a: LoopStep)
    requires CanLoop(l, a)
    ensures !Quiet(l)
  {
  }

  lemma CallKeeps(s: State, t: Tid, public: bool, code: nat)
    requires Inv(s) && t !in s.threads && (public ==> Started(s.loops))
    ensures Inv(Goes(s, t, Start(public, code), s.session))
  {
  }

  /** A step of no close: flows are made and closed. */
  lemma FlowsKeep(s: State, s': State)
    requires Inv(s) && s'.loops == s.loops && s'.threads == s.threads
    requires SameButFlows(s.session, s'.session)
    ensures Inv(s')
  {
  }

  predicate SameButFlows(x: Session, x': Session) {
    && x'.mutex == x.mutex && x'.closedErr == x.closedErr && x'.connCloses == x.connCloses
    && x'.connCloseErr == x.connCloseErr && x'.ctxDone == x.ctxDone
    && x'.sendSnap == x.sendSnap && x'.receiveSnap == x.receiveSnap && x.closedFlows <= x'.closedFlows
  }

  lemma StepKeeps(s: State, t: Tid, h: Handle, err: nat)
    requires Inv(s) && t in s.threads && CanStep(s, t, h)
    ensures Inv(DoStep(s, t, h, err))
  {
    hide DoStep, CanStep, LoopsInv, SessionInv;
    OwnKeeps(s, t, h, err);
    OthersKeep(s, DoStep(s, t, h, err), t);
  }

  /** A step of `t` as seen by itself. */
  lemma OwnKeeps(s: State, t: Tid, h: Handle, err: nat)
    requires Inv(s) && t in s.threads && CanStep(s, t, h)
    ensures StepDone(s, t, DoStep(s, t, h, err))
  {
    hide Progress, Finished, Untouched;
    assert PcOk(s, t);
    if InSection(s.threads[t]) {
      SectionStep(s, t, h, err);
      LeavesSection(s, t, h, err);
    } else {
      QuietIfZero(s.loops);
      OutsideStep(s, t, h, err);
    }
  }

  predicate StepDone(s: State, t: Tid, s': State) {
    var x, x' := s.session, s'.session;
    && t in s'.threads && s'.threads == s.threads[t := s'.threads[t]] && s'.loops == s.loops && PcOk(s', t)
    && (x.mutex == Some(t) || x.mutex.None? || x' == x)
    && (x'.mutex == Some(t) || x'.mutex.None? || x' == x)
    && (Finished(x) ==> Finished(x') && x'.connCloseErr == x.connCloseErr)
    && (if x'.mutex.None? then Untouched(x') || Finished(x')
        else x'.mutex.value in s'.threads && Progress(x', s'.threads[x'.mutex.value]))
  }

  /** Where a call goes when it leaves the critical section. */
  lemma LeavesSection(s: State, t: Tid, h: Handle, err: nat)
    requires t in s.threads && CanStep(s, t, h) && InSection(s.threads[t])
    ensures var s' := DoStep(s, t, h, err);
            && s'.threads == s.threads[t := s'.threads[t]] && s'.loops == s.loops
            && var pc := s'.threads[t];
               && (InSection(pc) || pc.Waiting? || pc.Returned?)
               && (IsPublic(pc) ==> IsPublic(s.threads[t]))
  {
  }

  /** The steps before and after the critical section. */
  lemma OutsideStep(s: State, t: Tid, h: Handle, err: nat)
    requires Inv(s) && t in s.threads && CanStep(s, t, h) && !InSection(s.threads[t])
    requires Started(s.loops) && s.loops.wg == 0 ==> Quiet(s.loops)
    ensures StepDone(s, t, DoStep(s, t, h, err))
  {
    assert PcOk(s, t);
  }

  /** A step of `t` as seen by the other calls: the mutex passes from or to `t`, and what is finished stays so. */
  lemma OthersKeep(s: State, s': State, t: Tid)
    requires Inv(s) && t in s.threads && StepDone(s, t, s')
    ensures Inv(s')
  {
  }

  lemma QuietIfZero(l: Loops)
    requires LoopsInv(l)
    ensures Started(l) && l.wg == 0 ==> Quiet(l)
  {
  }

  /** A step inside the critical section: the shutdown moves on, and what was finished stays so. */
  lemma SectionStep(s: State, t: Tid, h: Handle, err: nat)
    requires t in s.threads && CanStep(s, t, h)
    requires InSection(s.threads[t]) && s.session.mutex == Some(t) && Progress(s.session, s.threads[t])
    ensures var s' := DoStep(s, t, h, err);
            var x, pc := s'.session, s'.threads[t];
            && (if InSection(pc) then x.mutex == Some(t) && Progress(x, pc) else x.mutex.None? && Finished(x))
            && (Finished(s.session) ==> Finished(x) && x.connCloseErr == s.session.connCloseErr)
  {
  }

  lemma {:induction false} InvRun(s: State, actions: seq<Action>)
    requires Inv(s) && Possible(s, actions)
    ensures Inv(Run(s, actions))
    decreases |actions|
  {
    if actions != [] {
      InvStep(s, actions[0]);
      InvRun(Apply(s, actions[0]), actions[1..]);
    }
  }

  ghost predicate Reachable(s: State) {
    exists acceptDatagrams, actions ::
      Possible(Init(acceptDatagrams), actions) && s == Run(Init(acceptDatagrams), actions)
  }

  lemma ReachableInv(s: State)
    requires Reachable(s)
    ensures Inv(s)
  {
    var acceptDatagrams, actions :|
      Possible(Init(acceptDatagrams), actions) && s == Run(Init(acceptDatagrams), actions);
    InvRun(Init(acceptDatagrams), actions);
  }

  // ----- Theorems over all runs -----

  /** The connection is closed at most once, with the code the session error was set to. */
  lemma ClosesConnectionOnce(s: State)
    requires Reachable(s)
    ensures s.session.connCloses == [] ||
            (s.session.closedErr.Some? &&
             s.session.connCloses == [ConnClose(s.session.closedErr.value, s.session.connCloseErr)])
  {
    ReachableInv(s);
  }

  /** The first close wins: the session error never changes, however many closes follow. */
  lemma {:induction false} ErrorIsFinal(s: State, later: seq<Action>)
    requires Possible(s, later) && s.session.closedErr.Some?
    ensures Run(s, later).session.closedErr == s.session.closedErr
    decreases |later|
  {
    if later != [] {
      ErrorIsFinal(Apply(s, later[0]), later[1..]);
    }
  }

  /**
   Whoever's close or Close has returned finds the shutdown complete: connection closed,
   context cancelled, and every flow of both snapshots closed, though send flows delete
   themselves from the map the snapshot was taken of.
   */
  lemma ReturnedMeansFinished(s: State, t: Tid)
    requires Reachable(s) && t in s.threads
    requires s.threads[t].Waiting? || s.threads[t].Waited? || s.threads[t].Done? || s.threads[t].Returned?
    ensures Finished(s.session)
  {
    ReachableInv(s);
    assert PcOk(s, t);
  }

  /** Every Close that returns reports what closing the connection returned, then and ever after. */
  lemma CloseReportsSameError(s: State, t: Tid, later: seq<Action>, u: Tid)
    requires Reachable(s) && t in s.threads && s.threads[t].Done?
    requires Possible(s, later) && u in Run(s, later).threads && Run(s, later).threads[u].Done?
    ensures Run(s, later).threads[u].connErr == s.threads[t].connErr
    ensures s.session.closedErr.Some?
    ensures s.session.connCloses == [ConnClose(s.session.closedErr.value, s.threads[t].connErr)]
  {
    ReachableInv(s);
    assert PcOk(s, t);
    FinishedRun(s, later);
    InvRun(s, later);
    assert PcOk(Run(s, later), u);
  }

  lemma {:induction false} FinishedRun(s: State, later: seq<Action>)
    requires Inv(s) && Finished(s.session) && Possible(s, later)
    ensures Finished(Run(s, later).session)
    ensures Run(s, later).session.connCloseErr == s.session.connCloseErr
    decreases |later|
  {
    if later != [] {
      FinishedStep(s, later[0]);
      InvStep(s, later[0]);
      FinishedRun(Apply(s, later[0]), later[1..]);
    }
  }

  lemma FinishedStep(s: State, a: Action)
    requires Inv(s) && Finished(s.session) && Enabled(s, a)
    ensures Finished(Apply(s, a).session) && Apply(s, a).session.connCloseErr == s.session.connCloseErr
  {
    if a.Step? {
      assert PcOk(s, a.t);
    }
  }

  lemma SnapshotWhileClosing(s: State, t: Tid)
    requires SessionInv(s) && t in s.threads
    ensures s.threads[t].SnapSend? ==> s.session.sendSnap.None?
    ensures s.threads[t].SnapReceive? ==> s.session.receiveSnap.None?
    ensures s.threads[t].ClosingSend? || s.threads[t].ClosingReceive? ==> s.session.sendSnap.Some?
  {
  }

  /**
   After Wait has returned to some Close, no loop and no stream handler is running, and
   none is ever started again.
   */
  lemma WaitIsFinal(s: State, t: Tid, later: seq<Action>)
    requires Reachable(s) && t in s.threads && (s.threads[t].Waited? || s.threads[t].Done?)
    requires Possible(s, later)
    ensures Quiet(s.loops) && Run(s, later).loops == s.loops
  {
    ReachableInv(s);
    assert PcOk(s, t);
    QuietRun(s, later);
  }

  lemma {:induction false} QuietRun(s: State, later: seq<Action>)
    requires Quiet(s.loops) && Possible(s, later)
    ensures Run(s, later).loops == s.loops
    decreases |later|
  {
    if later != [] {
      QuietRun(Apply(s, later[0]), later[1..]);
    }
  }

  /**
   The counter is the number of goroutines counted and not done, and a started session adds
   only to a positive counter.
   */
  lemma WaitGroupSound(s: State, a: LoopStep)
    requires Reachable(s)
    ensures s.loops.wg ==
            |s.loops.live| + (if s.loops.starting.Some? then 1 else 0) + (if s.loops.accepting then 1 else 0)
    ensures Started(s.loops) && CanLoop(s.loops, a) && DoLoop(s.loops, a).wg > s.loops.wg ==> s.loops.wg > 0
  {
    ReachableInv(s);
    if CanLoop(s.loops, a) {
      LoopsStep(s.loops, a);
    }
  }
}
