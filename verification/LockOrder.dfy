/**
 The mutexes of a session and everything below it, and the order in which every entry
 point takes them. Calls into the QUIC connection are assumed to return and not to call
 back.
 */
module LockOrder {
  import opened Common

  type Handle = nat

  datatype Lock =
    | SessionMutex
    | ReceiveFlowsMutex
    | FlowBufferMutex
    | SendFlowLock(h: Handle)
    | ReceiveFlowLock(h: Handle)
    | SendMapMutex
    | ReceiveMapMutex
    | StreamLock(h: Handle)

  const TOP: nat := 5

  function Rank(l: Lock): (r: nat)
    ensures r <= TOP
  {
    match l
    case SessionMutex => 0
    case ReceiveFlowsMutex => 1
    case FlowBufferMutex => 2
    case SendFlowLock(_) => 3
    case ReceiveFlowLock(_) => 3
    case SendMapMutex => 4
    case ReceiveMapMutex => 4
    case StreamLock(_) => 5
  }

  /** What the locks are there for. */
  datatype Var =
    | SessionErrors                 // closedErr and connCloseErr
    | Routes                        // which of the two maps an ID is in
    | Unclaimed                     // queue and map of the flows not claimed
    | SendFlowState(h: Handle)
    | ReceiveFlowState(h: Handle)
    | SendElements
    | ReceiveElements
    | StreamState(h: Handle)

  function Guard(v: Var): Lock {
    match v
    case SessionErrors => SessionMutex
    case Routes => ReceiveFlowsMutex
    case Unclaimed => FlowBufferMutex
    case SendFlowState(h) => SendFlowLock(h)
    case ReceiveFlowState(h) => ReceiveFlowLock(h)
    case SendElements => SendMapMutex
    case ReceiveElements => ReceiveMapMutex
    case StreamState(h) => StreamLock(h)
  }

  datatype Op = Acquire(l: Lock) | Release(l: Lock) | Touch(v: Var) | External

  // ----- What the entry points do, as far as locks go -----

  function Locked(l: Lock, body: seq<Op>): seq<Op> {
    [Acquire(l)] + body + [Release(l)]
  }

  /** A critical section: the lock of `v`, and `v` under it, ahead of anything else done there. */
  function Section(v: Var, rest: seq<Op>): seq<Op> {
    Locked(Guard(v), [Touch(v)] + rest)
  }

  /** `closeWithError` of a flow. */
  function CancelFlow(h: Handle): seq<Op> {
    Section(ReceiveFlowState(h), [External])
  }

  /** `ReceiveFlow.Close`. */
  function CloseReceiveFlow(h: Handle): seq<Op> {
    Section(ReceiveFlowState(h), []) + CancelFlow(h)
  }

  /** `SendFlow.Close`: `onClose` takes the mutex of the session's map. */
  function CloseSendFlow(h: Handle): seq<Op> {
    Section(SendFlowState(h), [External] + Section(SendElements, []))
  }

  function Each(f: Handle -> seq<Op>, hs: seq<Handle>): seq<Op> {
    if hs == [] then [] else f(hs[0]) + Each(f, hs[1..])
  }

  /** `receiveFlow`: `miss` if the flow is not registered, `evicted` the flows that make room. */
  function FindFlow(miss: bool, evicted: seq<Handle>): seq<Op> {
    Section(Routes, Section(ReceiveElements, []) + if miss then Section(Unclaimed, Each(CancelFlow, evicted)) else [])
  }

  /** `Session.close`; `first` if it is not closed yet. */
  function CloseSession(first: bool, sends: seq<Handle>, receives: seq<Handle>): seq<Op> {
    Section(SessionErrors,
            if !first then []
            else Section(SendElements, []) + (Each(CloseSendFlow, sends) +
                 (Section(ReceiveElements, []) + (Each(CloseReceiveFlow, receives) + [External]))))
  }

  datatype EntryPoint =
    | IsClosed                                                     // all a call does on a closed session
    | NewSendFlow
    | NewReceiveFlow(duplicate: bool)
    | RouteAndPush(miss: bool, evicted: seq<Handle>, h: Handle)    // HandleDatagram, and readStream packet by packet
    | ReceiveFlowSection(h: Handle)                                // Read, SetReadDeadline, timers, registration
    | ReceiveFlowClose(h: Handle)
    | SendFlowClose(h: Handle)
    | SendFlowSection(h: Handle)                                   // WriteRTPBytes, NewSendStream
    | WriteOnStream(h: Handle)
    | InternalClose(first: bool, sends: seq<Handle>, receives: seq<Handle>)
    | SessionClose(first: bool, sends: seq<Handle>, receives: seq<Handle>)

  /** The second half of `NewReceiveFlow`. */
  function ClaimFlow(duplicate: bool): seq<Op> {
    Section(Routes,
            Section(ReceiveElements, []) +
            if duplicate then [] else Section(Unclaimed, []) + Section(ReceiveElements, []))
  }

  function Program(e: EntryPoint): seq<Op> {
    match e
    case IsClosed => Section(SessionErrors, [])
    case NewSendFlow => Section(SessionErrors, []) + Section(SendElements, [])
    case NewReceiveFlow(duplicate) => Section(SessionErrors, []) + ClaimFlow(duplicate)
    case RouteAndPush(miss, evicted, h) => FindFlow(miss, evicted) + Section(ReceiveFlowState(h), [])
    case ReceiveFlowSection(h) => Section(ReceiveFlowState(h), [])
    case ReceiveFlowClose(h) => CloseReceiveFlow(h)
    case SendFlowClose(h) => CloseSendFlow(h)
    case SendFlowSection(h) => Section(SendFlowState(h), []) + ([External] + Section(SendFlowState(h), []))
    case WriteOnStream(h) => Section(StreamState(h), [External])
    case InternalClose(first, sends, receives) => CloseSession(first, sends, receives)
    // The second section reads the connection's error; wg.Wait in between holds no lock.
    case SessionClose(first, sends, receives) =>
      CloseSession(first, sends, receives) + ([External] + Section(SessionErrors, []))
  }

  // ----- Rank order -----

  predicate Above(held: set<Lock>, l: Lock) {
    forall k :: k in held ==> Rank(k) < Rank(l)
  }

  /** Every lock is taken above all those held, and released by its holder; nothing is touched without its lock. */
  predicate Ordered(held: set<Lock>, p: seq<Op>)
    decreases |p|
  {
    p == [] ||
    match p[0]
    case Acquire(l) => Above(held, l) && Ordered(held + {l}, p[1..])
    case Release(l) => l in held && Ordered(held - {l}, p[1..])
    case Touch(v) => Guard(v) in held && Ordered(held, p[1..])
    case External => Ordered(held, p[1..])
  }

  /** The locks held after `p`. */
  function After(held: set<Lock>, p: seq<Op>): set<Lock>
    decreases |p|
  {
    if p == [] then held
    else
      match p[0]
      case Acquire(l) => After(held + {l}, p[1..])
      case Release(l) => After(held - {l}, p[1..])
      case Touch(_) => After(held, p[1..])
      case External => After(held, p[1..])
  }

  predicate Keeps(held: set<Lock>, p: seq<Op>) {
    Ordered(held, p) && After(held, p) == held
  }

  lemma {:induction false} OrderedConcat(held: set<Lock>, p: seq<Op>, q: seq<Op>)
    ensures Ordered(held, p + q) <==> Ordered(held, p) && Ordered(After(held, p), q)
    ensures After(held, p + q) == After(After(held, p), q)
    decreases |p|
  {
    if p == [] {
      assert p + q == q;
    } else {
      assert (p + q)[1..] == p[1..] + q;
      match p[0]
      case Acquire(l) => OrderedConcat(held + {l}, p[1..], q);
      case Release(l) => OrderedConcat(held - {l}, p[1..], q);
      case Touch(_) => OrderedConcat(held, p[1..], q);
      case External => OrderedConcat(held, p[1..], q);
    }
  }

  lemma KeepsConcat(held: set<Lock>, p: seq<Op>, q: seq<Op>)
    requires Keeps(held, p) && Keeps(held, q)
    ensures Keeps(held, p + q)
  {
    OrderedConcat(held, p, q);
  }

  lemma KeepsLocked(held: set<Lock>, l: Lock, body: seq<Op>)
    requires Above(held, l) && Keeps(held + {l}, body)
    ensures Keeps(held, Locked(l, body))
  {
    OrderedConcat(held + {l}, body, [Release(l)]);
    assert held + {l} - {l} == held;
    assert Locked(l, body)[1..] == body + [Release(l)];
    assert [Release(l)][1..] == [];
    assert Ordered(held + {l}, [Release(l)]) && After(held + {l}, [Release(l)]) == held;
  }

  lemma KeepsEmpty(held: set<Lock>)
    ensures Keeps(held, []) && Keeps(held, [External])
  {
  }

  lemma KeepsTouch(held: set<Lock>, v: Var)
    requires Guard(v) in held
    ensures Keeps(held, [Touch(v)])
  {
    var p := [Touch(v)];
    assert p[1..] == [] && Ordered(held, p[1..]) && After(held, p[1..]) == held;
  }

  lemma KeepsSection(held: set<Lock>, v: Var, rest: seq<Op>)
    requires Above(held, Guard(v)) && Keeps(held + {Guard(v)}, rest)
    ensures Keeps(held, Section(v, rest))
  {
    var inner := held + {Guard(v)};
    KeepsTouch(inner, v);
    KeepsConcat(inner, [Touch(v)], rest);
    KeepsLocked(held, Guard(v), [Touch(v)] + rest);
  }

  lemma KeepsPlain(held: set<Lock>, v: Var)
    requires Above(held, Guard(v))
    ensures Keeps(held, Section(v, [])) && Keeps(held, Section(v, [External]))
  {
    KeepsEmpty(held + {Guard(v)});
    KeepsSection(held, v, []);
    KeepsSection(held, v, [External]);
  }

  lemma {:induction false} KeepsEach(held: set<Lock>, f: Handle -> seq<Op>, hs: seq<Handle>)
    requires forall h :: Keeps(held, f(h))
    ensures Keeps(held, Each(f, hs))
  {
    if hs != [] {
      KeepsEach(held, f, hs[1..]);
      KeepsConcat(held, f(hs[0]), Each(f, hs[1..]));
    }
  }

  lemma KeepsCloseReceive(held: set<Lock>, h: Handle)
    requires forall k :: k in held ==> Rank(k) < 3
    ensures Keeps(held, CancelFlow(h)) && Keeps(held, CloseReceiveFlow(h))
  {
    hide Keeps, Section;
    KeepsPlain(held, ReceiveFlowState(h));
    KeepsConcat(held, Section(ReceiveFlowState(h), []), CancelFlow(h));
  }

  lemma KeepsCloseSend(held: set<Lock>, h: Handle)
    requires forall k :: k in held ==> Rank(k) < 3
    ensures Keeps(held, CloseSendFlow(h))
  {
    hide Keeps, Section;
    var inner := held + {SendFlowLock(h)};
    KeepsEmpty(inner);
    KeepsPlain(inner, SendElements);
    KeepsConcat(inner, [External], Section(SendElements, []));
    KeepsSection(held, SendFlowState(h), [External] + Section(SendElements, []));
  }

  lemma KeepsFindFlow(miss: bool, evicted: seq<Handle>)
    ensures Keeps({}, FindFlow(miss, evicted))
  {
    hide Keeps, Section;
    var outer := {} + {ReceiveFlowsMutex};
    var inner := outer + {FlowBufferMutex};
    forall h
      ensures Keeps(inner, CancelFlow(h))
    {
      KeepsCloseReceive(inner, h);
    }
    KeepsEach(inner, CancelFlow, evicted);
    KeepsSection(outer, Unclaimed, Each(CancelFlow, evicted));
    KeepsEmpty(outer);
    KeepsPlain(outer, ReceiveElements);
    var rest := if miss then Section(Unclaimed, Each(CancelFlow, evicted)) else [];
    KeepsConcat(outer, Section(ReceiveElements, []), rest);
    KeepsSection({}, Routes, Section(ReceiveElements, []) + rest);
  }

  lemma KeepsCloseSession(first: bool, sends: seq<Handle>, receives: seq<Handle>)
    ensures Keeps({}, CloseSession(first, sends, receives))
  {
    hide Keeps, Section;
    var outer := {} + {SessionMutex};
    KeepsEmpty(outer);
    if first {
      forall h
        ensures Keeps(outer, CloseSendFlow(h)) && Keeps(outer, CloseReceiveFlow(h))
      {
        KeepsCloseSend(outer, h);
        KeepsCloseReceive(outer, h);
      }
      KeepsEach(outer, CloseSendFlow, sends);
      KeepsEach(outer, CloseReceiveFlow, receives);
      KeepsPlain(outer, SendElements);
      KeepsPlain(outer, ReceiveElements);
      var p1 := Each(CloseReceiveFlow, receives) + [External];
      var p2 := Section(ReceiveElements, []) + p1;
      var p3 := Each(CloseSendFlow, sends) + p2;
      KeepsConcat(outer, Each(CloseReceiveFlow, receives), [External]);
      KeepsConcat(outer, Section(ReceiveElements, []), p1);
      KeepsConcat(outer, Each(CloseSendFlow, sends), p2);
      KeepsConcat(outer, Section(SendElements, []), p3);
      KeepsSection({}, SessionErrors, Section(SendElements, []) + p3);
    } else {
      KeepsSection({}, SessionErrors, []);
    }
  }

  lemma KeepsClaim(duplicate: bool)
    ensures Keeps({}, ClaimFlow(duplicate))
  {
    hide Keeps, Section;
    var outer := {} + {ReceiveFlowsMutex};
    KeepsEmpty(outer);
    KeepsPlain(outer, ReceiveElements);
    KeepsPlain(outer, Unclaimed);
    KeepsConcat(outer, Section(Unclaimed, []), Section(ReceiveElements, []));
    var rest := if duplicate then [] else Section(Unclaimed, []) + Section(ReceiveElements, []);
    KeepsConcat(outer, Section(ReceiveElements, []), rest);
    KeepsSection({}, Routes, Section(ReceiveElements, []) + rest);
  }

  /**
   Every entry point, for any number of flows, takes locks in rank order, touches what they
   guard only while it holds them, and gives all of them back.
   */
  lemma EveryEntryPointOrdered(e: EntryPoint)
    ensures Keeps({}, Program(e))
  {
    hide Keeps, Section;
    KeepsEmpty({});
    KeepsPlain({}, SessionErrors);
    match e
    case IsClosed =>
    case NewSendFlow =>
      KeepsPlain({}, SendElements);
      KeepsConcat({}, Section(SessionErrors, []), Section(SendElements, []));
    case NewReceiveFlow(duplicate) =>
      KeepsClaim(duplicate);
      KeepsConcat({}, Section(SessionErrors, []), ClaimFlow(duplicate));
    case RouteAndPush(miss, evicted, h) =>
      KeepsFindFlow(miss, evicted);
      KeepsPlain({}, ReceiveFlowState(h));
      KeepsConcat({}, FindFlow(miss, evicted), Section(ReceiveFlowState(h), []));
    case ReceiveFlowSection(h) => KeepsPlain({}, ReceiveFlowState(h));
    case ReceiveFlowClose(h) => KeepsCloseReceive({}, h);
    case SendFlowClose(h) => KeepsCloseSend({}, h);
    case SendFlowSection(h) =>
      KeepsPlain({}, SendFlowState(h));
      KeepsConcat({}, [External], Section(SendFlowState(h), []));
      KeepsConcat({}, Section(SendFlowState(h), []), [External] + Section(SendFlowState(h), []));
    case WriteOnStream(h) => KeepsPlain({}, StreamState(h));
    case InternalClose(first, sends, receives) => KeepsCloseSession(first, sends, receives);
    case SessionClose(first, sends, receives) =>
      KeepsCloseSession(first, sends, receives);
      KeepsConcat({}, [External], Section(SessionErrors, []));
      KeepsConcat({}, CloseSession(first, sends, receives), [External] + Section(SessionErrors, []));
  }

  // ----- Any number of calls at once -----

  datatype Thread = Thread(held: set<Lock>, rest: seq<Op>)

  type State = map<Tid, Thread>

  ghost predicate Free(s: State, l: Lock) {
    forall t :: t in s ==> l !in s[t].held
  }

  /** A call can go on unless it waits for a lock that some call holds. */
  ghost predicate CanStep(s: State, t: Tid) {
    t in s && s[t].rest != [] && (s[t].rest[0].Acquire? ==> Free(s, s[t].rest[0].l))
  }

  function Step(th: Thread): Thread
    requires th.rest != []
  {
    match th.rest[0]
    case Acquire(l) => Thread(th.held + {l}, th.rest[1..])
    case Release(l) => Thread(th.held - {l}, th.rest[1..])
    case Touch(_) => Thread(th.held, th.rest[1..])
    case External => Thread(th.held, th.rest[1..])
  }

  datatype Action = Call(t: Tid, e: EntryPoint) | Go(t: Tid)

  ghost predicate Enabled(s: State, a: Action) {
    match a
    case Call(t, _) => t !in s
    case Go(t) => CanStep(s, t)
  }

  ghost function Apply(s: State, a: Action): State
    requires Enabled(s, a)
  {
    match a
    case Call(t, e) => s[t := Thread({}, Program(e))]
    case Go(t) => s[t := Step(s[t])]
  }

  ghost predicate Possible(s: State, actions: seq<Action>)
    decreases |actions|
  {
    actions == [] || (Enabled(s, actions[0]) && Possible(Apply(s, actions[0]), actions[1..]))
  }

  ghost function Run(s: State, actions: seq<Action>): State
    requires Possible(s, actions)
    decreases |actions|
  {
    if actions == [] then s else Run(Apply(s, actions[0]), actions[1..])
  }

  predicate InOrder(th: Thread) {
    Ordered(th.held, th.rest) && After(th.held, th.rest) == {}
  }

  /** Calls stick to the order, and no lock has two holders. */
  ghost predicate Inv(s: State) {
    && (forall t :: t in s ==> InOrder(s[t]))
    && (forall t, u :: t in s && u in s && t != u ==> s[t].held !! s[u].held)
  }

  lemma InvStep(s: State, a: Action)
    requires Inv(s) && Enabled(s, a)
    ensures Inv(Apply(s, a))
  {
    match a
    case Call(t, e) => EveryEntryPointOrdered(e);
    case Go(t) =>
      assert InOrder(s[t]);
      assert InOrder(Step(s[t]));
  }

  lemma {:induction false} InvRun(s: State, actions: seq<Action>)
    requires Inv(s) && Possible(s, actions)
    ensures Inv(Run(s, actions))
    decreases |actions|
  {
    if actions != [] {
      InvStep(s, actions[0]);
      InvRun(Apply(s, actions[0]), actions[1..]);
    }
  }

  /** From a call that holds a lock, up the ranks, to one that holds a lock and can go on. */
  lemma {:induction false} Climb(s: State, t: Tid, l: Lock) returns (u: Tid)
    requires Inv(s) && t in s && l in s[t].held
    ensures CanStep(s, u) && s[u].held != {}
    decreases TOP - Rank(l)
  {
    assert InOrder(s[t]);
    if CanStep(s, t) {
      u := t;
    } else {
      var wanted := s[t].rest[0].l;
      assert Above(s[t].held, wanted);
      var v :| v in s && wanted in s[v].held;
      u := Climb(s, v, wanted);
    }
  }

  /**
   Deadlock freedom: in every reachable state in which some call holds a lock, some call
   that holds a lock can go on; and if no lock is held, every unfinished call can.
   */
  lemma DeadlockFree(actions: seq<Action>, t: Tid)
    requires Possible(map[], actions)
    requires t in Run(map[], actions) && Run(map[], actions)[t].rest != []
    ensures var s := Run(map[], actions);
            if forall u :: u in s ==> s[u].held == {} then CanStep(s, t)
            else exists u :: CanStep(s, u) && s[u].held != {}
  {
    var s := Run(map[], actions);
    InvRun(map[], actions);
    if u :| u in s && s[u].held != {} {
      var l :| l in s[u].held;
      var v := Climb(s, u, l);
    }
  }

  /** No data race: no two calls are ever about to touch the same thing. */
  lemma NoDataRace(actions: seq<Action>, t: Tid, u: Tid, v: Var)
    requires Possible(map[], actions)
    requires var s := Run(map[], actions);
             && t in s && s[t].rest != [] && s[t].rest[0] == Touch(v)
             && u in s && s[u].rest != [] && s[u].rest[0] == Touch(v)
    ensures t == u
  {
    var s := Run(map[], actions);
    InvRun(map[], actions);
    assert InOrder(s[t]) && InOrder(s[u]);
  }
}
