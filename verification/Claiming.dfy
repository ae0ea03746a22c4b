/**
 Packets arriving for flows while the application claims them, in any interleaving
 (session.go `receiveFlow`, `NewReceiveFlow`, `HandleDatagram`). Flows are named by the
 order they are made in.
 */
module Claiming {
  import opened Common
  import opened FlowBuffer
  import opened Routing
  import FM = FlowMachine
  import FS = FlowSafety

  type Handle = nat

  /** A flow, and where its own machine stands. */
  datatype Flow = Flow(id: nat, machine: FM.State)

  function NewFlow(id: nat, capacity: nat): Flow {
    Flow(id, FM.Init(capacity))
  }

  datatype Pc =
    | Routed(id: nat, flow: Handle)    // receiveFlow has returned; packets go to this flow
    | Refused                          // NewReceiveFlow found the session closed
    | Checked(id: nat)                 // it did not, and is about to lock
    | Claimed(id: nat, flow: Handle)
    | Duplicate

  datatype State = State(
    table: Table<Handle>,
    flows: map<Handle, Flow>,
    next: Handle,
    bufferSize: nat,
    closed: bool,
    threads: map<Tid, Pc>,
    claimant: map<nat, Tid>,    // who claimed an ID
    evicted: set<Handle>)

  function Init(maxLen: nat, bufferSize: nat): State {
    State(Table(map[], [], maxLen), map[], 0, bufferSize, false, map[], map[], {})
  }

  datatype Action =
    | Arrive(t: Tid, id: nat)
    | CheckOpen(t: Tid, id: nat)
    | TakeClaim(t: Tid)
    | CloseSession
    | InFlow(h: Handle, a: FM.Action)    // a step of one of the flows

  predicate Enabled(s: State, a: Action) {
    && s.table.maxLen > 0
    && match a
       case Arrive(t, id) => t !in s.threads
       case CheckOpen(t, _) => t !in s.threads
       case TakeClaim(t) => t in s.threads && s.threads[t].Checked?
       case CloseSession => true
       case InFlow(h, b) => h in s.flows && FM.Enabled(s.flows[h].machine, b) && Allowed(s, h, b)
  }

  /** The calls an application makes on a flow of its own. */
  predicate AppCall(pc: FM.Pc) {
    || pc.ReadStart? || pc.ReadWait? || pc.ReadHave? || pc.ReadCopied? || pc.ReadDrained? || pc.ReadDone?
    || pc.CloseStart? || pc.CloseCancelled? || pc.CloseBuffered? || pc.CloseDone?
  }

  /**
   Who may start what on a flow: only the application reads, closes and sets deadlines, and
   it gets flows by claiming them; packets come from those `receiveFlow` gave the flow to;
   only `getOrCreate` evicts.
   */
  predicate Allowed(s: State, h: Handle, a: FM.Action)
    requires h in s.flows
  {
    match a
    case Spawn(t, pc) =>
      if AppCall(pc) then IsClaimed(s, h)
      else if pc.EvictStart? then h in s.evicted
      else t in s.threads && s.threads[t].Routed? && s.threads[t].flow == h
    case SetReadDeadline(_, _) => IsClaimed(s, h)
    case _ => true
  }

  /** The application has got the flow by claiming it. */
  predicate IsClaimed(s: State, h: Handle)
    requires h in s.flows
  {
    s.flows[h].id in s.table.registered && s.table.registered[s.flows[h].id] == h
  }

  function Apply(s: State, a: Action): State
    requires Enabled(s, a)
  {
    match a
    case Arrive(t, id) => DoArrive(s, t, id)
    case CheckOpen(t, id) => s.(threads := s.threads[t := if s.closed then Refused else Checked(id)])
    case TakeClaim(t) =>
      if s.threads[t].id in s.table.registered then s.(threads := s.threads[t := Duplicate])
      else DoClaim(s, t, s.threads[t].id)
    case CloseSession => s.(closed := true)
    case InFlow(h, b) => s.(flows := s.flows[h := Flow(s.flows[h].id, FM.Apply(s.flows[h].machine, b))])
  }

  function DoArrive(s: State, t: Tid, id: nat): State
    requires s.table.maxLen > 0
  {
    var found: Option<Handle> := Lookup(s.table, id);
    var table := Route(s.table, id, s.next);
    if found.Some? then s.(threads := s.threads[t := Routed(id, found.value)])
    else s.(table := table,
            flows := s.flows[s.next := NewFlow(id, s.bufferSize)],
            next := s.next + 1,
            threads := s.threads[t := Routed(id, s.next)],
            evicted := s.evicted + Dropped(s.table.waiting, s.table.maxLen))
  }

  /** The flow `getOrCreate` evicts. */
  function Dropped(l: seq<Entry<Handle>>, maxLen: nat): set<Handle> {
    if |l| == maxLen && l != [] then {l[0].flow} else {}
  }

  function DoClaim(s: State, t: Tid, id: nat): State
    requires id !in s.table.registered
  {
    var found: Option<Handle> := Find(s.table.waiting, id);
    var h := if found.Some? then found.value else s.next;
    s.(table := Claim(s.table, id, s.next),
       flows := if found.Some? then s.flows else s.flows[h := NewFlow(id, s.bufferSize)],
       next := if found.Some? then s.next else s.next + 1,
       threads := s.threads[t := Claimed(id, h)],
       claimant := s.claimant[id := t])
  }

  predicate Possible(s: State, actions: seq<Action>)
    decreases |actions|
  {
    actions == [] || (Enabled(s, actions[0]) && Possible(Apply(s, actions[0]), actions[1..]))
  }

  function Run(s: State, actions: seq<Action>): State
    requires Possible(s, actions)
    decreases |actions|
  {
    if actions == [] then s else Run(Apply(s, actions[0]), actions[1..])
  }

  // ----- What every step keeps -----

  /** `h` is the flow of `id`, and not an evicted one. */
  predicate Known(s: State, h: Handle, id: nat) {
    h in s.flows && s.flows[h].id == id && h !in s.evicted
  }

  /** No one has read or closed the flow, or is about to. */
  ghost predicate Untouched(m: FM.State) {
    && m.takers == [] && !m.flow.closed && !m.flow.ctxDone
    && forall t :: t in m.threads ==> !AppCall(m.threads[t])
  }

  ghost predicate FlowOk(s: State, h: Handle)
    requires h in s.flows
  {
    var f := s.flows[h];
    && h < s.next && FS.Reachable(f.machine)
    && (!IsClaimed(s, h) ==> Untouched(f.machine))
  }

  predicate PcOk(s: State, t: Tid)
    requires t in s.threads
  {
    match s.threads[t]
    case Routed(id, h) =>
      h in s.flows && s.flows[h].id == id && (h in s.evicted || Lookup(s.table, id) == Some(h))
    case Claimed(id, h) =>
      && id in s.table.registered && s.table.registered[id] == h
      && id in s.claimant && s.claimant[id] == t
    case _ => true
  }

  ghost predicate TableOk(s: State) {
    && TableInv(s.table)
    && (forall id :: id in s.table.registered ==> Known(s, s.table.registered[id], id))
    && (forall i :: 0 <= i < |s.table.waiting| ==> Known(s, s.table.waiting[i].flow, s.table.waiting[i].id))
    && Arrived(s.table.waiting, s.evicted, s.next)
  }

  /** Flows are numbered as they are made: the list is in that order, behind all that were evicted. */
  ghost predicate Arrived(l: seq<Entry<Handle>>, evicted: set<Handle>, next: Handle) {
    && (forall i, j :: 0 <= i < j < |l| ==> l[i].flow < l[j].flow)
    && (forall i :: 0 <= i < |l| ==> l[i].flow < next)
    && (forall h, i :: h in evicted && 0 <= i < |l| ==> h < l[i].flow)
    && (forall h :: h in evicted ==> h < next)
  }

  ghost predicate FlowsOk(s: State) {
    && (forall h :: h in s.flows ==> FlowOk(s, h))
    && (forall h :: h in s.evicted ==> h in s.flows)
    && (forall h: Handle :: h < s.next ==> h in s.flows)
    // A flow is evicted, or still the one its ID leads to.
    && (forall h :: h in s.flows ==> h in s.evicted || Lookup(s.table, s.flows[h].id) == Some(h))
  }

  ghost predicate ThreadsOk(s: State) {
    && (forall t :: t in s.threads ==> PcOk(s, t))
    && s.claimant.Keys == s.table.registered.Keys
  }

  ghost predicate Inv(s: State) {
    TableOk(s) && FlowsOk(s) && ThreadsOk(s)
  }

  lemma InvStep(s: State, a: Action)
    requires Inv(s) && Enabled(s, a)
    ensures Inv(Apply(s, a))
  {
    hide FS.Reachable, Untouched, FM.Apply, FM.Enabled, Lookup, TableInv;
    match a
    case Arrive(t, id) => ArriveKeeps(s, t, id);
    case CheckOpen(t, id) => ThreadKeeps(s, Apply(s, a), t);
    case TakeClaim(t) =>
      if s.threads[t].id in s.table.registered {
        ThreadKeeps(s, Apply(s, a), t);
      } else {
        ClaimStep(s, t, s.threads[t].id);
      }
    case CloseSession => FlowKeeps(s, Apply(s, a), 0);
    case InFlow(h, b) => InFlowKeeps(s, h, b);
  }

  lemma InFlowKeeps(s: State, h: Handle, a: FM.Action)
    requires Inv(s) && Enabled(s, InFlow(h, a))
    ensures Inv(Apply(s, InFlow(h, a)))
  {
    hide FS.Reachable, Untouched, FM.Apply, FM.Enabled, Lookup, TableInv;
    assert FlowOk(s, h);
    FS.ReachableStep(s.flows[h].machine, a);
    if !IsClaimed(s, h) {
      UntouchedStep(s.flows[h].machine, a);
    }
    FlowKeeps(s, Apply(s, InFlow(h, a)), h);
  }

  lemma UntouchedStep(m: FM.State, a: FM.Action)
    requires Untouched(m) && FM.Enabled(m, a) && (a.Spawn? ==> !AppCall(a.pc))
    ensures Untouched(FM.Apply(m, a))
  {
    hide FM.SetDeadline, FM.Fire, FM.DoRead, FM.DoProduce, FM.DoClose;
    match a
    case Produces(t, p) => UntouchedProduce(m, t, p);
    case Closes(t, c) => UntouchedClose(m, t, c);
    case _ =>
  }

  lemma UntouchedProduce(m: FM.State, t: Tid, p: FM.ProduceStep)
    requires Untouched(m) && t in m.threads && FM.CanProduce(m, t, p)
    ensures Untouched(FM.DoProduce(m, t, p))
  {
  }

  lemma UntouchedClose(m: FM.State, t: Tid, c: FM.CloseStep)
    requires Untouched(m) && t in m.threads && FM.CanClose(m, t, c)
    ensures Untouched(FM.DoClose(m, t, c))
  {
  }

  /** A step that changes at most what is in flow `h`. */
  lemma FlowKeeps(s: State, s': State, h: Handle)
    requires Inv(s) && ChangesFlow(s, s', h)
    ensures Inv(s')
  {
    hide TableOk, FlowsOk, ThreadsOk, ChangesFlow;
    FlowKeepsTable(s, s', h);
    FlowKeepsFlows(s, s', h);
    FlowKeepsThreads(s, s', h);
  }

  ghost predicate ChangesFlow(s: State, s': State, h: Handle) {
    && s' == s.(flows := s'.flows, closed := s'.closed)
    && (|| s'.flows == s.flows
        || (&& h in s.flows && h in s'.flows && s'.flows == s.flows[h := s'.flows[h]]
            && s'.flows[h].id == s.flows[h].id && FlowOk(s', h)))
  }

  lemma FlowKeepsTable(s: State, s': State, h: Handle)
    requires TableOk(s) && ChangesFlow(s, s', h)
    ensures TableOk(s')
  {
    hide FlowOk, TableInv, Arrived;
  }

  lemma FlowKeepsFlows(s: State, s': State, h: Handle)
    requires FlowsOk(s) && ChangesFlow(s, s', h)
    ensures FlowsOk(s')
  {
    hide FS.Reachable, Untouched, Lookup;
    assert forall g :: g in s.flows && g != h ==> FlowOk(s, g) && FlowOk(s', g);
    if s'.flows == s.flows && h in s.flows {
      assert FlowOk(s, h) && FlowOk(s', h);
    }
  }

  lemma FlowKeepsThreads(s: State, s': State, h: Handle)
    requires ThreadsOk(s) && ChangesFlow(s, s', h)
    ensures ThreadsOk(s')
  {
    hide FlowOk, Lookup;
    assert forall t :: t in s.threads ==> PcOk(s, t) && PcOk(s', t);
  }

  /** A step that changes at most where call `t` stands. */
  lemma ThreadKeeps(s: State, s': State, t: Tid)
    requires Inv(s) && t in s'.threads && s' == s.(threads := s.threads[t := s'.threads[t]])
    requires PcOk(s', t)
    ensures Inv(s')
  {
    hide FS.Reachable, Untouched, Arrived, TableInv, Lookup;
    assert forall h :: h in s.flows ==> FlowOk(s, h) && FlowOk(s', h);
    assert forall u :: u in s.threads && u != t ==> PcOk(s, u) && PcOk(s', u);
  }

  lemma ArriveKeeps(s: State, t: Tid, id: nat)
    requires Inv(s) && t !in s.threads
    ensures Inv(DoArrive(s, t, id))
  {
    var s' := DoArrive(s, t, id);
    RouteKeeps(s.table, id, s.next);
    if Lookup(s.table, id).Some? {
      LookupKnown(s, id);
      ThreadKeeps(s, s', t);
    } else {
      NewFlowArrives(s, t, id);
    }
  }

  lemma LookupKnown(s: State, id: nat)
    requires Inv(s) && Lookup(s.table, id).Some?
    ensures Known(s, Lookup(s.table, id).value, id)
  {
    if id !in s.table.registered {
      var i := FoundAt(s.table.waiting, id);
    }
  }

  lemma NewFlowArrives(s: State, t: Tid, id: nat)
    requires Inv(s) && t !in s.threads && Lookup(s.table, id).None?
    ensures Inv(DoArrive(s, t, id))
  {
    hide TableOk, FlowsOk, ThreadsOk, DoArrive;
    ArriveTable(s, t, id);
    ArriveFlows(s, t, id);
    ArriveThreads(s, t, id);
  }

  lemma ArriveTable(s: State, t: Tid, id: nat)
    requires Inv(s) && Lookup(s.table, id).None?
    ensures TableOk(DoArrive(s, t, id))
  {
    hide FS.Reachable, Untouched, Arrived, Route;
    var s' := DoArrive(s, t, id);
    ArriveInOrder(s, id);
    RouteKeeps(s.table, id, s.next);
    assert forall h :: h in s.flows ==> FlowOk(s, h);
    forall i | 0 <= i < |s'.table.waiting|
      ensures Known(s', s'.table.waiting[i].flow, s'.table.waiting[i].id)
    {
      StillWaiting(s, id, i);
    }
    forall x | x in s'.table.registered
      ensures Known(s', s'.table.registered[x], x)
    {
      RegisteredStays(s, t, id, x);
    }
  }

  lemma RegisteredStays(s: State, t: Tid, id: nat, x: nat)
    requires Inv(s) && Lookup(s.table, id).None? && x in s.table.registered
    ensures Known(DoArrive(s, t, id), s.table.registered[x], x)
  {
    hide FS.Reachable, Untouched, Arrived, Route, ThreadsOk;
    assert Known(s, s.table.registered[x], x);
    assert FlowOk(s, s.table.registered[x]);
    if s.table.waiting != [] {
      assert Known(s, s.table.waiting[0].flow, s.table.waiting[0].id);
    }
  }

  lemma NewFlowOk(capacity: nat)
    ensures FS.Reachable(FM.Init(capacity)) && Untouched(FM.Init(capacity))
  {
    FS.InitReachable(capacity);
  }

  lemma ArriveFlows(s: State, t: Tid, id: nat)
    requires Inv(s) && Lookup(s.table, id).None?
    ensures FlowsOk(DoArrive(s, t, id))
  {
    hide FS.Reachable, Untouched, Lookup, Route, Arrived;
    NewFlowOk(s.bufferSize);
    RouteKeeps(s.table, id, s.next);
    var s' := DoArrive(s, t, id);
    forall h | h in s.flows
      ensures h in s'.evicted || Lookup(s'.table, s.flows[h].id) == Some(h)
    {
      RoutedStays(s, id, s.flows[h].id, h);
    }
    assert forall h :: h in s.flows ==> FlowOk(s, h) && FlowOk(s', h);
    DroppedKnown(s);
  }

  lemma DroppedKnown(s: State)
    requires Inv(s)
    ensures forall h :: h in Dropped(s.table.waiting, s.table.maxLen) ==> h in s.flows
  {
    if s.table.waiting != [] {
      assert Known(s, s.table.waiting[0].flow, s.table.waiting[0].id);
    }
  }

  /** The order of arrival after a flow has arrived. */
  lemma ArriveInOrder(s: State, id: nat)
    requires TableOk(s) && Lookup(s.table, id).None?
    ensures var evicted := s.evicted + Dropped(s.table.waiting, s.table.maxLen);
            Arrived(Route(s.table, id, s.next).waiting, evicted, s.next + 1)
  {
    hide Arrived, Known, Route, Lookup;
    var l, e := s.table.waiting, Entry(id, s.next);
    RouteAppends(s.table, id, s.next);
    if |l| < s.table.maxLen {
      assert s.evicted + {} == s.evicted;
      AppendInOrder(l, e, s.evicted, s.next);
    } else {
      EvictInOrder(l, s.evicted, s.next);
      AppendInOrder(l[1..], e, s.evicted + {l[0].flow}, s.next);
    }
  }

  lemma ArriveThreads(s: State, t: Tid, id: nat)
    requires Inv(s) && t !in s.threads && Lookup(s.table, id).None?
    ensures ThreadsOk(DoArrive(s, t, id))
  {
    hide FS.Reachable, Untouched, Arrived;
    var s' := DoArrive(s, t, id);
    RouteKeeps(s.table, id, s.next);
    forall u | u in s'.threads
      ensures PcOk(s', u)
    {
      if u != t {
        assert PcOk(s, u);
        if s.threads[u].Routed? {
          assert FlowOk(s, s.threads[u].flow);
          RoutedStays(s, id, s.threads[u].id, s.threads[u].flow);
        }
      }
    }
  }

  lemma StillWaiting(s: State, id: nat, i: nat)
    requires Inv(s) && Lookup(s.table, id).None?
    requires i < |Route(s.table, id, s.next).waiting|
    ensures var e := Route(s.table, id, s.next).waiting[i];
            e == Entry(id, s.next) || (Known(s, e.flow, e.id) && e.flow !in Dropped(s.table.waiting, s.table.maxLen))
  {
  }

  lemma RoutedStays(s: State, id: nat, other: nat, h: Handle)
    requires Inv(s) && Lookup(s.table, id).None? && h in s.flows
    requires h in s.evicted || Lookup(s.table, other) == Some(h)
    ensures || h in s.evicted + Dropped(s.table.waiting, s.table.maxLen)
            || Lookup(Route(s.table, id, s.next), other) == Some(h)
  {
    if h !in s.evicted {
      RouteEvictsOldest(s.table, id, s.next, other);
      if |s.table.waiting| == s.table.maxLen && s.table.waiting[0].id == other {
        FindAt(s.table.waiting, 0);
      }
    }
  }

  lemma ClaimStep(s: State, t: Tid, id: nat)
    requires Inv(s) && t in s.threads && s.threads[t] == Checked(id) && id !in s.table.registered
    ensures Inv(DoClaim(s, t, id))
  {
    hide TableOk, FlowsOk, ThreadsOk, DoClaim;
    ClaimTable(s, t, id);
    ClaimFlows(s, t, id);
    ClaimThreads(s, t, id);
  }

  lemma ClaimFlows(s: State, t: Tid, id: nat)
    requires Inv(s) && id !in s.table.registered
    ensures FlowsOk(DoClaim(s, t, id))
  {
    hide FS.Reachable, Untouched, TableInv, Arrived, Claim, Without, Lookup, DoClaim;
    NewFlowOk(s.bufferSize);
    ClaimKeeps(s.table, id, s.next);
    ClaimOn(s, t, id);
    var s' := DoClaim(s, t, id);
    assert forall h :: h in s.flows ==> FlowOk(s, h) && FlowOk(s', h);
  }

  /** The table and the flows after a claim. */
  lemma ClaimOn(s: State, t: Tid, id: nat)
    requires id !in s.table.registered
    ensures var s' := DoClaim(s, t, id);
            && s'.table == Claim(s.table, id, s.next) && s'.evicted == s.evicted
            && s'.flows == (if Lookup(s.table, id).Some? then s.flows else s.flows[s.next := NewFlow(id, s.bufferSize)])
            && s'.next == (if Lookup(s.table, id).Some? then s.next else s.next + 1)
  {
  }

  /** The order of arrival after a claim. */
  lemma ClaimInOrder(s: State, id: nat, next: Handle)
    requires TableOk(s) && s.next <= next
    ensures Arrived(Without(s.table.waiting, id), s.evicted, next)
  {
    hide Without, Arrived, Known;
    var l := s.table.waiting;
    LaterInOrder(l, s.evicted, s.next, next);
    if Find(l, id).Some? {
      var i := FoundAt(l, id);
      WithoutAt(l, i);
      RemoveInOrder(l, i, s.evicted, next);
    } else {
      NotFound(l, id);
      WithoutAbsent(l, id);
    }
  }

  lemma LaterInOrder(l: seq<Entry<Handle>>, evicted: set<Handle>, next: Handle, later: Handle)
    requires Arrived(l, evicted, next) && next <= later
    ensures Arrived(l, evicted, later)
  {
  }

  lemma RemoveInOrder(l: seq<Entry<Handle>>, i: nat, evicted: set<Handle>, next: Handle)
    requires Arrived(l, evicted, next) && i < |l|
    ensures Arrived(l[..i] + l[i + 1..], evicted, next)
  {
    var l' := l[..i] + l[i + 1..];
    assert forall j :: 0 <= j < |l'| ==> l'[j] == l[if j < i then j else j + 1];
  }

  lemma AppendInOrder(l: seq<Entry<Handle>>, e: Entry<Handle>, evicted: set<Handle>, next: Handle)
    requires Arrived(l, evicted, next) && e.flow == next
    ensures Arrived(l + [e], evicted, next + 1)
  {
  }

  lemma EvictInOrder(l: seq<Entry<Handle>>, evicted: set<Handle>, next: Handle)
    requires Arrived(l, evicted, next) && l != []
    ensures Arrived(l[1..], evicted + {l[0].flow}, next)
  {
    assert forall j :: 0 <= j < |l| - 1 ==> l[1..][j] == l[j + 1];
  }

  lemma ClaimThreads(s: State, t: Tid, id: nat)
    requires Inv(s) && t in s.threads && s.threads[t] == Checked(id) && id !in s.table.registered
    ensures ThreadsOk(DoClaim(s, t, id))
  {
    hide FS.Reachable, Untouched, Arrived;
    var s' := DoClaim(s, t, id);
    ClaimKeeps(s.table, id, s.next);
    forall u | u in s'.threads
      ensures PcOk(s', u)
    {
      if u != t {
        assert PcOk(s, u);
        if s.threads[u].Routed? {
          assert FlowOk(s, s.threads[u].flow);
        }
      }
    }
  }

  lemma ClaimTable(s: State, t: Tid, id: nat)
    requires Inv(s) && id !in s.table.registered
    ensures TableOk(DoClaim(s, t, id))
  {
    hide FS.Reachable, Untouched, Arrived, Lookup, Without, TableInv, DoClaim, ThreadsOk;
    var s' := DoClaim(s, t, id);
    ClaimOn(s, t, id);
    ClaimInOrder(s, id, s'.next);
    ClaimKeeps(s.table, id, s.next);
    StillListed(s, id);
    if Lookup(s.table, id).Some? {
      LookupKnown(s, id);
    }
    forall i | 0 <= i < |s'.table.waiting|
      ensures Known(s', s'.table.waiting[i].flow, s'.table.waiting[i].id)
    {
      assert s'.table.waiting[i] in s'.table.waiting;
      assert s'.table.waiting[i] in s.table.waiting;
    }
    assert forall h :: h in s.flows ==> FlowOk(s, h);
  }

  lemma StillListed(s: State, id: nat)
    requires TableOk(s)
    ensures forall e :: e in Without(s.table.waiting, id) ==> e in s.table.waiting
  {
    WithoutKeeps(s.table.waiting, id);
  }

  lemma {:induction false} InvRun(s: State, actions: seq<Action>)
    requires Inv(s) && Possible(s, actions)
    ensures Inv(Run(s, actions))
    decreases |actions|
  {
    if actions != [] {
      InvStep(s, actions[0]);
      InvRun(Apply(s, actions[0]), actions[1..]);
    }
  }

  ghost predicate Reachable(s: State) {
    exists maxLen, bufferSize, actions ::
      maxLen > 0 && Possible(Init(maxLen, bufferSize), actions) && s == Run(Init(maxLen, bufferSize), actions)
  }

  lemma ReachableInv(s: State)
    requires Reachable(s)
    ensures Inv(s)
  {
    var maxLen, bufferSize, actions :|
      maxLen > 0 && Possible(Init(maxLen, bufferSize), actions) && s == Run(Init(maxLen, bufferSize), actions);
    InvRun(Init(maxLen, bufferSize), actions);
  }

  // ----- Theorems over all runs -----

  /** In every reachable state an ID is registered or waiting, not both, and no more flows wait than allowed. */
  lemma RegisteredOrWaiting(s: State)
    requires Reachable(s)
    ensures TableInv(s.table)
  {
    ReachableInv(s);
  }

  /** Oldest first, over whole runs: when a flow has been evicted, every older one has been evicted or claimed. */
  lemma OldestEvictedFirst(s: State, g: Handle, h: Handle)
    requires Reachable(s) && h in s.evicted && g < h
    ensures g in s.evicted || (g in s.flows && IsClaimed(s, g))
  {
    hide FS.Reachable;
    ReachableInv(s);
    if g !in s.evicted && !IsClaimed(s, g) {
      var i := FoundAt(s.table.waiting, s.flows[g].id);
    }
  }

  /** A step evicts only if it brings a new flow to a full list, and then the oldest that waits; the others stay. */
  lemma EvictsOldestOfFull(s: State, a: Action, h: Handle)
    requires Reachable(s) && Enabled(s, a) && h !in s.evicted && h in Apply(s, a).evicted
    ensures var l, s' := s.table.waiting, Apply(s, a);
            && a.Arrive? && Lookup(s.table, a.id).None? && |l| == s.table.maxLen
            && l[0].flow == h && (forall i :: 0 < i < |l| ==> h < l[i].flow)
            && s'.table.waiting == l[1..] + [Entry(a.id, s.next)] && s'.evicted == s.evicted + {h}
  {
    hide FS.Reachable, FM.Apply, FM.Enabled;
    ReachableInv(s);
    RouteAppends(s.table, a.id, s.next);
  }

  /** A claim that is made after the session was closed is refused; one that finds it open goes on. */
  lemma RefusedIffClosed(s: State, t: Tid, id: nat)
    requires Enabled(s, CheckOpen(t, id))
    ensures var pc := Apply(s, CheckOpen(t, id)).threads[t];
            if s.closed then pc == Refused else pc == Checked(id)
  {
  }

  /** The session is closed if and only if it has been. */
  lemma {:induction false} ClosedIff(s: State, actions: seq<Action>)
    requires Possible(s, actions)
    ensures Run(s, actions).closed <==> s.closed || CloseSession in actions
    decreases |actions|
  {
    hide FM.Apply, FM.Enabled, Lookup, Route, Claim;
    if actions != [] {
      ClosedIff(Apply(s, actions[0]), actions[1..]);
      assert forall a :: a in actions <==> a == actions[0] || a in actions[1..];
    }
  }

  /** And it is refused for good: no call that starts on a closed session ever claims a flow. */
  lemma {:induction false} NoClaimAfterClose(s: State, later: seq<Action>, t: Tid)
    requires s.closed && Possible(s, later)
    requires t in s.threads ==> !s.threads[t].Checked? && !s.threads[t].Claimed?
    ensures var s' := Run(s, later);
            s'.closed && (t in s'.threads ==> !s'.threads[t].Checked? && !s'.threads[t].Claimed?)
    decreases |later|
  {
    hide FM.Apply, FM.Enabled, Lookup, Route, Claim;
    if later != [] {
      NoClaimAfterClose(Apply(s, later[0]), later[1..], t);
    }
  }

  /**
   A claim succeeds if and only if the ID is not registered. It gets the flow the ID leads to,
   if there is one, and otherwise a new one with the session's buffer size.
   */
  lemma ClaimIff(s: State, t: Tid)
    requires Reachable(s) && Enabled(s, TakeClaim(t))
    ensures var id, s' := s.threads[t].id, Apply(s, TakeClaim(t));
            && (s'.threads[t].Claimed? <==> id !in s.table.registered)
            && (s'.threads[t].Duplicate? <==> id in s.table.registered)
            && (s'.threads[t].Claimed? ==>
                  var h := s'.threads[t].flow;
                  && id in s'.table.registered && s'.table.registered[id] == h && h in s'.flows
                  && if Lookup(s.table, id).Some? then h == Lookup(s.table, id).value && s'.flows == s.flows
                     else h !in s.flows && s'.flows[h] == Flow(id, FM.Init(s.bufferSize)))
  {
    hide FS.Reachable, Untouched, Arrived;
    ReachableInv(s);
    if Lookup(s.table, s.threads[t].id).Some? {
      LookupKnown(s, s.threads[t].id);
    }
    assert forall h :: h in s.flows ==> FlowOk(s, h);
  }

  /** A packet for an ID goes to the flow it leads to, or to a new one with the session's buffer size. */
  lemma ArriveRoutes(s: State, t: Tid, id: nat)
    requires Reachable(s) && Enabled(s, Arrive(t, id))
    ensures var s' := Apply(s, Arrive(t, id));
            var pc := s'.threads[t];
            && pc.Routed? && pc.id == id && pc.flow in s'.flows && Lookup(s'.table, id) == Some(pc.flow)
            && if Lookup(s.table, id).Some? then pc.flow == Lookup(s.table, id).value && s'.flows == s.flows
               else pc.flow !in s.flows && s'.flows[pc.flow] == Flow(id, FM.Init(s.bufferSize))
  {
    hide FS.Reachable, Untouched, Arrived;
    ReachableInv(s);
    RouteKeeps(s.table, id, s.next);
    if Lookup(s.table, id).Some? {
      LookupKnown(s, id);
    }
    assert forall h :: h in s.flows ==> FlowOk(s, h);
  }

  /** At most one claim of an ID ever succeeds. */
  lemma OneClaimPerID(s: State, t: Tid, u: Tid)
    requires Reachable(s) && t in s.threads && u in s.threads
    requires s.threads[t].Claimed? && s.threads[u].Claimed? && s.threads[t].id == s.threads[u].id
    ensures t == u
  {
    ReachableInv(s);
    assert PcOk(s, t) && PcOk(s, u);
  }

  /** A call that `receiveFlow` gave a flow to has the one its ID leads to if and only if that was not evicted. */
  lemma RoutedIsCurrentIff(s: State, t: Tid)
    requires Reachable(s) && t in s.threads && s.threads[t].Routed?
    ensures Lookup(s.table, s.threads[t].id) == Some(s.threads[t].flow) <==> s.threads[t].flow !in s.evicted
  {
    hide FS.Reachable;
    ReachableInv(s);
    assert PcOk(s, t);
    if Lookup(s.table, s.threads[t].id).Some? {
      LookupKnown(s, s.threads[t].id);
    }
  }

  /**
   Eviction does leave calls behind. With room for one unknown flow, call 0 gets a flow for
   `id`, another ID takes its place, and call 2 gets a new flow for `id`: two calls hold
   different flows for one ID, and what call 0 pushes no one will read.
   */
  lemma EvictionLeavesCallBehind(bufferSize: nat, id: nat, other: nat)
    requires id != other
    ensures var actions := [Arrive(0, id)] + ([Arrive(1, other)] + ([Arrive(2, id)] + []));
            && Possible(Init(1, bufferSize), actions)
            && var s := Run(Init(1, bufferSize), actions);
               && 0 in s.threads && s.threads[0] == Routed(id, 0) && 0 in s.evicted
               && 2 in s.threads && s.threads[2] == Routed(id, 2) && Lookup(s.table, id) == Some(2)
  {
    var s0 := Init(1, bufferSize);
    var s1 := Apply(s0, Arrive(0, id));
    assert s1.table.waiting == [Entry(id, 0)];
    var s2 := Apply(s1, Arrive(1, other));
    Replaced(s1, 1, other);
    Replaced(s2, 2, id);
    RunOne(s2, Arrive(2, id), []);
    RunOne(s1, Arrive(1, other), [Arrive(2, id)] + []);
    RunOne(s0, Arrive(0, id), [Arrive(1, other)] + ([Arrive(2, id)] + []));
  }

  /** A flow arrives where there is room for one, and that is taken. */
  lemma Replaced(s: State, t: Tid, id: nat)
    requires s.table.maxLen == 1 && |s.table.waiting| == 1 && s.table.registered == map[]
    requires s.table.waiting[0].id != id
    ensures var s' := DoArrive(s, t, id);
            && s'.table == s.table.(waiting := [Entry(id, s.next)]) && s'.next == s.next + 1
            && s'.evicted == s.evicted + {s.table.waiting[0].flow}
            && s'.threads == s.threads[t := Routed(id, s.next)]
            && Lookup(s'.table, id) == Some(s.next)
  {
    var l := s.table.waiting;
    assert l[1..] == [];
    assert Find(l, id) == None;
    assert MakeRoom(l, 1) == [];
  }

  lemma RunOne(s: State, a: Action, rest: seq<Action>)
    requires Enabled(s, a) && Possible(Apply(s, a), rest)
    ensures Possible(s, [a] + rest) && Run(s, [a] + rest) == Run(Apply(s, a), rest)
  {
    assert ([a] + rest)[1..] == rest;
  }

  /** All who hold a flow for an ID, claimed or not, hold the same one, unless theirs was evicted. */
  lemma OneFlowPerID(s: State, t: Tid, u: Tid)
    requires Reachable(s) && t in s.threads && u in s.threads
    requires s.threads[t].Routed? && (s.threads[u].Routed? || s.threads[u].Claimed?)
    requires s.threads[t].id == s.threads[u].id
    requires s.threads[t].flow !in s.evicted && s.threads[u].flow !in s.evicted
    ensures s.threads[t].flow == s.threads[u].flow
  {
    ReachableInv(s);
    assert PcOk(s, t) && PcOk(s, u);
  }

  /**
   Claiming strands nothing: the call gets the very flow the packets for that ID have been
   going to, with every packet it ever accepted still in it, none of them read.
   */
  lemma ClaimWithoutStranding(s: State, t: Tid, sender: Tid)
    requires Reachable(s) && t in s.threads && s.threads[t].Checked? && s.threads[t].id !in s.table.registered
    requires sender in s.threads && s.threads[sender].Routed? && s.threads[sender].id == s.threads[t].id
    requires s.threads[sender].flow !in s.evicted
    ensures var h := s.threads[sender].flow;
            && Enabled(s, TakeClaim(t))
            && var s' := Apply(s, TakeClaim(t));
               && t in s'.threads && s'.threads[t] == Claimed(s.threads[t].id, h)
               && s'.flows == s.flows && h in s.flows
               && var m := s.flows[h].machine;
                  && m.takers == [] && !m.flow.closed && |m.flow.queue| == |m.accepted|
                  && forall i :: 0 <= i < |m.accepted| ==>
                       m.flow.queue[i] in m.content && m.content[m.flow.queue[i]] == m.accepted[i]
  {
    hide FS.Reachable, Arrived;
    ReachableInv(s);
    assert PcOk(s, sender);
    assert FlowOk(s, s.threads[sender].flow);
    FS.QueueHistory(s.flows[s.threads[sender].flow].machine);
  }
}
