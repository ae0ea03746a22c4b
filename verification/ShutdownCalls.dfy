/**
 What the calls of `close` and `Close` come to (session.go): whose code and whose error win,
 who waits for what, that none gets stuck, and who is turned away afterwards.
 */
module ShutdownCalls {
  import opened Common
  import opened Shutdown

  predicate CallOf(a: Action, t: Tid) {
    a.Call? && a.t == t
  }

  /** The call of `t` is among the actions, with this code and of this kind. */
  predicate CalledWith(actions: seq<Action>, t: Tid, public: bool, code: nat) {
    exists i :: 0 <= i < |actions| && actions[i] == Call(t, public, code)
  }

  // ----- Where calls come from -----

  /** Every call that is under way was made in `done`; it is public or not as it was called, and so is its code. */
  ghost predicate Accounted(s: State, done: seq<Action>) {
    && (forall t :: t in s.threads ==> CameFrom(s.threads[t], t, done))
    && (forall t: Tid, public: bool, code: nat :: CalledWith(done, t, public, code) ==> t in s.threads)
  }

  ghost predicate CameFrom(pc: Pc, t: Tid, done: seq<Action>) {
    exists code: nat :: CalledWith(done, t, IsPublic(pc), code) && (pc.Start? || pc.Locked? ==> pc.code == code)
  }

  lemma AccountedStep(s: State, done: seq<Action>, a: Action)
    requires Accounted(s, done) && Enabled(s, a)
    ensures Accounted(Apply(s, a), done + [a])
  {
    hide DoLoop, CanLoop;
    var s', all := Apply(s, a), done + [a];
    forall t, public, code | CalledWith(done, t, public, code)
      ensures CalledWith(all, t, public, code)
    {
      var i :| 0 <= i < |done| && done[i] == Call(t, public, code);
      assert all[i] == Call(t, public, code);
    }
    forall t | t in s'.threads
      ensures CameFrom(s'.threads[t], t, all)
    {
      if CallOf(a, t) {
        assert all[|done|] == a;
        assert s'.threads[t] == Start(a.public, a.code) && CalledWith(all, t, IsPublic(s'.threads[t]), a.code);
      } else {
        PcKeeps(s, a, t);
        assert CameFrom(s.threads[t], t, done);
        var code :| CalledWith(done, t, IsPublic(s.threads[t]), code) &&
                    (s.threads[t].Start? || s.threads[t].Locked? ==> s.threads[t].code == code);
        assert CalledWith(all, t, IsPublic(s'.threads[t]), code);
      }
    }
    forall t, public, code | CalledWith(all, t, public, code)
      ensures t in s'.threads
    {
      var i :| 0 <= i < |all| && all[i] == Call(t, public, code);
      if i < |done| {
        assert done[i] == Call(t, public, code);
        assert CalledWith(done, t, public, code);
      }
      ThreadsGrow(s, a);
    }
  }

  lemma ThreadsGrow(s: State, a: Action)
    requires Enabled(s, a)
    ensures s.threads.Keys <= Apply(s, a).threads.Keys
    ensures a.Call? ==> a.t in Apply(s, a).threads
  {
  }

  /** A call that goes on stays public or internal, and keeps its code until it has used it. */
  lemma PcKeeps(s: State, a: Action, t: Tid)
    requires Enabled(s, a) && t in Apply(s, a).threads && !CallOf(a, t)
    ensures t in s.threads
    ensures var pc, pc' := s.threads[t], Apply(s, a).threads[t];
            && IsPublic(pc') == IsPublic(pc)
            && (pc'.Start? || pc'.Locked? ==> (pc.Start? || pc.Locked?) && pc'.code == pc.code)
  {
    hide DoLoop, CanLoop;
  }

  /** Every call makes one call. */
  lemma {:induction false} CallsOnce(s: State, actions: seq<Action>, t: Tid)
    requires Possible(s, actions) && t in s.threads
    ensures forall i :: 0 <= i < |actions| ==> !CallOf(actions[i], t)
    decreases |actions|
  {
    hide Apply;
    if actions != [] {
      ThreadsGrow(s, actions[0]);
      CallsOnce(Apply(s, actions[0]), actions[1..], t);
      assert forall i :: 1 <= i < |actions| ==> actions[i] == actions[1..][i - 1];
    }
  }

  // ----- The first caller wins -----

  /** The position of the first step a close makes: with it, its caller takes the mutex. */
  function FirstStep(actions: seq<Action>): (n: nat)
    ensures n <= |actions|
    ensures n < |actions| ==> actions[n].Step?
    ensures forall i :: 0 <= i < n ==> !actions[i].Step?
  {
    if actions == [] || actions[0].Step? then 0 else 1 + FirstStep(actions[1..])
  }

  /** `t` is the first caller, with this code: it is about to set the session error, or it has. */
  predicate Wins(s: State, t: Tid, code: nat) {
    if s.session.closedErr.Some? then s.session.closedErr.value == code
    else s.session.mutex == Some(t) && t in s.threads && s.threads[t].Locked? && s.threads[t].code == code
  }

  lemma WinsStep(s: State, a: Action, t: Tid, code: nat)
    requires Inv(s) && Wins(s, t, code) && Enabled(s, a)
    ensures Wins(Apply(s, a), t, code)
  {
    hide LoopsInv, DoLoop, CanLoop, Progress, Finished;
    if a.Step? {
      assert PcOk(s, a.t);
    }
  }

  lemma {:induction false} WinsRun(s: State, later: seq<Action>, t: Tid, code: nat)
    requires Inv(s) && Wins(s, t, code) && Possible(s, later)
    ensures Wins(Run(s, later), t, code)
    decreases |later|
  {
    hide Inv, Wins;
    if later != [] {
      InvStep(s, later[0]);
      WinsStep(s, later[0], t, code);
      WinsRun(Apply(s, later[0]), later[1..], t, code);
    }
  }

  /** No close has made a step yet. */
  ghost predicate Fresh(s: State, done: seq<Action>) {
    && Accounted(s, done) && s.session.closedErr.None? && s.session.mutex.None?
    && forall t :: t in s.threads ==> s.threads[t].Start?
  }

  lemma FreshStep(s: State, done: seq<Action>, a: Action)
    requires Fresh(s, done) && Enabled(s, a)
    ensures if a.Step? then a.t in s.threads && s.threads[a.t].Start? && Wins(Apply(s, a), a.t, s.threads[a.t].code)
            else Fresh(Apply(s, a), done + [a])
  {
    hide DoLoop, CanLoop, Accounted;
    AccountedStep(s, done, a);
  }

  lemma {:induction false} FreshRun(s: State, done: seq<Action>, later: seq<Action>)
    requires Inv(s) && Fresh(s, done) && Possible(s, later)
    ensures var n := FirstStep(later);
            if n == |later| then Run(s, later).session.closedErr.None?
            else exists public: bool, code: nat ::
                   CalledWith(done + later[..n], later[n].t, public, code) && Wins(Run(s, later), later[n].t, code)
    decreases |later|
  {
    hide Inv, Apply, Enabled, Wins;
    if later != [] {
      var a, rest := later[0], later[1..];
      InvStep(s, a);
      FreshStep(s, done, a);
      if a.Step? {
        assert CameFrom(s.threads[a.t], a.t, done);
        var code :| CalledWith(done, a.t, IsPublic(s.threads[a.t]), code) && s.threads[a.t].code == code;
        WinsRun(Apply(s, a), rest, a.t, code);
        assert done + later[..0] == done;
      } else {
        FreshRun(Apply(s, a), done + [a], rest);
        var n := FirstStep(rest);
        assert FirstStep(later) == 1 + n;
        assert done + [a] + rest[..n] == done + later[..1 + n];
      }
    }
  }

  /**
   The first close to take the mutex decides: its caller's code becomes the session error and
   is what the connection is closed with, whoever else closes with whatever code.
   */
  lemma FirstCallerWins(acceptDatagrams: bool, actions: seq<Action>)
    requires Possible(Init(acceptDatagrams), actions)
    ensures var s, n := Run(Init(acceptDatagrams), actions), FirstStep(actions);
            s.session.closedErr.Some? ==>
              && n < |actions|
              && exists public: bool, code: nat ::
                   && CalledWith(actions[..n], actions[n].t, public, code) && s.session.closedErr == Some(code)
                   && forall i :: 0 <= i < |s.session.connCloses| ==> s.session.connCloses[i].code == code
  {
    hide Inv, Wins;
    var s, n := Run(Init(acceptDatagrams), actions), FirstStep(actions);
    InitFresh(acceptDatagrams);
    FreshRun(Init(acceptDatagrams), [], actions);
    if s.session.closedErr.Some? {
      var public, code :| CalledWith([] + actions[..n], actions[n].t, public, code) && Wins(s, actions[n].t, code);
      assert [] + actions[..n] == actions[..n];
      assert Reachable(s);
      ClosesConnectionOnce(s);
      WinsMeans(s, actions[n].t, code);
    }
  }

  lemma InitFresh(acceptDatagrams: bool)
    ensures Inv(Init(acceptDatagrams)) && Fresh(Init(acceptDatagrams), [])
  {
  }

  lemma WinsMeans(s: State, t: Tid, code: nat)
    requires Wins(s, t, code) && s.session.closedErr.Some?
    ensures s.session.closedErr == Some(code)
  {
  }

  // ----- What Close returns, and after what -----

  /** What closing the connection returns is what every Close reports that ever returns. */
  lemma ConnErrorReported(s: State, t: Tid, h: Handle, err: nat, later: seq<Action>, u: Tid)
    requires Reachable(s) && t in s.threads && s.threads[t].CloseConn?
    requires Possible(Apply(s, Step(t, h, err)), later)
    requires var s' := Run(Apply(s, Step(t, h, err)), later); u in s'.threads && s'.threads[u].Done?
    ensures Run(Apply(s, Step(t, h, err)), later).threads[u].connErr == err
  {
    hide LoopsInv, Progress;
    ReachableInv(s);
    var s1 := Apply(s, Step(t, h, err));
    InvStep(s, Step(t, h, err));
    ClosedConnRun(s1, later);
    InvRun(s1, later);
    assert PcOk(Run(s1, later), u);
  }

  /** Once the connection is closed, what that returned stays. */
  lemma {:induction false} ClosedConnRun(s: State, later: seq<Action>)
    requires Inv(s) && s.session.connCloses != [] && Possible(s, later)
    ensures Run(s, later).session.connCloseErr == s.session.connCloseErr && Run(s, later).session.connCloses != []
    decreases |later|
  {
    hide Inv, Apply, Enabled;
    if later != [] {
      InvStep(s, later[0]);
      ClosedConnStep(s, later[0]);
      ClosedConnRun(Apply(s, later[0]), later[1..]);
    }
  }

  lemma ClosedConnStep(s: State, a: Action)
    requires Inv(s) && s.session.connCloses != [] && Enabled(s, a)
    ensures Apply(s, a).session.connCloseErr == s.session.connCloseErr && Apply(s, a).session.connCloses != []
  {
    hide LoopsInv, DoLoop, CanLoop;
    if a.Step? {
      assert PcOk(s, a.t);
    }
  }

  /**
   A public Close returns only with the connection's error, after everything is closed and no
   goroutine of the session runs; an internal close never waits for them.
   */
  lemma PublicCloseWaits(acceptDatagrams: bool, actions: seq<Action>, t: Tid, public: bool, code: nat)
    requires Possible(Init(acceptDatagrams), actions) && CalledWith(actions, t, public, code)
    ensures var s := Run(Init(acceptDatagrams), actions);
            && t in s.threads
            && (if public then !s.threads[t].Returned?
                else !s.threads[t].Waiting? && !s.threads[t].Waited? && !s.threads[t].Done?)
            && (s.threads[t].Done? || s.threads[t].Returned? ==> Finished(s.session))
            && (s.threads[t].Done? ==> Quiet(s.loops) && s.threads[t].connErr == s.session.connCloseErr)
  {
    hide Inv, LoopsInv, Run, Possible, Accounted, CalledWith, Finished, Quiet;
    var s := Run(Init(acceptDatagrams), actions);
    InitFresh(acceptDatagrams);
    AccountedRun(Init(acceptDatagrams), [], actions);
    assert [] + actions == actions;
    assert Reachable(s);
    ReachableInv(s);
    OneKind(acceptDatagrams, actions, t, public, code);
    SeenBy(s, t);
  }

  lemma SeenBy(s: State, t: Tid)
    requires Inv(s) && t in s.threads
    ensures PcOk(s, t)
  {
  }

  lemma {:induction false} AccountedRun(s: State, done: seq<Action>, later: seq<Action>)
    requires Accounted(s, done) && Possible(s, later)
    ensures Accounted(Run(s, later), done + later)
    decreases |later|
  {
    hide Accounted, Apply, Enabled;
    if later == [] {
      assert done + later == done;
    } else {
      AccountedStep(s, done, later[0]);
      AccountedRun(Apply(s, later[0]), done + [later[0]], later[1..]);
      assert done + [later[0]] + later[1..] == done + later;
    }
  }

  /** A call is of the kind it was called as. */
  lemma OneKind(acceptDatagrams: bool, actions: seq<Action>, t: Tid, public: bool, code: nat)
    requires Possible(Init(acceptDatagrams), actions) && CalledWith(actions, t, public, code)
    requires Accounted(Run(Init(acceptDatagrams), actions), actions)
    ensures t in Run(Init(acceptDatagrams), actions).threads
    ensures IsPublic(Run(Init(acceptDatagrams), actions).threads[t]) == public
  {
    hide Run, Possible;
    var s := Run(Init(acceptDatagrams), actions);
    assert CameFrom(s.threads[t], t, actions);
    var c :| CalledWith(actions, t, IsPublic(s.threads[t]), c);
    var i :| 0 <= i < |actions| && actions[i] == Call(t, public, code);
    var j :| 0 <= j < |actions| && actions[j] == Call(t, IsPublic(s.threads[t]), c);
    if i < j {
      NotAgain(Init(acceptDatagrams), actions, t, i, j);
    } else if j < i {
      NotAgain(Init(acceptDatagrams), actions, t, j, i);
    }
  }

  lemma {:induction false} NotAgain(s: State, actions: seq<Action>, t: Tid, i: nat, j: nat)
    requires Possible(s, actions) && i < j < |actions| && CallOf(actions[i], t)
    ensures !CallOf(actions[j], t)
    decreases |actions|
  {
    hide Apply;
    if i > 0 {
      NotAgain(Apply(s, actions[0]), actions[1..], t, i - 1, j - 1);
    } else {
      ThreadsGrow(s, actions[0]);
      CallsOnce(Apply(s, actions[0]), actions[1..], t);
      assert actions[j] == actions[1..][j - 1];
    }
  }

  // ----- No close gets stuck -----

  predicate Unfinished(pc: Pc) {
    !pc.Done? && !pc.Returned?
  }

  /** Some step of the call is possible. */
  ghost predicate CanGoOn(s: State, t: Tid) {
    t in s.threads && exists h :: CanStep(s, t, h)
  }

  /**
   No close gets stuck but for the session's own goroutines: if a call is not finished, it or
   the one that has the mutex can go on, unless it waits for goroutines that still run.
   */
  lemma CloseNeverStuck(s: State, t: Tid)
    requires Reachable(s) && t in s.threads && Unfinished(s.threads[t])
    ensures CanGoOn(s, t) || (s.session.mutex.Some? && CanGoOn(s, s.session.mutex.value)) ||
            (s.threads[t].Waiting? && s.loops.wg > 0 && (s.loops.live != {} || s.loops.accepting))
  {
    hide Progress, Finished;
    ReachableInv(s);
    assert PcOk(s, t);
    QuietIfZero(s.loops);
    if s.session.mutex.Some? {
      HolderGoesOn(s);
    } else {
      assert CanGoOn(s, t) || s.threads[t].Waiting? by {
        if !s.threads[t].Waiting? {
          assert CanStep(s, t, 0);
        }
      }
      if s.threads[t].Waiting? && s.loops.wg == 0 {
        assert CanStep(s, t, 0);
      }
    }
  }

  lemma HolderGoesOn(s: State)
    requires Inv(s) && s.session.mutex.Some?
    ensures CanGoOn(s, s.session.mutex.value)
  {
    var t := s.session.mutex.value;
    var pc := s.threads[t];
    assert InSection(pc);
    if (pc.ClosingSend? || pc.ClosingReceive?) && pc.left != {} {
      var h := Member(pc.left);
      assert CanStep(s, t, h);
    } else {
      assert CanStep(s, t, 0);
    }
  }

  // ----- Who is turned away -----

  predicate Creates(a: Action, t: Tid) {
    (a.NewSendFlow? || a.NewReceiveFlow?) && a.t == t
  }

  /** A call finds the session open if and only if no close has set the error yet. */
  lemma OpenIff(s: State, t: Tid)
    requires Enabled(s, CheckOpen(t))
    ensures t in Apply(s, CheckOpen(t)).creating <==> s.session.closedErr.None?
  {
  }

  /** A call makes one flow, or none if the ID is taken. */
  lemma CreatesOnce(s: State, a: Action, t: Tid)
    requires Enabled(s, a) && (Creates(a, t) || a == GiveUp(t))
    ensures t in s.creating && t !in Apply(s, a).creating
  {
  }

  /** Once the session error is set, a call that had not passed the test never makes a flow. */
  lemma {:induction false} TurnedAway(s: State, later: seq<Action>, t: Tid)
    requires s.session.closedErr.Some? && t !in s.creating && Possible(s, later)
    ensures t !in Run(s, later).creating
    ensures forall i :: 0 <= i < |later| ==> !Creates(later[i], t)
    decreases |later|
  {
    if later != [] {
      ErrorStays(s, later[0], t);
      TurnedAway(Apply(s, later[0]), later[1..], t);
      assert forall i :: 1 <= i < |later| ==> later[i] == later[1..][i - 1];
    }
  }

  lemma ErrorStays(s: State, a: Action, t: Tid)
    requires s.session.closedErr.Some? && t !in s.creating && Enabled(s, a)
    ensures Apply(s, a).session.closedErr.Some? && t !in Apply(s, a).creating && !Creates(a, t)
  {
  }
}
