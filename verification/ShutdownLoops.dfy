/**
 The goroutines of a session over whole runs (session.go `start`, `receiveUniStreams`): which
 are launched, that every stream accepted gets a handler of its own, and which are done.
 */
module ShutdownLoops {
  import opened Common
  import opened Shutdown

  /** The receive loops launched in a run, in order. */
  function Launched(s: State, actions: seq<Action>): seq<Goroutine>
    requires Possible(s, actions)
    decreases |actions|
  {
    if actions == [] then []
    else
      var rest := Launched(Apply(s, actions[0]), actions[1..]);
      if actions[0] == Loop(GoLoop) then [s.loops.starting.value] + rest else rest
  }

  /** The loops still to be launched. */
  function ToLaunch(l: Loops): seq<Goroutine> {
    (if l.starting.Some? then [l.starting.value] else []) + l.toStart
  }

  lemma {:induction false} LaunchedRun(s: State, actions: seq<Action>)
    requires Possible(s, actions)
    ensures Launched(s, actions) + ToLaunch(Run(s, actions).loops) == ToLaunch(s.loops)
    decreases |actions|
  {
    hide Apply, Enabled, ToLaunch;
    if actions != [] {
      var a, rest := actions[0], actions[1..];
      LaunchStep(s, a);
      LaunchedRun(Apply(s, a), rest);
    }
  }

  lemma LaunchStep(s: State, a: Action)
    requires Enabled(s, a)
    ensures ToLaunch(s.loops) ==
            (if a == Loop(GoLoop) then [s.loops.starting.value] else []) + ToLaunch(Apply(s, a).loops)
    ensures a == Loop(GoLoop) ==> s.loops.starting.Some?
  {
    var l, l' := s.loops, Apply(s, a).loops;
    if a == Loop(AddLoop) {
      assert [l.toStart[0]] + l.toStart[1..] == [] + l.toStart;
      assert ToLaunch(l) == [] + ToLaunch(l');
    } else if a == Loop(GoLoop) {
      assert ToLaunch(l') == l.toStart;
    } else {
      assert ToLaunch(l') == ToLaunch(l);
    }
  }

  /** A started session has launched its stream loop, and ahead of it the datagram loop exactly if it accepts them. */
  lemma LoopsLaunched(acceptDatagrams: bool, actions: seq<Action>)
    requires Possible(Init(acceptDatagrams), actions) && Started(Run(Init(acceptDatagrams), actions).loops)
    ensures Launched(Init(acceptDatagrams), actions) ==
            (if acceptDatagrams then [DatagramLoop, UniLoop] else [UniLoop])
  {
    var launched := Launched(Init(acceptDatagrams), actions);
    LaunchedRun(Init(acceptDatagrams), actions);
    assert launched + [] == launched;
  }

  // ----- Who runs -----

  /** How many streams were accepted. */
  function Accepted(actions: seq<Action>): nat {
    if actions == [] then 0
    else Accepted(actions[..|actions| - 1]) + if actions[|actions| - 1] == Loop(Accept) then 1 else 0
  }

  /** The goroutine has finished. */
  predicate IsDone(g: Goroutine, actions: seq<Action>) {
    Loop(Finish(g)) in actions
  }

  /** The goroutine has been launched: a handler for each stream accepted, but for one that is about to be. */
  predicate IsLaunched(g: Goroutine, l: Loops, launched: seq<Goroutine>) {
    match g
    case Handler(n) => n < l.nextHandler
    case _ => g in launched
  }

  ghost predicate Tracked(l: Loops, done: seq<Action>, launched: seq<Goroutine>) {
    && Accepted(done) == l.nextHandler + (if l.accepting then 1 else 0)
    && (forall g :: g in l.live <==> IsLaunched(g, l, launched) && !IsDone(g, done))
    && (forall g :: IsDone(g, done) ==> IsLaunched(g, l, launched))
  }

  lemma TrackedStep(s: State, done: seq<Action>, launched: seq<Goroutine>, a: Action)
    requires Tracked(s.loops, done, launched) && Enabled(s, a)
    requires s.loops.starting.Some? ==> !s.loops.starting.value.Handler? && s.loops.starting.value !in launched
    ensures Tracked(Apply(s, a).loops, done + [a],
                    if a == Loop(GoLoop) then launched + [s.loops.starting.value] else launched)
  {
    hide DoStep, CanStep, Accepted;
    OneMore(done, a);
    assert forall g :: IsDone(g, done + [a]) <==> IsDone(g, done) || a == Loop(Finish(g));
    if a.Step? {
      StepOfNoLoop(s, a);
    }
  }

  lemma OneMore(done: seq<Action>, a: Action)
    ensures Accepted(done + [a]) == Accepted(done) + if a == Loop(Accept) then 1 else 0
  {
    assert (done + [a])[..|done|] == done;
  }

  lemma StepOfNoLoop(s: State, a: Action)
    requires Enabled(s, a) && a.Step?
    ensures Apply(s, a).loops == s.loops
  {
  }

  predicate Distinct(gs: seq<Goroutine>) {
    && (forall i, j :: 0 <= i < j < |gs| ==> gs[i] != gs[j])
    && (forall i :: 0 <= i < |gs| ==> !gs[i].Handler?)
  }

  lemma {:induction false} TrackedRun(s: State, done: seq<Action>, launched: seq<Goroutine>, later: seq<Action>)
    requires Possible(s, later) && Tracked(s.loops, done, launched) && Distinct(launched + ToLaunch(s.loops))
    ensures Tracked(Run(s, later).loops, done + later, launched + Launched(s, later))
    decreases |later|
  {
    hide Apply, Enabled, Tracked, Distinct, ToLaunch;
    if later == [] {
      assert done + later == done && launched + Launched(s, later) == launched;
    } else {
      var a, rest := later[0], later[1..];
      var s' := Apply(s, a);
      LaunchStep(s, a);
      NextIsNew(s.loops, launched);
      TrackedStep(s, done, launched, a);
      var more: seq<Goroutine> := if a == Loop(GoLoop) then [s.loops.starting.value] else [];
      Assoc(launched, more, ToLaunch(s'.loops));
      Assoc(launched, more, Launched(s', rest));
      assert launched + [] == launched && [] + Launched(s', rest) == Launched(s', rest);
      TrackedRun(s', done + [a], launched + more, rest);
      assert done + [a] + rest == done + later;
    }
  }

  lemma Assoc(a: seq<Goroutine>, b: seq<Goroutine>, c: seq<Goroutine>)
    ensures (a + b) + c == a + (b + c)
  {
  }

  lemma NextIsNew(l: Loops, launched: seq<Goroutine>)
    requires Distinct(launched + ToLaunch(l))
    ensures l.starting.Some? ==> !l.starting.value.Handler? && l.starting.value !in launched
  {
    var all := launched + ToLaunch(l);
    if l.starting.Some? {
      assert all[|launched|] == l.starting.value;
      assert forall i :: 0 <= i < |launched| ==> all[i] == launched[i];
    }
  }

  /**
   Every stream accepted gets one handler, and a goroutine is running exactly from its launch
   until it is done: the receive loops as `start` launches them, handler `n` for stream `n`.
   */
  lemma RunningIff(acceptDatagrams: bool, actions: seq<Action>)
    requires Possible(Init(acceptDatagrams), actions)
    ensures var l := Run(Init(acceptDatagrams), actions).loops;
            && Accepted(actions) == l.nextHandler + (if l.accepting then 1 else 0)
            && forall g :: g in l.live <==>
                 IsLaunched(g, l, Launched(Init(acceptDatagrams), actions)) && !IsDone(g, actions)
  {
    var s := Init(acceptDatagrams);
    assert Tracked(s.loops, [], []);
    TrackedRun(s, [], [], actions);
    assert [] + actions == actions && [] + Launched(s, actions) == Launched(s, actions);
  }

  /** So after Wait every goroutine that was ever launched is done, and every stream accepted was handled. */
  lemma AllDoneAfterWait(acceptDatagrams: bool, actions: seq<Action>, t: Tid, g: Goroutine)
    requires Possible(Init(acceptDatagrams), actions)
    requires var s := Run(Init(acceptDatagrams), actions); t in s.threads && s.threads[t].Done?
    ensures var l := Run(Init(acceptDatagrams), actions).loops;
            && Accepted(actions) == l.nextHandler
            && (IsLaunched(g, l, Launched(Init(acceptDatagrams), actions)) ==> IsDone(g, actions))
  {
    hide Possible, Run, Launched, IsLaunched, Accepted;
    var s := Run(Init(acceptDatagrams), actions);
    assert Reachable(s);
    assert Possible(s, []) by {
      NothingMore(s);
    }
    WaitIsFinal(s, t, []);
    RunningIff(acceptDatagrams, actions);
  }

  lemma NothingMore(s: State)
    ensures Possible(s, [])
  {
  }
}
