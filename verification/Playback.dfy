/**
 From `WriteRTPBytes` on one side to `Read` on the other: the packets of a stream in the
 queue of the flow it names, with any number of goroutines at work on that flow.
 */
module Playback {
  import opened Common
  import opened Varint
  import opened Framing
  import opened SendStream
  import FM = FlowMachine
  import FS = FlowSafety

  predicate IsPush(a: FM.Action) {
    a.Produces? && a.p.Push?
  }

  function PacketOf(s: FM.State, a: FM.Action): seq<byte>
    requires FM.Enabled(s, a) && IsPush(a)
  {
    s.content[s.threads[a.t].buf]
  }

  /** The packets pushed in a run, in order, whether the flow queues or drops them. */
  function Pushes(s: FM.State, actions: seq<FM.Action>): seq<seq<byte>>
    requires FM.Possible(s, actions)
    decreases |actions|
  {
    if actions == [] then []
    else
      var rest := Pushes(FM.Apply(s, actions[0]), actions[1..]);
      if IsPush(actions[0]) then [PacketOf(s, actions[0])] + rest else rest
  }

  /** Every push finds the flow open and with room. */
  predicate NoneDropped(s: FM.State, actions: seq<FM.Action>)
    requires FM.Possible(s, actions)
    decreases |actions|
  {
    actions == [] ||
    (&& (IsPush(actions[0]) ==> FM.Queues(s.flow))
     && NoneDropped(FM.Apply(s, actions[0]), actions[1..]))
  }

  /** One step: only a push adds a packet, only `closeBuffer` closes. */
  predicate Accepts(s: FM.State, a: FM.Action, s': FM.State)
    requires FM.Enabled(s, a)
  {
    && s'.accepted == (if IsPush(a) && FM.Queues(s.flow) then s.accepted + [PacketOf(s, a)] else s.accepted)
    && s'.flow.capacity == s.flow.capacity
    && (s'.flow.closed ==> s.flow.closed || ClosesQueue(a))
  }

  lemma AcceptStep(s: FM.State, a: FM.Action)
    requires FM.Enabled(s, a)
    ensures Accepts(s, a, FM.Apply(s, a))
  {
    hide FM.SetDeadline, FM.Fire, FM.DoRead, FM.DoProduce, FM.DoClose;
    match a
    case Reads(t, r) => AcceptRead(s, t, r);
    case Produces(t, p) => AcceptProduce(s, t, p);
    case Closes(t, c) => AcceptClose(s, t, c);
    case _ =>
  }

  lemma AcceptRead(s: FM.State, t: Tid, r: FM.ReadStep)
    requires t in s.threads && FM.CanRead(s, t, r)
    ensures Accepts(s, FM.Reads(t, r), FM.DoRead(s, t, r))
  {
  }

  lemma AcceptProduce(s: FM.State, t: Tid, p: FM.ProduceStep)
    requires t in s.threads && FM.CanProduce(s, t, p)
    ensures Accepts(s, FM.Produces(t, p), FM.DoProduce(s, t, p))
  {
  }

  lemma AcceptClose(s: FM.State, t: Tid, c: FM.CloseStep)
    requires t in s.threads && FM.CanClose(s, t, c)
    ensures Accepts(s, FM.Closes(t, c), FM.DoClose(s, t, c))
  {
  }

  /** The flow accepts what is pushed, all of it and in order, if and only if no push finds it closed or full. */
  lemma {:induction false} AcceptedIff(s: FM.State, actions: seq<FM.Action>)
    requires FM.Possible(s, actions)
    ensures |FM.Run(s, actions).accepted| <= |s.accepted| + |Pushes(s, actions)|
    ensures FM.Run(s, actions).accepted == s.accepted + Pushes(s, actions) <==> NoneDropped(s, actions)
    decreases |actions|
  {
    hide FM.Apply, FM.Enabled, FM.Queues;
    if actions != [] {
      var a := actions[0];
      var s' := FM.Apply(s, a);
      AcceptStep(s, a);
      AcceptedIff(s', actions[1..]);
      if IsPush(a) && FM.Queues(s.flow) {
        ConcatAssoc(s.accepted, [PacketOf(s, a)], Pushes(s', actions[1..]));
      }
    }
  }

  predicate ClosesQueue(a: FM.Action) {
    a.Closes? && a.c.CloseQueue?
  }

  /** No push comes after the flow is closed. */
  predicate ClosedLast(actions: seq<FM.Action>) {
    forall i, j :: 0 <= i < j < |actions| && ClosesQueue(actions[i]) ==> !IsPush(actions[j])
  }

  /** A queue with room for all packets, and not closed before them, drops none. */
  lemma {:induction false} CapacitySuffices(s: FM.State, actions: seq<FM.Action>)
    requires FS.Inv(s) && FM.Possible(s, actions) && ClosedLast(actions)
    requires s.flow.closed ==> forall i :: 0 <= i < |actions| ==> !IsPush(actions[i])
    requires |s.accepted| + |Pushes(s, actions)| <= s.flow.capacity
    ensures NoneDropped(s, actions)
    decreases |actions|
  {
    hide FS.Inv, FM.Apply, FM.Enabled;
    if actions != [] {
      var a, rest := actions[0], actions[1..];
      FS.InvStep(s, a);
      AcceptStep(s, a);
      assert forall i :: 0 <= i < |rest| ==> rest[i] == actions[i + 1];
      if IsPush(a) {
        RoomLeft(s);
      }
      CapacitySuffices(FM.Apply(s, a), rest);
    }
  }

  lemma RoomLeft(s: FM.State)
    requires FS.Inv(s) && !s.flow.closed && |s.accepted| < s.flow.capacity
    ensures FM.Queues(s.flow)
  {
  }

  // ----- Reading -----

  /** Whoever took packet `i` off the queue, with room for it, has returned exactly that packet. */
  predicate ReadsBack(s: FM.State, ps: seq<seq<byte>>) {
    && |s.takers| <= |ps|
    && forall i :: 0 <= i < |s.takers| ==>
         && s.takers[i] in s.threads
         && var pc := s.threads[s.takers[i]];
            pc.ReadDone? ==>
              pc.result == if |ps[i]| <= pc.room then FM.Delivered(ps[i], i) else FM.TooShort(i)
  }

  /** Nothing is queued, and every packet went to a Read that had room for it and has returned. */
  predicate AllServed(s: FM.State) {
    && s.flow.queue == []
    && forall i :: 0 <= i < |s.takers| && i < |s.accepted| && s.takers[i] in s.threads ==>
         s.threads[s.takers[i]].ReadDone? && |s.accepted[i]| <= s.threads[s.takers[i]].room
  }

  lemma TakersReadBack(s: FM.State)
    requires FS.Reachable(s)
    ensures ReadsBack(s, s.accepted)
  {
    hide FS.Reachable;
    FS.QueueHistory(s);
  }

  // ----- One stream among others -----

  predicate IsPushBy(a: FM.Action, t: Tid) {
    IsPush(a) && a.t == t
  }

  /** What goroutine `t` pushes, in order, whether the flow queues or drops it. */
  function PushesBy(s: FM.State, actions: seq<FM.Action>, t: Tid): seq<seq<byte>>
    requires FM.Possible(s, actions)
    decreases |actions|
  {
    if actions == [] then []
    else
      var rest := PushesBy(FM.Apply(s, actions[0]), actions[1..], t);
      if IsPushBy(actions[0], t) then [PacketOf(s, actions[0])] + rest else rest
  }

  /** Which of its pushes, counted from `n`, are queued, and where among all packets the flow accepts. */
  datatype Place = Place(push: nat, at: nat)

  function Places(s: FM.State, actions: seq<FM.Action>, t: Tid, n: nat): seq<Place>
    requires FM.Possible(s, actions)
    decreases |actions|
  {
    if actions == [] then []
    else
      var s', rest := FM.Apply(s, actions[0]), actions[1..];
      if !IsPushBy(actions[0], t) then Places(s', rest, t, n)
      else if !FM.Queues(s.flow) then Places(s', rest, t, n + 1)
      else [Place(n, |s.accepted|)] + Places(s', rest, t, n + 1)
  }

  /** Later pushes come later. */
  predicate InOrder(ps: seq<Place>) {
    forall i, j :: 0 <= i < j < |ps| ==> ps[i].push < ps[j].push && ps[i].at < ps[j].at
  }

  /** Every place holds the packet of that push. */
  predicate Holds(ps: seq<Place>, pushed: seq<seq<byte>>, n: nat, accepted: seq<seq<byte>>) {
    forall i :: 0 <= i < |ps| ==>
      && n <= ps[i].push < n + |pushed| && ps[i].at < |accepted|
      && accepted[ps[i].at] == pushed[ps[i].push - n]
  }

  /** Every push of `t` finds the flow open and with room. */
  predicate NoneDroppedBy(s: FM.State, actions: seq<FM.Action>, t: Tid)
    requires FM.Possible(s, actions)
    decreases |actions|
  {
    actions == [] ||
    (&& (IsPushBy(actions[0], t) ==> FM.Queues(s.flow))
     && NoneDroppedBy(FM.Apply(s, actions[0]), actions[1..], t))
  }

  /** In order, from push `n` and place `from` on, each place holding its packet. */
  predicate WellPlaced(ps: seq<Place>, pushed: seq<seq<byte>>, n: nat, from: nat, accepted: seq<seq<byte>>) {
    InOrder(ps) && Holds(ps, pushed, n, accepted) && forall i :: 0 <= i < |ps| ==> from <= ps[i].at
  }

  lemma PlacedFirst(ps: seq<Place>, p: seq<byte>, pushed: seq<seq<byte>>, n: nat, from: nat, accepted: seq<seq<byte>>)
    requires WellPlaced(ps, pushed, n + 1, from + 1, accepted) && from < |accepted| && accepted[from] == p
    ensures WellPlaced([Place(n, from)] + ps, [p] + pushed, n, from, accepted)
  {
  }

  lemma DroppedFirst(ps: seq<Place>, p: seq<byte>, pushed: seq<seq<byte>>, n: nat, from: nat, accepted: seq<seq<byte>>)
    requires WellPlaced(ps, pushed, n + 1, from, accepted)
    ensures WellPlaced(ps, [p] + pushed, n, from, accepted)
  {
  }

  lemma PlacedLater(ps: seq<Place>, pushed: seq<seq<byte>>, n: nat, from: nat, to: nat, accepted: seq<seq<byte>>)
    requires WellPlaced(ps, pushed, n, to, accepted) && from <= to
    ensures WellPlaced(ps, pushed, n, from, accepted)
  {
  }

  /**
   Whoever else pushes meanwhile, what goroutine `t` pushes is accepted in its order, each
   packet at most once; and all of it if and only if no push of its own is dropped.
   */
  lemma {:induction false} PlacesSound(s: FM.State, actions: seq<FM.Action>, t: Tid, n: nat)
    requires FM.Possible(s, actions)
    ensures var ps, pushed := Places(s, actions, t, n), PushesBy(s, actions, t);
            && s.accepted <= FM.Run(s, actions).accepted
            && WellPlaced(ps, pushed, n, |s.accepted|, FM.Run(s, actions).accepted)
            && |ps| <= |pushed| && (|ps| == |pushed| <==> NoneDroppedBy(s, actions, t))
    decreases |actions|
  {
    hide FM.Apply, FM.Enabled, FM.Queues, WellPlaced, Accepts;
    if actions == [] {
      NonePlaced(n, s.accepted);
    } else {
      var a, rest, accepted := actions[0], actions[1..], FM.Run(s, actions).accepted;
      var s' := FM.Apply(s, a);
      var n' := if IsPushBy(a, t) then n + 1 else n;
      var ps, pushed := Places(s', rest, t, n'), PushesBy(s', rest, t);
      PlacesSound(s', rest, t, n');
      AcceptsMore(s, a);
      if !IsPushBy(a, t) {
        PlacedLater(ps, pushed, n, |s.accepted|, |s'.accepted|, accepted);
      } else if !FM.Queues(s.flow) {
        DroppedFirst(ps, PacketOf(s, a), pushed, n, |s.accepted|, accepted);
      } else {
        assert accepted[|s.accepted|] == s'.accepted[|s.accepted|];
        PlacedFirst(ps, PacketOf(s, a), pushed, n, |s.accepted|, accepted);
      }
    }
  }

  lemma NonePlaced(n: nat, accepted: seq<seq<byte>>)
    ensures WellPlaced([], [], n, |accepted|, accepted)
  {
  }

  lemma AcceptsMore(s: FM.State, a: FM.Action)
    requires FM.Enabled(s, a)
    ensures var s' := FM.Apply(s, a);
            && s.accepted <= s'.accepted
            && (IsPush(a) ==> s'.accepted == if FM.Queues(s.flow) then s.accepted + [PacketOf(s, a)] else s.accepted)
  {
    hide FM.Apply, FM.Enabled, FM.Queues;
    AcceptStep(s, a);
  }

  predicate Consecutive(ps: seq<Place>, n: nat) {
    forall i :: 0 <= i < |ps| ==> ps[i].push == n + i
  }

  /** If all are queued, the `k`-th place is that of the `k`-th push. */
  lemma {:induction false} PlacesComplete(s: FM.State, actions: seq<FM.Action>, t: Tid, n: nat)
    requires FM.Possible(s, actions) && NoneDroppedBy(s, actions, t)
    ensures Consecutive(Places(s, actions, t, n), n)
    decreases |actions|
  {
    hide FM.Apply, FM.Enabled, FM.Queues;
    if actions != [] {
      var a, rest := actions[0], actions[1..];
      var n' := if IsPushBy(a, t) then n + 1 else n;
      PlacesComplete(FM.Apply(s, a), rest, t, n');
    }
  }

  /** No place is taken twice. */
  lemma {:induction false} PlacesApart(s: FM.State, actions: seq<FM.Action>, t: Tid, n: nat, u: Tid, m: nat)
    requires FM.Possible(s, actions) && t != u
    ensures var ps, qs := Places(s, actions, t, n), Places(s, actions, u, m);
            forall i, j :: 0 <= i < |ps| && 0 <= j < |qs| ==> ps[i].at != qs[j].at
    decreases |actions|
  {
    hide FM.Apply, FM.Enabled, FM.Queues;
    if actions != [] {
      var a, rest := actions[0], actions[1..];
      var s' := FM.Apply(s, a);
      var n', m' := if IsPushBy(a, t) then n + 1 else n, if IsPushBy(a, u) then m + 1 else m;
      AcceptStep(s, a);
      PlacesSound(s', rest, t, n');
      PlacesSound(s', rest, u, m');
      PlacesApart(s', rest, t, n', u, m');
    }
  }

  /** Goroutine `t` pushes what a session parses from the bytes of a stream, as far as it has got. */
  predicate Feeds(s: FM.State, actions: seq<FM.Action>, t: Tid, bytes: seq<byte>, end: Ending)
    requires FM.Possible(s, actions)
  {
    var got := Receive(bytes, end);
    got.Routed? && PushesBy(s, actions, t) <= Payloads(got.readout.frames)
  }

  /**
   Application to application. A stream is written by `WriteRTPBytes` under any schedule of
   writes, and the peer gets any part of what is on the wire; one goroutine reads it into a
   flow that any number of others push to, read, evict and close. At every moment of every
   interleaving, of the packets the sender accepted those the peer got are queued in their
   order, each at most once, and all of them if and only if all have been pushed and none of
   these pushes was dropped; and the Reads return what is queued.
   */
  lemma SentIsRead(id: FlowID, script: seq<WriteOutcome>, packets: seq<Packet>, n: nat, end: Ending,
                   capacity: nat, actions: seq<FM.Action>, t: Tid)
    requires n <= |SendAll(Fresh(id, script), packets).sender.wire|
    requires FM.Possible(FM.Init(capacity), actions)
    requires Feeds(FM.Init(capacity), actions, t, SendAll(Fresh(id, script), packets).sender.wire[..n], end)
    ensures var r, s := SendAll(Fresh(id, script), packets), FM.Run(FM.Init(capacity), actions);
            var ps := Places(FM.Init(capacity), actions, t, 0);
            && Len(id) <= n
            && var sent := Delivery(r.accepted, n - Len(id), end);
               && WellPlaced(ps, sent, 0, 0, s.accepted) && ReadsBack(s, s.accepted)
               && (|ps| == |sent| <==>
                   && |PushesBy(FM.Init(capacity), actions, t)| == |sent|
                   && NoneDroppedBy(FM.Init(capacity), actions, t))
               && (n == |r.sender.wire| && r.sender.pending == [] && r.accepted != [] ==> sent == r.accepted)
  {
    hide FM.Possible, FM.Run, FM.Apply, FM.Enabled, Receive, Delivery, SendAll, PushesBy, Places, NoneDroppedBy,
         WellPlaced;
    var s := FM.Run(FM.Init(capacity), actions);
    EndToEndCut(id, script, packets, n, end);
    WholeWire(id, script, packets, end);
    PlacesSound(FM.Init(capacity), actions, t, 0);
    var r, pushed := SendAll(Fresh(id, script), packets), PushesBy(FM.Init(capacity), actions, t);
    MoreToPush(Places(FM.Init(capacity), actions, t, 0), pushed, Delivery(r.accepted, n - Len(id), end), s.accepted);
    assert FS.Reachable(s);
    TakersReadBack(s);
  }

  lemma MoreToPush(ps: seq<Place>, pushed: seq<seq<byte>>, all: seq<seq<byte>>, accepted: seq<seq<byte>>)
    requires WellPlaced(ps, pushed, 0, 0, accepted) && pushed <= all
    ensures WellPlaced(ps, all, 0, 0, accepted)
  {
  }

  /** When nothing is owed and everything arrives, what is delivered is what was accepted. */
  lemma WholeWire(id: FlowID, script: seq<WriteOutcome>, packets: seq<Packet>, end: Ending)
    ensures var r := SendAll(Fresh(id, script), packets);
            r.sender.pending == [] && r.accepted != [] ==>
              |r.sender.wire| >= Len(id) && Delivery(r.accepted, |r.sender.wire| - Len(id), end) == r.accepted
  {
    hide SendAll, Delivery;
    var r := SendAll(Fresh(id, script), packets);
    RunConsistent(id, script, packets);
    if r.sender.pending == [] && r.accepted != [] {
      assert r.sender.wire + [] == r.sender.wire;
      DeliveryIsPrefix(r.accepted, |r.sender.wire| - Len(id), end);
    }
  }

  /** The Read that took the `i`-th packet the flow accepted has returned `p`. */
  predicate Returned(s: FM.State, i: nat, p: seq<byte>) {
    && i < |s.takers| && s.takers[i] in s.threads
    && var pc := s.threads[s.takers[i]];
       pc.ReadDone? && pc.result == FM.Delivered(p, i)
  }

  lemma Served(s: FM.State)
    requires FS.Reachable(s) && AllServed(s)
    ensures |s.takers| == |s.accepted| && forall i :: 0 <= i < |s.accepted| ==> Returned(s, i, s.accepted[i])
  {
    hide FS.Reachable;
    FS.QueueHistory(s);
  }

  /**
   A flushed stream that arrives whole, on a flow with room for all packets it is ever given
   and not closed before them: once nothing is queued and all Reads have returned, every
   packet the sender accepted has been returned by one Read, in their order, whatever other
   streams and datagrams brought.
   */
  lemma StreamAllRead(id: FlowID, script: seq<WriteOutcome>, packets: seq<Packet>, end: Ending,
                      capacity: nat, actions: seq<FM.Action>, t: Tid)
    requires var r := SendAll(Fresh(id, script), packets); r.sender.pending == [] && r.accepted != []
    requires FM.Possible(FM.Init(capacity), actions) && ClosedLast(actions)
    requires |Pushes(FM.Init(capacity), actions)| <= capacity
    requires Feeds(FM.Init(capacity), actions, t, SendAll(Fresh(id, script), packets).sender.wire, end)
    requires |PushesBy(FM.Init(capacity), actions, t)| == |SendAll(Fresh(id, script), packets).accepted|
    requires AllServed(FM.Run(FM.Init(capacity), actions))
    ensures var r, s := SendAll(Fresh(id, script), packets), FM.Run(FM.Init(capacity), actions);
            var ps := Places(FM.Init(capacity), actions, t, 0);
            && |ps| == |r.accepted| && InOrder(ps)
            && forall k :: 0 <= k < |ps| ==> Returned(s, ps[k].at, r.accepted[k])
  {
    hide FM.Possible, FM.Run, FM.Apply, FM.Enabled, Receive, Delivery, SendAll, PushesBy, Pushes, Places, NoneDroppedBy,
         NoneDropped, InOrder, ClosedLast, FS.Inv, ReadsBack, AllServed, Returned;
    var i, s := FM.Init(capacity), FM.Run(FM.Init(capacity), actions);
    var wire := SendAll(Fresh(id, script), packets).sender.wire;
    assert wire[..|wire|] == wire;
    SentIsRead(id, script, packets, |wire|, end, capacity, actions, t);
    InitInv(capacity);
    CapacitySuffices(i, actions);
    DropsNone(i, actions, t);
    PlacesComplete(i, actions, t, 0);
    assert FS.Reachable(s);
    Served(s);
  }

  lemma InitInv(capacity: nat)
    ensures FS.Inv(FM.Init(capacity)) && FM.Init(capacity).accepted == [] && !FM.Init(capacity).flow.closed
    ensures FM.Init(capacity).flow.capacity == capacity
  {
  }

  lemma {:induction false} DropsNone(s: FM.State, actions: seq<FM.Action>, t: Tid)
    requires FM.Possible(s, actions) && NoneDropped(s, actions)
    ensures NoneDroppedBy(s, actions, t)
    decreases |actions|
  {
    hide FM.Apply, FM.Enabled;
    if actions != [] {
      DropsNone(FM.Apply(s, actions[0]), actions[1..], t);
    }
  }

  /** The corollary for a flow that a single stream feeds: the Reads return its packets and no others. */
  lemma EveryPacketRead(id: FlowID, script: seq<WriteOutcome>, packets: seq<Packet>, end: Ending,
                        capacity: nat, actions: seq<FM.Action>, t: Tid)
    requires var r := SendAll(Fresh(id, script), packets);
             r.sender.pending == [] && r.accepted != [] && |r.accepted| <= capacity
    requires FM.Possible(FM.Init(capacity), actions) && ClosedLast(actions)
    requires Feeds(FM.Init(capacity), actions, t, SendAll(Fresh(id, script), packets).sender.wire, end)
    requires |PushesBy(FM.Init(capacity), actions, t)| == |SendAll(Fresh(id, script), packets).accepted|
    requires Pushes(FM.Init(capacity), actions) == PushesBy(FM.Init(capacity), actions, t)
    requires AllServed(FM.Run(FM.Init(capacity), actions))
    ensures var r, s := SendAll(Fresh(id, script), packets), FM.Run(FM.Init(capacity), actions);
            && |s.takers| == |r.accepted|
            && forall k :: 0 <= k < |r.accepted| ==> Returned(s, k, r.accepted[k])
  {
    hide FM.Possible, FM.Run, FM.Apply, FM.Enabled, Receive, Delivery, SendAll, Pushes, PushesBy, NoneDropped,
         ClosedLast, FS.Inv, ReadsBack, AllServed, Returned;
    var i, s := FM.Init(capacity), FM.Run(FM.Init(capacity), actions);
    var wire := SendAll(Fresh(id, script), packets).sender.wire;
    assert wire[..|wire|] == wire;
    SentIsRead(id, script, packets, |wire|, end, capacity, actions, t);
    EndToEndCut(id, script, packets, |wire|, end);
    InitInv(capacity);
    CapacitySuffices(i, actions);
    AcceptedIff(i, actions);
    assert s.accepted == Pushes(i, actions);
    assert FS.Reachable(s);
    Served(s);
  }

  /**
   And they can be read: in any reachable state with a packet queued and no deadline
   expired, a Read with room for it that is left to itself returns the next packet.
   */
  lemma NextRead(s: FM.State, t: Tid, room: nat)
    requires FS.Reachable(s) && s.flow.queue != [] && !s.flow.deadline.expired && t !in s.threads
    requires |s.takers| < |s.accepted| ==> |s.accepted[|s.takers|]| <= room
    ensures var actions := [FM.Spawn(t, FM.ReadStart(room))] + ([FM.Reads(t, FM.Snapshot)] +
                             ([FM.Reads(t, FM.Take)] + ([FM.Reads(t, FM.Copy)] + ([FM.Reads(t, FM.PutBack)] + []))));
            && |s.takers| < |s.accepted|
            && FM.Possible(s, actions)
            && var s' := FM.Run(s, actions);
               && t in s'.threads && s'.takers == s.takers + [t] && s'.accepted == s.accepted
               && s'.flow.queue == s.flow.queue[1..]
               && s'.threads[t] == FM.ReadDone(room, FM.Delivered(s.accepted[|s.takers|], |s.takers|))
  {
    hide FS.Reachable;
    FS.QueueHistory(s);
    var s1 := FM.Apply(s, FM.Spawn(t, FM.ReadStart(room)));
    var s2 := FM.Apply(s1, FM.Reads(t, FM.Snapshot));
    var s3 := FM.Apply(s2, FM.Reads(t, FM.Take));
    var s4 := FM.Apply(s3, FM.Reads(t, FM.Copy));
    FS.RunOne(s4, FM.Reads(t, FM.PutBack), []);
    FS.RunOne(s3, FM.Reads(t, FM.Copy), [FM.Reads(t, FM.PutBack)] + []);
    FS.RunOne(s2, FM.Reads(t, FM.Take), [FM.Reads(t, FM.Copy)] + ([FM.Reads(t, FM.PutBack)] + []));
    FS.RunOne(s1, FM.Reads(t, FM.Snapshot),
              [FM.Reads(t, FM.Take)] + ([FM.Reads(t, FM.Copy)] + ([FM.Reads(t, FM.PutBack)] + [])));
    FS.RunOne(s, FM.Spawn(t, FM.ReadStart(room)),
              [FM.Reads(t, FM.Snapshot)] +
              ([FM.Reads(t, FM.Take)] + ([FM.Reads(t, FM.Copy)] + ([FM.Reads(t, FM.PutBack)] + []))));
  }
}
