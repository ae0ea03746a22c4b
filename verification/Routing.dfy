/**
 Which flow a packet goes to (session.go): claimed flows are registered, the others wait
 in the bounded buffer; claiming moves a flow from one to the other.
 */
module Routing {
  import opened Common
  import opened FlowBuffer

  /** `receiveFlows` and `receiveFlowBuffer`, over any kind of flow reference. */
  datatype Table<+F> = Table(registered: map<nat, F>, waiting: seq<Entry<F>>, maxLen: nat)

  function Lookup<F>(t: Table<F>, id: nat): Option<F> {
    if id in t.registered then Some(t.registered[id]) else Find(t.waiting, id)
  }

  /** `receiveFlow`; `novel` is the flow made if there is none. */
  function Route<F>(t: Table<F>, id: nat, novel: F): Table<F>
    requires t.maxLen > 0
  {
    if Lookup(t, id).Some? then t
    else t.(waiting := MakeRoom(t.waiting, t.maxLen) + [Entry(id, novel)])
  }

  /** The second half of `NewReceiveFlow`, under `receiveFlowsMutex`; not for registered IDs. */
  function Claim<F>(t: Table<F>, id: nat, novel: F): Table<F>
    requires id !in t.registered
  {
    var waits := Find(t.waiting, id);
    t.(registered := t.registered[id := if waits.Some? then waits.value else novel],
       waiting := Without(t.waiting, id))
  }

  /** An ID is registered or waiting, not both; none waits twice; no more wait than allowed. */
  predicate TableInv<F>(t: Table<F>) {
    && t.maxLen > 0 && |t.waiting| <= t.maxLen
    && Distinct(t.waiting)
    && (forall i :: 0 <= i < |t.waiting| ==> t.waiting[i].id !in t.registered)
  }

  // ----- Lists -----

  lemma {:induction false} FindAt<F>(l: seq<Entry<F>>, i: nat)
    requires i < |l| && Distinct(l)
    ensures Find(l, l[i].id) == Some(l[i].flow)
  {
    if i > 0 {
      FindAt(l[1..], i - 1);
    }
  }

  lemma {:induction false} FoundAt<F>(l: seq<Entry<F>>, id: nat) returns (i: nat)
    requires Find(l, id).Some?
    ensures i < |l| && l[i] == Entry(id, Find(l, id).value)
  {
    if l[0].id == id {
      i := 0;
    } else {
      i := FoundAt(l[1..], id);
      i := i + 1;
    }
  }

  lemma NotFound<F>(l: seq<Entry<F>>, id: nat)
    requires Distinct(l) && Find(l, id).None?
    ensures forall i :: 0 <= i < |l| ==> l[i].id != id
  {
  }

  // ----- The two operations -----

  /** After routing the ID leads to one flow: the one there was, or the new one; claimed flows stay registered. */
  lemma RouteKeeps<F>(t: Table<F>, id: nat, novel: F)
    requires TableInv(t)
    ensures var t' := Route(t, id, novel);
            && TableInv(t')
            && Lookup(t', id) == (if Lookup(t, id).Some? then Lookup(t, id) else Some(novel))
            && t'.registered == t.registered
  {
    if Lookup(t, id).None? {
      NotFound(t.waiting, id);
      var t' := Route(t, id, novel);
      FindAt(t'.waiting, |t'.waiting| - 1);
    }
  }

  /** Order of arrival: a new flow goes last, and none of the others moves but the first of a full list. */
  lemma RouteAppends<F>(t: Table<F>, id: nat, novel: F)
    requires TableInv(t) && Lookup(t, id).None?
    ensures var l := t.waiting;
            Route(t, id, novel).waiting == (if |l| < t.maxLen then l else l[1..]) + [Entry(id, novel)]
  {
  }

  /** Routing forgets a flow only if the buffer is full, and then only the oldest; maxLen - 1 newer ones stay. */
  lemma RouteEvictsOldest<F>(t: Table<F>, id: nat, novel: F, other: nat)
    requires TableInv(t) && Lookup(t, other).Some? && other != id
    ensures var t' := Route(t, id, novel);
            var full := Lookup(t, id).None? && |t.waiting| == t.maxLen;
            && (full ==> t'.waiting == t.waiting[1..] + [Entry(id, novel)] && |t'.waiting| == t.maxLen)
            && (if full && t.waiting[0].id == other then Lookup(t', other).None?
                else Lookup(t', other) == Lookup(t, other))
  {
    var t' := Route(t, id, novel);
    RouteKeeps(t, id, novel);
    if other !in t.registered && Lookup(t, id).None? {
      var i := FoundAt(t.waiting, other);
      FindAt(t.waiting, i);
      var dropped := |t.waiting| + 1 - |t'.waiting|;
      if dropped <= i {
        assert t'.waiting[i - dropped] == t.waiting[i];
        FindAt(t'.waiting, i - dropped);
      } else {
        Gone(t'.waiting, t.waiting, other, id, novel);
      }
    }
  }

  lemma Gone<F>(l': seq<Entry<F>>, l: seq<Entry<F>>, other: nat, id: nat, novel: F)
    requires Distinct(l) && l != [] && l[0].id == other != id && l' == l[1..] + [Entry(id, novel)]
    ensures Find(l', other).None?
  {
    assert forall i :: 0 <= i < |l| - 1 ==> l'[i] == l[i + 1];
    FindAbsent(l', other);
  }

  lemma {:induction false} FindAbsent<F>(l: seq<Entry<F>>, id: nat)
    requires forall i :: 0 <= i < |l| ==> l[i].id != id
    ensures Find(l, id).None?
  {
    if l != [] {
      FindAbsent(l[1..], id);
    }
  }

  /** Claiming registers the flow that was waiting, or the new one, and redirects no other ID. */
  lemma ClaimKeeps<F>(t: Table<F>, id: nat, novel: F)
    requires TableInv(t) && id !in t.registered
    ensures var t' := Claim(t, id, novel);
            && TableInv(t')
            && Lookup(t', id) == (if Lookup(t, id).Some? then Lookup(t, id) else Some(novel))
            && t'.registered == t.registered[id := if Lookup(t, id).Some? then Lookup(t, id).value else novel]
            && forall other :: other != id ==> Lookup(t', other) == Lookup(t, other)
  {
    var t' := Claim(t, id, novel);
    WithoutKeeps(t.waiting, id);
    forall other | other != id
      ensures Lookup(t', other) == Lookup(t, other)
    {
      FindWithout(t.waiting, id, other);
    }
  }

  lemma {:induction false} WithoutKeeps<F>(l: seq<Entry<F>>, id: nat)
    requires Distinct(l)
    ensures var l' := Without(l, id);
            && |l'| <= |l| && Distinct(l')
            && forall i :: 0 <= i < |l'| ==> l'[i] in l && l'[i].id != id
  {
    if Find(l, id).Some? {
      var i := FoundAt(l, id);
      WithoutAt(l, i);
      var l' := Without(l, id);
      assert forall j :: 0 <= j < |l'| ==> l'[j] == l[if j < i then j else j + 1];
    } else {
      NotFound(l, id);
      WithoutAbsent(l, id);
    }
  }

  lemma {:induction false} FindWithout<F>(l: seq<Entry<F>>, id: nat, other: nat)
    requires other != id
    ensures Find(Without(l, id), other) == Find(l, other)
  {
    if l != [] && l[0].id != id {
      FindWithout(l[1..], id, other);
      assert ([l[0]] + Without(l[1..], id))[1..] == Without(l[1..], id);
    }
  }
}
