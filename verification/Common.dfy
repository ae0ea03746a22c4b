/** What several models share. */
module Common {
  datatype Option<+T> = None | Some(value: T)

  // Error codes (errors.go)
  const ERR_ROQ_NO_ERROR: nat := 0
  const ERR_ROQ_PACKET_ERROR: nat := 3

  /** Calls, or goroutines: any number of them. */
  type Tid = nat

  /** There is always one more. */
  lemma Unused(s: set<nat>) returns (n: nat)
    ensures n !in s
  {
    n := 0;
    var below: set<nat> := {};
    while n in s
      invariant below <= s && |below| == n
      invariant forall x: nat :: x in below <==> x < n
      decreases |s| - n
    {
      below := below + {n};
      SubsetSize(below, s);
      n := n + 1;
    }
  }

  lemma SubsetSize<T>(a: set<T>, b: set<T>)
    requires a <= b
    ensures |a| <= |b|
  {
    if a != {} {
      var x :| x in a;
      SubsetSize(a - {x}, b - {x});
    }
  }

  lemma Member<T>(s: set<T>) returns (x: T)
    requires s != {}
    ensures x in s
  {
    x :| x in s;
  }
}
