module Collections {
  lemma Member<T>(a: set<T>) returns (x: T)
    requires a != {}
    ensures x in a
  {
    x :| x in a;
  }

  lemma {:induction false} SubsetSize<T>(a: set<T>, b: set<T>)
    requires a <= b
    ensures |a| <= |b|
  {
    if a != {} {
      var x :| x in a;
      SubsetSize(a - {x}, b - {x});
    }
  }

  // ----- positions in a list

  /** Positions below n, in order. */
  predicate Positions(at: seq<nat>, n: nat) {
    (forall i, j :: 0 <= i < j < |at| ==> at[i] < at[j]) && forall i :: 0 <= i < |at| ==> at[i] < n
  }

  lemma NoPositions()
    ensures Positions([], 0)
  {
  }

  lemma MorePositions(p: seq<nat>, n: nat, b: bool) returns (at: seq<nat>)
    requires Positions(p, n)
    ensures at == (if b then p + [n] else p) && Positions(at, n + 1)
    ensures forall x: nat :: x in at <==> x in p || (b && x == n)
    ensures n !in p && forall i :: 0 <= i < |p| ==> p[i] < n
  {
    at := if b then p + [n] else p;
  }

  lemma PositionOf(at: seq<nat>, n: nat) returns (i: nat)
    requires n in at
    ensures i < |at| && at[i] == n
  {
    i :| 0 <= i < |at| && at[i] == n;
  }

  /** Positions of positions. */
  lemma ComposedPositions(p: seq<nat>, q: seq<nat>, n: nat) returns (at: seq<nat>)
    requires Positions(p, n) && Positions(q, |p|)
    ensures Positions(at, n) && |at| == |q| && forall j :: 0 <= j < |q| ==> at[j] == p[q[j]]
    ensures forall x :: x in at ==> x in p
    ensures forall i :: 0 <= i < |p| ==> (p[i] in at <==> i in q)
  {
    at := seq(|q|, j requires 0 <= j < |q| => p[q[j]]);
    forall i | 0 <= i < |p| ensures p[i] in at <==> i in q {
      if i in q { var j := PositionOf(q, i); assert at[j] == p[i]; }
      if p[i] in at { var j := PositionOf(at, p[i]); assert q[j] == i; }
    }
  }
}
