/** Matchings between rows and columns, kept as injective maps from row to column. */
module Matching {
  import opened Grid

  ghost predicate Injective(m: map<nat, nat>) {
    forall r, r' :: r in m && r' in m && m[r] == m[r'] ==> r == r'
  }

  /** The cells of a partial map from rows to columns. */
  ghost function CellsOf(m: map<nat, nat>): set<Cell> { set r | r in m :: Cell(r, m[r]) }

  lemma CellsPut(m: map<nat, nat>, r: nat, c: nat)
    ensures r !in m ==> CellsOf(m[r := c]) == CellsOf(m) + {Cell(r, c)}
    ensures r in m && m[r] != c ==> CellsOf(m[r := c]) == CellsOf(m) - {Cell(r, m[r])} + {Cell(r, c)}
  {
    var m' := m[r := c];
    forall p: Cell | r !in m || m[r] != c
      ensures p in CellsOf(m') <==> p == Cell(r, c) || (p in CellsOf(m) && p.row != r)
    {
      if p.row != r && p.row in m { assert m'[p.row] == m[p.row]; }
      if p.row == r { assert r in m'; }
    }
  }

  lemma StarPut(m: map<nat, nat>, r: nat, c: nat)
    requires Injective(m) && r !in m && c !in m.Values
    ensures Injective(m[r := c]) && m[r := c].Values == m.Values + {c}
  {
    var m' := m[r := c];
    assert m'[r] == c;
    forall x | x in m.Values ensures x in m'.Values {
      var k :| k in m && m[k] == x;
      assert m'[k] == x;
    }
  }

  lemma {:induction false} MatchingSize(m: map<nat, nat>)
    requires Injective(m)
    ensures |m| == |m.Values|
    decreases |m|
  {
    if m == map[] {
      assert m.Values == {};
    } else {
      var r :| r in m;
      var m' := m - {r};
      MatchingSize(m');
      assert m.Values == m'.Values + {m[r]} by {
        assert m[r] in m.Values;
        forall c | c in m'.Values + {m[r]} ensures c in m.Values {
          if c in m'.Values { var k :| k in m' && m'[k] == c; assert m[k] == c; }
        }
        forall c | c in m.Values ensures c in m'.Values + {m[r]} {
          var k :| k in m && m[k] == c;
          if k != r { assert k in m' && m'[k] == c; }
        }
      }
      assert m.Keys == m'.Keys + {r};
    }
  }

  /** Fewer than k lines leave some line out. */
  lemma MissingLine(s: set<nat>, k: nat) returns (i: nat)
    requires |s| < k
    ensures i < k && i !in s
  {
    if forall j: nat :: j < k ==> j in s {
      FullSize(s, k);
      assert false;
    }
    i :| i < k && i !in s;
  }

  lemma {:induction false} FullSize(s: set<nat>, k: nat)
    requires forall j: nat :: j < k ==> j in s
    ensures k <= |s|
  {
    if k > 0 {
      FullSize(s - {k - 1}, k - 1);
    }
  }

  lemma {:induction false} RangeSize(s: set<nat>, k: nat)
    requires forall i :: i in s ==> i < k
    ensures |s| <= k
    ensures |s| == k ==> forall i: nat :: i < k ==> i in s
  {
    if k == 0 {
      assert s == {};
    } else {
      RangeSize(s - {k - 1}, k - 1);
    }
  }
}
