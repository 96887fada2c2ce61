/** The state between two steps of the Munkres solver, and what each step keeps. */
module Tableaux {
  import opened Collections
  import opened Grid
  import opened Matching
  import opened Assignment

  /** The reduced cost buffer `d` with the row and column potentials it is reduced by. */
  datatype Duals = Duals(rows: nat, cols: nat, eps: real, d: seq<real>, u: seq<real>, v: seq<real>) {

    function D(r: nat, c: nat): real { At(rows, d, r, c) }

    /** Reduced costs are non-negative and differ from the costs by the potentials. */
    ghost predicate Reduced(cost: seq<seq<real>>) {
      && eps > 0.0 && Shape(rows, cols, cost) && |u| == rows && |v| == cols
      && forall r: nat, c: nat :: r < rows && c < cols ==> 0.0 <= D(r, c) == cost[r][c] - u[r] - v[c]
    }

    /** The larger side has non-positive potentials, zero on lines without a star. */
    ghost predicate Signed(starRows: set<nat>, starCols: set<nat>) {
      && |u| == rows && |v| == cols
      && (rows <= cols ==> forall c :: 0 <= c < cols ==> v[c] <= 0.0 && (c !in starCols ==> v[c] == 0.0))
      && (rows > cols ==> forall r :: 0 <= r < rows ==> u[r] <= 0.0 && (r !in starRows ==> u[r] == 0.0))
    }

    ghost predicate TightCell(p: Cell) { p.row < rows && p.col < cols && D(p.row, p.col) < eps }

    ghost predicate Tight(cells: set<Cell>) { forall p :: p in cells ==> TightCell(p) }
  }

  /** The primed column of a row and when the row was primed. */
  datatype Prime = Prime(col: nat, time: nat)

  ghost function PrimeCells(primes: map<nat, Prime>): set<Cell> { set r | r in primes :: Cell(r, primes[r].col) }

  /** Every star has exactly one of its two lines covered, and only starred lines are covered. */
  ghost predicate Covered(star: map<nat, nat>, rowCover: set<nat>, colCover: set<nat>) {
    && rowCover <= star.Keys && colCover <= star.Values
    && forall r :: r in star ==> (r in rowCover) != (star[r] in colCover)
  }

  /** A star in the column of a prime lies in a row primed earlier. */
  ghost predicate PrimeOrder(star: map<nat, nat>, primes: map<nat, Prime>) {
    && (forall r :: r in primes ==> primes[r].time < |primes|)
    && forall r, s :: r in primes && s in star && star[s] == primes[r].col ==>
                        s in primes && primes[s].time < primes[r].time
  }

  datatype Tableau = Tableau(
    duals: Duals, star: map<nat, nat>, primes: map<nat, Prime>, rowCover: set<nat>, colCover: set<nat>)
  {
    function Lines(): nat { Min(duals.rows, duals.cols) }

    ghost predicate Open(r: nat, c: nat) {
      r < duals.rows && c < duals.cols && r !in rowCover && c !in colCover
    }

    /** What every step keeps. */
    ghost predicate Sound(cost: seq<seq<real>>) {
      && duals.Reduced(cost) && duals.Signed(star.Keys, star.Values)
      && Injective(star) && duals.Tight(CellsOf(star)) && duals.Tight(PrimeCells(primes))
    }

    /** Entry of step 2b: the starred columns are covered and nothing else is. */
    ghost predicate Ready(cost: seq<seq<real>>) {
      && Sound(cost) && primes == map[] && rowCover == {} && colCover == star.Values
    }

    /** Entry of steps 3 and 5. */
    ghost predicate Searching(cost: seq<seq<real>>) {
      && Sound(cost) && Covered(star, rowCover, colCover) && PrimeOrder(star, primes) && primes.Keys == rowCover
      && (forall r :: r in primes ==> primes[r].col !in colCover)
      && |star| < Lines()
    }

    /** Entry of step 4: row `row` was primed last and has no star. */
    ghost predicate Augmenting(cost: seq<seq<real>>, row: nat) {
      && Sound(cost) && colCover <= star.Values && PrimeOrder(star, primes)
      && row in primes && row !in star && |star| < Lines()
    }

    /** Every line of the smaller side has a star. */
    ghost predicate Solved(cost: seq<seq<real>>) {
      Sound(cost) && |star| == Lines()
    }
  }

  // ----- step 3

  /** Priming a cell. */
  function MarkPrime(t: Tableau, row: nat, col: nat): Tableau {
    t.(primes := t.primes[row := Prime(col, |t.primes|)])
  }

  /** Covering the row of a new prime and uncovering the column of the row's star. */
  function CoverRow(t: Tableau, row: nat, col: nat, starCol: nat): Tableau {
    MarkPrime(t, row, col).(rowCover := t.rowCover + {row}, colCover := t.colCover - {starCol})
  }

  lemma PrimeCellsPut(t: Tableau, row: nat, col: nat)
    requires row !in t.primes
    ensures PrimeCells(MarkPrime(t, row, col).primes) == PrimeCells(t.primes) + {Cell(row, col)}
  {
    var t' := MarkPrime(t, row, col);
    forall p: Cell
      ensures p in PrimeCells(t'.primes) <==> p == Cell(row, col) || p in PrimeCells(t.primes)
    {
      if p.row != row && p.row in t.primes { assert t'.primes[p.row] == t.primes[p.row]; }
      if p.row == row { assert row in t'.primes; }
    }
  }

  /** A new prime is below no star, or below a star whose row was primed earlier. */
  lemma MarkPrimeKeeps(cost: seq<seq<real>>, t: Tableau, row: nat, col: nat)
    requires t.Searching(cost) && t.Open(row, col) && t.duals.TightCell(Cell(row, col))
    ensures MarkPrime(t, row, col).Sound(cost)
    ensures PrimeOrder(t.star, MarkPrime(t, row, col).primes)
  {
    PrimeCellsPut(t, row, col);
    var t' := MarkPrime(t, row, col);
    forall r, s | r in t'.primes && s in t'.star && t'.star[s] == t'.primes[r].col
      ensures s in t'.primes && t'.primes[s].time < t'.primes[r].time
    {
      if r == row {
        assert s in t.rowCover;
      }
    }
  }

  lemma CoverRowKeeps(cost: seq<seq<real>>, t: Tableau, row: nat, col: nat)
    requires t.Searching(cost) && t.Open(row, col) && t.duals.TightCell(Cell(row, col)) && row in t.star
    ensures CoverRow(t, row, col, t.star[row]).Searching(cost)
  {
    hide Duals.Reduced, Duals.Signed, Duals.Tight, PrimeOrder, PrimeCells;
    MarkPrimeKeeps(cost, t, row, col);
  }

  lemma AugmentingEntry(cost: seq<seq<real>>, t: Tableau, row: nat, col: nat)
    requires t.Searching(cost) && t.Open(row, col) && t.duals.TightCell(Cell(row, col)) && row !in t.star
    ensures MarkPrime(t, row, col).Augmenting(cost, row)
  {
    MarkPrimeKeeps(cost, t, row, col);
  }

  // ----- step 5

  /** Some cell is open while a line of the smaller side has no star. */
  lemma OpenCell(cost: seq<seq<real>>, t: Tableau) returns (r: nat, c: nat)
    requires t.Searching(cost)
    ensures t.Open(r, c)
  {
    MatchingSize(t.star);
    SubsetSize(t.rowCover, t.star.Keys);
    SubsetSize(t.colCover, t.star.Values);
    r := MissingLine(t.rowCover, t.duals.rows);
    c := MissingLine(t.colCover, t.duals.cols);
  }

  /** What step 5 adds to one reduced cost. */
  function Shift(t: Tableau, h: real, r: nat, c: nat): real {
    (if r in t.rowCover then h else 0.0) - (if c in t.colCover then 0.0 else h)
  }

  /** The potentials after step 5, kept non-positive on the larger side. */
  ghost function ShiftedU(t: Tableau, h: real): seq<real>
    requires |t.duals.u| == t.duals.rows
  {
    var u := t.duals.u;
    seq(t.duals.rows, r requires 0 <= r < t.duals.rows =>
      if t.duals.rows <= t.duals.cols then (if r in t.rowCover then u[r] else u[r] + h)
      else (if r in t.rowCover then u[r] - h else u[r]))
  }

  ghost function ShiftedV(t: Tableau, h: real): seq<real>
    requires |t.duals.v| == t.duals.cols
  {
    var v := t.duals.v;
    seq(t.duals.cols, c requires 0 <= c < t.duals.cols =>
      if t.duals.rows <= t.duals.cols then (if c in t.colCover then v[c] - h else v[c])
      else (if c in t.colCover then v[c] else v[c] + h))
  }

  ghost predicate IsShift(t: Tableau, t': Tableau, h: real)
    requires |t.duals.u| == t.duals.rows && |t.duals.v| == t.duals.cols
  {
    && t' == t.(duals := t.duals.(d := t'.duals.d, u := ShiftedU(t, h), v := ShiftedV(t, h)))
    && forall r: nat, c: nat :: r < t.duals.rows && c < t.duals.cols ==>
                                  t'.duals.D(r, c) == t.duals.D(r, c) + Shift(t, h, r, c)
  }

  lemma ShiftReduced(cost: seq<seq<real>>, t: Tableau, t': Tableau, h: real)
    requires t.duals.Reduced(cost) && h >= 0.0 && IsShift(t, t', h)
    requires forall r: nat, c: nat :: t.Open(r, c) ==> h <= t.duals.D(r, c)
    ensures t'.duals.Reduced(cost)
  {
    hide At;
    forall r: nat, c: nat | r < t.duals.rows && c < t.duals.cols
      ensures 0.0 <= t'.duals.D(r, c) == cost[r][c] - t'.duals.u[r] - t'.duals.v[c]
    {
      assert r !in t.rowCover && c !in t.colCover ==> t.Open(r, c);
    }
  }

  lemma ShiftTight(t: Tableau, t': Tableau, h: real, cells: set<Cell>)
    requires |t.duals.u| == t.duals.rows && |t.duals.v| == t.duals.cols
    requires IsShift(t, t', h) && t.duals.Tight(cells)
    requires forall p :: p in cells ==> (p.row in t.rowCover) != (p.col in t.colCover)
    ensures t'.duals.Tight(cells)
  {
    hide At;
    forall p | p in cells ensures t'.duals.TightCell(p) {
      assert t.duals.TightCell(p);
      assert Shift(t, h, p.row, p.col) == 0.0;
    }
  }

  /** Every line that loses potential on the larger side is covered, so it has a star. */
  lemma ShiftSigned(t: Tableau, t': Tableau, h: real)
    requires |t.duals.u| == t.duals.rows && |t.duals.v| == t.duals.cols && h >= 0.0 && IsShift(t, t', h)
    requires t.duals.Signed(t.star.Keys, t.star.Values) && t.rowCover <= t.star.Keys && t.colCover <= t.star.Values
    ensures t'.duals.Signed(t.star.Keys, t.star.Values)
  {
    hide Shift;
  }

  lemma ShiftStars(t: Tableau, t': Tableau, h: real)
    requires |t.duals.u| == t.duals.rows && |t.duals.v| == t.duals.cols && IsShift(t, t', h)
    requires Covered(t.star, t.rowCover, t.colCover) && t.duals.Tight(CellsOf(t.star))
    ensures t'.duals.Tight(CellsOf(t.star))
  {
    hide Duals.Tight;
    ShiftTight(t, t', h, CellsOf(t.star));
  }

  lemma ShiftPrimes(t: Tableau, t': Tableau, h: real)
    requires |t.duals.u| == t.duals.rows && |t.duals.v| == t.duals.cols && IsShift(t, t', h)
    requires t.primes.Keys == t.rowCover && (forall r :: r in t.primes ==> t.primes[r].col !in t.colCover)
    requires t.duals.Tight(PrimeCells(t.primes))
    ensures t'.duals.Tight(PrimeCells(t.primes))
  {
    hide Duals.Tight;
    ShiftTight(t, t', h, PrimeCells(t.primes));
  }

  /** Step 5 with the smallest open cost keeps the tableau and opens a zero. */
  lemma ShiftKeeps(cost: seq<seq<real>>, t: Tableau, t': Tableau, h: real, r0: nat, c0: nat)
    requires t.Searching(cost) && t.Open(r0, c0) && t.duals.D(r0, c0) == h >= 0.0
    requires forall r: nat, c: nat :: t.Open(r, c) ==> h <= t.duals.D(r, c)
    requires IsShift(t, t', h)
    ensures t'.Searching(cost)
    ensures t'.Open(r0, c0) && t'.duals.D(r0, c0) == 0.0
  {
    hide At, Duals.Signed, Duals.Tight, PrimeOrder, CellsOf, PrimeCells;
    ShiftReduced(cost, t, t', h);
    ShiftSigned(t, t', h);
    ShiftStars(t, t', h);
    ShiftPrimes(t, t', h);
  }

  // ----- step 4: the alternating path

  /** The rows of an alternating path: each row but the first holds the star in the column of
      the prime of the row before. */
  ghost predicate IsPath(t: Tableau, path: seq<nat>) {
    && |path| > 0 && path[0] !in t.star
    && (forall i :: 0 <= i < |path| ==> path[i] in t.primes)
    && (forall i :: 0 < i < |path| ==> path[i] in t.star && t.star[path[i]] == t.primes[path[i - 1]].col)
  }

  /** The stars after the path's rows moved their star to their prime. */
  ghost function Rebuilt(t: Tableau, path: seq<nat>): map<nat, nat>
    requires IsPath(t, path)
  {
    map r | r in t.star.Keys + {path[0]} :: if r in path then t.primes[r].col else t.star[r]
  }

  ghost function LastCol(t: Tableau, path: seq<nat>): nat
    requires IsPath(t, path)
  {
    t.primes[path[|path| - 1]].col
  }

  /** A path goes back in time, so it never meets a row twice. */
  lemma {:induction false} PathDescends(t: Tableau, path: seq<nat>, i: nat, j: nat)
    requires PrimeOrder(t.star, t.primes) && IsPath(t, path) && i < j < |path|
    ensures t.primes[path[j]].time < t.primes[path[i]].time
    decreases j
  {
    assert path[j] in t.star && t.star[path[j]] == t.primes[path[j - 1]].col;
    if i < j - 1 { PathDescends(t, path, i, j - 1); }
  }

  /** A star in the path's last column extends the path by a row it has not met. */
  lemma PathStep(t: Tableau, path: seq<nat>, s: nat)
    requires PrimeOrder(t.star, t.primes) && IsPath(t, path) && s in t.star && t.star[s] == LastCol(t, path)
    ensures IsPath(t, path + [s]) && LastCol(t, path + [s]) == t.primes[s].col
    ensures s !in path && s in Rebuilt(t, path) && Rebuilt(t, path)[s] == t.star[s] != t.primes[s].col
    ensures t.primes[s].time < t.primes[path[|path| - 1]].time
    ensures Rebuilt(t, path + [s]) == Rebuilt(t, path)[s := t.primes[s].col]
  {
    var path' := path + [s];
    assert IsPath(t, path') by {
      forall i | 0 < i < |path'|
        ensures path'[i] in t.star && t.star[path'[i]] == t.primes[path'[i - 1]].col
      {
        if i < |path| { assert path'[i] == path[i] && path'[i - 1] == path[i - 1]; }
      }
    }
    forall i | 0 <= i < |path| ensures path[i] != s {
      PathDescends(t, path', i, |path|);
    }
    var a, b := Rebuilt(t, path'), Rebuilt(t, path)[s := t.primes[s].col];
    assert a.Keys == b.Keys;
    forall r | r in a ensures a[r] == b[r] {
      assert r in path' <==> r in path || r == s;
    }
  }

  /** Where the path passes, the columns of its primes are the columns of the stars it moves. */
  lemma PathColumn(t: Tableau, path: seq<nat>, i: nat, s: nat)
    requires PrimeOrder(t.star, t.primes) && Injective(t.star) && IsPath(t, path) && i < |path|
    requires s in t.star && t.star[s] == t.primes[path[i]].col
    requires LastCol(t, path) !in t.star.Values
    ensures i + 1 < |path| && s == path[i + 1]
  {
    if i + 1 < |path| {
      assert t.star[path[i + 1]] == t.primes[path[i]].col;
    }
  }

  lemma RebuiltInjective(t: Tableau, path: seq<nat>)
    requires PrimeOrder(t.star, t.primes) && Injective(t.star) && IsPath(t, path)
    requires LastCol(t, path) !in t.star.Values
    ensures Injective(Rebuilt(t, path))
  {
    var n := Rebuilt(t, path);
    forall r, r' | r in n && r' in n && n[r] == n[r'] ensures r == r' {
      if r in path && r' in path {
        var i :| 0 <= i < |path| && path[i] == r;
        var j :| 0 <= j < |path| && path[j] == r';
        SameColumn(t, path, i, j);
      } else if r in path {
        var i :| 0 <= i < |path| && path[i] == r;
        PathColumn(t, path, i, r');
      } else if r' in path {
        var j :| 0 <= j < |path| && path[j] == r';
        PathColumn(t, path, j, r);
      }
    }
  }

  lemma SameColumn(t: Tableau, path: seq<nat>, i: nat, j: nat)
    requires PrimeOrder(t.star, t.primes) && Injective(t.star) && IsPath(t, path) && i < |path| && j < |path|
    requires LastCol(t, path) !in t.star.Values
    requires t.primes[path[i]].col == t.primes[path[j]].col
    ensures i == j
  {
    if i < j {
      assert t.star[path[i + 1]] in t.star.Values;
      if j + 1 < |path| {
        PathColumn(t, path, i, path[j + 1]);
        PathDescends(t, path, i + 1, j + 1);
      }
    } else if j < i {
      SameColumn(t, path, j, i);
    }
  }

  /** No starred column is lost, and the path's last column is won. */
  lemma RebuiltColumns(t: Tableau, path: seq<nat>)
    requires PrimeOrder(t.star, t.primes) && Injective(t.star) && IsPath(t, path)
    ensures Rebuilt(t, path).Values == t.star.Values + {LastCol(t, path)}
  {
    var n := Rebuilt(t, path);
    forall c | c in t.star.Values ensures c in n.Values {
      var s :| s in t.star && t.star[s] == c;
      if s in path {
        var i :| 0 <= i < |path| && path[i] == s;
        assert i > 0;
        PathDistinct(t, path, i - 1);
        assert n[path[i - 1]] == c;
      } else {
        assert n[s] == c;
      }
    }
    assert n[path[|path| - 1]] == LastCol(t, path);
    forall c | c in n.Values ensures c in t.star.Values + {LastCol(t, path)} {
      var r :| r in n && n[r] == c;
      if r in path {
        var i :| 0 <= i < |path| && path[i] == r;
        if i + 1 < |path| { assert t.star[path[i + 1]] == c; }
      }
    }
  }

  lemma PathDistinct(t: Tableau, path: seq<nat>, i: nat)
    requires IsPath(t, path) && i < |path|
    ensures path[i] in t.star.Keys + {path[0]}
  {
  }

  /** A finished path adds one star, and every starred line stays starred. */
  lemma PathEnd(cost: seq<seq<real>>, t: Tableau, path: seq<nat>)
    requires IsPath(t, path) && t.Augmenting(cost, path[0])
    requires LastCol(t, path) !in t.star.Values
    ensures var n := Rebuilt(t, path);
            && t.(star := n, primes := map[], rowCover := {}).Sound(cost)
            && |n| == |t.star| + 1
            && n.Keys == t.star.Keys + {path[0]} && n.Values == t.star.Values + {LastCol(t, path)}
  {
    var n := Rebuilt(t, path);
    RebuiltInjective(t, path);
    RebuiltColumns(t, path);
    assert n.Keys == t.star.Keys + {path[0]};
    assert |n| == |n.Keys| && |t.star| == |t.star.Keys|;
    RebuiltTight(t, path);
    var t' := t.(star := n, primes := map[], rowCover := {});
    assert PrimeCells(t'.primes) == {};
  }

  lemma RebuiltTight(t: Tableau, path: seq<nat>)
    requires IsPath(t, path) && t.duals.Tight(CellsOf(t.star)) && t.duals.Tight(PrimeCells(t.primes))
    ensures t.duals.Tight(CellsOf(Rebuilt(t, path)))
  {
    var n := Rebuilt(t, path);
    forall p | p in CellsOf(n) ensures t.duals.TightCell(p) {
      if p.row in path {
        assert p in PrimeCells(t.primes);
      } else {
        assert p in CellsOf(t.star);
      }
    }
  }

  lemma RowInRange(cost: seq<seq<real>>, t: Tableau, row: nat)
    requires t.Sound(cost) && row in t.primes
    ensures row < t.duals.rows && t.primes[row].col < t.duals.cols
    ensures row in t.star ==> t.star[row] < t.duals.cols
  {
    assert t.duals.TightCell(Cell(row, t.primes[row].col));
    if row in t.star { assert t.duals.TightCell(Cell(row, t.star[row])); }
  }

  lemma StarsInRange(cost: seq<seq<real>>, t: Tableau)
    requires t.Sound(cost)
    ensures forall r :: r in t.star ==> r < t.duals.rows && t.star[r] < t.duals.cols
    ensures forall c :: c in t.star.Values ==> c < t.duals.cols
  {
    forall r | r in t.star ensures r < t.duals.rows && t.star[r] < t.duals.cols {
      assert t.duals.TightCell(Cell(r, t.star[r]));
    }
  }

  lemma ReadySearches(cost: seq<seq<real>>, t: Tableau)
    requires t.Ready(cost) && |t.star| < t.Lines()
    ensures t.Searching(cost)
  {
    assert forall r :: r in t.star ==> t.star[r] in t.star.Values;
  }

  /** Every primed row of a search has a star. */
  lemma PrimesAmongStars(cost: seq<seq<real>>, t: Tableau)
    requires t.Searching(cost)
    ensures |t.primes| <= |t.star|
  {
    SubsetSize(t.primes.Keys, t.star.Keys);
    assert |t.primes.Keys| == |t.primes| && |t.star.Keys| == |t.star|;
  }

  lemma SearchingReduced(cost: seq<seq<real>>, t: Tableau)
    requires t.Searching(cost)
    ensures t.duals.Reduced(cost)
  {
  }

  /** A matching on the matrix has at most one star per line of the smaller side. */
  lemma StarsFit(t: Tableau)
    requires Injective(t.star) && t.duals.Tight(CellsOf(t.star))
    ensures |t.star| <= t.Lines()
  {
    forall r | r in t.star ensures r < t.duals.rows && t.star[r] < t.duals.cols {
      assert t.duals.TightCell(Cell(r, t.star[r]));
    }
    MatchingSize(t.star);
    RangeSize(t.star.Keys, t.duals.rows);
    RangeSize(t.star.Values, t.duals.cols);
    assert |t.star| == |t.star.Keys|;
  }

  // ----- the result

  ghost predicate Lists(a: seq<int>, t: Tableau) {
    |a| == t.duals.rows && forall r: nat :: r < |a| ==> a[r] == if r in t.star then t.star[r] else -1
  }

  lemma SolvedComplete(cost: seq<seq<real>>, t: Tableau, a: seq<int>)
    requires t.Solved(cost) && Lists(a, t)
    ensures Complete(t.duals.rows, t.duals.cols, a)
  {
    StarsInRange(cost, t);
    MatchingSize(t.star);
    RangeSize(t.star.Keys, t.duals.rows);
    RangeSize(t.star.Values, t.duals.cols);
    assert |t.star| == |t.star.Keys|;
    if t.duals.rows > t.duals.cols {
      forall c: int | 0 <= c < t.duals.cols ensures c in a {
        var k: nat := c;
        assert k in t.star.Values;
        var r :| r in t.star && t.star[r] == k;
        assert a[r] == c;
      }
    }
  }

  /** The stars of a solved tableau are a complete assignment on near zeros. */
  lemma SolvedAssignment(cost: seq<seq<real>>, t: Tableau, a: seq<int>)
    requires t.Solved(cost) && Lists(a, t)
    ensures Complete(t.duals.rows, t.duals.cols, a)
    ensures forall r, c :: 0 <= r < t.duals.rows && 0 <= c < t.duals.cols ==> t.duals.u[r] + t.duals.v[c] <= cost[r][c]
    ensures forall r :: 0 <= r < t.duals.rows && a[r] >= 0 ==> cost[r][a[r]] < t.duals.u[r] + t.duals.v[a[r]] + t.duals.eps
    ensures LargerSideSigns(t.duals.rows, t.duals.cols, a, t.duals.u, t.duals.v)
  {
    SolvedComplete(cost, t, a);
    StarsInRange(cost, t);
    hide At;
    forall r, c | 0 <= r < t.duals.rows && 0 <= c < t.duals.cols ensures t.duals.u[r] + t.duals.v[c] <= cost[r][c] {
      assert 0.0 <= t.duals.D(r, c);
    }
    forall r | 0 <= r < t.duals.rows && a[r] >= 0 ensures cost[r][a[r]] < t.duals.u[r] + t.duals.v[a[r]] + t.duals.eps {
      assert t.duals.TightCell(Cell(r, a[r]));
    }
    assert LargerSideSigns(t.duals.rows, t.duals.cols, a, t.duals.u, t.duals.v) by {
      forall c | c in t.star.Values ensures c in a {
        var r :| r in t.star && t.star[r] == c;
        assert a[r] == c;
      }
    }
  }
}
