/** The rectangular Munkres solver over its preallocated flat buffers. */
module Hungarian {
  import opened Grid
  import opened Matching
  import opened Assignment
  import opened Tableaux
  import opened Buffers

  function Abs(x: real): real { if x < 0.0 then -x else x }

  class HungarianSolver {
    const maxSize: nat
    const eps: real
    const distIn: array<real>
    const dist: array<real>
    const assignment: array<int>
    const coveredCols: array<bool>
    const coveredRows: array<bool>
    const star: array<bool>
    const newStar: array<bool>
    const prime: array<bool>

    // The potentials and the meaning of the star and prime buffers.
    ghost var u: seq<real>
    ghost var v: seq<real>
    ghost var stars: map<nat, nat>
    ghost var primes: map<nat, Prime>

    constructor (maxSize: nat, eps: real)
      requires eps > 0.0
      ensures Allocated() && this.maxSize == maxSize && this.eps == eps
      ensures fresh(distIn) && fresh(dist) && fresh(assignment) && fresh(coveredCols)
      ensures fresh(coveredRows) && fresh(star) && fresh(newStar) && fresh(prime)
    {
      this.maxSize := maxSize;
      this.eps := eps;
      distIn := new real[maxSize * maxSize];
      dist := new real[maxSize * maxSize];
      assignment := new int[maxSize];
      coveredCols := new bool[maxSize];
      coveredRows := new bool[maxSize];
      star := new bool[maxSize * maxSize];
      newStar := new bool[maxSize * maxSize];
      prime := new bool[maxSize * maxSize];
      u, v, stars, primes := [], [], map[], map[];
    }

    /** Distinct buffers of the sizes the constructor gives them. */
    ghost predicate Allocated() {
      && eps > 0.0
      && distIn.Length == dist.Length == star.Length == newStar.Length == prime.Length == maxSize * maxSize
      && assignment.Length == coveredCols.Length == coveredRows.Length == maxSize
      && distIn != dist
      && coveredCols != coveredRows && coveredCols != star && coveredCols != newStar && coveredCols != prime
      && coveredRows != star && coveredRows != newStar && coveredRows != prime
      && star != newStar && star != prime && newStar != prime
    }

    ghost predicate Fits(rows: nat, cols: nat) {
      Allocated() && rows <= maxSize && cols <= maxSize && rows * cols <= dist.Length
    }

    /** The tableau held by the buffers. */
    ghost function T(rows: nat, cols: nat): Tableau
      reads this, dist, coveredRows, coveredCols
    {
      Tableau(Duals(rows, cols, eps, dist[..], u, v), stars, primes,
              Flags(rows, coveredRows[..]), Flags(cols, coveredCols[..]))
    }

    /** The star and prime buffers hold the stars and primes. */
    ghost predicate Marks(rows: nat, cols: nat)
      reads this, star, prime
    {
      && Marked(rows, cols, star[..]) == CellsOf(stars)
      && Marked(rows, cols, prime[..]) == PrimeCells(primes)
    }

    ghost predicate Unassigned(rows: nat)
      reads assignment
    {
      rows <= assignment.Length && forall r :: 0 <= r < rows ==> assignment[r] == -1
    }

    /** The stars solve the problem and the assignment lists them. */
    ghost predicate Finished(rows: nat, cols: nat, cost: seq<seq<real>>)
      reads this, dist, coveredRows, coveredCols, assignment
    {
      && T(rows, cols).Solved(cost)
      && rows <= assignment.Length
      && forall r: nat :: r < rows ==> assignment[r] == if r in stars then stars[r] else -1
    }

    // ----- reading the tableau

    /** The first row whose cell in this column is open and nearly zero, or `rows`. */
    method FirstOpenZero(rows: nat, cols: nat, col: nat, ghost cost: seq<seq<real>>) returns (row: nat)
      requires Fits(rows, cols) && col < cols && !coveredCols[col] && T(rows, cols).duals.Reduced(cost)
      ensures row <= rows
      ensures row < rows ==> T(rows, cols).Open(row, col) && T(rows, cols).duals.TightCell(Cell(row, col))
      ensures row == rows ==> forall r: nat :: T(rows, cols).Open(r, col) ==> eps <= T(rows, cols).duals.D(r, col)
    {
      hide At;
      row := 0;
      while row < rows
        invariant row <= rows
        invariant forall r: nat :: r < row && T(rows, cols).Open(r, col) ==> eps <= T(rows, cols).duals.D(r, col)
      {
        if !coveredRows[row] {
          var x := GetCost(dist, rows, cols, row, col);
          assert 0.0 <= T(rows, cols).duals.D(row, col) == x;
          if Abs(x) < eps { return; }
        }
        row := row + 1;
      }
    }

    /** The smallest open reduced cost and where it is. */
    method SmallestOpen(rows: nat, cols: nat, ghost cost: seq<seq<real>>) returns (h: real, ghost r0: nat, ghost c0: nat)
      requires Fits(rows, cols) && T(rows, cols).Searching(cost)
      ensures T(rows, cols).Open(r0, c0) && h == T(rows, cols).duals.D(r0, c0)
      ensures forall r: nat, c: nat :: T(rows, cols).Open(r, c) ==> h <= T(rows, cols).duals.D(r, c)
    {
      ghost var ro, co := OpenCell(cost, T(rows, cols));
      assert !coveredRows[ro] && !coveredCols[co];
      h, r0, c0 := ScanOpen(rows, cols, ro, co);
    }

    method ScanOpen(rows: nat, cols: nat, ghost ro: nat, ghost co: nat) returns (h: real, ghost r0: nat, ghost c0: nat)
      requires Fits(rows, cols) && ro < rows && co < cols && !coveredRows[ro] && !coveredCols[co]
      ensures r0 < rows && c0 < cols && !coveredRows[r0] && !coveredCols[c0] && h == At(rows, dist[..], r0, c0)
      ensures forall r: nat, c: nat :: r < rows && c < cols && !coveredRows[r] && !coveredCols[c] ==> h <= At(rows, dist[..], r, c)
    {
      hide At;
      ghost var d := dist[..];
      var found := false;
      h, r0, c0 := 0.0, 0, 0;
      for row := 0 to rows
        invariant found ==> r0 < rows && c0 < cols && !coveredRows[r0] && !coveredCols[c0] && h == At(rows, d, r0, c0)
        invariant forall r: nat, c: nat :: r < row && c < cols && !coveredRows[r] && !coveredCols[c] ==> found && h <= At(rows, d, r, c)
      {
        if !coveredRows[row] {
          for col := 0 to cols
            invariant found ==> r0 < rows && c0 < cols && !coveredRows[r0] && !coveredCols[c0] && h == At(rows, d, r0, c0)
            invariant forall r: nat, c: nat :: ((r < row && c < cols) || (r == row && c < col)) && !coveredRows[r] && !coveredCols[c] ==> found && h <= At(rows, d, r, c)
          {
            if !coveredCols[col] {
              var x := GetCost(dist, rows, cols, row, col);
              if !found || x < h {
                h, r0, c0, found := x, row, col, true;
              }
            }
          }
        }
      }
    }

    // ----- changing the reduced costs

    method AddToCoveredRows(rows: nat, cols: nat, h: real)
      requires Fits(rows, cols)
      modifies dist
      ensures forall r: nat, c: nat :: r < rows && c < cols ==>
                At(rows, dist[..], r, c) == old(At(rows, dist[..], r, c)) + if coveredRows[r] then h else 0.0
    {
      hide At;
      ghost var d := dist[..];
      for row := 0 to rows
        invariant forall r: nat, c: nat :: r < rows && c < cols ==>
          At(rows, dist[..], r, c) == At(rows, d, r, c) + if r < row && coveredRows[r] then h else 0.0
      {
        if coveredRows[row] {
          for col := 0 to cols
            invariant forall r: nat, c: nat :: r < rows && c < cols ==>
              At(rows, dist[..], r, c) == At(rows, d, r, c) + if (r < row || (r == row && c < col)) && coveredRows[r] then h else 0.0
          {
            var x := GetCost(dist, rows, cols, row, col);
            PutCost(dist, rows, cols, row, col, x + h);
          }
        }
      }
    }

    method SubtractFromOpenColumns(rows: nat, cols: nat, h: real)
      requires Fits(rows, cols)
      modifies dist
      ensures forall r: nat, c: nat :: r < rows && c < cols ==>
                At(rows, dist[..], r, c) == old(At(rows, dist[..], r, c)) - if coveredCols[c] then 0.0 else h
    {
      hide At;
      ghost var d := dist[..];
      for col := 0 to cols
        invariant forall r: nat, c: nat :: r < rows && c < cols ==>
          At(rows, dist[..], r, c) == At(rows, d, r, c) - if c < col && !coveredCols[c] then h else 0.0
      {
        if !coveredCols[col] {
          for row := 0 to rows
            invariant forall r: nat, c: nat :: r < rows && c < cols ==>
              At(rows, dist[..], r, c) == At(rows, d, r, c) - if (c < col || (c == col && r < row)) && !coveredCols[c] then h else 0.0
          {
            var x := GetCost(dist, rows, cols, row, col);
            PutCost(dist, rows, cols, row, col, x - h);
          }
        }
      }
    }

    /** The in-place work of step 5. */
    method ShiftCosts(rows: nat, cols: nat, ghost cost: seq<seq<real>>) returns (ghost r0: nat, ghost c0: nat)
      requires Fits(rows, cols) && T(rows, cols).Searching(cost)
      modifies this, dist
      ensures T(rows, cols).Searching(cost) && stars == old(stars) && primes == old(primes)
      ensures T(rows, cols).Open(r0, c0) && T(rows, cols).duals.D(r0, c0) == 0.0
    {
      ghost var t := T(rows, cols);
      var h;
      h, r0, c0 := SmallestOpen(rows, cols, cost);
      assert h >= 0.0;
      hide At;
      AddToCoveredRows(rows, cols, h);
      SubtractFromOpenColumns(rows, cols, h);
      u, v := ShiftedU(t, h), ShiftedV(t, h);
      assert IsShift(t, T(rows, cols), h);
      ShiftKeeps(cost, t, T(rows, cols), h, r0, c0);
    }

    // ----- searching the star and prime buffers

    /** The column of the star of a row, or `cols`. */
    method StarOfRow(rows: nat, cols: nat, row: nat) returns (col: nat)
      requires Fits(rows, cols) && Marked(rows, cols, star[..]) == CellsOf(stars) && row < rows
      ensures col <= cols
      ensures if col < cols then row in stars && stars[row] == col else row !in stars
    {
      col := FindInRow(star, rows, cols, row);
      if row in stars { assert Cell(row, stars[row]) in CellsOf(stars); }
    }

    /** The row of the star of a column, or `rows`. */
    method StarOfCol(rows: nat, cols: nat, col: nat) returns (row: nat)
      requires Fits(rows, cols) && Marks(rows, cols) && col < cols
      ensures row <= rows
      ensures if row < rows then row in stars && stars[row] == col else col !in stars.Values
    {
      row := FindInCol(star, rows, cols, col);
      if col in stars.Values {
        var r :| r in stars && stars[r] == col;
        assert Cell(r, col) in CellsOf(stars);
      }
    }

    method PrimeOfRow(rows: nat, cols: nat, row: nat) returns (col: nat)
      requires Fits(rows, cols) && Marks(rows, cols) && row < rows && row in primes
      ensures col == primes[row].col < cols
    {
      col := FindInRow(prime, rows, cols, row);
      assert Cell(row, primes[row].col) in PrimeCells(primes);
    }

    /** The path's first move: the star buffer with the new prime starred. */
    method StartPath(rows: nat, cols: nat, row: nat, col: nat)
      requires Fits(rows, cols) && Marks(rows, cols) && row < rows && col < cols && row !in stars
      modifies newStar
      ensures Marked(rows, cols, newStar[..]) == CellsOf(stars[row := col])
    {
      CopyFlags(star, newStar, rows, cols);
      PutFlag(newStar, rows, cols, row, col, true);
      CellsPut(stars, row, col);
    }

    /** One more move: the star of a row goes to the prime of that row. */
    method MoveStar(rows: nat, cols: nat, starRow: nat, starCol: nat, ghost n: map<nat, nat>) returns (primeCol: nat)
      requires Fits(rows, cols) && Marks(rows, cols) && starRow < rows && starCol < cols
      requires starRow in primes && primes[starRow].col != starCol && starRow in n && n[starRow] == starCol
      requires Marked(rows, cols, newStar[..]) == CellsOf(n)
      modifies newStar
      ensures primeCol == primes[starRow].col < cols
      ensures Marked(rows, cols, newStar[..]) == CellsOf(n[starRow := primeCol])
    {
      PutFlag(newStar, rows, cols, starRow, starCol, false);
      primeCol := PrimeOfRow(rows, cols, starRow);
      PutFlag(newStar, rows, cols, starRow, primeCol, true);
      CellsPut(n, starRow, primeCol);
    }

    /** The star buffer with the stars of an alternating path moved to their primes, built in
        the new star buffer. */
    method RebuildStars(rows: nat, cols: nat, row: nat, col: nat, ghost t: Tableau) returns (ghost path: seq<nat>)
      requires Fits(rows, cols) && Marks(rows, cols)
      requires t.star == stars && t.primes == primes && PrimeOrder(stars, primes)
      requires row < rows && col < cols && row !in stars && row in primes && primes[row].col == col
      modifies newStar
      ensures IsPath(t, path) && path[0] == row && LastCol(t, path) !in stars.Values
      ensures Marked(rows, cols, newStar[..]) == CellsOf(Rebuilt(t, path))
    {
      path := [row];
      assert Rebuilt(t, path) == stars[row := col];
      StartPath(rows, cols, row, col);
      var starCol := col;
      var starRow := StarOfCol(rows, cols, starCol);
      hide At, Rebuilt, PrimeOrder, Marked, CellsOf, PrimeCells;
      while starRow < rows
        invariant IsPath(t, path) && path[0] == row && starCol == LastCol(t, path) < cols
        invariant Marked(rows, cols, newStar[..]) == CellsOf(Rebuilt(t, path))
        invariant starRow <= rows
        invariant if starRow < rows then starRow in stars && stars[starRow] == starCol else starCol !in stars.Values
        decreases t.primes[path[|path| - 1]].time
      {
        PathStep(t, path, starRow);
        starCol := MoveStar(rows, cols, starRow, starCol, Rebuilt(t, path));
        path := path + [starRow];
        starRow := StarOfCol(rows, cols, starCol);
      }
    }

    /** Step 4's last loops: take over the new stars, delete all primes, uncover all rows. */
    method CommitStars(rows: nat, cols: nat)
      requires Fits(rows, cols)
      modifies star, prime, coveredRows
      ensures Marked(rows, cols, prime[..]) == {} && Flags(rows, coveredRows[..]) == {}
      ensures Marked(rows, cols, star[..]) == Marked(rows, cols, newStar[..])
    {
      ClearFlags(prime, rows, cols);
      CopyFlags(newStar, star, rows, cols);
      ClearLines(coveredRows, rows);
    }

    /** The in-place work of step 4: one star more, and every starred line stays starred. */
    method AugmentStars(rows: nat, cols: nat, row: nat, col: nat, ghost cost: seq<seq<real>>)
      requires Fits(rows, cols) && Marks(rows, cols)
      requires T(rows, cols).Augmenting(cost, row) && primes[row].col == col
      modifies this`stars, this`primes, star, newStar, prime, coveredRows
      ensures Marks(rows, cols) && T(rows, cols).Sound(cost)
      ensures primes == map[] && T(rows, cols).rowCover == {} && T(rows, cols).colCover == old(T(rows, cols).colCover)
      ensures |stars| == old(|stars|) + 1
      ensures old(stars.Keys) <= stars.Keys && old(stars.Values) <= stars.Values
      ensures row in stars
    {
      ghost var t := T(rows, cols);
      RowInRange(cost, t, row);
      ghost var path := RebuildStars(rows, cols, row, col, t);
      PathEnd(cost, t, path);
      hide At, Duals.Reduced, Duals.Signed, Tableau.Sound, Rebuilt, PrimeOrder, Injective, CellsOf, IsPath;
      CommitStars(rows, cols);
      stars, primes := Rebuilt(t, path), map[];
      assert T(rows, cols) == t.(star := stars, primes := map[], rowCover := {});
      assert PrimeCells(map[]) == {};
    }

    // ----- steps 2a and 2b

    method CoverStarredColumns(rows: nat, cols: nat)
      requires Fits(rows, cols) && Marks(rows, cols)
      requires forall c :: c in stars.Values ==> c < cols
      modifies coveredCols
      ensures Flags(cols, coveredCols[..]) == old(Flags(cols, coveredCols[..])) + stars.Values
    {
      ghost var before := Flags(cols, coveredCols[..]);
      for col := 0 to cols
        invariant Flags(cols, coveredCols[..]) == before + (set c | c in stars.Values && c < col)
      {
        var row := StarOfCol(rows, cols, col);
        if row < rows {
          PutLine(coveredCols, cols, col, true);
        }
      }
    }

    method CountCoveredColumns(cols: nat) returns (n: nat)
      requires cols <= coveredCols.Length
      ensures n == |Flags(cols, coveredCols[..])|
    {
      n := 0;
      assert Flags(0, coveredCols[..]) == {};
      for col := 0 to cols
        invariant n == |Flags(col, coveredCols[..])|
      {
        assert Flags(col + 1, coveredCols[..])
            == Flags(col, coveredCols[..]) + if coveredCols[col] then {col} else {};
        if coveredCols[col] { n := n + 1; }
      }
    }

    method BuildAssignmentVector(rows: nat, cols: nat)
      requires Fits(rows, cols) && Marks(rows, cols) && Unassigned(rows)
      modifies assignment
      ensures forall r: nat :: r < rows ==> assignment[r] == if r in stars then stars[r] else -1
    {
      for row := 0 to rows
        invariant forall r: nat :: r < row ==> assignment[r] == if r in stars then stars[r] else -1
        invariant forall r :: row <= r < rows ==> assignment[r] == -1
      {
        var col := StarOfRow(rows, cols, row);
        if col < cols { assignment[row] := col; }
      }
    }

    // ----- the mutually recursive steps

    ghost predicate OpenZero(rows: nat, cols: nat)
      reads this, dist, coveredRows, coveredCols
    {
      exists r: nat, c: nat :: T(rows, cols).Open(r, c) && T(rows, cols).duals.TightCell(Cell(r, c))
    }

    /** Lines of the smaller side still without a star. */
    ghost function Missing(rows: nat, cols: nat): int
      reads this
    {
      Min(rows, cols) - |stars|
    }

    /** Stars whose row is not covered yet. */
    ghost function Uncovered(): int
      reads this
    {
      |stars| - |primes|
    }

    method Step2a(rows: nat, cols: nat, ghost cost: seq<seq<real>>)
      requires Fits(rows, cols) && Marks(rows, cols) && Unassigned(rows)
      requires T(rows, cols).Sound(cost) && primes == map[] && T(rows, cols).rowCover == {}
      requires T(rows, cols).colCover <= stars.Values && |stars| <= Min(rows, cols)
      modifies this, dist, star, newStar, prime, coveredRows, coveredCols, assignment
      ensures Finished(rows, cols, cost)
      decreases Missing(rows, cols), |stars| + 2, 0
    {
      StarsInRange(cost, T(rows, cols));
      hide At, Duals.Reduced, Duals.Signed, Duals.Tight, Injective, CellsOf, PrimeCells;
      CoverStarredColumns(rows, cols);
      Step2b(rows, cols, cost);
    }

    method Step2b(rows: nat, cols: nat, ghost cost: seq<seq<real>>)
      requires Fits(rows, cols) && Marks(rows, cols) && Unassigned(rows)
      requires T(rows, cols).Ready(cost) && |stars| <= Min(rows, cols)
      modifies this, dist, star, newStar, prime, coveredRows, coveredCols, assignment
      ensures Finished(rows, cols, cost)
      decreases Missing(rows, cols), |stars| + 1, 0
    {
      var n := CountCoveredColumns(cols);
      MatchingSize(stars);
      if n == Min(rows, cols) {
        BuildAssignmentVector(rows, cols);
      } else {
        ReadySearches(cost, T(rows, cols));
        Step3(rows, cols, cost);
      }
    }

    method Step3(rows: nat, cols: nat, ghost cost: seq<seq<real>>)
      requires Fits(rows, cols) && Marks(rows, cols) && Unassigned(rows)
      requires T(rows, cols).Searching(cost)
      modifies this, dist, star, newStar, prime, coveredRows, coveredCols, assignment
      ensures Finished(rows, cols, cost)
      decreases Missing(rows, cols), Uncovered(), if OpenZero(rows, cols) then 1 else 3
    {
      PrimesAmongStars(cost, T(rows, cols));
      hide At, Duals.TightCell, Tableau.Open, Tableau.Searching, Tableau.Augmenting, Tableau.Solved, CellsOf, PrimeCells, Marked, Flags;
      var row, col := SearchZero(rows, cols, cost);
      if row < rows {
        Step4(rows, cols, row, col, cost);
      } else {
        Step5(rows, cols, cost);
      }
    }

    method Step4(rows: nat, cols: nat, row: nat, col: nat, ghost cost: seq<seq<real>>)
      requires Fits(rows, cols) && Marks(rows, cols) && Unassigned(rows)
      requires T(rows, cols).Augmenting(cost, row) && primes[row].col == col
      modifies this, dist, star, newStar, prime, coveredRows, coveredCols, assignment
      ensures Finished(rows, cols, cost)
      decreases Missing(rows, cols), Uncovered(), 0
    {
      AugmentStars(rows, cols, row, col, cost);
      Step2a(rows, cols, cost);
    }

    method Step5(rows: nat, cols: nat, ghost cost: seq<seq<real>>)
      requires Fits(rows, cols) && Marks(rows, cols) && Unassigned(rows)
      requires T(rows, cols).Searching(cost) && !OpenZero(rows, cols)
      modifies this, dist, star, newStar, prime, coveredRows, coveredCols, assignment
      ensures Finished(rows, cols, cost)
      decreases Missing(rows, cols), Uncovered(), 2
    {
      ghost var r0, c0 := ShiftCosts(rows, cols, cost);
      assert T(rows, cols).duals.TightCell(Cell(r0, c0));
      Step3(rows, cols, cost);
    }

    /** No open zero in the columns before `col`. */
    ghost predicate ClearBefore(rows: nat, cols: nat, col: nat)
      reads this, dist, coveredRows, coveredCols
    {
      forall r: nat, c: nat :: c < col && T(rows, cols).Open(r, c) ==> !T(rows, cols).duals.TightCell(Cell(r, c))
    }

    /** Step 3's search: primes open zeros and trades covers until it meets a row without a
        star (returned with the zero's column, to go to step 4) or no open zero is left
        (`row == rows`, to go to step 5). */
    method SearchZero(rows: nat, cols: nat, ghost cost: seq<seq<real>>) returns (row: nat, col: nat)
      requires Fits(rows, cols) && Marks(rows, cols)
      requires T(rows, cols).Searching(cost)
      modifies this`primes, prime, coveredRows, coveredCols
      ensures Marks(rows, cols) && row <= rows
      ensures row < rows ==> T(rows, cols).Augmenting(cost, row) && row in primes && primes[row].col == col
      ensures row == rows ==> T(rows, cols).Searching(cost) && !OpenZero(rows, cols)
      ensures |old(primes)| <= |primes|
      ensures row == rows && |primes| == |old(primes)| ==> T(rows, cols) == old(T(rows, cols))
    {
      PrimesAmongStars(cost, T(rows, cols));
      hide At, Duals.TightCell, Tableau.Searching, Tableau.Augmenting;
      var zerosFound := true;
      row, col := rows, 0;
      while zerosFound
        invariant Marks(rows, cols) && T(rows, cols).Searching(cost)
        invariant |old(primes)| <= |primes| <= |stars|
        invariant |primes| == |old(primes)| ==> T(rows, cols) == old(T(rows, cols))
        invariant !zerosFound ==> row == rows && ClearBefore(rows, cols, cols)
        decreases |stars| - |primes|, zerosFound
      {
        row, col, zerosFound := SweepColumns(rows, cols, cost);
        if row < rows { return; }
      }
    }

    /** One sweep of step 3 over all columns. */
    method SweepColumns(rows: nat, cols: nat, ghost cost: seq<seq<real>>) returns (row: nat, col: nat, zerosFound: bool)
      requires Fits(rows, cols) && Marks(rows, cols)
      requires T(rows, cols).Searching(cost) && |primes| <= |stars|
      modifies this`primes, prime, coveredRows, coveredCols
      ensures Marks(rows, cols) && row <= rows
      ensures row < rows ==> T(rows, cols).Augmenting(cost, row) && row in primes && primes[row].col == col
      ensures row == rows ==> T(rows, cols).Searching(cost) && |primes| <= |stars|
      ensures |old(primes)| <= |primes| && (row == rows && zerosFound ==> |old(primes)| < |primes|)
      ensures row == rows && |primes| == |old(primes)| ==> T(rows, cols) == old(T(rows, cols))
      ensures row == rows && !zerosFound ==> ClearBefore(rows, cols, cols)
    {
      hide At, Tableau.Searching, Tableau.Augmenting;
      zerosFound := false;
      col := 0;
      while col < cols
        invariant col <= cols && Marks(rows, cols) && T(rows, cols).Searching(cost)
        invariant |old(primes)| <= |primes| <= |stars| && (zerosFound ==> |old(primes)| < |primes|)
        invariant |primes| == |old(primes)| ==> T(rows, cols) == old(T(rows, cols))
        invariant !zerosFound ==> ClearBefore(rows, cols, col)
      {
        if !coveredCols[col] {
          SearchingReduced(cost, T(rows, cols));
          row := FirstOpenZero(rows, cols, col, cost);
          if row < rows {
            var starCol := PrimeZero(rows, cols, row, col, cost);
            if starCol == cols { return; }
            zerosFound := true;
          }
        }
        col := col + 1;
      }
      row := rows;
    }

    method TradeCover(rows: nat, cols: nat, row: nat, starCol: nat)
      requires Fits(rows, cols) && row < rows && starCol < cols
      modifies coveredRows, coveredCols
      ensures Flags(rows, coveredRows[..]) == old(Flags(rows, coveredRows[..])) + {row}
      ensures Flags(cols, coveredCols[..]) == old(Flags(cols, coveredCols[..])) - {starCol}
    {
      PutLine(coveredRows, rows, row, true);
      PutLine(coveredCols, cols, starCol, false);
    }

    /** Primes an open zero and looks for the star of its row. */
    method MarkZero(rows: nat, cols: nat, row: nat, col: nat) returns (starCol: nat)
      requires Fits(rows, cols) && Marks(rows, cols) && row < rows && col < cols && row !in primes
      modifies this`primes, prime
      ensures Marks(rows, cols) && T(rows, cols) == MarkPrime(old(T(rows, cols)), row, col)
      ensures starCol <= cols && if starCol < cols then row in stars && stars[row] == starCol else row !in stars
    {
      hide At, CellsOf, PrimeCells, Marked;
      ghost var t := T(rows, cols);
      PutFlag(prime, rows, cols, row, col, true);
      PrimeCellsPut(t, row, col);
      starCol := StarOfRow(rows, cols, row);
      primes := MarkPrime(t, row, col).primes;
    }

    /** Primes an open zero; with a star in its row, covers the row and uncovers the column of
        the star. */
    method PrimeZero(rows: nat, cols: nat, row: nat, col: nat, ghost cost: seq<seq<real>>) returns (starCol: nat)
      requires Fits(rows, cols) && Marks(rows, cols)
      requires T(rows, cols).Searching(cost) && T(rows, cols).Open(row, col)
      requires T(rows, cols).duals.TightCell(Cell(row, col))
      modifies this`primes, prime, coveredRows, coveredCols
      ensures Marks(rows, cols) && starCol <= cols
      ensures row in primes && primes[row].col == col && |primes| == |old(primes)| + 1
      ensures starCol == cols ==> T(rows, cols).Augmenting(cost, row)
      ensures starCol < cols ==> T(rows, cols).Searching(cost) && |primes| <= |stars|
    {
      ghost var t := T(rows, cols);
      assert row !in primes;
      hide At, Duals.TightCell, Tableau.Searching, Tableau.Augmenting, CellsOf, PrimeCells, Marked;
      starCol := MarkZero(rows, cols, row, col);
      if starCol == cols {
        AugmentingEntry(cost, t, row, col);
      } else {
        TradeCover(rows, cols, row, starCol);
        CoverRowKeeps(cost, t, row, col);
        assert T(rows, cols) == CoverRow(t, row, col, starCol);
        PrimesAmongStars(cost, T(rows, cols));
      }
    }

    // ----- preliminary steps

    method RowMinimum(rows: nat, cols: nat, row: nat) returns (x: real)
      requires Fits(rows, cols) && row < rows && 0 < cols
      ensures forall c: nat :: c < cols ==> x <= At(rows, dist[..], row, c)
      ensures exists c: nat :: c < cols && x == At(rows, dist[..], row, c)
    {
      hide At;
      x := GetCost(dist, rows, cols, row, 0);
      for col := 1 to cols
        invariant forall c: nat :: c < col ==> x <= At(rows, dist[..], row, c)
        invariant exists c: nat :: c < cols && x == At(rows, dist[..], row, c)
      {
        var y := GetCost(dist, rows, cols, row, col);
        if y < x { x := y; }
      }
    }

    method ColumnMinimum(rows: nat, cols: nat, col: nat) returns (x: real)
      requires Fits(rows, cols) && col < cols && 0 < rows
      ensures forall r: nat :: r < rows ==> x <= At(rows, dist[..], r, col)
      ensures exists r: nat :: r < rows && x == At(rows, dist[..], r, col)
    {
      hide At;
      x := GetCost(dist, rows, cols, 0, col);
      for row := 1 to rows
        invariant forall r: nat :: r < row ==> x <= At(rows, dist[..], r, col)
        invariant exists r: nat :: r < rows && x == At(rows, dist[..], r, col)
      {
        var y := GetCost(dist, rows, cols, row, col);
        if y < x { x := y; }
      }
    }

    method SubtractFromRow(rows: nat, cols: nat, row: nat, x: real)
      requires Fits(rows, cols) && row < rows
      modifies dist
      ensures forall r: nat, c: nat :: r < rows && c < cols ==>
                At(rows, dist[..], r, c) == old(At(rows, dist[..], r, c)) - if r == row then x else 0.0
    {
      hide At;
      ghost var d := dist[..];
      for col := 0 to cols
        invariant forall r: nat, c: nat :: r < rows && c < cols ==>
          At(rows, dist[..], r, c) == At(rows, d, r, c) - if r == row && c < col then x else 0.0
      {
        var y := GetCost(dist, rows, cols, row, col);
        PutCost(dist, rows, cols, row, col, y - x);
      }
    }

    method SubtractFromColumn(rows: nat, cols: nat, col: nat, x: real)
      requires Fits(rows, cols) && col < cols
      modifies dist
      ensures forall r: nat, c: nat :: r < rows && c < cols ==>
                At(rows, dist[..], r, c) == old(At(rows, dist[..], r, c)) - if c == col then x else 0.0
    {
      hide At;
      ghost var d := dist[..];
      for row := 0 to rows
        invariant forall r: nat, c: nat :: r < rows && c < cols ==>
          At(rows, dist[..], r, c) == At(rows, d, r, c) - if c == col && r < row then x else 0.0
      {
        var y := GetCost(dist, rows, cols, row, col);
        PutCost(dist, rows, cols, row, col, y - x);
      }
    }

    /** Subtracts every row's minimum from the row. */
    method ReduceRows(rows: nat, cols: nat, ghost cost: seq<seq<real>>)
      requires Fits(rows, cols) && Shape(rows, cols, cost) && 0 < cols
      requires forall r: nat, c: nat :: r < rows && c < cols ==> At(rows, dist[..], r, c) == cost[r][c]
      modifies this`u, this`v, dist
      ensures T(rows, cols).duals.Reduced(cost) && forall c :: 0 <= c < cols ==> v[c] == 0.0
    {
      hide At;
      u := [];
      for row := 0 to rows
        invariant |u| == row
        invariant forall r: nat, c: nat :: r < rows && c < cols ==>
          At(rows, dist[..], r, c) == cost[r][c] - if r < row then u[r] else 0.0
        invariant forall r: nat, c: nat :: r < row && c < cols ==> 0.0 <= At(rows, dist[..], r, c)
      {
        var x := RowMinimum(rows, cols, row);
        SubtractFromRow(rows, cols, row, x);
        u := u + [x];
      }
      v := seq(cols, c => 0.0);
    }

    /** Subtracts every column's minimum from the column. */
    method ReduceColumns(rows: nat, cols: nat, ghost cost: seq<seq<real>>)
      requires Fits(rows, cols) && Shape(rows, cols, cost) && 0 < rows
      requires forall r: nat, c: nat :: r < rows && c < cols ==> At(rows, dist[..], r, c) == cost[r][c]
      modifies this`u, this`v, dist
      ensures T(rows, cols).duals.Reduced(cost) && forall r :: 0 <= r < rows ==> u[r] == 0.0
    {
      hide At;
      v := [];
      for col := 0 to cols
        invariant |v| == col
        invariant forall r: nat, c: nat :: r < rows && c < cols ==>
          At(rows, dist[..], r, c) == cost[r][c] - if c < col then v[c] else 0.0
        invariant forall r: nat, c: nat :: r < rows && c < col ==> 0.0 <= At(rows, dist[..], r, c)
      {
        var x := ColumnMinimum(rows, cols, col);
        SubtractFromColumn(rows, cols, col, x);
        v := v + [x];
      }
      u := seq(rows, r => 0.0);
    }

    /** The first uncovered column where this row is nearly zero, or `cols`. */
    method FreeZeroInRow(rows: nat, cols: nat, row: nat, ghost cost: seq<seq<real>>) returns (col: nat)
      requires Fits(rows, cols) && row < rows && T(rows, cols).duals.Reduced(cost)
      ensures col <= cols
      ensures col < cols ==> !coveredCols[col] && T(rows, cols).duals.TightCell(Cell(row, col))
    {
      hide At;
      col := 0;
      while col < cols
        invariant col <= cols
      {
        var x := GetCost(dist, rows, cols, row, col);
        assert 0.0 <= T(rows, cols).duals.D(row, col) == x;
        if Abs(x) < eps && !coveredCols[col] { return; }
        col := col + 1;
      }
    }

    /** The first uncovered row where this column is nearly zero, or `rows`. */
    method FreeZeroInColumn(rows: nat, cols: nat, col: nat, ghost cost: seq<seq<real>>) returns (row: nat)
      requires Fits(rows, cols) && col < cols && T(rows, cols).duals.Reduced(cost)
      ensures row <= rows
      ensures row < rows ==> !coveredRows[row] && T(rows, cols).duals.TightCell(Cell(row, col))
    {
      hide At;
      row := 0;
      while row < rows
        invariant row <= rows
      {
        var x := GetCost(dist, rows, cols, row, col);
        assert 0.0 <= T(rows, cols).duals.D(row, col) == x;
        if Abs(x) < eps && !coveredRows[row] { return; }
        row := row + 1;
      }
    }

    /** A greedy matching on near zeros whose columns are covered. */
    ghost predicate Greedy(rows: nat, cols: nat)
      reads this, dist, star, coveredRows, coveredCols
    {
      && Injective(stars) && T(rows, cols).duals.Tight(CellsOf(stars))
      && Marked(rows, cols, star[..]) == CellsOf(stars)
      && T(rows, cols).colCover == stars.Values
    }

    method AddStar(rows: nat, cols: nat, row: nat, col: nat)
      requires Fits(rows, cols) && Greedy(rows, cols)
      requires T(rows, cols).duals.TightCell(Cell(row, col)) && row !in stars && col !in stars.Values
      modifies this`stars, star, coveredCols
      ensures Greedy(rows, cols) && stars == old(stars)[row := col]
    {
      CellsPut(stars, row, col);
      StarPut(stars, row, col);
      hide At, CellsOf, Marked, Flags;
      PutFlag(star, rows, cols, row, col, true);
      PutLine(coveredCols, cols, col, true);
      stars := stars[row := col];
    }

    /** Steps 1 and 2a with at most as many rows as columns. */
    method StarByRows(rows: nat, cols: nat, ghost cost: seq<seq<real>>)
      requires Fits(rows, cols) && T(rows, cols).duals.Reduced(cost) && Greedy(rows, cols) && stars == map[]
      modifies this`stars, star, coveredCols
      ensures Greedy(rows, cols)
    {
      hide At, CellsOf, Marked, Duals.TightCell;
      for row := 0 to rows
        invariant Greedy(rows, cols) && forall r :: r in stars ==> r < row
      {
        var col := FreeZeroInRow(rows, cols, row, cost);
        if col < cols {
          assert col !in T(rows, cols).colCover;
          AddStar(rows, cols, row, col);
        }
      }
    }

    /** Steps 1 and 2a with more rows than columns. */
    method StarByColumns(rows: nat, cols: nat, ghost cost: seq<seq<real>>)
      requires Fits(rows, cols) && T(rows, cols).duals.Reduced(cost) && Greedy(rows, cols) && stars == map[]
      requires T(rows, cols).rowCover == {}
      modifies this`stars, star, coveredCols, coveredRows
      ensures Greedy(rows, cols) && T(rows, cols).rowCover == {}
    {
      hide At, CellsOf, Marked, Duals.TightCell;
      for col := 0 to cols
        invariant Greedy(rows, cols) && T(rows, cols).rowCover == stars.Keys && forall r :: r in stars ==> stars[r] < col
      {
        var row := FreeZeroInColumn(rows, cols, col, cost);
        if row < rows {
          assert row !in T(rows, cols).rowCover;
          AddStar(rows, cols, row, col);
          PutLine(coveredRows, rows, row, true);
        }
      }
      ClearLines(coveredRows, rows);
    }

    /** The working copy of the costs, with nothing assigned, covered, starred or primed. */
    method Reset(rows: nat, cols: nat, ghost cost: seq<seq<real>>)
      requires Fits(rows, cols) && Shape(rows, cols, cost)
      requires forall r: nat, c: nat :: r < rows && c < cols ==> At(rows, distIn[..], r, c) == cost[r][c]
      modifies this`stars, this`primes, dist, star, newStar, prime, coveredRows, coveredCols, assignment
      ensures forall r: nat, c: nat :: r < rows && c < cols ==> At(rows, dist[..], r, c) == cost[r][c]
      ensures Unassigned(rows) && Marks(rows, cols) && stars == map[] && primes == map[]
      ensures Flags(rows, coveredRows[..]) == {} && Flags(cols, coveredCols[..]) == {}
    {
      for row := 0 to rows
        invariant forall r :: 0 <= r < row ==> assignment[r] == -1
      {
        assignment[row] := -1;
      }
      CopyCosts(rows, cols);
      hide At, Marked;
      ClearLines(coveredCols, cols);
      ClearLines(coveredRows, rows);
      ClearFlags(star, rows, cols);
      ClearFlags(newStar, rows, cols);
      ClearFlags(prime, rows, cols);
      stars, primes := map[], map[];
      assert CellsOf(map[]) == {} && PrimeCells(map[]) == {};
    }

    method CopyCosts(rows: nat, cols: nat)
      requires Fits(rows, cols)
      modifies dist
      ensures forall r: nat, c: nat :: r < rows && c < cols ==> At(rows, dist[..], r, c) == At(rows, distIn[..], r, c)
    {
      for k := 0 to rows * cols
        invariant forall i :: 0 <= i < k ==> dist[i] == distIn[i]
      {
        dist[k] := distIn[k];
      }
      OffsetBounds(rows, cols);
    }

    method AssignmentOptimal(rows: nat, cols: nat, ghost cost: seq<seq<real>>)
      requires Fits(rows, cols) && Shape(rows, cols, cost) && 0 < rows
      requires forall r: nat, c: nat :: r < rows && c < cols ==> At(rows, distIn[..], r, c) == cost[r][c]
      modifies this, dist, star, newStar, prime, coveredRows, coveredCols, assignment
      ensures Finished(rows, cols, cost)
    {
      Reset(rows, cols, cost);
      assert CellsOf(map[]) == {} && PrimeCells(map[]) == {};
      hide At, Marked;
      if rows <= cols {
        ReduceRows(rows, cols, cost);
        StarByRows(rows, cols, cost);
      } else {
        ReduceColumns(rows, cols, cost);
        StarByColumns(rows, cols, cost);
      }
      StarsFit(T(rows, cols));
      Step2b(rows, cols, cost);
    }

    method FillIn(cost: seq<seq<real>>, rows: nat, cols: nat)
      requires Fits(rows, cols) && Shape(rows, cols, cost)
      modifies distIn
      ensures forall r: nat, c: nat :: r < rows && c < cols ==> At(rows, distIn[..], r, c) == cost[r][c]
    {
      hide At;
      for i := 0 to rows
        invariant forall r: nat, c: nat :: r < i && c < cols ==> At(rows, distIn[..], r, c) == cost[r][c]
      {
        for j := 0 to cols
          invariant forall r: nat, c: nat :: (r < i && c < cols) || (r == i && c < j) ==> At(rows, distIn[..], r, c) == cost[r][c]
        {
          PutCost(distIn, rows, cols, i, j, cost[i][j]);
        }
      }
    }

    /** Assigns every line of the smaller side, injectively, at a total cost below that of
        any other such assignment plus eps for every line of the smaller side. */
    method Solve(cost: seq<seq<real>>) returns (result: seq<int>)
      requires Allocated() && 0 < |cost| <= maxSize && |cost[0]| <= maxSize && Shape(|cost|, |cost[0]|, cost)
      modifies this, distIn, dist, star, newStar, prime, coveredRows, coveredCols, assignment
      ensures Complete(|cost|, |cost[0]|, result)
      ensures forall b :: Complete(|cost|, |cost[0]|, b) ==> NoWorse(cost, eps, result, b)
    {
      var rows, cols := |cost|, |cost[0]|;
      Capacity(rows, cols, maxSize);
      FillIn(cost, rows, cols);
      AssignmentOptimal(rows, cols, cost);
      result := assignment[..rows];
      ghost var t := T(rows, cols);
      SolvedAssignment(cost, t, result);
      forall b | Complete(rows, cols, b) ensures NoWorse(cost, eps, result, b) {
        NearOptimal(rows, cols, cost, t.duals.u, t.duals.v, eps, result, b);
      }
    }
  }

  lemma Capacity(rows: nat, cols: nat, size: nat)
    requires rows <= size && cols <= size
    ensures rows * cols <= size * size
  {
    assert rows * cols <= size * cols;
    assert size * cols <= size * size;
  }
}
