/** Flat column-major buffers: a matrix of `rows` x `cols` cells kept in one array,
    cell (r, c) at index r + rows * c. */
module Grid {

  datatype Cell = Cell(row: nat, col: nat)

  function Offset(rows: nat, r: nat, c: nat): nat { r + rows * c }

  lemma OffsetBound(rows: nat, cols: nat, r: nat, c: nat)
    requires r < rows && c < cols
    ensures Offset(rows, r, c) < rows * cols
  {
    Stride(rows, c, cols);
  }

  lemma OffsetBounds(rows: nat, cols: nat)
    ensures forall r: nat, c: nat :: r < rows && c < cols ==> Offset(rows, r, c) < rows * cols
  {
    forall r: nat, c: nat | r < rows && c < cols ensures Offset(rows, r, c) < rows * cols {
      OffsetBound(rows, cols, r, c);
    }
  }

  /** Two cells never share an index. */
  lemma OffsetInjective(rows: nat, r: nat, c: nat, r': nat, c': nat)
    requires r < rows && r' < rows && Offset(rows, r, c) == Offset(rows, r', c')
    ensures r == r' && c == c'
  {
    if c < c' {
      Stride(rows, c, c');
    } else if c' < c {
      Stride(rows, c', c);
    }
  }

  lemma Stride(rows: nat, c: nat, c': nat)
    requires c < c'
    ensures rows * c + rows <= rows * c'
  {
    assert rows * c' == rows * c + rows * (c' - c);
    assert rows * (c' - c) == rows + rows * (c' - c - 1);
  }

  lemma OffsetUnique(rows: nat, r: nat, c: nat)
    requires r < rows
    ensures forall r': nat, c': nat :: r' < rows && Offset(rows, r', c') == Offset(rows, r, c) ==> r' == r && c' == c
  {
    forall r': nat, c': nat | r' < rows && Offset(rows, r', c') == Offset(rows, r, c) ensures r' == r && c' == c {
      OffsetInjective(rows, r', c', r, c);
    }
  }

  /** The cost stored at a cell. */
  function At(rows: nat, d: seq<real>, r: nat, c: nat): real {
    if Offset(rows, r, c) < |d| then d[Offset(rows, r, c)] else 0.0
  }

  /** The cells whose flag is set. */
  ghost function Marked(rows: nat, cols: nat, s: seq<bool>): set<Cell> {
    set r: nat, c: nat | r < rows && c < cols && Offset(rows, r, c) < |s| && s[Offset(rows, r, c)] :: Cell(r, c)
  }

  /** The lines whose flag is set. */
  ghost function Flags(lines: nat, s: seq<bool>): set<nat> {
    set i: nat | i < lines && i < |s| && s[i]
  }

  /** Writing one flag adds or removes exactly that cell. */
  lemma MarkedPut(rows: nat, cols: nat, s: seq<bool>, r: nat, c: nat, b: bool)
    requires r < rows && c < cols && Offset(rows, r, c) < |s|
    ensures Marked(rows, cols, s[Offset(rows, r, c) := b])
         == if b then Marked(rows, cols, s) + {Cell(r, c)} else Marked(rows, cols, s) - {Cell(r, c)}
  {
    OffsetUnique(rows, r, c);
    hide Offset;
    var t := s[Offset(rows, r, c) := b];
    forall p: Cell
      ensures p in Marked(rows, cols, t) <==> if p == Cell(r, c) then b else p in Marked(rows, cols, s)
    {
      if p != Cell(r, c) && p.row < rows {
        assert Offset(rows, p.row, p.col) != Offset(rows, r, c);
      }
    }
  }

  /** Writing one cost changes exactly that cell. */
  lemma AtPut(rows: nat, d: seq<real>, d': seq<real>, r: nat, c: nat, x: real)
    requires r < rows && Offset(rows, r, c) < |d|
    requires d' == d[Offset(rows, r, c) := x]
    ensures forall r': nat, c': nat :: r' < rows ==>
              At(rows, d', r', c') == if r' == r && c' == c then x else At(rows, d, r', c')
  {
    OffsetUnique(rows, r, c);
  }

  lemma FlagsPut(lines: nat, s: seq<bool>, i: nat, b: bool)
    requires i < lines && i < |s|
    ensures Flags(lines, s[i := b]) == if b then Flags(lines, s) + {i} else Flags(lines, s) - {i}
  {
  }
}
