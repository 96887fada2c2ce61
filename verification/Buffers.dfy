/** Reading and writing single cells of the flat buffers. */
module Buffers {
  import opened Grid

  method GetFlag(a: array<bool>, rows: nat, cols: nat, r: nat, c: nat) returns (b: bool)
    requires r < rows && c < cols && rows * cols <= a.Length
    ensures b <==> Cell(r, c) in Marked(rows, cols, a[..])
  {
    OffsetBound(rows, cols, r, c);
    hide Offset;
    b := a[Offset(rows, r, c)];
    assert b == a[..][Offset(rows, r, c)];
  }

  method PutFlag(a: array<bool>, rows: nat, cols: nat, r: nat, c: nat, b: bool)
    requires r < rows && c < cols && rows * cols <= a.Length
    modifies a
    ensures Marked(rows, cols, a[..]) == if b then old(Marked(rows, cols, a[..])) + {Cell(r, c)}
                                         else old(Marked(rows, cols, a[..])) - {Cell(r, c)}
  {
    OffsetBound(rows, cols, r, c);
    hide Offset;
    a[Offset(rows, r, c)] := b;
    assert a[..] == old(a[..])[Offset(rows, r, c) := b];
    MarkedPut(rows, cols, old(a[..]), r, c, b);
  }

  method GetCost(a: array<real>, rows: nat, cols: nat, r: nat, c: nat) returns (x: real)
    requires r < rows && c < cols && rows * cols <= a.Length
    ensures x == At(rows, a[..], r, c)
  {
    OffsetBound(rows, cols, r, c);
    hide Offset;
    x := a[Offset(rows, r, c)];
  }

  method PutCost(a: array<real>, rows: nat, cols: nat, r: nat, c: nat, x: real)
    requires r < rows && c < cols && rows * cols <= a.Length
    modifies a
    ensures forall r': nat, c': nat :: r' < rows && c' < cols ==>
              At(rows, a[..], r', c') == if r' == r && c' == c then x else old(At(rows, a[..], r', c'))
  {
    OffsetBound(rows, cols, r, c);
    hide Offset;
    a[Offset(rows, r, c)] := x;
    assert a[..] == old(a[..])[Offset(rows, r, c) := x];
    AtPut(rows, old(a[..]), a[..], r, c, x);
  }

  method PutLine(a: array<bool>, lines: nat, i: nat, b: bool)
    requires i < lines <= a.Length
    modifies a
    ensures Flags(lines, a[..]) == if b then old(Flags(lines, a[..])) + {i} else old(Flags(lines, a[..])) - {i}
  {
    a[i] := b;
    assert a[..] == old(a[..])[i := b];
    FlagsPut(lines, old(a[..]), i, b);
  }

  /** Clearing the first rows * cols flags leaves no cell marked. */
  method ClearFlags(a: array<bool>, rows: nat, cols: nat)
    requires rows * cols <= a.Length
    modifies a
    ensures Marked(rows, cols, a[..]) == {}
  {
    for k := 0 to rows * cols
      invariant forall i :: 0 <= i < k ==> !a[i]
    {
      a[k] := false;
    }
    OffsetBounds(rows, cols);
  }

  method ClearLines(a: array<bool>, lines: nat)
    requires lines <= a.Length
    modifies a
    ensures Flags(lines, a[..]) == {}
  {
    for k := 0 to lines
      invariant forall i :: 0 <= i < k ==> !a[i]
    {
      a[k] := false;
    }
  }

  method CopyFlags(src: array<bool>, dst: array<bool>, rows: nat, cols: nat)
    requires rows * cols <= src.Length && rows * cols <= dst.Length && src != dst
    modifies dst
    ensures Marked(rows, cols, dst[..]) == Marked(rows, cols, src[..])
  {
    for k := 0 to rows * cols
      invariant forall i :: 0 <= i < k ==> dst[i] == src[i]
    {
      dst[k] := src[k];
    }
    SameFlags(rows, cols, src[..], dst[..]);
  }

  lemma SameFlags(rows: nat, cols: nat, a: seq<bool>, b: seq<bool>)
    requires rows * cols <= |a| && rows * cols <= |b| && forall k :: 0 <= k < rows * cols ==> a[k] == b[k]
    ensures Marked(rows, cols, b) == Marked(rows, cols, a)
  {
    hide Offset;
    OffsetBounds(rows, cols);
    forall p: Cell ensures p in Marked(rows, cols, b) <==> p in Marked(rows, cols, a) {
      if p.row < rows && p.col < cols { assert Offset(rows, p.row, p.col) < rows * cols; }
    }
  }

  /** The first marked column of a row, or `cols`. */
  method FindInRow(a: array<bool>, rows: nat, cols: nat, r: nat) returns (c: nat)
    requires r < rows && rows * cols <= a.Length
    ensures c <= cols
    ensures c < cols ==> Cell(r, c) in Marked(rows, cols, a[..])
    ensures forall c': nat :: c' < c ==> Cell(r, c') !in Marked(rows, cols, a[..])
  {
    c := 0;
    while c < cols
      invariant c <= cols
      invariant forall c': nat :: c' < c ==> Cell(r, c') !in Marked(rows, cols, a[..])
    {
      var b := GetFlag(a, rows, cols, r, c);
      if b { return; }
      c := c + 1;
    }
  }

  /** The first marked row of a column, or `rows`. */
  method FindInCol(a: array<bool>, rows: nat, cols: nat, c: nat) returns (r: nat)
    requires c < cols && rows * cols <= a.Length
    ensures r <= rows
    ensures r < rows ==> Cell(r, c) in Marked(rows, cols, a[..])
    ensures forall r': nat :: r' < r ==> Cell(r', c) !in Marked(rows, cols, a[..])
  {
    r := 0;
    while r < rows
      invariant r <= rows
      invariant forall r': nat :: r' < r ==> Cell(r', c) !in Marked(rows, cols, a[..])
    {
      var b := GetFlag(a, rows, cols, r, c);
      if b { return; }
      r := r + 1;
    }
  }
}
