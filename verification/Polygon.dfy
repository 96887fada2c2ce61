/** What the even-odd test decides: for a triangle the sides on which the point lies, and for any
    vertex list the triangles of its fan. */
module Polygons {
  import opened Geometry

  /** No real point of the edge from a to b is c. */
  ghost predicate OffEdge(c: Point, a: Point, b: Point) { forall s: real :: !IsAt(a, b, c, s) }

  /** Strictly on the same side of the three edges, walked one way round. */
  predicate Within(c: Point, a: Point, b: Point, d: Point) {
    || (Turn(a, b, c) > 0 && Turn(b, d, c) > 0 && Turn(d, a, c) > 0)
    || (Turn(a, b, c) < 0 && Turn(b, d, c) < 0 && Turn(d, a, c) < 0)
  }

  // ----- signs

  lemma Product(x: int, y: int)
    ensures x * y > 0 <==> (x > 0 && y > 0) || (x < 0 && y < 0)
    ensures x * y < 0 <==> (x > 0 && y < 0) || (x < 0 && y > 0)
  {
  }

  lemma TurnAround(a: Point, b: Point, c: Point)
    ensures Turn(a, b, c) == (b.x - c.x) * (a.y - c.y) - (a.x - c.x) * (b.y - c.y)
  {
  }

  /** The three turns weigh the heights of the vertices to that of the point. */
  lemma Balance(c: Point, a: Point, b: Point, d: Point)
    ensures Turn(a, b, c) * (d.y - c.y) + Turn(b, d, c) * (a.y - c.y) + Turn(d, a, c) * (b.y - c.y) == 0
  {
    TurnAround(a, b, c);
    TurnAround(b, d, c);
    TurnAround(d, a, c);
    BalanceOf(a.x - c.x, a.y - c.y, b.x - c.x, b.y - c.y, d.x - c.x, d.y - c.y);
  }

  lemma BalanceOf(ux: int, uy: int, vx: int, vy: int, wx: int, wy: int)
    ensures (vx * uy - ux * vy) * wy + (wx * vy - vx * wy) * uy + (ux * wy - wx * uy) * vy == 0
  {
    assert (vx * uy - ux * vy) * wy == vx * (uy * wy) - ux * (vy * wy);
    assert (wx * vy - vx * wy) * uy == wx * (vy * uy) - vx * (wy * uy);
    assert (ux * wy - wx * uy) * vy == ux * (wy * vy) - wx * (uy * vy);
  }

  // ----- off the edges

  /** A point level with an edge that is not horizontal, and in line with it, is on it. */
  lemma LevelOn(c: Point, a: Point, b: Point) returns (t: real)
    requires a.y != b.y && Min(a.y, b.y) <= c.y <= Max(a.y, b.y) && Turn(a, b, c) == 0
    ensures IsAt(a, b, c, t)
  {
    t := LevelAt(c, a, b);
    TurnFrom(a, b, c);
    assert (b.x - a.x) * (c.y - a.y) == (b.y - a.y) * (c.x - a.x);
    CancelFraction(t, (b.y - a.y) as real, (c.y - a.y) as real, (b.x - a.x) as real, (c.x - a.x) as real);
  }

  lemma LevelTurn(c: Point, a: Point, b: Point)
    requires OffEdge(c, a, b) && a.y != b.y && Min(a.y, b.y) <= c.y <= Max(a.y, b.y)
    ensures Turn(a, b, c) != 0
  {
    if Turn(a, b, c) == 0 { var t := LevelOn(c, a, b); }
  }

  /** A point on a horizontal line between two others is on their edge. */
  lemma BetweenOn(c: Point, a: Point, b: Point) returns (s: real)
    requires a.y == b.y == c.y && a.x < c.x < b.x
    ensures IsAt(a, b, c, s)
  {
    s := Fraction(a.x, b.x, c.x);
  }

  lemma NotBetween(c: Point, a: Point, b: Point)
    requires OffEdge(c, a, b) && a.y == b.y == c.y
    ensures !(a.x < c.x < b.x)
  {
    if a.x < c.x < b.x { var s := BetweenOn(c, a, b); }
  }

  lemma AtReversed(c: Point, a: Point, b: Point, s: real)
    requires IsAt(b, a, c, s)
    ensures IsAt(a, b, c, 1.0 - s)
  {
    assert (1.0 - s) * (b.x - a.x) as real == (b.x - a.x) as real - s * (b.x - a.x) as real;
    assert (1.0 - s) * (b.y - a.y) as real == (b.y - a.y) as real - s * (b.y - a.y) as real;
    assert s * (a.x - b.x) as real == -(s * (b.x - a.x) as real) && s * (a.y - b.y) as real == -(s * (b.y - a.y) as real);
  }

  lemma OffReversed(c: Point, a: Point, b: Point)
    requires OffEdge(c, a, b)
    ensures OffEdge(c, b, a)
  {
    hide IsAt;
    if s: real :| IsAt(b, a, c, s) { AtReversed(c, a, b, s); }
  }

  // ----- one vertex on its own side of the level of the point

  lemma BaseLevel(c: Point, a: Point, b: Point, d: Point)
    requires b.y > c.y == a.y == d.y && OffEdge(c, d, a) && OffEdge(c, a, d)
    ensures !(Turn(a, b, c) < 0 && Turn(b, d, c) < 0) && !(Turn(a, b, c) > 0 && Turn(b, d, c) > 0)
  {
    TurnAround(a, b, c);
    TurnAround(b, d, c);
    Product(a.x - c.x, b.y - c.y);
    Product(d.x - c.x, b.y - c.y);
    NotBetween(c, d, a);
    NotBetween(c, a, d);
  }

  lemma ApexAbove(c: Point, a: Point, b: Point, d: Point)
    requires a.y <= c.y < b.y && d.y <= c.y && OffEdge(c, a, b) && OffEdge(c, b, d) && OffEdge(c, d, a)
    ensures (Turn(a, b, c) < 0) != (Turn(b, d, c) > 0) <==> Within(c, a, b, d)
  {
    hide Turn, OffEdge;
    LevelTurn(c, a, b);
    LevelTurn(c, b, d);
    OffReversed(c, d, a);
    if a.y == c.y == d.y { BaseLevel(c, a, b, d); }
    Balance(c, a, b, d);
    var t1, t2, t3 := Turn(a, b, c), Turn(b, d, c), Turn(d, a, c);
    Product(t1, d.y - c.y);
    Product(t2, a.y - c.y);
    Product(t3, b.y - c.y);
  }

  lemma ApexBelow(c: Point, a: Point, b: Point, d: Point)
    requires b.y <= c.y < a.y && c.y < d.y && OffEdge(c, a, b) && OffEdge(c, b, d)
    ensures (Turn(a, b, c) > 0) != (Turn(b, d, c) < 0) <==> Within(c, a, b, d)
  {
    hide Turn, OffEdge;
    LevelTurn(c, a, b);
    LevelTurn(c, b, d);
    Balance(c, a, b, d);
    Product(Turn(a, b, c), d.y - c.y);
    Product(Turn(b, d, c), a.y - c.y);
    Product(Turn(d, a, c), b.y - c.y);
  }

  lemma OneLevel(c: Point, a: Point, b: Point, d: Point)
    requires (a.y > c.y) == (b.y > c.y) == (d.y > c.y)
    ensures !Within(c, a, b, d)
  {
    hide Turn;
    Balance(c, a, b, d);
    Product(Turn(a, b, c), d.y - c.y);
    Product(Turn(b, d, c), a.y - c.y);
    Product(Turn(d, a, c), b.y - c.y);
    TurnAround(a, b, c);
  }

  // ----- triangles

  lemma TriangleCrossings(c: Point, a: Point, b: Point, d: Point)
    ensures Crossings(c, [a, b, d]) == Edge(c, a, b) + Edge(c, b, d) + Edge(c, d, a)
  {
    var p := [a, b, d];
    assert p[..2] == [a, b] && [a, b][..1] == [a];
    assert PathCrossings(c, [a]) == 0;
    assert PathCrossings(c, [a, b]) == Edge(c, a, b);
  }

  lemma NoVertex(c: Point, a: Point, b: Point)
    requires OffEdge(c, a, b)
    ensures c != a && c != b
  {
    if c == a { assert IsAt(a, b, c, 0.0); }
    if c == b { assert IsAt(a, b, c, 1.0); }
  }

  lemma ApexMiddle(c: Point, a: Point, b: Point, d: Point)
    requires OffEdge(c, a, b) && OffEdge(c, b, d) && OffEdge(c, d, a) && (a.y > c.y) == (d.y > c.y)
    ensures Included(c, [a, b, d]) <==> Within(c, a, b, d)
  {
    hide Crosses, OffEdge, Turn, Crossings, PathCrossings;
    NoVertex(c, a, b);
    NoVertex(c, d, a);
    TriangleCrossings(c, a, b, d);
    CrossesTurn(c, a, b);
    CrossesTurn(c, b, d);
    CrossesTurn(c, d, a);
    if b.y > c.y && a.y <= c.y {
      ApexAbove(c, a, b, d);
    } else if b.y <= c.y && a.y > c.y {
      ApexBelow(c, a, b, d);
    } else {
      OneLevel(c, a, b, d);
    }
  }

  /** A point on none of the edges of a triangle is inside if and only if it is strictly on the
      same side of all three. */
  lemma TriangleExact(c: Point, a: Point, b: Point, d: Point)
    requires OffEdge(c, a, b) && OffEdge(c, b, d) && OffEdge(c, d, a)
    ensures Included(c, [a, b, d]) <==> Within(c, a, b, d)
  {
    hide Included, OffEdge, Turn;
    if (a.y > c.y) == (d.y > c.y) {
      ApexMiddle(c, a, b, d);
    } else if (a.y > c.y) == (b.y > c.y) {
      ApexMiddle(c, b, d, a);
      RotationInvariant(c, [a, b, d], 1);
      assert [a, b, d][1..] + [a, b, d][..1] == [b, d, a];
    } else {
      ApexMiddle(c, d, a, b);
      RotationInvariant(c, [a, b, d], 2);
      assert [a, b, d][2..] + [a, b, d][..2] == [d, a, b];
    }
  }

  // ----- any vertex list

  /** The point is on no edge of the triangles that fan out from the first vertex. */
  ghost predicate OffFan(c: Point, p: seq<Point>) { forall i :: 1 <= i < |p| - 1 ==> OffPart(c, p, i) }

  ghost predicate OffPart(c: Point, p: seq<Point>, i: nat)
    requires i + 1 < |p|
  {
    OffEdge(c, p[0], p[i]) && OffEdge(c, p[i], p[i + 1]) && OffEdge(c, p[i + 1], p[0])
  }

  /** How many of the first n of these triangles hold the point. */
  function FanCount(c: Point, p: seq<Point>, n: nat): nat
    requires n + 2 <= |p|
  {
    if n == 0 then 0 else FanCount(c, p, n - 1) + if Within(c, p[0], p[n], p[n + 1]) then 1 else 0
  }

  lemma {:induction false} FanPrefix(c: Point, p: seq<Point>, q: seq<Point>, n: nat)
    requires n + 2 <= |p| && p <= q
    ensures FanCount(c, q, n) == FanCount(c, p, n)
  {
    if n > 0 { FanPrefix(c, p, q, n - 1); }
  }

  /** A point off the fan is in the polygon if and only if an odd number of the triangles between
      the first vertex and the later edges hold it, whatever the vertex list. */
  lemma {:induction false} FanExact(c: Point, p: seq<Point>)
    requires |p| >= 3 && OffFan(c, p)
    ensures Included(c, p) <==> FanCount(c, p, |p| - 2) % 2 == 1
  {
    hide Included, Within, OffEdge;
    var n := |p| - 1;
    if |p| == 3 {
      assert OffPart(c, p, 1);
      assert p == [p[0], p[1], p[2]];
      TriangleExact(c, p[0], p[1], p[2]);
      assert FanCount(c, p, 0) == 0;
    } else {
      var q := p[..n];
      forall i | 1 <= i < |q| - 1 ensures OffPart(c, q, i) { assert OffPart(c, p, i); }
      FanExact(c, q);
      FanPrefix(c, q, p, n - 2);
      assert OffPart(c, p, n - 1);
      TriangleExact(c, p[0], p[n - 1], p[n]);
      CutTriangle(c, p);
    }
  }

  /** Cutting off the last triangle of the fan. */
  lemma CutTriangle(c: Point, p: seq<Point>)
    requires |p| > 3 && OffFan(c, p)
    ensures Included(c, p) <==> Included(c, p[..|p| - 1]) != Included(c, [p[0], p[|p| - 2], p[|p| - 1]])
  {
    hide Included, OffEdge;
    var n := |p| - 1;
    NotVertices(c, p);
    ChordSplitting(c, p, 0, n - 1);
    assert FirstPart(p, 0, n - 1) == p[..n];
    var t := SecondPart(p, 0, n - 1);
    assert t == [p[n - 1], p[n], p[0]];
    RotationInvariant(c, t, 2);
    assert t[2..] + t[..2] == [p[0], p[n - 1], p[n]];
  }

  lemma NotVertices(c: Point, p: seq<Point>)
    requires |p| >= 3 && OffFan(c, p)
    ensures c !in p
  {
    hide OffEdge;
    forall i | 0 <= i < |p| ensures c != p[i] {
      var k := if i == 0 then 1 else if i < |p| - 1 then i else i - 1;
      assert OffPart(c, p, k);
      NoVertex(c, p[0], p[k]);
      NoVertex(c, p[k], p[k + 1]);
    }
  }
}
