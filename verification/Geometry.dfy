/** Segment crossing and point-in-polygon over integer points, in exact arithmetic. */
module Geometry {

  datatype Point = Point(x: int, y: int)

  datatype LineOrientation = NotCrossed | OnLine | Clockwise | CounterClockwise

  function Max(a: int, b: int): int { if a < b then b else a }

  function Min(a: int, b: int): int { if b < a then b else a }

  predicate OnLineSegment(p: Point, q: Point, r: Point) {
    && q.x <= Max(p.x, r.x) && q.x >= Min(p.x, r.x)
    && q.y <= Max(p.y, r.y) && q.y >= Min(p.y, r.y)
  }

  function Turn(p: Point, q: Point, r: Point): int {
    (q.y - p.y) * (r.x - q.x) - (q.x - p.x) * (r.y - q.y)
  }

  function Orientation(p: Point, q: Point, r: Point): LineOrientation {
    var val := Turn(p, q, r);
    if val == 0 then OnLine else if val > 0 then Clockwise else CounterClockwise
  }

  function CheckLineIntersect(p1: Point, q1: Point, p2: Point, q2: Point): LineOrientation {
    var o1 := Orientation(p1, q1, p2);
    var o2 := Orientation(p1, q1, q2);
    var o3 := Orientation(p2, q2, p1);
    var o4 := Orientation(p2, q2, q1);
    if o1 != o2 && o3 != o4 then o4
    else if o1 == OnLine && OnLineSegment(p1, p2, q1) then OnLine
    else if o2 == OnLine && OnLineSegment(p1, q2, q1) then OnLine
    else if o3 == OnLine && OnLineSegment(p2, p1, q2) then OnLine
    else if o4 == OnLine && OnLineSegment(p2, q1, q2) then OnLine
    else NotCrossed
  }

  // ----- what crossing means

  /** The point a fraction t of the way from a to b, in one coordinate. */
  function Along(a: int, b: int, t: real): real { a as real + t * (b - a) as real }

  /** The closed segments share a point: fraction s of the first is fraction t of the second. */
  ghost predicate MeetAt(p1: Point, q1: Point, p2: Point, q2: Point, s: real, t: real) {
    && 0.0 <= s <= 1.0 && 0.0 <= t <= 1.0
    && Along(p1.x, q1.x, s) == Along(p2.x, q2.x, t)
    && Along(p1.y, q1.y, s) == Along(p2.y, q2.y, t)
  }

  ghost predicate Meet(p1: Point, q1: Point, p2: Point, q2: Point) {
    exists s: real, t: real :: MeetAt(p1, q1, p2, q2, s, t)
  }

  /** Point q is the fraction s of the segment from p to r. */
  ghost predicate IsAt(p: Point, r: Point, q: Point, s: real) {
    && 0.0 <= s <= 1.0 && Along(p.x, r.x, s) == q.x as real && Along(p.y, r.y, s) == q.y as real
  }

  // ----- a reported crossing is one

  lemma Fraction(a: int, b: int, x: int) returns (s: real)
    requires a != b && Min(a, b) <= x <= Max(a, b)
    ensures 0.0 <= s <= 1.0 && s * (b - a) as real == (x - a) as real
  {
    var d := (b - a) as real;
    s := (x - a) as real / d;
    assert s * d == (x - a) as real;
    if a < b {
      DivideRange((x - a) as real, d);
    } else {
      DivideRange((a - x) as real, -d);
      assert (a - x) as real / -d == s;
    }
  }

  lemma DivideRange(x: real, d: real)
    requires d > 0.0 && 0.0 <= x <= d
    ensures 0.0 <= x / d <= 1.0
  {
  }

  /** A point on the line and in the box of a segment is on the segment. */
  lemma InBoxIsOn(p: Point, r: Point, q: Point) returns (s: real)
    requires OnLineSegment(p, q, r) && Turn(p, r, q) == 0
    ensures IsAt(p, r, q, s)
  {
    if p.x != r.x {
      s := Fraction(p.x, r.x, q.x);
      var d := (r.x - p.x) as real;
      assert (r.y - p.y) * (q.x - p.x) == (r.x - p.x) * (q.y - p.y);
      CancelFraction(s, d, (q.x - p.x) as real, (r.y - p.y) as real, (q.y - p.y) as real);
    } else if p.y != r.y {
      s := Fraction(p.y, r.y, q.y);
    } else {
      s := 0.0;
    }
  }

  lemma CancelFraction(s: real, d: real, x: real, h: real, y: real)
    requires d != 0.0 && s * d == x && h * x == d * y
    ensures s * h == y
  {
    assert d * (s * h) == h * (s * d);
    assert d * (s * h - y) == 0.0;
  }

  /** The fraction at which a quantity that goes from a to b passes zero. */
  lemma ZeroFraction(a: int, b: int) returns (t: real)
    requires (a > 0 && b <= 0) || (a == 0 && b != 0) || (a < 0 && b >= 0)
    ensures 0.0 <= t <= 1.0 && t * (a - b) as real == a as real
  {
    var d := (a - b) as real;
    t := a as real / d;
    assert t * d == a as real;
    if a - b > 0 {
      DivideRange(a as real, d);
    } else {
      DivideRange(-a as real, -d);
      assert -a as real / -d == t;
    }
  }

  lemma TurnDifference(p1: Point, q1: Point, p2: Point, q2: Point)
    ensures Turn(p1, q1, p2) - Turn(p1, q1, q2) == Turn(p2, q2, q1) - Turn(p2, q2, p1)
  {
  }

  lemma CrossingPoint(p1: Point, q1: Point, p2: Point, q2: Point)
    ensures var a, c, d := Turn(p1, q1, p2), Turn(p2, q2, p1), Turn(p1, q1, p2) - Turn(p1, q1, q2);
            && p1.x * d - c * (q1.x - p1.x) == p2.x * d + a * (q2.x - p2.x)
            && p1.y * d - c * (q1.y - p1.y) == p2.y * d + a * (q2.y - p2.y)
  {
    var ux, uy, vx, vy, wx, wy := q1.x - p1.x, q1.y - p1.y, q2.x - p2.x, q2.y - p2.y, p2.x - p1.x, p2.y - p1.y;
    assert Turn(p1, q1, p2) == uy * wx - ux * wy;
    assert Turn(p2, q2, p1) == vx * wy - vy * wx;
    assert Turn(p1, q1, q2) == uy * (wx + vx) - ux * (wy + vy);
    CrossingIdentity(ux, uy, vx, vy, wx, wy);
  }

  lemma CrossingIdentity(ux: int, uy: int, vx: int, vy: int, wx: int, wy: int)
    ensures var a, c, d := uy * wx - ux * wy, vx * wy - vy * wx, ux * vy - uy * vx;
            && -c * ux == wx * d + a * vx
            && -c * uy == wy * d + a * vy
  {
  }

  lemma SameCoordinate(x1: real, u: real, s: real, x2: real, v: real, t: real, a: real, c: real, d: real)
    requires d != 0.0 && s * d == -c && t * d == a && x1 * d - c * u == x2 * d + a * v
    ensures x1 + s * u == x2 + t * v
  {
    assert (x1 + s * u) * d == x1 * d + (s * d) * u;
    assert (x2 + t * v) * d == x2 * d + (t * d) * v;
    assert (x1 + s * u - (x2 + t * v)) * d == 0.0;
  }

  lemma StraddleMeets(p1: Point, q1: Point, p2: Point, q2: Point)
    requires Orientation(p1, q1, p2) != Orientation(p1, q1, q2) && Orientation(p2, q2, p1) != Orientation(p2, q2, q1)
    ensures Meet(p1, q1, p2, q2)
  {
    hide Turn, Along;
    var a, b, c, e := Turn(p1, q1, p2), Turn(p1, q1, q2), Turn(p2, q2, p1), Turn(p2, q2, q1);
    var t := ZeroFraction(a, b);
    var s := ZeroFraction(c, e);
    TurnDifference(p1, q1, p2, q2);
    CrossingPoint(p1, q1, p2, q2);
    StraddleAt(p1, q1, p2, q2, a, c, a - b, s, t);
    assert MeetAt(p1, q1, p2, q2, s, t);
  }

  lemma StraddleAt(p1: Point, q1: Point, p2: Point, q2: Point, a: int, c: int, d: int, s: real, t: real)
    requires d != 0 && t * d as real == a as real && s * (-d) as real == c as real
    requires p1.x * d - c * (q1.x - p1.x) == p2.x * d + a * (q2.x - p2.x)
    requires p1.y * d - c * (q1.y - p1.y) == p2.y * d + a * (q2.y - p2.y)
    ensures Along(p1.x, q1.x, s) == Along(p2.x, q2.x, t)
    ensures Along(p1.y, q1.y, s) == Along(p2.y, q2.y, t)
  {
    CoordinateAt(p1.x, q1.x, p2.x, q2.x, a, c, d, s, t);
    CoordinateAt(p1.y, q1.y, p2.y, q2.y, a, c, d, s, t);
  }

  lemma CoordinateAt(x1: int, y1: int, x2: int, y2: int, a: int, c: int, d: int, s: real, t: real)
    requires d != 0 && t * d as real == a as real && s * (-d) as real == c as real
    requires x1 * d - c * (y1 - x1) == x2 * d + a * (y2 - x2)
    ensures Along(x1, y1, s) == Along(x2, y2, t)
  {
    assert s * d as real == -(c as real);
    assert (x1 * d) as real == x1 as real * d as real && (x2 * d) as real == x2 as real * d as real;
    assert (c * (y1 - x1)) as real == c as real * (y1 - x1) as real;
    assert (a * (y2 - x2)) as real == a as real * (y2 - x2) as real;
    SameCoordinate(x1 as real, (y1 - x1) as real, s, x2 as real, (y2 - x2) as real, t, a as real, c as real, d as real);
  }

  /** An end of one segment that lies on the other is a common point. */
  lemma EndMeets(p1: Point, q1: Point, p2: Point, q2: Point)
    requires (Turn(p1, q1, p2) == 0 && OnLineSegment(p1, p2, q1)) || (Turn(p1, q1, q2) == 0 && OnLineSegment(p1, q2, q1))
    ensures Meet(p1, q1, p2, q2)
  {
    if Turn(p1, q1, p2) == 0 && OnLineSegment(p1, p2, q1) {
      var s := InBoxIsOn(p1, q1, p2);
      assert MeetAt(p1, q1, p2, q2, s, 0.0);
    } else {
      var s := InBoxIsOn(p1, q1, q2);
      assert MeetAt(p1, q1, p2, q2, s, 1.0);
    }
  }

  lemma MeetSymmetric(p1: Point, q1: Point, p2: Point, q2: Point)
    requires Meet(p1, q1, p2, q2)
    ensures Meet(p2, q2, p1, q1)
  {
    var s, t :| MeetAt(p1, q1, p2, q2, s, t);
    assert MeetAt(p2, q2, p1, q1, t, s);
  }

  lemma ReportedMeets(p1: Point, q1: Point, p2: Point, q2: Point)
    requires CheckLineIntersect(p1, q1, p2, q2) != NotCrossed
    ensures Meet(p1, q1, p2, q2)
  {
    if Orientation(p1, q1, p2) != Orientation(p1, q1, q2) && Orientation(p2, q2, p1) != Orientation(p2, q2, q1) {
      StraddleMeets(p1, q1, p2, q2);
    } else if (Turn(p1, q1, p2) == 0 && OnLineSegment(p1, p2, q1)) || (Turn(p1, q1, q2) == 0 && OnLineSegment(p1, q2, q1)) {
      EndMeets(p1, q1, p2, q2);
    } else {
      EndMeets(p2, q2, p1, q1);
      MeetSymmetric(p2, q2, p1, q1);
    }
  }

  // ----- a common point is reported

  /** The turn at a point of the second segment, for real points. */
  function TurnAt(p: Point, q: Point, x: real, y: real): real {
    (q.y - p.y) as real * (x - q.x as real) - (q.x - p.x) as real * (y - q.y as real)
  }

  lemma TurnAffine(p1: Point, q1: Point, p2: Point, q2: Point, t: real)
    ensures TurnAt(p1, q1, Along(p2.x, q2.x, t), Along(p2.y, q2.y, t))
         == Turn(p1, q1, p2) as real + t * (Turn(p1, q1, q2) - Turn(p1, q1, p2)) as real
  {
  }

  lemma TurnZeroOnLine(p: Point, q: Point, s: real)
    ensures TurnAt(p, q, Along(p.x, q.x, s), Along(p.y, q.y, s)) == 0.0
  {
  }

  /** The ends of the second segment are not strictly on one side of the first. */
  lemma NotOneSide(p1: Point, q1: Point, p2: Point, q2: Point, s: real, t: real)
    requires MeetAt(p1, q1, p2, q2, s, t)
    ensures Orientation(p1, q1, p2) == Orientation(p1, q1, q2) ==> Turn(p1, q1, p2) == Turn(p1, q1, q2) == 0
  {
    TurnAffine(p1, q1, p2, q2, t);
    TurnZeroOnLine(p1, q1, s);
    var a, b := Turn(p1, q1, p2) as real, Turn(p1, q1, q2) as real;
    assert a + t * (b - a) == 0.0;
    ConvexZero(a, b, t);
  }

  lemma ConvexZero(a: real, b: real, t: real)
    requires 0.0 <= t <= 1.0 && a + t * (b - a) == 0.0
    ensures !(a > 0.0 && b > 0.0) && !(a < 0.0 && b < 0.0)
  {
    assert (1.0 - t) * a + t * b == 0.0;
    if a > 0.0 && b > 0.0 { PositiveMix(1.0 - t, a, t, b); }
    if a < 0.0 && b < 0.0 { PositiveMix(1.0 - t, -a, t, -b); }
  }

  lemma PositiveMix(x: real, a: real, y: real, b: real)
    requires x >= 0.0 && y >= 0.0 && x + y == 1.0 && a > 0.0 && b > 0.0
    ensures x * a + y * b > 0.0
  {
    if x > 0.0 {
      assert x * a > 0.0;
      assert y * b >= 0.0;
    }
  }

  lemma OnIsInBox(p: Point, r: Point, q: Point, s: real)
    requires IsAt(p, r, q, s)
    ensures OnLineSegment(p, q, r) && Turn(p, r, q) == 0
  {
    Between(p.x, r.x, q.x, s);
    Between(p.y, r.y, q.y, s);
    TurnZeroOnLine(p, r, s);
    assert TurnAt(p, r, q.x as real, q.y as real) == Turn(p, r, q) as real;
  }

  lemma Between(a: int, b: int, x: int, s: real)
    requires 0.0 <= s <= 1.0 && Along(a, b, s) == x as real
    ensures Min(a, b) <= x <= Max(a, b)
  {
    if a <= b {
      assert 0.0 <= s * (b - a) as real <= (b - a) as real;
    } else {
      assert 0.0 <= s * (a - b) as real <= (a - b) as real;
      assert s * (b - a) as real == -(s * (a - b) as real);
    }
  }

  /** On a line that is not vertical, being between the ends in x is being on the segment. */
  lemma BetweenIsInBox(p: Point, r: Point, q: Point)
    requires p.x != r.x && Turn(p, r, q) == 0 && Min(p.x, r.x) <= q.x <= Max(p.x, r.x)
    ensures OnLineSegment(p, q, r)
  {
    var s := Fraction(p.x, r.x, q.x);
    assert (r.y - p.y) * (q.x - p.x) == (r.x - p.x) * (q.y - p.y);
    CancelFraction(s, (r.x - p.x) as real, (q.x - p.x) as real, (r.y - p.y) as real, (q.y - p.y) as real);
    OnIsInBox(p, r, q, s);
  }

  lemma Collinear(p1: Point, q1: Point, p2: Point, q2: Point)
    requires p1.x != q1.x && Turn(p1, q1, p2) == 0 && Turn(p1, q1, q2) == 0
    ensures Turn(p2, q2, p1) == 0
  {
    var ux, uy, wx, wy, zx, zy := q1.x - p1.x, q1.y - p1.y, p2.x - p1.x, p2.y - p1.y, q2.x - p1.x, q2.y - p1.y;
    assert ux * wy == uy * wx && ux * zy == uy * zx;
    assert ux * (wx * zy - wy * zx) == 0 by {
      assert ux * (wx * zy) == wx * (ux * zy) == wx * (uy * zx);
      assert ux * (wy * zx) == zx * (ux * wy) == zx * (uy * wx);
    }
    assert Turn(p2, q2, p1) == wy * zx - wx * zy || Turn(p2, q2, p1) == wx * zy - wy * zx;
  }

  lemma SlantedReported(p1: Point, q1: Point, p2: Point, q2: Point, s: real, t: real)
    requires MeetAt(p1, q1, p2, q2, s, t) && p1.x != q1.x && Turn(p1, q1, p2) == Turn(p1, q1, q2) == 0
    ensures CheckLineIntersect(p1, q1, p2, q2) != NotCrossed
  {
    IntervalsOverlap(p1.x, q1.x, p2.x, q2.x, s, t);
    if Min(p1.x, q1.x) <= p2.x <= Max(p1.x, q1.x) {
      BetweenIsInBox(p1, q1, p2);
    } else if Min(p1.x, q1.x) <= q2.x <= Max(p1.x, q1.x) {
      BetweenIsInBox(p1, q1, q2);
    } else {
      Collinear(p1, q1, p2, q2);
      BetweenIsInBox(p2, q2, p1);
    }
  }

  lemma IntervalsOverlap(a: int, b: int, c: int, d: int, s: real, t: real)
    requires 0.0 <= s <= 1.0 && 0.0 <= t <= 1.0 && Along(a, b, s) == Along(c, d, t)
    ensures Min(a, b) <= c <= Max(a, b) || Min(a, b) <= d <= Max(a, b) || (c != d && Min(c, d) <= a <= Max(c, d))
  {
    AlongRange(a, b, s);
    AlongRange(c, d, t);
  }

  lemma AlongRange(a: int, b: int, s: real)
    requires 0.0 <= s <= 1.0
    ensures Min(a, b) as real <= Along(a, b, s) <= Max(a, b) as real
  {
    if a <= b {
      assert 0.0 <= s * (b - a) as real <= (b - a) as real;
    } else {
      assert 0.0 <= s * (a - b) as real <= (a - b) as real;
      assert s * (b - a) as real == -(s * (a - b) as real);
    }
  }

  function Swap(p: Point): Point { Point(p.y, p.x) }

  lemma SwapTurn(p: Point, q: Point, r: Point)
    ensures Turn(Swap(p), Swap(q), Swap(r)) == -Turn(p, q, r)
  {
  }

  lemma SwapCheck(p1: Point, q1: Point, p2: Point, q2: Point)
    ensures CheckLineIntersect(Swap(p1), Swap(q1), Swap(p2), Swap(q2)) == NotCrossed <==>
            CheckLineIntersect(p1, q1, p2, q2) == NotCrossed
  {
    hide Turn;
    SwapTurn(p1, q1, p2);
    SwapTurn(p1, q1, q2);
    SwapTurn(p2, q2, p1);
    SwapTurn(p2, q2, q1);
  }

  lemma ExchangeCheck(p1: Point, q1: Point, p2: Point, q2: Point)
    ensures CheckLineIntersect(p2, q2, p1, q1) == NotCrossed <==> CheckLineIntersect(p1, q1, p2, q2) == NotCrossed
  {
    hide Turn;
  }

  lemma CollinearReported(p1: Point, q1: Point, p2: Point, q2: Point, s: real, t: real)
    requires MeetAt(p1, q1, p2, q2, s, t) && Turn(p1, q1, p2) == Turn(p1, q1, q2) == 0
    ensures CheckLineIntersect(p1, q1, p2, q2) != NotCrossed
  {
    if p1.x != q1.x {
      SlantedReported(p1, q1, p2, q2, s, t);
    } else if p1.y != q1.y {
      SwapTurn(p1, q1, p2);
      SwapTurn(p1, q1, q2);
      SlantedReported(Swap(p1), Swap(q1), Swap(p2), Swap(q2), s, t);
      SwapCheck(p1, q1, p2, q2);
    } else {
      assert IsAt(p2, q2, p1, t);
      OnIsInBox(p2, q2, p1, t);
    }
  }

  /** The segment test is exact: it reports a crossing iff the closed segments share a point. */
  lemma SegmentTestExact(p1: Point, q1: Point, p2: Point, q2: Point)
    ensures CheckLineIntersect(p1, q1, p2, q2) != NotCrossed <==> Meet(p1, q1, p2, q2)
  {
    if CheckLineIntersect(p1, q1, p2, q2) != NotCrossed {
      ReportedMeets(p1, q1, p2, q2);
    }
    if Meet(p1, q1, p2, q2) {
      var s, t :| MeetAt(p1, q1, p2, q2, s, t);
      NotOneSide(p1, q1, p2, q2, s, t);
      NotOneSide(p2, q2, p1, q1, t, s);
      if Orientation(p1, q1, p2) == Orientation(p1, q1, q2) {
        CollinearReported(p1, q1, p2, q2, s, t);
      } else if Orientation(p2, q2, p1) == Orientation(p2, q2, q1) {
        CollinearReported(p2, q2, p1, q1, t, s);
        ExchangeCheck(p1, q1, p2, q2);
      }
    }
  }

  function Opposite(o: LineOrientation): LineOrientation {
    match o
    case Clockwise => CounterClockwise
    case CounterClockwise => Clockwise
    case _ => o
  }

  /** On a strict crossing, walking the first segment the other way reverses the direction. */
  lemma ReversedDirection(p1: Point, q1: Point, p2: Point, q2: Point)
    requires Orientation(p1, q1, p2) != Orientation(p1, q1, q2)
    requires Orientation(p2, q2, p1) != Orientation(p2, q2, q1)
    requires Orientation(p2, q2, p1) != OnLine && Orientation(p2, q2, q1) != OnLine
    ensures CheckLineIntersect(q1, p1, p2, q2) == Opposite(CheckLineIntersect(p1, q1, p2, q2)) != CheckLineIntersect(p1, q1, p2, q2)
  {
    TurnReversed(p1, q1, p2);
    TurnReversed(p1, q1, q2);
  }

  lemma TurnReversed(p: Point, q: Point, r: Point)
    ensures Turn(q, p, r) == -Turn(p, q, r)
  {
  }

  /** Strictly on one side of the line from p through q: the left of one who walks from p to q,
      with y pointing down as in images. */
  predicate Beyond(p: Point, q: Point, r: Point) { (q.y - p.y) * (r.x - p.x) > (q.x - p.x) * (r.y - p.y) }

  lemma BeyondTurn(p: Point, q: Point, r: Point)
    ensures Beyond(p, q, r) <==> Turn(p, q, r) > 0
    ensures Beyond(q, p, r) <==> Turn(p, q, r) < 0
  {
  }

  /** A step that meets a line and ends off it does not start on the side where it ends. */
  lemma EndsDecide(p1: Point, q1: Point, p2: Point, q2: Point)
    requires Meet(p1, q1, p2, q2)
    ensures Orientation(p2, q2, p1) == Orientation(p2, q2, q1) ==> Turn(p2, q2, q1) == 0
    ensures Orientation(p2, q2, p1) != Orientation(p2, q2, q1) ==> Orientation(p1, q1, p2) != Orientation(p1, q1, q2)
  {
    hide Meet, CheckLineIntersect;
    MeetSymmetric(p1, q1, p2, q2);
    OneSide(p2, q2, p1, q1);
    OneSide(p1, q1, p2, q2);
    if Orientation(p1, q1, p2) == Orientation(p1, q1, q2) {
      OffLine(p1, q1, p2, q2);
    }
  }

  lemma OneSide(p1: Point, q1: Point, p2: Point, q2: Point)
    requires Meet(p1, q1, p2, q2)
    ensures Orientation(p1, q1, p2) == Orientation(p1, q1, q2) ==> Turn(p1, q1, p2) == Turn(p1, q1, q2) == 0
  {
    hide Orientation;
    var s, t :| MeetAt(p1, q1, p2, q2, s, t);
    NotOneSide(p1, q1, p2, q2, s, t);
  }

  /** If both ends of the second segment are on the line of the first, and the first is a proper
      segment, then both ends of the first are on the line of the second. */
  lemma OffLine(p1: Point, q1: Point, p2: Point, q2: Point)
    requires Turn(p1, q1, p2) == Turn(p1, q1, q2) == 0
    ensures Orientation(p2, q2, p1) == Orientation(p2, q2, q1)
  {
    TurnDifference(p1, q1, p2, q2);
  }

  /** What the test reports of a step from p1 to q1 and a line from p2 to q2: nothing unless they
      share a point, and then the side of the line on which the step ends. */
  lemma DirectionExact(p1: Point, q1: Point, p2: Point, q2: Point)
    ensures CheckLineIntersect(p1, q1, p2, q2)
         == if !Meet(p1, q1, p2, q2) then NotCrossed
            else if Beyond(p2, q2, q1) then Clockwise
            else if Beyond(q2, p2, q1) then CounterClockwise
            else OnLine
  {
    hide Meet, Turn, Beyond;
    SegmentTestExact(p1, q1, p2, q2);
    BeyondTurn(p2, q2, q1);
    if Meet(p1, q1, p2, q2) { EndsDecide(p1, q1, p2, q2); }
  }

  // ----- a track against region lines

  /** Step h of the track meets line l of the region. */
  ghost predicate StepCrosses(track: seq<Point>, roi: seq<Point>, l: nat, h: nat) {
    l + 1 < |roi| && h + 1 < |track| && Meet(track[h], track[h + 1], roi[l], roi[l + 1])
  }

  /** The first reported crossing, scanning steps, then lines, then regions. */
  function ScanSteps(track: seq<Point>, a: Point, b: Point, h: nat): LineOrientation
    decreases |track| - h
  {
    if h + 1 >= |track| then NotCrossed
    else
      var o := CheckLineIntersect(track[h], track[h + 1], a, b);
      if o != NotCrossed then o else ScanSteps(track, a, b, h + 1)
  }

  function ScanLines(track: seq<Point>, roi: seq<Point>, l: nat): LineOrientation
    decreases |roi| - l
  {
    if l + 1 >= |roi| then NotCrossed
    else
      var o := ScanSteps(track, roi[l], roi[l + 1], 0);
      if o != NotCrossed then o else ScanLines(track, roi, l + 1)
  }

  function ScanRegions(track: seq<Point>, rois: seq<seq<Point>>, r: nat): LineOrientation
    decreases |rois| - r
  {
    if r >= |rois| then NotCrossed
    else
      var o := ScanLines(track, rois[r], 0);
      if o != NotCrossed then o else ScanRegions(track, rois, r + 1)
  }

  ghost predicate RegionCrossed(track: seq<Point>, roi: seq<Point>) {
    exists l: nat, h: nat :: StepCrosses(track, roi, l, h)
  }

  ghost predicate LineCrossed(track: seq<Point>, roi: seq<Point>, l: nat) {
    exists h: nat :: StepCrosses(track, roi, l, h)
  }

  lemma {:induction false} ScanStepsExact(track: seq<Point>, roi: seq<Point>, l: nat, h: nat)
    requires l + 1 < |roi|
    ensures ScanSteps(track, roi[l], roi[l + 1], h) != NotCrossed <==> exists k: nat :: h <= k && StepCrosses(track, roi, l, k)
    decreases |track| - h
  {
    hide Meet, CheckLineIntersect;
    if h + 1 < |track| {
      SegmentTestExact(track[h], track[h + 1], roi[l], roi[l + 1]);
      assert CheckLineIntersect(track[h], track[h + 1], roi[l], roi[l + 1]) != NotCrossed <==> StepCrosses(track, roi, l, h);
      ScanStepsExact(track, roi, l, h + 1);
    }
  }

  lemma {:induction false} ScanLinesExact(track: seq<Point>, roi: seq<Point>, l: nat)
    ensures ScanLines(track, roi, l) != NotCrossed <==> exists k: nat :: l <= k && LineCrossed(track, roi, k)
    decreases |roi| - l
  {
    hide Meet, ScanSteps;
    if l + 1 < |roi| {
      ScanStepsExact(track, roi, l, 0);
      assert ScanSteps(track, roi[l], roi[l + 1], 0) != NotCrossed <==> LineCrossed(track, roi, l);
      ScanLinesExact(track, roi, l + 1);
    }
  }

  /** The scan reports a crossing iff some step of the track meets some line of a region. */
  lemma {:induction false} ScanExact(track: seq<Point>, rois: seq<seq<Point>>, r: nat)
    ensures ScanRegions(track, rois, r) != NotCrossed <==> exists i :: r <= i < |rois| && RegionCrossed(track, rois[i])
    decreases |rois| - r
  {
    hide StepCrosses, ScanLines;
    if r < |rois| {
      ScanLinesExact(track, rois[r], 0);
      if l: nat, h: nat :| StepCrosses(track, rois[r], l, h) { assert LineCrossed(track, rois[r], l); }
      ScanExact(track, rois, r + 1);
    }
  }

  /** Whether and where a step of the track first meets a region line: regions first, then
      their lines, then the steps. */
  method CalcLineCross(track: seq<Point>, rois: seq<seq<Point>>)
    returns (o: LineOrientation, ghost r: nat, ghost l: nat, ghost h: nat)
    requires |track| > 0 && forall i :: 0 <= i < |rois| ==> |rois[i]| > 0
    ensures o == ScanRegions(track, rois, 0)
    ensures o == NotCrossed ==> forall i :: 0 <= i < |rois| ==> !RegionCrossed(track, rois[i])
    ensures o != NotCrossed ==>
              && r < |rois| && StepCrosses(track, rois[r], l, h)
              && o == CheckLineIntersect(track[h], track[h + 1], rois[r][l], rois[r][l + 1])
              && (forall i :: 0 <= i < r ==> !RegionCrossed(track, rois[i]))
              && (forall i: nat :: i < l ==> !LineCrossed(track, rois[r], i))
              && (forall i: nat :: i < h ==> !StepCrosses(track, rois[r], l, i))
  {
    hide Meet, CheckLineIntersect;
    o, r, l, h := NotCrossed, 0, 0, 0;
    for i := 0 to |rois|
      invariant forall k :: 0 <= k < i ==> !RegionCrossed(track, rois[k])
      invariant ScanRegions(track, rois, 0) == ScanRegions(track, rois, i)
    {
      var roi := rois[i];
      for line := 0 to |roi| - 1
        invariant forall k: nat :: k < line ==> !LineCrossed(track, roi, k)
        invariant ScanLines(track, roi, 0) == ScanLines(track, roi, line)
      {
        for step := 0 to |track| - 1
          invariant forall k: nat :: k < step ==> !StepCrosses(track, roi, line, k)
          invariant ScanSteps(track, roi[line], roi[line + 1], 0) == ScanSteps(track, roi[line], roi[line + 1], step)
        {
          o := CheckLineIntersect(track[step], track[step + 1], roi[line], roi[line + 1]);
          SegmentTestExact(track[step], track[step + 1], roi[line], roi[line + 1]);
          if o != NotCrossed {
            r, l, h := i, line, step;
            return;
          }
        }
      }
      assert forall k: nat, step: nat :: StepCrosses(track, roi, k, step) ==> LineCrossed(track, roi, k);
    }
    o := NotCrossed;
  }

  // ----- point in polygon

  /** The rightward ray from c crosses the edge from a to b. */
  predicate Crosses(c: Point, a: Point, b: Point) {
    (a.y > c.y) != (b.y > c.y)
    && c.x as real < ((b.x - a.x) * (c.y - a.y)) as real / (b.y - a.y) as real + a.x as real
  }

  lemma CrossesSymmetric(c: Point, a: Point, b: Point)
    ensures Crosses(c, a, b) == Crosses(c, b, a)
  {
    if (a.y > c.y) != (b.y > c.y) {
      RayPoint(c, a, b);
    }
  }

  lemma RayPoint(c: Point, a: Point, b: Point)
    requires a.y != b.y
    ensures ((b.x - a.x) * (c.y - a.y)) as real / (b.y - a.y) as real + a.x as real
         == ((a.x - b.x) * (c.y - b.y)) as real / (a.y - b.y) as real + b.x as real
  {
    var d := (b.y - a.y) as real;
    var m, n := ((b.x - a.x) * (c.y - a.y)) as real, ((a.x - b.x) * (c.y - b.y)) as real;
    assert (b.x - a.x) * (c.y - a.y) + (a.x - b.x) * (c.y - b.y) == (b.x - a.x) * (b.y - a.y);
    assert m + n == (b.x - a.x) as real * d;
    Quotients(m, n, (b.x - a.x) as real, d);
    assert (a.y - b.y) as real == -d;
  }

  lemma Quotients(m: real, n: real, e: real, d: real)
    requires d != 0.0 && m + n == e * d
    ensures m / d - n / -d == e
  {
    assert n / -d == -(n / d);
    assert (m / d + n / d) * d == m + n;
    assert (m / d + n / d - e) * d == 0.0;
  }

  function Edge(c: Point, a: Point, b: Point): nat { if Crosses(c, a, b) then 1 else 0 }

  // ----- what an edge counts for

  /** A real point of the edge is level with c and strictly to its right. */
  ghost predicate LevelRight(c: Point, a: Point, b: Point, t: real) {
    0.0 <= t <= 1.0 && Along(a.y, b.y, t) == c.y as real && Along(a.x, b.x, t) > c.x as real
  }

  /** The rightward ray from c meets the edge, which has its lower end and not its upper one. */
  ghost predicate RayMeets(c: Point, a: Point, b: Point) {
    (a.y <= c.y < b.y || b.y <= c.y < a.y) && exists t: real :: LevelRight(c, a, b, t)
  }

  /** The only fraction of the edge that is level with c, and the abscissa there. */
  lemma LevelAt(c: Point, a: Point, b: Point) returns (t: real)
    requires a.y != b.y && Min(a.y, b.y) <= c.y <= Max(a.y, b.y)
    ensures 0.0 <= t <= 1.0 && t * (b.y - a.y) as real == (c.y - a.y) as real
    ensures ((b.x - a.x) * (c.y - a.y)) as real / (b.y - a.y) as real == t * (b.x - a.x) as real
  {
    t := Fraction(a.y, b.y, c.y);
    var d, e := (b.y - a.y) as real, (b.x - a.x) as real;
    assert ((b.x - a.x) * (c.y - a.y)) as real == e * (t * d) == (t * e) * d;
    DivideBack(t * e, d);
  }

  lemma DivideBack(x: real, d: real)
    requires d != 0.0
    ensures x * d / d == x
  {
  }

  lemma OnlyLevel(d: real, t: real, u: real)
    requires d != 0.0 && t * d == u * d
    ensures t == u
  {
    assert (t - u) * d == 0.0;
  }

  lemma CrossesExact(c: Point, a: Point, b: Point)
    ensures Crosses(c, a, b) <==> RayMeets(c, a, b)
  {
    if (a.y > c.y) != (b.y > c.y) {
      var t := LevelAt(c, a, b);
      assert Along(a.y, b.y, t) == c.y as real;
      assert Crosses(c, a, b) <==> LevelRight(c, a, b, t);
      forall u | LevelRight(c, a, b, u) ensures u == t {
        OnlyLevel((b.y - a.y) as real, t, u);
      }
    }
  }

  /** An edge counts exactly when its half-open range of heights holds c and c is strictly to its
      left. */
  lemma CrossesTurn(c: Point, a: Point, b: Point)
    ensures Crosses(c, a, b) <==> (a.y <= c.y < b.y && Turn(a, b, c) < 0) || (b.y <= c.y < a.y && Turn(a, b, c) > 0)
  {
    if (a.y > c.y) != (b.y > c.y) {
      var t := LevelAt(c, a, b);
      var d, e := (b.y - a.y) as real, (b.x - a.x) as real;
      var z := t * e - (c.x - a.x) as real;
      assert Crosses(c, a, b) <==> z > 0.0;
      assert z * d == e * (t * d) - (c.x - a.x) as real * d;
      TurnFrom(a, b, c);
      assert e * (t * d) == ((b.x - a.x) * (c.y - a.y)) as real && (c.x - a.x) as real * d == ((b.y - a.y) * (c.x - a.x)) as real;
      assert z * d == -(Turn(a, b, c) as real);
      SignOf(z, d);
    }
  }

  lemma TurnFrom(a: Point, b: Point, c: Point)
    ensures Turn(a, b, c) == (b.y - a.y) * (c.x - a.x) - (b.x - a.x) * (c.y - a.y)
  {
  }

  lemma SignOf(z: real, d: real)
    requires d != 0.0
    ensures z > 0.0 <==> (if d > 0.0 then z * d > 0.0 else z * d < 0.0)
  {
    if z > 0.0 && d > 0.0 { assert z * d > 0.0; }
    if z <= 0.0 && d > 0.0 { assert z * d <= 0.0; }
    if z > 0.0 && d < 0.0 { assert z * -d > 0.0; assert z * -d == -(z * d); }
    if z <= 0.0 && d < 0.0 { assert z * -d <= 0.0; assert z * -d == -(z * d); }
  }

  /** Crossings of the ray with the edges of an open path. */
  function PathCrossings(c: Point, p: seq<Point>): nat {
    if |p| < 2 then 0 else PathCrossings(c, p[..|p| - 1]) + Edge(c, p[|p| - 2], p[|p| - 1])
  }

  /** Crossings of the ray with the edges of the closed polygon. */
  function Crossings(c: Point, p: seq<Point>): nat {
    if p == [] then 0 else PathCrossings(c, p) + Edge(c, p[|p| - 1], p[0])
  }

  /** Inside or a vertex of the polygon, by the even-odd rule. */
  predicate Included(c: Point, p: seq<Point>) { c in p || Crossings(c, p) % 2 > 0 }

  ghost predicate EdgeMet(c: Point, p: seq<Point>, i: nat)
    requires i < |p|
  {
    RayMeets(c, p[i], p[(i + 1) % |p|])
  }

  /** The edges of the closed polygon, of the first n, that the rightward ray from c meets. */
  ghost function EdgesMet(c: Point, p: seq<Point>, n: nat): set<nat>
    requires n <= |p|
  {
    set i: nat | i < n && EdgeMet(c, p, i)
  }

  lemma EdgesMetNext(c: Point, p: seq<Point>, n: nat)
    requires n < |p|
    ensures |EdgesMet(c, p, n + 1)| == |EdgesMet(c, p, n)| + if EdgeMet(c, p, n) then 1 else 0
  {
    hide EdgeMet;
    if EdgeMet(c, p, n) {
      assert EdgesMet(c, p, n + 1) == EdgesMet(c, p, n) + {n};
    } else {
      assert EdgesMet(c, p, n + 1) == EdgesMet(c, p, n);
    }
  }

  /** A vertex is inside, and any other point exactly if its ray meets an odd number of edges. */
  method IsIncludePoint(c: Point, p: seq<Point>) returns (b: bool)
    ensures b == Included(c, p)
    ensures b <==> c in p || |EdgesMet(c, p, |p|)| % 2 == 1
  {
    hide Crosses, EdgeMet, EdgesMet, RayMeets, PathCrossings, Crossings;
    var crosses := 0;
    NoEdgesMet(c, p);
    for i := 0 to |p|
      invariant c !in p[..i] && crosses == |EdgesMet(c, p, i)|
      invariant crosses == Counted(c, p, i)
    {
      if p[i] == c { return true; }
      var j := (i + 1) % |p|;
      CountedNext(c, p, i);
      EdgesMetNext(c, p, i);
      EdgeMetExact(c, p, i);
      if Crosses(c, p[i], p[j]) { crosses := crosses + 1; }
    }
    b := crosses % 2 > 0;
  }

  lemma EdgeMetExact(c: Point, p: seq<Point>, i: nat)
    requires i < |p|
    ensures EdgeMet(c, p, i) <==> Crosses(c, p[i], p[(i + 1) % |p|])
  {
    CrossesExact(c, p[i], p[(i + 1) % |p|]);
  }

  /** Crossings counted at the first i vertices. */
  function Counted(c: Point, p: seq<Point>, i: nat): nat
    requires i <= |p|
  {
    if i < |p| then PathCrossings(c, p[..i + 1]) else Crossings(c, p)
  }

  lemma CountedNext(c: Point, p: seq<Point>, i: nat)
    requires i < |p|
    ensures Counted(c, p, i + 1) == Counted(c, p, i) + if Crosses(c, p[i], p[(i + 1) % |p|]) then 1 else 0
  {
    hide Crosses;
    if i + 1 < |p| {
      assert (i + 1) % |p| == i + 1;
      assert p[..i + 2][..i + 1] == p[..i + 1];
    } else {
      assert p[..i + 1] == p;
    }
  }

  lemma NoEdgesMet(c: Point, p: seq<Point>)
    ensures EdgesMet(c, p, 0) == {} && Counted(c, p, 0) == 0
  {
  }

  lemma {:induction false} PathJoin(c: Point, p: seq<Point>, q: seq<Point>)
    requires |p| > 0 && |q| > 0
    ensures PathCrossings(c, p + q) == PathCrossings(c, p) + Edge(c, p[|p| - 1], q[0]) + PathCrossings(c, q)
  {
    var pq := p + q;
    if |q| == 1 {
      assert pq[..|pq| - 1] == p;
    } else {
      PathJoin(c, p, q[..|q| - 1]);
      assert pq[..|pq| - 1] == p + q[..|q| - 1];
    }
  }

  lemma EdgeSymmetric(c: Point, a: Point, b: Point)
    ensures Edge(c, a, b) == Edge(c, b, a)
  {
    CrossesSymmetric(c, a, b);
  }

  function Reverse(p: seq<Point>): seq<Point> { if p == [] then [] else Reverse(p[1..]) + [p[0]] }

  lemma {:induction false} PathReversed(c: Point, p: seq<Point>)
    ensures PathCrossings(c, Reverse(p)) == PathCrossings(c, p)
    ensures |Reverse(p)| == |p| && (p != [] ==> Reverse(p)[0] == p[|p| - 1] && Reverse(p)[|p| - 1] == p[0])
    ensures forall x :: x in Reverse(p) <==> x in p
  {
    if p != [] {
      PathReversed(c, p[1..]);
      assert p == [p[0]] + p[1..];
      if |p| > 1 {
        PathJoin(c, [p[0]], p[1..]);
        PathJoin(c, Reverse(p[1..]), [p[0]]);
        EdgeSymmetric(c, p[0], p[1]);
      }
    }
  }

  /** Listing the vertices the other way round does not change the answer. */
  lemma ReversalInvariant(c: Point, p: seq<Point>)
    ensures Included(c, Reverse(p)) == Included(c, p)
  {
    PathReversed(c, p);
    if p != [] { EdgeSymmetric(c, p[0], p[|p| - 1]); }
  }

  /** Starting the vertex list elsewhere does not change the answer. */
  lemma RotationInvariant(c: Point, p: seq<Point>, k: nat)
    requires k <= |p|
    ensures Included(c, p[k..] + p[..k]) == Included(c, p)
  {
    var q := p[k..] + p[..k];
    assert p == p[..k] + p[k..];
    if 0 < k < |p| {
      PathJoin(c, p[..k], p[k..]);
      PathJoin(c, p[k..], p[..k]);
    } else {
      assert q == p;
    }
  }

  /** The two polygons a diagonal from vertex i to vertex j cuts off. */
  function FirstPart(p: seq<Point>, i: nat, j: nat): seq<Point>
    requires i < j < |p|
  {
    p[i..j + 1]
  }

  function SecondPart(p: seq<Point>, i: nat, j: nat): seq<Point>
    requires i < j < |p|
  {
    p[j..] + p[..i + 1]
  }

  lemma {:induction false} PathSplit(c: Point, p: seq<Point>, k: nat)
    requires k < |p|
    ensures PathCrossings(c, p) == PathCrossings(c, p[..k + 1]) + PathCrossings(c, p[k..])
  {
    if k + 1 == |p| {
      assert p[..k + 1] == p;
    } else {
      assert p == p[..k + 1] + p[k + 1..];
      PathJoin(c, p[..k + 1], p[k + 1..]);
      assert p[k..] == [p[k]] + p[k + 1..];
      PathJoin(c, [p[k]], p[k + 1..]);
    }
  }

  /** Cutting a polygon by a diagonal splits its inside: away from the vertices a point is in
      the polygon iff it is in exactly one of the two parts. */
  lemma ChordSplitting(c: Point, p: seq<Point>, i: nat, j: nat)
    requires i < j < |p| && c !in p
    ensures Included(c, p) <==> Included(c, FirstPart(p, i, j)) != Included(c, SecondPart(p, i, j))
  {
    hide Crosses, Edge, PathCrossings;
    var a, b := FirstPart(p, i, j), SecondPart(p, i, j);
    PathSplit(c, p, j);
    PathSplit(c, p[..j + 1], i);
    assert p[..j + 1][..i + 1] == p[..i + 1] && p[..j + 1][i..] == a;
    PathJoin(c, p[j..], p[..i + 1]);
    EdgeSymmetric(c, p[i], p[j]);
    assert Crossings(c, a) + Crossings(c, b) == Crossings(c, p) + 2 * Edge(c, p[i], p[j]);
  }
}
