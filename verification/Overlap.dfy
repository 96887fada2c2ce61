/** What the overlap measure of the suppression means: how much of the pixels two boxes cover they
    have in common. */
module BoxOverlaps {
  import Suppression
  import opened Collections

  type Box = Suppression.Box

  /** Covers something: a box of width w reaches over w + 1 pixels. */
  predicate Proper(b: Box) { b.w > -1.0 && b.h > -1.0 }

  /** More than a pixel of one axis lies between the boxes. */
  predicate Apart(a: Box, b: Box) {
    a.x + a.w + 1.0 <= b.x || b.x + b.w + 1.0 <= a.x || a.y + a.h + 1.0 <= b.y || b.y + b.h + 1.0 <= a.y
  }

  lemma SharedBounds(lo: real, n: real, lo': real, n': real)
    requires n > -1.0 && n' > -1.0
    ensures var s := Suppression.Shared(lo, lo + n, lo', lo' + n');
            && 0.0 <= s <= n + 1.0 && s <= n' + 1.0
            && (s == 0.0 <==> lo + n + 1.0 <= lo' || lo' + n' + 1.0 <= lo)
            && (s == n + 1.0 && s == n' + 1.0 <==> lo == lo' && n == n')
  {
  }

  lemma ProductBounds(x: real, y: real, p: real, q: real)
    requires 0.0 <= x <= p && 0.0 <= y <= q && p > 0.0 && q > 0.0
    ensures 0.0 <= x * y <= p * q && p * q > 0.0
    ensures x * y == 0.0 <==> x == 0.0 || y == 0.0
    ensures x * y == p * q <==> x == p && y == q
  {
    assert x * y <= p * y <= p * q by {
      assert (p - x) * y >= 0.0;
      assert p * (q - y) >= 0.0;
    }
    if x * y == p * q {
      assert (p - x) * y == 0.0 && p * (q - y) == 0.0;
    }
    if x > 0.0 && y > 0.0 { assert x * y > 0.0; }
  }

  lemma RatioBounds(i: real, a: real, b: real)
    requires 0.0 <= i <= a && i <= b && a > 0.0 && b > 0.0
    ensures var r := Suppression.Ratio(i, a + b - i);
            0.0 <= r <= 1.0 && (r == 0.0 <==> i == 0.0) && (r == 1.0 <==> i == a == b)
  {
    var u := a + b - i;
    assert u > 0.0;
    var r := i / u;
    assert r * u == i;
    assert u >= i && (r - 1.0) * u == i - u;
    if r > 1.0 { assert (r - 1.0) * u > 0.0; }
  }

  /** The measure of two boxes lies between 0 and 1; it is 0 exactly for boxes apart and 1 exactly
      for equal ones. */
  lemma OverlapRange(a: Box, b: Box)
    requires Proper(a) && Proper(b)
    ensures var r := Suppression.CalculateOverlap(a, b);
            0.0 <= r <= 1.0 && (r == 0.0 <==> Apart(a, b)) && (r == 1.0 <==> a == b)
  {
    hide Suppression.Shared, Suppression.Ratio;
    var sx, sy := Suppression.Shared(a.x, a.x + a.w, b.x, b.x + b.w), Suppression.Shared(a.y, a.y + a.h, b.y, b.y + b.h);
    SharedBounds(a.x, a.w, b.x, b.w);
    SharedBounds(a.y, a.h, b.y, b.h);
    ProductBounds(sx, sy, a.w + 1.0, a.h + 1.0);
    ProductBounds(sx, sy, b.w + 1.0, b.h + 1.0);
    var i := Suppression.Intersection(a, b);
    assert i == sx * sy;
    RatioBounds(i, Suppression.Area(a), Suppression.Area(b));
    assert Suppression.CalculateOverlap(a, b) == Suppression.Ratio(i, Suppression.Area(a) + Suppression.Area(b) - i);
  }

  // ----- pixels

  /** A box with whole coordinates. */
  datatype PixelBox = PixelBox(x: int, y: int, w: nat, h: nat)
  {
    function AsBox(): Box { Suppression.Box(x as real, y as real, w as real, h as real) }

    function Pixels(): set<(int, int)> { Block(x, x + w, y, y + h) }
  }

  function Block(x0: int, x1: int, y0: int, y1: int): set<(int, int)> {
    set x, y | x0 <= x <= x1 && y0 <= y <= y1 :: (x, y)
  }

  function Extent(lo: int, hi: int): nat { if hi < lo then 0 else hi - lo + 1 }

  lemma {:induction false} ColumnSize(x: int, y0: int, y1: int)
    ensures |Block(x, x, y0, y1)| == Extent(y0, y1)
    decreases y1 - y0
  {
    if y1 < y0 {
      assert Block(x, x, y0, y1) == {};
    } else {
      ColumnSize(x, y0, y1 - 1);
      assert Block(x, x, y0, y1) == Block(x, x, y0, y1 - 1) + {(x, y1)};
    }
  }

  lemma {:induction false} BlockSize(x0: int, x1: int, y0: int, y1: int)
    ensures |Block(x0, x1, y0, y1)| == Extent(x0, x1) * Extent(y0, y1)
    decreases x1 - x0
  {
    if x1 < x0 {
      assert Block(x0, x1, y0, y1) == {};
    } else {
      BlockSize(x0, x1 - 1, y0, y1);
      ColumnSize(x1, y0, y1);
      LastColumn(x0, x1, y0, y1);
      var e := Extent(y0, y1);
      assert Extent(x0, x1) == Extent(x0, x1 - 1) + 1;
      assert (Extent(x0, x1 - 1) + 1) * e == Extent(x0, x1 - 1) * e + e;
    }
  }

  lemma LastColumn(x0: int, x1: int, y0: int, y1: int)
    requires x0 <= x1
    ensures |Block(x0, x1, y0, y1)| == |Block(x0, x1 - 1, y0, y1)| + |Block(x1, x1, y0, y1)|
  {
    var l, c := Block(x0, x1 - 1, y0, y1), Block(x1, x1, y0, y1);
    assert Block(x0, x1, y0, y1) == l + c;
    assert l !! c;
  }

  function Larger(a: int, b: int): int { if a < b then b else a }

  function Smaller(a: int, b: int): int { if b < a then b else a }

  lemma CommonPixels(a: PixelBox, b: PixelBox)
    ensures a.Pixels() * b.Pixels()
         == Block(Larger(a.x, b.x), Smaller(a.x + a.w, b.x + b.w), Larger(a.y, b.y), Smaller(a.y + a.h, b.y + b.h))
  {
  }

  lemma SharedPixels(lo: int, hi: int, lo': int, hi': int)
    ensures Suppression.Shared(lo as real, hi as real, lo' as real, hi' as real) == Extent(Larger(lo, lo'), Smaller(hi, hi')) as real
  {
  }

  lemma RealProduct(m: nat, n: nat)
    ensures m as real * n as real == (m * n) as real
  {
  }

  /** On whole coordinates the measure is the number of common pixels over that of covered ones. */
  lemma OverlapIsPixels(a: PixelBox, b: PixelBox)
    ensures |a.Pixels() + b.Pixels()| > 0
    ensures Suppression.CalculateOverlap(a.AsBox(), b.AsBox())
         == |a.Pixels() * b.Pixels()| as real / |a.Pixels() + b.Pixels()| as real
  {
    hide Suppression.Shared, Block, Extent, Larger, Smaller;
    var x0, x1, y0, y1 := Larger(a.x, b.x), Smaller(a.x + a.w, b.x + b.w), Larger(a.y, b.y), Smaller(a.y + a.h, b.y + b.h);
    CommonPixels(a, b);
    BlockSize(x0, x1, y0, y1);
    SharedPixels(a.x, a.x + a.w, b.x, b.x + b.w);
    SharedPixels(a.y, a.y + a.h, b.y, b.y + b.h);
    RealProduct(Extent(x0, x1), Extent(y0, y1));
    BoxSize(a);
    BoxSize(b);
    assert |a.Pixels() + b.Pixels()| == |a.Pixels()| + |b.Pixels()| - |a.Pixels() * b.Pixels()|;
    SubsetSize(a.Pixels(), a.Pixels() + b.Pixels());
  }

  lemma BoxSize(a: PixelBox)
    ensures |a.Pixels()| as real == Suppression.Area(a.AsBox()) && |a.Pixels()| > 0
  {
    BlockSize(a.x, a.x + a.w, a.y, a.y + a.h);
    RealProduct(a.w + 1, a.h + 1);
  }
}
