/** Letterbox arithmetic, the rectangles it fills, and the box conversion it parametrises,
    over reals. */
module Letterbox {

  // ----- rounding

  function Abs(x: real): real { if x < 0.0 then -x else x }

  /** std::round: to the nearest integer, halves away from zero. */
  function Round(x: real): int {
    if x >= 0.0 then (x + 0.5).Floor else -((-x + 0.5).Floor)
  }

  function Scaled(src: int, scale: real): int { Round(src as real * scale) }

  /** The two shares of a total padding. */
  function PadBefore(total: int): int { Round(total as real / 2.0 - 0.1) }

  function PadAfter(total: int): int { Round(total as real / 2.0 + 0.1) }

  lemma RoundNear(x: real)
    requires x >= 0.0
    ensures Round(x) >= 0 && -0.5 <= Round(x) as real - x <= 0.5
  {
  }

  /** Splitting a padding in two by rounding a tenth below and above its half loses no pixel. */
  lemma SplitPadding(total: int)
    requires total >= 0
    ensures PadBefore(total) + PadAfter(total) == total
    ensures 0 <= PadBefore(total) <= PadAfter(total) <= PadBefore(total) + 1
  {
    var k := total / 2;
    if total == 2 * k {
      assert total as real / 2.0 == k as real;
      RoundsTo(k as real - 0.1, k);
      RoundsTo(k as real + 0.1, k);
    } else {
      assert total as real / 2.0 == k as real + 0.5;
      RoundsTo(k as real + 0.4, k);
      RoundsTo(k as real + 0.6, k + 1);
    }
  }

  lemma RoundsTo(x: real, k: int)
    requires k >= 0 && k as real - 0.5 < x < k as real + 0.5
    ensures Round(x) == k
  {
  }

  // ----- layout

  datatype Format = RatioFloat | PixelInt

  datatype RefType = CxType | LtxType

  datatype Style = Style(width: int, height: int, format: Format, refType: RefType,
                         padded: bool, scale: real, padX: int, padY: int, originalWidth: int, originalHeight: int)

  datatype Layout = Layout(needResize: bool, scale: real, scaleW: int, scaleH: int, left: int, right: int, top: int, bottom: int)

  function ScaleFactor(srcW: int, srcH: int, targetW: int, targetH: int): real
    requires srcW > 0 && srcH > 0
  {
    var wRatio := targetW as real / srcW as real;
    var hRatio := targetH as real / srcH as real;
    if hRatio < wRatio then hRatio else wRatio
  }

  function LayoutOf(srcW: int, srcH: int, targetW: int, targetH: int): Layout
    requires srcW > 0 && srcH > 0
  {
    if srcW == targetW && srcH == targetH then Layout(false, 1.0, srcW, srcH, 0, 0, 0, 0)
    else
      var scale := ScaleFactor(srcW, srcH, targetW, targetH);
      var scaleW := Scaled(srcW, scale);
      var scaleH := Scaled(srcH, scale);
      Layout(true, scale, scaleW, scaleH, PadBefore(targetW - scaleW), PadAfter(targetW - scaleW),
             PadBefore(targetH - scaleH), PadAfter(targetH - scaleH))
  }

  function OriginalStyle(srcW: int, srcH: int): Style {
    Style(srcW, srcH, PixelInt, LtxType, false, 1.0, 0, 0, 0, 0)
  }

  function InferenceStyle(srcW: int, srcH: int, targetW: int, targetH: int, l: Layout): Style {
    Style(targetW, targetH, RatioFloat, LtxType, true, l.scale, l.left, l.top, srcW, srcH)
  }

  /** One axis of a layout: the parts add up, the scaled source, rounded to whole pixels, is in the
      middle, and it ends inside the target. */
  ghost predicate AxisFits(src: int, target: int, scale: real, scaled: int, before: int, after: int) {
    && 0 <= scaled && 0 <= before <= after <= before + 1 && before + scaled + after == target
    && -0.5 <= scaled as real - src as real * scale <= 0.5
    && before as real + src as real * scale <= target as real
  }

  lemma AxisLayout(src: int, target: int, scale: real)
    requires src > 0 && target > 0 && scale > 0.0 && src as real * scale <= target as real
    ensures var scaled := Scaled(src, scale);
            AxisFits(src, target, scale, scaled, PadBefore(target - scaled), PadAfter(target - scaled))
  {
    var extent := src as real * scale;
    assert extent > 0.0;
    RoundNear(extent);
    var scaled := Round(extent);
    assert scaled <= target;
    SplitPadding(target - scaled);
  }

  lemma RatioBound(src: int, target: int, scale: real)
    requires src > 0 && scale <= target as real / src as real
    ensures src as real * scale <= target as real
    ensures scale == target as real / src as real ==> src as real * scale == target as real
  {
    var q := target as real / src as real;
    assert src as real * q == target as real;
    assert src as real * (q - scale) >= 0.0;
  }

  lemma ScaleBounds(srcW: int, srcH: int, targetW: int, targetH: int)
    requires srcW > 0 && srcH > 0 && targetW > 0 && targetH > 0
    ensures var s := ScaleFactor(srcW, srcH, targetW, targetH);
            && s > 0.0 && srcW as real * s <= targetW as real && srcH as real * s <= targetH as real
            && (srcW as real * s == targetW as real || srcH as real * s == targetH as real)
  {
    var s := ScaleFactor(srcW, srcH, targetW, targetH);
    RatioBound(srcW, targetW, s);
    RatioBound(srcH, targetH, s);
  }

  /** Padding and scaled picture fill the target exactly in both directions, and the picture is as
      large as it can be: in one direction it has the size of the target. */
  lemma LayoutFits(srcW: int, srcH: int, targetW: int, targetH: int)
    requires srcW > 0 && srcH > 0 && targetW > 0 && targetH > 0
    ensures var l := LayoutOf(srcW, srcH, targetW, targetH);
            && l.scale > 0.0
            && ((srcW as real * l.scale == targetW as real && l.scaleW == targetW) || (srcH as real * l.scale == targetH as real && l.scaleH == targetH))
            && AxisFits(srcW, targetW, l.scale, l.scaleW, l.left, l.right)
            && AxisFits(srcH, targetH, l.scale, l.scaleH, l.top, l.bottom)
  {
    hide ScaleFactor, Scaled, PadBefore, PadAfter, AxisFits;
    if srcW != targetW || srcH != targetH {
      var scale := ScaleFactor(srcW, srcH, targetW, targetH);
      ScaleBounds(srcW, srcH, targetW, targetH);
      AxisLayout(srcW, targetW, scale);
      AxisLayout(srcH, targetH, scale);
      FullAxis(srcW, targetW, scale);
      FullAxis(srcH, targetH, scale);
    } else {
      NoPadding(srcW);
      NoPadding(srcH);
    }
  }

  lemma FullAxis(src: int, target: int, scale: real)
    requires target > 0
    ensures src as real * scale == target as real ==> Scaled(src, scale) == target
  {
    RoundsTo(target as real, target);
  }

  lemma NoPadding(src: int)
    requires src > 0
    ensures AxisFits(src, src, 1.0, src, 0, 0)
  {
  }

  // ----- the rectangles filled

  datatype Rect = Rect(x: int, y: int, w: int, h: int)

  predicate Contains(r: Rect, x: int, y: int) { r.x <= x < r.x + r.w && r.y <= y < r.y + r.h }

  function Band(present: bool, r: Rect): seq<Rect> { if present then [r] else [] }

  /** The picture and the grey bands, as they are filled. */
  function Filled(l: Layout, targetW: int, targetH: int): seq<Rect> {
    Band(true, Rect(l.left, l.top, l.scaleW, l.scaleH))
    + Band(l.needResize && l.top > 0, Rect(0, 0, targetW, l.top))
    + Band(l.needResize && l.bottom > 0, Rect(0, targetH - l.bottom, targetW, l.bottom))
    + Band(l.needResize && l.left > 0, Rect(0, l.top, l.left, l.scaleH))
    + Band(l.needResize && l.right > 0, Rect(targetW - l.right, l.top, l.right, l.scaleH))
  }

  function Covers(rs: seq<Rect>, x: int, y: int): nat {
    if rs == [] then 0 else (if Contains(rs[0], x, y) then 1 else 0) + Covers(rs[1..], x, y)
  }

  lemma {:induction false} CoversJoin(a: seq<Rect>, b: seq<Rect>, x: int, y: int)
    ensures Covers(a + b, x, y) == Covers(a, x, y) + Covers(b, x, y)
  {
    if a == [] {
      assert a + b == b;
    } else {
      CoversJoin(a[1..], b, x, y);
      assert (a + b)[1..] == a[1..] + b;
    }
  }

  /** The rectangles partition the target: every pixel inside is filled once, none outside. */
  lemma FilledPartition(srcW: int, srcH: int, targetW: int, targetH: int, x: int, y: int)
    requires srcW > 0 && srcH > 0 && targetW > 0 && targetH > 0
    ensures Covers(Filled(LayoutOf(srcW, srcH, targetW, targetH), targetW, targetH), x, y)
         == if 0 <= x < targetW && 0 <= y < targetH then 1 else 0
  {
    LayoutFits(srcW, srcH, targetW, targetH);
    var l := LayoutOf(srcW, srcH, targetW, targetH);
    PartitionFrom(l, targetW, targetH, x, y);
  }

  lemma PartitionFrom(l: Layout, targetW: int, targetH: int, x: int, y: int)
    requires l.left + l.scaleW + l.right == targetW && l.top + l.scaleH + l.bottom == targetH
    requires 0 <= l.left && 0 <= l.right && 0 <= l.top && 0 <= l.bottom && 0 <= l.scaleW && 0 <= l.scaleH
    requires l.needResize || l.left == l.right == l.top == l.bottom == 0
    ensures Covers(Filled(l, targetW, targetH), x, y) == if 0 <= x < targetW && 0 <= y < targetH then 1 else 0
  {
    hide Band, Covers;
    var picture := Band(true, Rect(l.left, l.top, l.scaleW, l.scaleH));
    var top := Band(l.needResize && l.top > 0, Rect(0, 0, targetW, l.top));
    var bottom := Band(l.needResize && l.bottom > 0, Rect(0, targetH - l.bottom, targetW, l.bottom));
    var left := Band(l.needResize && l.left > 0, Rect(0, l.top, l.left, l.scaleH));
    var right := Band(l.needResize && l.right > 0, Rect(targetW - l.right, l.top, l.right, l.scaleH));
    CoversJoin(picture + top + bottom + left, right, x, y);
    CoversJoin(picture + top + bottom, left, x, y);
    CoversJoin(picture + top, bottom, x, y);
    CoversJoin(picture, top, x, y);
    CoversBand(true, Rect(l.left, l.top, l.scaleW, l.scaleH), x, y);
    CoversBand(l.needResize && l.top > 0, Rect(0, 0, targetW, l.top), x, y);
    CoversBand(l.needResize && l.bottom > 0, Rect(0, targetH - l.bottom, targetW, l.bottom), x, y);
    CoversBand(l.needResize && l.left > 0, Rect(0, l.top, l.left, l.scaleH), x, y);
    CoversBand(l.needResize && l.right > 0, Rect(targetW - l.right, l.top, l.right, l.scaleH), x, y);
  }

  lemma CoversBand(present: bool, r: Rect, x: int, y: int)
    ensures Covers(Band(present, r), x, y) == if present && Contains(r, x, y) then 1 else 0
  {
    if present { assert [r][1..] == []; }
  }

  class FrameFormattingContext {
    var isInitialized: bool
    var hasScaler: bool
    var needResize: bool
    var srcW: int
    var srcH: int
    var targetW: int
    var targetH: int
    var scaleW: int
    var scaleH: int
    var left: int
    var right: int
    var top: int
    var bottom: int
    var originalStyle: Style
    var inferenceStyle: Style

    constructor ()
      ensures !isInitialized && !hasScaler
    {
      isInitialized, hasScaler, needResize := false, false, false;
      srcW, srcH, targetW, targetH, scaleW, scaleH := 0, 0, 0, 0, 0, 0;
      left, right, top, bottom := 0, 0, 0, 0;
      originalStyle, inferenceStyle := OriginalStyle(0, 0), OriginalStyle(0, 0);
    }

    /** The layout fields belong to the current sizes. */
    ghost predicate Laid()
      reads this
    {
      && srcW > 0 && srcH > 0 && targetW > 0 && targetH > 0
      && var l := LayoutOf(srcW, srcH, targetW, targetH);
         && needResize == l.needResize && scaleW == l.scaleW && scaleH == l.scaleH
         && left == l.left && right == l.right && top == l.top && bottom == l.bottom
    }

    /** The styles belong to the current sizes too. */
    ghost predicate Styled()
      reads this
    {
      && Laid()
      && originalStyle == OriginalStyle(srcW, srcH)
      && inferenceStyle == InferenceStyle(srcW, srcH, targetW, targetH, LayoutOf(srcW, srcH, targetW, targetH))
    }

    /** A call with these sizes returns at once. */
    ghost predicate Repeats(newSrcW: int, newSrcH: int, newTargetW: int, newTargetH: int)
      reads this
    {
      isInitialized && srcW == newSrcW && srcH == newSrcH && targetW == newTargetW && targetH == newTargetH
    }

    /** Computes scale and padding for the current sizes. */
    method Lay() returns (scaleFactor: real)
      requires srcW > 0 && srcH > 0 && targetW > 0 && targetH > 0
      modifies this`needResize, this`scaleW, this`scaleH, this`left, this`right, this`top, this`bottom
      ensures Laid() && scaleFactor == LayoutOf(srcW, srcH, targetW, targetH).scale
    {
      hide Scaled, PadBefore, PadAfter;
      scaleFactor := 1.0;
      if srcW == targetW && srcH == targetH {
        needResize, scaleW, scaleH := false, srcW, srcH;
        left, right, top, bottom := 0, 0, 0, 0;
      } else {
        needResize := true;
        var wRatio := targetW as real / srcW as real;
        var hRatio := targetH as real / srcH as real;
        scaleFactor := if hRatio < wRatio then hRatio else wRatio;
        scaleW := Scaled(srcW, scaleFactor);
        scaleH := Scaled(srcH, scaleFactor);
        left, right := PadBefore(targetW - scaleW), PadAfter(targetW - scaleW);
        top, bottom := PadBefore(targetH - scaleH), PadAfter(targetH - scaleH);
      }
    }

    /** Recomputes the layout for new sizes; `scalerMade` says whether the scaler library gave
        a context. A failed call leaves the new layout with the styles of the last success. After
        a call that succeeds styles and scaler fit the layout, except when it repeats the sizes
        of a call that left them unfit. */
    method Update(newSrcW: int, newSrcH: int, newTargetW: int, newTargetH: int, scalerMade: bool) returns (ok: bool)
      requires newSrcW > 0 && newSrcH > 0 && newTargetW > 0 && newTargetH > 0
      requires isInitialized ==> Laid()
      modifies this
      ensures Laid() && srcW == newSrcW && srcH == newSrcH && targetW == newTargetW && targetH == newTargetH
      ensures ok == (old(Repeats(newSrcW, newSrcH, newTargetW, newTargetH)) || scalerMade)
      ensures old(Repeats(newSrcW, newSrcH, newTargetW, newTargetH)) ==>
                hasScaler == old(hasScaler) && originalStyle == old(originalStyle) && inferenceStyle == old(inferenceStyle)
      ensures ok && !old(Repeats(newSrcW, newSrcH, newTargetW, newTargetH)) ==> Styled() && hasScaler
      ensures ok ==> isInitialized && (Styled() && hasScaler <==> !old(Repeats(newSrcW, newSrcH, newTargetW, newTargetH)) || old(Styled() && hasScaler))
      ensures !ok ==> !hasScaler && isInitialized == old(isInitialized)
                      && originalStyle == old(originalStyle) && inferenceStyle == old(inferenceStyle)
    {
      hide LayoutOf, Round;
      var changed := srcW != newSrcW || srcH != newSrcH || targetW != newTargetW || targetH != newTargetH;
      if isInitialized && !changed { return true; }
      srcW, srcH, targetW, targetH := newSrcW, newSrcH, newTargetW, newTargetH;
      var scaleFactor := Lay();
      hasScaler := scalerMade;
      if !hasScaler { return false; }
      originalStyle := OriginalStyle(srcW, srcH);
      inferenceStyle := Style(targetW, targetH, RatioFloat, LtxType, true, scaleFactor, left, top, srcW, srcH);
      isInitialized := true;
      ok := true;
    }
  }

  /** The exception is real: after a success, a failure and a repetition of the failed sizes, the
      last call succeeds with the styles of the first and without a scaler. */
  method RepeatedAfterFailure(w: int, h: int, targetW: int, targetH: int, w': int, h': int) returns (c: FrameFormattingContext, ok: bool)
    requires w > 0 && h > 0 && targetW > 0 && targetH > 0 && w' > 0 && h' > 0 && (w != w' || h != h')
    ensures fresh(c) && ok && c.isInitialized && !c.hasScaler && c.srcW == w' && c.srcH == h'
    ensures c.originalStyle == OriginalStyle(w, h) && !c.Styled()
  {
    hide LayoutOf;
    c := new FrameFormattingContext();
    ok := c.Update(w, h, targetW, targetH, true);
    assert ok;
    ok := c.Update(w', h', targetW, targetH, false);
    assert !ok;
    ok := c.Update(w', h', targetW, targetH, true);
  }

  // ----- box conversion, one axis at a time

  datatype Span = Span(at: real, size: real)

  datatype BBox = BBox(x: real, y: real, w: real, h: real)

  /** What a conversion reads and writes of an object. */
  datatype Expressed = Expressed(bbox: BBox, refType: RefType, format: Format)

  const SCALE_GUARD: real := 0.000001

  const FLOAT_EPSILON: real := 1.0 / 8388608.0

  /** A span in any expression as a left-top ratio of its frame. */
  function ToRatio(s: Span, refType: RefType, format: Format, frame: int): Span
    requires frame > 0
  {
    var r := if format == PixelInt then Span(s.at / frame as real, s.size / frame as real) else s;
    if refType == CxType then Span(r.at - r.size / 2.0, r.size) else r
  }

  function FromRatio(r: Span, refType: RefType, format: Format, frame: int): Span {
    var at := if refType == CxType then r.at + r.size / 2.0 else r.at;
    if format == PixelInt then Span(Times(at, frame as real), Times(r.size, frame as real)) else Span(at, r.size)
  }

  function Times(x: real, f: real): real { x * f }

  /** Multiplication by the inverse. */
  function Per(x: real, f: real): real
    requires f != 0.0
  {
    x * (1.0 / f)
  }

  /** From the padded frame to the original one. */
  function RemovePadding(r: Span, padded: int, original: int, scale: real, pad: int): Span
    requires scale > 0.0 && original > 0
  {
    var at := Per(Times(r.at, padded as real) - pad as real, scale);
    var size := Per(Times(r.size, padded as real), scale);
    Span(Per(at, original as real), Per(size, original as real))
  }

  /** From the original frame to the padded one. */
  function AddPadding(r: Span, original: int, padded: int, scale: real, pad: int): Span
    requires padded > 0
  {
    var at := Times(Times(r.at, original as real), scale) + pad as real;
    var size := Times(Times(r.size, original as real), scale);
    Span(Per(at, padded as real), Per(size, padded as real))
  }

  function Least(a: real, b: real): real { if b < a then b else a }

  function Most(a: real, b: real): real { if a < b then b else a }

  /** Clamping both ends into [0, limit]. */
  function Clamp(s: Span, refType: RefType, limit: real): Span {
    var lo := if refType == LtxType then s.at else s.at - s.size / 2.0;
    var hi := if refType == LtxType then s.at + s.size else s.at + s.size / 2.0;
    var lo' := Most(0.0, Least(lo, limit));
    var hi' := Most(lo', Least(hi, limit));
    Span(if refType == LtxType then lo' else lo' + (hi' - lo') / 2.0, hi' - lo')
  }

  function OnAxes(fx: Span -> Span, fy: Span -> Span, b: BBox): BBox {
    var sx, sy := fx(Span(b.x, b.w)), fy(Span(b.y, b.h));
    BBox(sx.at, sy.at, sx.size, sy.size)
  }

  /** No conversion is needed. */
  predicate SameStyle(e: Expressed, src: Style, dst: Style) {
    && e.format == dst.format && e.refType == dst.refType && src.width == dst.width && src.height == dst.height
    && src.padded == dst.padded
    && (!src.padded
        || (Abs(src.scale - dst.scale) < FLOAT_EPSILON && src.padX == dst.padX && src.padY == dst.padY
            && src.originalWidth == dst.originalWidth && src.originalHeight == dst.originalHeight))
  }

  /** The guard under which padding is taken into account between a padded and a plain style. */
  predicate PaddingKnown(padded: Style, plain: Style) {
    && padded.scale > SCALE_GUARD
    && padded.width > 0 && padded.height > 0 && plain.width > 0 && plain.height > 0
    && padded.originalWidth > 0 && padded.originalHeight > 0
    && plain.width == padded.originalWidth && plain.height == padded.originalHeight
  }

  /** The padding step on one axis. */
  function Repad(r: Span, src: Style, dst: Style, srcFrame: int, dstFrame: int, padOut: int, padIn: int): Span
    requires srcFrame > 0 && dstFrame > 0
  {
    if src.padded && !dst.padded then
      if PaddingKnown(src, dst) then RemovePadding(r, srcFrame, dstFrame, src.scale, padOut) else r
    else if !src.padded && dst.padded then
      if PaddingKnown(dst, src) then AddPadding(r, srcFrame, dstFrame, dst.scale, padIn) else r
    else r
  }

  /** One axis of a conversion between different styles. */
  function ConvertSpan(s: Span, refType: RefType, format: Format, src: Style, dst: Style,
                       srcFrame: int, dstFrame: int, padOut: int, padIn: int): Span
    requires srcFrame > 0 && dstFrame > 0
  {
    var r := ToRatio(s, refType, format, srcFrame);
    var r' := Repad(r, src, dst, srcFrame, dstFrame, padOut, padIn);
    Clamp(FromRatio(r', dst.refType, dst.format, dstFrame), dst.refType, if dst.format == PixelInt then dstFrame as real else 1.0)
  }

  function ConvertedBox(e: Expressed, src: Style, dst: Style): BBox
    requires src.width > 0 && src.height > 0 && dst.width > 0 && dst.height > 0
  {
    OnAxes(s => ConvertSpan(s, e.refType, e.format, src, dst, src.width, dst.width, src.padX, dst.padX),
           s => ConvertSpan(s, e.refType, e.format, src, dst, src.height, dst.height, src.padY, dst.padY), e.bbox)
  }

  /** The object after a conversion: unchanged when the styles agree or a frame is empty. */
  function Converted(e: Expressed, src: Style, dst: Style): Expressed {
    if SameStyle(e, src, dst) || src.width <= 0 || src.height <= 0 || dst.width <= 0 || dst.height <= 0 then e
    else Expressed(ConvertedBox(e, src, dst), dst.refType, dst.format)
  }

  predicate Convertible(e: Expressed, src: Style, dst: Style) {
    SameStyle(e, src, dst) || (src.width > 0 && src.height > 0 && dst.width > 0 && dst.height > 0)
  }

  // ----- the round trip

  lemma RatioRoundTrip(r: Span, refType: RefType, format: Format, frame: int)
    requires frame > 0
    ensures ToRatio(FromRatio(r, refType, format, frame), refType, format, frame) == r
  {
    if format == PixelInt {
      var at := if refType == CxType then r.at + r.size / 2.0 else r.at;
      MulDiv(at, frame as real);
      MulDiv(r.size, frame as real);
    }
  }

  lemma MulDiv(x: real, f: real)
    requires f != 0.0
    ensures x * f / f == x && x * (1.0 / f) == x / f
  {
    assert (x * f / f) * f == x * f;
    assert (x * (1.0 / f)) * f == x * ((1.0 / f) * f) == x;
    assert (x / f) * f == x;
  }

  lemma PaddingRoundTrip(r: Span, original: int, padded: int, scale: real, pad: int)
    requires original > 0 && padded > 0 && scale > 0.0
    ensures RemovePadding(AddPadding(r, original, padded, scale, pad), padded, original, scale, pad) == r
  {
    hide Times, Per;
    var o, p := original as real, padded as real;
    var at, size := Times(Times(r.at, o), scale), Times(Times(r.size, o), scale);
    Undo(at + pad as real, p);
    Undo(size, p);
    Undo(Times(r.at, o), scale);
    Undo(Times(r.size, o), scale);
    Undo(r.at, o);
    Undo(r.size, o);
  }

  lemma Undo(x: real, f: real)
    requires f != 0.0
    ensures Times(Per(x, f), f) == x && Per(Times(x, f), f) == x
  {
    assert f * (1.0 / f) == 1.0;
    assert x * f * (1.0 / f) == x * (f * (1.0 / f));
    assert x * (1.0 / f) * f == x * (f * (1.0 / f));
  }

  /** A left-top ratio inside its frame. */
  ghost predicate Inside(r: Span) { 0.0 <= r.at && 0.0 <= r.size && r.at + r.size <= 1.0 }

  /** Clamping does not bite on a span inside its frame. */
  lemma ClampIdle(r: Span, refType: RefType, format: Format, frame: int)
    requires Inside(r) && frame > 0
    ensures var s := FromRatio(r, refType, format, frame);
            Clamp(s, refType, if format == PixelInt then frame as real else 1.0) == s
  {
    hide Times;
    var s := FromRatio(r, refType, format, frame);
    if format == PixelInt {
      Distribute(r.at, r.size, frame as real);
      ClampKeeps(s, refType, frame as real);
    } else {
      ClampKeeps(s, refType, 1.0);
    }
  }

  lemma Distribute(at: real, size: real, f: real)
    requires 0.0 <= at && 0.0 <= size && at + size <= 1.0 && f > 0.0
    ensures Times(at + size / 2.0, f) == Times(at, f) + Times(size, f) / 2.0
    ensures 0.0 <= Times(at, f) && 0.0 <= Times(size, f) && Times(at, f) + Times(size, f) <= f
  {
    assert (size / 2.0) * f == size * f / 2.0;
    assert (at + size) * f == at * f + size * f;
    assert (1.0 - (at + size)) * f >= 0.0;
  }

  lemma ClampKeeps(s: Span, refType: RefType, limit: real)
    requires var lo := if refType == LtxType then s.at else s.at - s.size / 2.0;
             0.0 <= lo && 0.0 <= s.size && lo + s.size <= limit
    ensures Clamp(s, refType, limit) == s
  {
  }

  lemma AddPaddingInside(r: Span, original: int, padded: int, scale: real, pad: int)
    requires Inside(r) && original > 0 && padded > 0 && scale > 0.0 && pad >= 0
    requires pad as real + original as real * scale <= padded as real
    ensures Inside(AddPadding(r, original, padded, scale, pad))
  {
    hide Times, Per;
    var e, p := original as real * scale, padded as real;
    var at, size := Times(Times(r.at, original as real), scale) + pad as real, Times(Times(r.size, original as real), scale);
    Grouped(r.at, original as real, scale);
    Grouped(r.size, original as real, scale);
    assert e > 0.0;
    ShareOf(r.at, r.size, e);
    assert at + size <= p;
    DivideInside(at, size, p);
  }

  lemma Grouped(x: real, a: real, b: real)
    ensures Times(Times(x, a), b) == x * (a * b)
  {
  }

  lemma ShareOf(at: real, size: real, e: real)
    requires 0.0 <= at && 0.0 <= size && at + size <= 1.0 && e > 0.0
    ensures 0.0 <= at * e && 0.0 <= size * e && at * e + size * e <= e
  {
    assert (at + size) * e == at * e + size * e;
    assert (1.0 - (at + size)) * e >= 0.0;
  }

  lemma DivideInside(at: real, size: real, p: real)
    requires p > 0.0 && 0.0 <= at && 0.0 <= size && at + size <= p
    ensures Inside(Span(Per(at, p), Per(size, p)))
  {
    var q := 1.0 / p;
    assert q > 0.0 && q * p == 1.0;
    assert at * q >= 0.0 && size * q >= 0.0;
    assert (at + size) * q <= p * q;
  }

  /** One axis of the round trip between a plain frame and the padded frame made from it. */
  lemma SpanRoundTrip(r: Span, ref0: RefType, fmt0: Format, plain: Style, padded: Style, frame0: int, frame1: int, plainPad: int, pad: int)
    requires Inside(r) && frame0 > 0 && frame1 > 0 && !plain.padded && padded.padded
    requires pad >= 0 && padded.scale > 0.0 && pad as real + frame0 as real * padded.scale <= frame1 as real
    requires plain.format == fmt0 && plain.refType == ref0
    ensures var s := FromRatio(r, ref0, fmt0, frame0);
            var there := ConvertSpan(s, ref0, fmt0, plain, padded, frame0, frame1, plainPad, pad);
            && ConvertSpan(there, padded.refType, padded.format, padded, plain, frame1, frame0, pad, plainPad) == s
            && there == FromRatio(if PaddingKnown(padded, plain) then AddPadding(r, frame0, frame1, padded.scale, pad) else r,
                                  padded.refType, padded.format, frame1)
  {
    hide ToRatio, FromRatio, Clamp, AddPadding, RemovePadding;
    var s := FromRatio(r, ref0, fmt0, frame0);
    RatioRoundTrip(r, ref0, fmt0, frame0);
    ClampIdle(r, ref0, fmt0, frame0);
    var r1 := Repad(r, plain, padded, frame0, frame1, plainPad, pad);
    if PaddingKnown(padded, plain) {
      AddPaddingInside(r, frame0, frame1, padded.scale, pad);
      PaddingRoundTrip(r, frame0, frame1, padded.scale, pad);
    }
    RatioRoundTrip(r1, padded.refType, padded.format, frame1);
    ClampIdle(r1, padded.refType, padded.format, frame1);
  }

  lemma RatioBack(s: Span, refType: RefType, format: Format, frame: int)
    requires frame > 0
    ensures FromRatio(ToRatio(s, refType, format, frame), refType, format, frame) == s
  {
    if format == PixelInt {
      DivMul(s.at, frame as real);
      DivMul(s.size, frame as real);
    }
  }

  lemma DivMul(x: real, f: real)
    requires f != 0.0
    ensures x / f * f == x
  {
  }

  /** The box lies inside a frame of the given size. */
  ghost predicate InFrame(e: Expressed, width: int, height: int)
    requires width > 0 && height > 0
  {
    && Inside(ToRatio(Span(e.bbox.x, e.bbox.w), e.refType, e.format, width))
    && Inside(ToRatio(Span(e.bbox.y, e.bbox.h), e.refType, e.format, height))
  }

  /** A conversion works on the two axes apart. */
  lemma ConvertedAxes(e: Expressed, src: Style, dst: Style)
    requires src.width > 0 && src.height > 0 && dst.width > 0 && dst.height > 0 && src.padded != dst.padded
    ensures var c := Converted(e, src, dst);
            && c.refType == dst.refType && c.format == dst.format
            && Span(c.bbox.x, c.bbox.w) == ConvertSpan(Span(e.bbox.x, e.bbox.w), e.refType, e.format, src, dst, src.width, dst.width, src.padX, dst.padX)
            && Span(c.bbox.y, c.bbox.h) == ConvertSpan(Span(e.bbox.y, e.bbox.h), e.refType, e.format, src, dst, src.height, dst.height, src.padY, dst.padY)
  {
    hide ConvertSpan;
  }

  /** Where a span of the original frame lies in the padded one. */
  function PaddedSpan(s: Span, refType: RefType, format: Format, original: int, padded: Style, frame: int, pad: int): Span
    requires original > 0 && frame > 0
  {
    FromRatio(AddPadding(ToRatio(s, refType, format, original), original, frame, padded.scale, pad), padded.refType, padded.format, frame)
  }

  /** A box inside the source frame, in any expression, comes back unchanged from the padded
      frame in any expression: no clamp bites on the way. */
  lemma RoundTrip(e: Expressed, srcW: int, srcH: int, targetW: int, targetH: int, format: Format, refType: RefType)
    requires srcW > 0 && srcH > 0 && targetW > 0 && targetH > 0 && InFrame(e, srcW, srcH)
    ensures var l := LayoutOf(srcW, srcH, targetW, targetH);
            var plain := OriginalStyle(srcW, srcH).(format := e.format, refType := e.refType);
            var padded := InferenceStyle(srcW, srcH, targetW, targetH, l).(format := format, refType := refType);
            var there := Converted(e, plain, padded);
            && Converted(there, padded, plain) == e
            && (l.scale > SCALE_GUARD ==>
                  && Span(there.bbox.x, there.bbox.w) == PaddedSpan(Span(e.bbox.x, e.bbox.w), e.refType, e.format, srcW, padded, targetW, l.left)
                  && Span(there.bbox.y, there.bbox.h) == PaddedSpan(Span(e.bbox.y, e.bbox.h), e.refType, e.format, srcH, padded, targetH, l.top))
  {
    hide LayoutOf, FromRatio, ToRatio, ConvertSpan, AddPadding, Converted;
    LayoutFits(srcW, srcH, targetW, targetH);
    var l := LayoutOf(srcW, srcH, targetW, targetH);
    var plain := OriginalStyle(srcW, srcH).(format := e.format, refType := e.refType);
    var padded := InferenceStyle(srcW, srcH, targetW, targetH, l).(format := format, refType := refType);
    var sx, sy := Span(e.bbox.x, e.bbox.w), Span(e.bbox.y, e.bbox.h);
    RatioBack(sx, e.refType, e.format, srcW);
    RatioBack(sy, e.refType, e.format, srcH);
    SpanRoundTrip(ToRatio(sx, e.refType, e.format, srcW), e.refType, e.format, plain, padded, srcW, targetW, 0, l.left);
    SpanRoundTrip(ToRatio(sy, e.refType, e.format, srcH), e.refType, e.format, plain, padded, srcH, targetH, 0, l.top);
    ConvertedAxes(e, plain, padded);
    ConvertedAxes(Converted(e, plain, padded), padded, plain);
  }

  // ----- where edges go

  /** The ends of a span in its own expression. */
  function Low(s: Span, refType: RefType): real { if refType == LtxType then s.at else s.at - s.size / 2.0 }

  function High(s: Span, refType: RefType): real { Low(s, refType) + s.size }

  predicate Holds(s: Span, refType: RefType, x: real) { Low(s, refType) <= x <= High(s, refType) }

  /** Clamping gives the part of the span that lies in [0, limit]; a span that does not reach it
      shrinks to a point at the nearest end. */
  lemma ClampExact(s: Span, refType: RefType, limit: real)
    requires limit >= 0.0
    ensures var c := Clamp(s, refType, limit);
            var lo, hi := Low(s, refType), High(s, refType);
            && 0.0 <= Low(c, refType) <= High(c, refType) <= limit
            && (s.size >= 0.0 && lo <= limit && hi >= 0.0 ==>
                  forall x: real :: Holds(c, refType, x) <==> Holds(s, refType, x) && 0.0 <= x <= limit)
            && (s.size >= 0.0 && hi < 0.0 ==> Low(c, refType) == High(c, refType) == 0.0)
            && (s.size >= 0.0 && lo > limit ==> Low(c, refType) == High(c, refType) == limit)
            && (s.size < 0.0 ==> Low(c, refType) == High(c, refType))
  {
    hide Clamp, Low, High;
    ClampEnds(s, refType, limit);
  }

  lemma ClampEnds(s: Span, refType: RefType, limit: real)
    ensures var c := Clamp(s, refType, limit);
            var lo := Most(0.0, Least(Low(s, refType), limit));
            Low(c, refType) == lo && High(c, refType) == Most(lo, Least(High(s, refType), limit))
    ensures High(s, refType) == Low(s, refType) + s.size
  {
  }

  /** The ends in pixels of the frame. */
  function PixelLow(s: Span, refType: RefType, format: Format, frame: int): real {
    if format == PixelInt then Low(s, refType) else Low(s, refType) * frame as real
  }

  function PixelHigh(s: Span, refType: RefType, format: Format, frame: int): real {
    if format == PixelInt then High(s, refType) else High(s, refType) * frame as real
  }

  lemma RatioEdges(s: Span, refType: RefType, format: Format, frame: int)
    requires frame > 0
    ensures var r := ToRatio(s, refType, format, frame);
            r.at * frame as real == PixelLow(s, refType, format, frame) && (r.at + r.size) * frame as real == PixelHigh(s, refType, format, frame)
  {
    var f := frame as real;
    if format == PixelInt {
      DivMul(s.at, f);
      DivMul(s.size, f);
      EdgeTerms(s.at / f, s.size / f, f);
    } else {
      EdgeTerms(s.at, s.size, f);
    }
  }

  lemma EdgeTerms(at: real, size: real, f: real)
    ensures (at - size / 2.0) * f == at * f - size * f / 2.0
    ensures (at + size / 2.0) * f == at * f + size * f / 2.0
    ensures (at + size) * f == at * f + size * f
  {
    assert (size / 2.0) * f == size * f / 2.0;
  }

  lemma EdgesOfRatio(r: Span, refType: RefType, format: Format, frame: int)
    ensures var s := FromRatio(r, refType, format, frame);
            PixelLow(s, refType, format, frame) == r.at * frame as real && PixelHigh(s, refType, format, frame) == (r.at + r.size) * frame as real
  {
    EdgeTerms(r.at, r.size, frame as real);
  }

  lemma PaddingEdges(r: Span, original: int, padded: int, scale: real, pad: int)
    requires padded > 0
    ensures var q := AddPadding(r, original, padded, scale, pad);
            && q.at * padded as real == r.at * original as real * scale + pad as real
            && (q.at + q.size) * padded as real == (r.at + r.size) * original as real * scale + pad as real
  {
    hide Per;
    var at, size := Times(Times(r.at, original as real), scale) + pad as real, Times(Times(r.size, original as real), scale);
    Undo(at, padded as real);
    Undo(size, padded as real);
    var q := AddPadding(r, original, padded, scale, pad);
    EdgeTerms(q.at, q.size, padded as real);
    EdgeTerms(r.at, r.size, original as real);
    assert (r.at * original as real + r.size * original as real) * scale == r.at * original as real * scale + r.size * original as real * scale;
  }

  /** Between frames of one kind an edge keeps its ratio: the new pixel is the old one times the
      new frame over the old. */
  lemma PlainEdges(s: Span, refType: RefType, format: Format, src: Style, dst: Style, srcFrame: int, dstFrame: int)
    requires srcFrame > 0 && dstFrame > 0
    ensures var t := FromRatio(ToRatio(s, refType, format, srcFrame), dst.refType, dst.format, dstFrame);
            && PixelLow(t, dst.refType, dst.format, dstFrame) * srcFrame as real == PixelLow(s, refType, format, srcFrame) * dstFrame as real
            && PixelHigh(t, dst.refType, dst.format, dstFrame) * srcFrame as real == PixelHigh(s, refType, format, srcFrame) * dstFrame as real
            && (src.padded == dst.padded ==>
                  ConvertSpan(s, refType, format, src, dst, srcFrame, dstFrame, src.padX, dst.padX)
                  == Clamp(t, dst.refType, if dst.format == PixelInt then dstFrame as real else 1.0))
  {
    hide PixelLow, PixelHigh, FromRatio, ToRatio, Clamp;
    var r := ToRatio(s, refType, format, srcFrame);
    RatioEdges(s, refType, format, srcFrame);
    EdgesOfRatio(r, dst.refType, dst.format, dstFrame);
    Exchange(r.at, srcFrame as real, dstFrame as real);
    Exchange(r.at + r.size, srcFrame as real, dstFrame as real);
  }

  lemma Exchange(x: real, f: real, g: real)
    ensures x * f * g == x * g * f
  {
  }

  /** Into the padded frame an edge goes to its pixel times the scale, behind the padding. */
  lemma PaddedEdges(s: Span, refType: RefType, format: Format, original: int, padded: Style, frame: int, pad: int)
    requires original > 0 && frame > 0
    ensures var t := PaddedSpan(s, refType, format, original, padded, frame, pad);
            && PixelLow(t, padded.refType, padded.format, frame) == PixelLow(s, refType, format, original) * padded.scale + pad as real
            && PixelHigh(t, padded.refType, padded.format, frame) == PixelHigh(s, refType, format, original) * padded.scale + pad as real
  {
    hide PixelLow, PixelHigh, FromRatio, ToRatio, AddPadding;
    var r := ToRatio(s, refType, format, original);
    RatioEdges(s, refType, format, original);
    PaddingEdges(r, original, frame, padded.scale, pad);
    EdgesOfRatio(AddPadding(r, original, frame, padded.scale, pad), padded.refType, padded.format, frame);
  }

  /** The edges of a box inside the source frame, in any expression, lie in the padded frame where
      the layout puts their pixels. */
  lemma PlacedBox(e: Expressed, srcW: int, srcH: int, targetW: int, targetH: int, format: Format, refType: RefType)
    requires srcW > 0 && srcH > 0 && targetW > 0 && targetH > 0 && InFrame(e, srcW, srcH)
    requires LayoutOf(srcW, srcH, targetW, targetH).scale > 0.000001
    ensures var l := LayoutOf(srcW, srcH, targetW, targetH);
            var plain := OriginalStyle(srcW, srcH).(format := e.format, refType := e.refType);
            var padded := InferenceStyle(srcW, srcH, targetW, targetH, l).(format := format, refType := refType);
            var there := Converted(e, plain, padded);
            var sx, sy, tx, ty := Span(e.bbox.x, e.bbox.w), Span(e.bbox.y, e.bbox.h), Span(there.bbox.x, there.bbox.w), Span(there.bbox.y, there.bbox.h);
            && PixelLow(tx, refType, format, targetW) == PixelLow(sx, e.refType, e.format, srcW) * l.scale + l.left as real
            && PixelHigh(tx, refType, format, targetW) == PixelHigh(sx, e.refType, e.format, srcW) * l.scale + l.left as real
            && PixelLow(ty, refType, format, targetH) == PixelLow(sy, e.refType, e.format, srcH) * l.scale + l.top as real
            && PixelHigh(ty, refType, format, targetH) == PixelHigh(sy, e.refType, e.format, srcH) * l.scale + l.top as real
  {
    hide LayoutOf, PixelLow, PixelHigh, Converted, PaddedSpan, InFrame;
    var l := LayoutOf(srcW, srcH, targetW, targetH);
    var padded := InferenceStyle(srcW, srcH, targetW, targetH, l).(format := format, refType := refType);
    RoundTrip(e, srcW, srcH, targetW, targetH, format, refType);
    PaddedEdges(Span(e.bbox.x, e.bbox.w), e.refType, e.format, srcW, padded, targetW, l.left);
    PaddedEdges(Span(e.bbox.y, e.bbox.h), e.refType, e.format, srcH, padded, targetH, l.top);
  }

  // ----- the conversion on objects

  class InferObject {
    var bbox: BBox
    var refType: RefType
    var format: Format

    constructor (bbox: BBox, refType: RefType, format: Format)
      ensures Value() == Expressed(bbox, refType, format)
    {
      this.bbox, this.refType, this.format := bbox, refType, format;
    }

    ghost function Value(): Expressed
      reads this
    {
      Expressed(bbox, refType, format)
    }
  }

  /** The ratios of the left-top corner and size, or failure for an empty source frame. */
  method ConvertToIntermediateRatioLtx(bbox: BBox, refType: RefType, format: Format, srcW: int, srcH: int)
    returns (ok: bool, x: real, y: real, w: real, h: real)
    ensures ok == (srcW > 0 && srcH > 0)
    ensures ok ==> Span(x, w) == ToRatio(Span(bbox.x, bbox.w), refType, format, srcW)
    ensures ok ==> Span(y, h) == ToRatio(Span(bbox.y, bbox.h), refType, format, srcH)
  {
    x, y, w, h := 0.0, 0.0, 0.0, 0.0;
    if srcW <= 0 || srcH <= 0 { return false, x, y, w, h; }
    var tx, ty, tw, th;
    match format {
      case PixelInt =>
        tx, ty := bbox.x / srcW as real, bbox.y / srcH as real;
        tw, th := bbox.w / srcW as real, bbox.h / srcH as real;
      case RatioFloat =>
        tx, ty, tw, th := bbox.x, bbox.y, bbox.w, bbox.h;
    }
    match refType {
      case CxType => x, y := tx - tw / 2.0, ty - th / 2.0;
      case LtxType => x, y := tx, ty;
    }
    ok, w, h := true, tw, th;
  }

  /** The box in the expression of the destination style, or failure for an empty frame. */
  method ConvertFromIntermediateRatioLtx(x: real, y: real, w: real, h: real, dst: Style) returns (ok: bool, bbox: BBox)
    ensures ok == (dst.width > 0 && dst.height > 0)
    ensures ok ==> bbox == OnAxes(s => FromRatio(s, dst.refType, dst.format, dst.width),
                                  s => FromRatio(s, dst.refType, dst.format, dst.height), BBox(x, y, w, h))
  {
    bbox := BBox(0.0, 0.0, 0.0, 0.0);
    if dst.width <= 0 || dst.height <= 0 { return false, bbox; }
    var tx, ty, tw, th := x, y, w, h;
    if dst.refType == CxType {
      tx, ty := x + w / 2.0, y + h / 2.0;
    }
    if dst.format == PixelInt {
      tx, ty := tx * dst.width as real, ty * dst.height as real;
      tw, th := tw * dst.width as real, th * dst.height as real;
    }
    ok, bbox := true, BBox(tx, ty, tw, th);
  }

  /** Moves ratios between a padded frame and the original it was made from. */
  method AdjustPadding(x: real, y: real, w: real, h: real, src: Style, dst: Style)
    returns (x': real, y': real, w': real, h': real)
    requires src.width > 0 && src.height > 0 && dst.width > 0 && dst.height > 0
    ensures Span(x', w') == Repad(Span(x, w), src, dst, src.width, dst.width, src.padX, dst.padX)
    ensures Span(y', h') == Repad(Span(y, h), src, dst, src.height, dst.height, src.padY, dst.padY)
  {
    x', y', w', h' := x, y, w, h;
    if src.padded && !dst.padded {
      if src.scale <= SCALE_GUARD || src.originalWidth <= 0 || src.originalHeight <= 0
         || dst.width != src.originalWidth || dst.height != src.originalHeight {
      } else {
        var rx := RemovePadding(Span(x, w), src.width, dst.width, src.scale, src.padX);
        var ry := RemovePadding(Span(y, h), src.height, dst.height, src.scale, src.padY);
        x', w', y', h' := rx.at, rx.size, ry.at, ry.size;
      }
    } else if !src.padded && dst.padded {
      if dst.scale <= SCALE_GUARD || dst.originalWidth <= 0 || dst.originalHeight <= 0
         || src.width != dst.originalWidth || src.height != dst.originalHeight {
      } else {
        var rx := AddPadding(Span(x, w), src.width, dst.width, dst.scale, dst.padX);
        var ry := AddPadding(Span(y, h), src.height, dst.height, dst.scale, dst.padY);
        x', w', y', h' := rx.at, rx.size, ry.at, ry.size;
      }
    }
  }

  method ClampCorners(b: BBox, refType: RefType, maxX: real, maxY: real) returns (r: BBox)
    ensures r == OnAxes(s => Clamp(s, refType, maxX), s => Clamp(s, refType, maxY), b)
  {
    var x1, y1, x2, y2;
    if refType == LtxType {
      x1, y1, x2, y2 := b.x, b.y, b.x + b.w, b.y + b.h;
    } else {
      x1, y1, x2, y2 := b.x - b.w / 2.0, b.y - b.h / 2.0, b.x + b.w / 2.0, b.y + b.h / 2.0;
    }
    x1 := Most(0.0, Least(x1, maxX));
    y1 := Most(0.0, Least(y1, maxY));
    x2 := Most(x1, Least(x2, maxX));
    y2 := Most(y1, Least(y2, maxY));
    var w, h := x2 - x1, y2 - y1;
    if refType == LtxType {
      r := BBox(x1, y1, w, h);
    } else {
      r := BBox(x1 + w / 2.0, y1 + h / 2.0, w, h);
    }
  }

  /** Converts an object in place from one style to another. */
  method ConvertInferObjectCoordinate(object': InferObject, src: Style, dst: Style) returns (ok: bool)
    modifies object'
    ensures ok == old(Convertible(object'.Value(), src, dst))
    ensures object'.Value() == Converted(old(object'.Value()), src, dst)
  {
    hide ToRatio, FromRatio, Repad, Clamp;
    if SameStyle(Expressed(object'.bbox, object'.refType, object'.format), src, dst) { return true; }
    var x, y, w, h;
    ok, x, y, w, h := ConvertToIntermediateRatioLtx(object'.bbox, object'.refType, object'.format, src.width, src.height);
    if !ok { return false; }
    if dst.width > 0 && dst.height > 0 {
      x, y, w, h := AdjustPadding(x, y, w, h, src, dst);
    }
    var final;
    ok, final := ConvertFromIntermediateRatioLtx(x, y, w, h, dst);
    if !ok { return false; }
    object'.bbox, object'.format, object'.refType := final, dst.format, dst.refType;
    if object'.format == PixelInt {
      object'.bbox := ClampCorners(final, object'.refType, dst.width as real, dst.height as real);
    } else {
      object'.bbox := ClampCorners(final, object'.refType, 1.0, 1.0);
    }
  }
}
