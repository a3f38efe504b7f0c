/** The arithmetic of resizing: the clamped scale of a group, the scaling of
    polygons, and the two ways a single object is resized (by moving the
    dragged edges, or by per-axis factors). */
module Resizing {
  import opened Geometry
  import opened Handles

  /** Scaling never goes below 1%, so that nothing collapses to size zero. */
  const MinScale: real := 0.01

  /** `qMax(0.01, ratio)`: the least scale allowed that is at least `ratio`. */
  function ClampScale(ratio: real): (s: real)
    ensures s >= MinScale && s >= ratio
    ensures s == MinScale || s == ratio
  {
    Max(MinScale, ratio)
  }

  /** The pointer-to-start ratios whose denominators a resize actually uses:
      only the vertical one when horizontal scaling is locked, only the
      horizontal one when vertical scaling is locked, otherwise both. */
  predicate RatiosDefined(startDiff: Point, limitHorizontal: bool, limitVertical: bool) {
    if limitHorizontal then startDiff.y != 0.0
    else if limitVertical then startDiff.x != 0.0
    else startDiff.x != 0.0 && startDiff.y != 0.0
  }

  /** The uniform scale of a group resize in `updateResizingItems`: the ratio
      along the unlocked axis, or the smaller of the two ratios when neither
      axis is locked, each clamped to at least `MinScale`. */
  function GroupScale(diff: Point, startDiff: Point, limitHorizontal: bool, limitVertical: bool): (s: real)
    requires RatiosDefined(startDiff, limitHorizontal, limitVertical)
    ensures s >= MinScale
    ensures limitHorizontal ==> s == ClampScale(diff.y / startDiff.y)
    ensures !limitHorizontal && limitVertical ==> s == ClampScale(diff.x / startDiff.x)
    ensures !limitHorizontal && !limitVertical ==>
              s <= ClampScale(diff.x / startDiff.x) && s <= ClampScale(diff.y / startDiff.y) &&
              (s == ClampScale(diff.x / startDiff.x) || s == ClampScale(diff.y / startDiff.y))
  {
    if limitHorizontal then ClampScale(diff.y / startDiff.y)
    else if limitVertical then ClampScale(diff.x / startDiff.x)
    else Min(ClampScale(diff.x / startDiff.x), ClampScale(diff.y / startDiff.y))
  }

  lemma RatioTimes(n: real, d: real)
    requires d != 0.0
    ensures n / d * d == n
  {
  }

  /** Where the pointer has not pushed a ratio below the minimum, the dragged
      handle, scaled about the origin, lands on the pointer along the axis
      that decides the scale. */
  lemma {:induction false} GroupScaleTracksPointer(diff: Point, startDiff: Point,
                                                   limitHorizontal: bool, limitVertical: bool)
    requires RatiosDefined(startDiff, limitHorizontal, limitVertical)
    requires limitHorizontal || !limitVertical ==> diff.y / startDiff.y >= MinScale
    requires !limitHorizontal ==> diff.x / startDiff.x >= MinScale
    ensures var s := GroupScale(diff, startDiff, limitHorizontal, limitVertical);
            (limitHorizontal ==> startDiff.y * s == diff.y) &&
            (!limitHorizontal && limitVertical ==> startDiff.x * s == diff.x) &&
            (!limitHorizontal && !limitVertical ==> startDiff.x * s == diff.x || startDiff.y * s == diff.y)
  {
    var s := GroupScale(diff, startDiff, limitHorizontal, limitVertical);
    if limitHorizontal {
      RatioTimes(diff.y, startDiff.y);
    } else if limitVertical {
      RatioTimes(diff.x, startDiff.x);
    } else if s == ClampScale(diff.x / startDiff.x) {
      RatioTimes(diff.x, startDiff.x);
    } else {
      RatioTimes(diff.y, startDiff.y);
    }
  }

  /** With the pointer back at the handle's start, a group is not scaled. */
  lemma GroupScaleAtStartIsOne(startDiff: Point, limitHorizontal: bool, limitVertical: bool)
    requires RatiosDefined(startDiff, limitHorizontal, limitVertical)
    ensures GroupScale(startDiff, startDiff, limitHorizontal, limitVertical) == 1.0
  {
    SelfRatio(startDiff.x);
    SelfRatio(startDiff.y);
  }

  lemma SelfRatio(d: real)
    ensures d != 0.0 ==> d / d == 1.0
  {
  }

  /** `p` scaled by `s` about `origin`, as each group member's item position is. */
  function ScaleAbout(origin: Point, p: Point, s: real): Point {
    Add(origin, Scale(Sub(p, origin), s))
  }

  /** Scaling about a point keeps that point in place and scales every
      difference of positions by the same factor, so the group keeps its shape. */
  lemma {:induction false} ScaleAboutIsUniform(origin: Point, p: Point, q: Point, s: real)
    ensures ScaleAbout(origin, origin, s) == origin
    ensures Sub(ScaleAbout(origin, p, s), ScaleAbout(origin, q, s)) == Scale(Sub(p, q), s)
  {
    assert (p.x - origin.x) * s - (q.x - origin.x) * s == (p.x - q.x) * s;
    assert (p.y - origin.y) * s - (q.y - origin.y) * s == (p.y - q.y) * s;
  }

  /** Scaling by `s` and then by `1/s` about the same origin restores the point. */
  lemma {:induction false} ScaleAboutInverse(origin: Point, p: Point, s: real)
    requires s != 0.0
    ensures ScaleAbout(origin, ScaleAbout(origin, p, s), 1.0 / s) == p
  {
    assert (p.x - origin.x) * s * (1.0 / s) == p.x - origin.x;
    assert (p.y - origin.y) * s * (1.0 / s) == p.y - origin.y;
  }

  /** One vertex of a polygon in a group resize: turned into the item's
      unrotated frame, scaled, and turned back (`cs`, `sn` are the cosine
      and sine of the negated item rotation). */
  function RotScalePoint(p: Point, cs: real, sn: real, s: real): Point {
    var rot := Point(p.x * cs + p.y * sn, p.y * cs - p.x * sn);
    var scaled := Point(rot.x * s, rot.y * s);
    Point(scaled.x * cs - scaled.y * sn, scaled.y * cs + scaled.x * sn)
  }

  /** Turning to the unrotated frame and back cancels, so each vertex is just
      scaled uniformly: the polygon keeps its shape. */
  lemma {:induction false} RotScaleIsUniformScale(p: Point, cs: real, sn: real, s: real)
    requires cs * cs + sn * sn == 1.0
    ensures RotScalePoint(p, cs, sn, s) == Scale(p, s)
  {
    var rx, ry := p.x * cs + p.y * sn, p.y * cs - p.x * sn;
    calc {
      rx * s * cs - ry * s * sn;
      s * (p.x * (cs * cs + sn * sn) + p.y * (sn * cs - cs * sn));
      s * p.x;
    }
    calc {
      ry * s * cs + rx * s * sn;
      s * (p.y * (cs * cs + sn * sn) + p.x * (sn * cs - cs * sn));
      s * p.y;
    }
  }

  /** `r` is `polygon` with every vertex scaled uniformly by `s`. */
  predicate IsScaled(r: seq<Point>, polygon: seq<Point>, s: real) {
    |r| == |polygon| && forall n :: 0 <= n < |r| ==> r[n] == Scale(polygon[n], s)
  }

  /** The vertex loop of a group resize. */
  method RotScalePolygon(polygon: seq<Point>, cs: real, sn: real, s: real) returns (r: seq<Point>)
    ensures |r| == |polygon|
    ensures forall n :: 0 <= n < |r| ==> r[n] == RotScalePoint(polygon[n], cs, sn, s)
    ensures cs * cs + sn * sn == 1.0 ==> IsScaled(r, polygon, s)
  {
    r := [];
    var n := 0;
    while n < |polygon|
      invariant 0 <= n <= |polygon| && |r| == n
      invariant forall k :: 0 <= k < n ==> r[k] == RotScalePoint(polygon[k], cs, sn, s)
    {
      r := r + [RotScalePoint(polygon[n], cs, sn, s)];
      n := n + 1;
    }
    if cs * cs + sn * sn == 1.0 {
      forall k | 0 <= k < |r|
        ensures r[k] == Scale(polygon[k], s)
      {
        RotScaleIsUniformScale(polygon[k], cs, sn, s);
      }
    }
  }

  /** Moves the edges the anchor lies on to the pointer, but never past the
      origin on that axis; the other edges stay. */
  function AnchorResize(bounds: Rect, anchor: AnchorPosition, pos: Point, origin: Point): (r: Rect)
    ensures HorizontalSide(anchor) == Low ==>
              r.Left() == Min(pos.x, origin.x) && r.Right() == bounds.Right()
    ensures HorizontalSide(anchor) == High ==>
              r.Right() == Max(pos.x, origin.x) && r.Left() == bounds.Left()
    ensures HorizontalSide(anchor) == Middle ==> r.Left() == bounds.Left() && r.Right() == bounds.Right()
    ensures VerticalSide(anchor) == Low ==>
              r.Top() == Min(pos.y, origin.y) && r.Bottom() == bounds.Bottom()
    ensures VerticalSide(anchor) == High ==>
              r.Bottom() == Max(pos.y, origin.y) && r.Top() == bounds.Top()
    ensures VerticalSide(anchor) == Middle ==> r.Top() == bounds.Top() && r.Bottom() == bounds.Bottom()
  {
    var horizontal :=
      match HorizontalSide(anchor)
      case Low => bounds.WithLeft(Min(pos.x, origin.x))
      case High => bounds.WithRight(Max(pos.x, origin.x))
      case Middle => bounds;
    match VerticalSide(anchor)
    case Low => horizontal.WithTop(Min(pos.y, origin.y))
    case High => horizontal.WithBottom(Max(pos.y, origin.y))
    case Middle => horizontal
  }

  /** Resizing from the opposite handle of a non-negative rectangle keeps that
      handle where it is and never turns the rectangle inside out; the dragged
      edge goes to the pointer when the pointer is on the outer side of the origin. */
  lemma {:induction false} AnchorResizeKeepsOpposite(bounds: Rect, anchor: AnchorPosition, pos: Point)
    requires bounds.width >= 0.0 && bounds.height >= 0.0
    ensures var origin := AnchorPoint(bounds, AnchorAlignment(Opposite(anchor)));
            var r := AnchorResize(bounds, anchor, pos, origin);
            AnchorPoint(r, AnchorAlignment(Opposite(anchor))) == origin &&
            r.width >= 0.0 && r.height >= 0.0 &&
            (HorizontalSide(anchor) == Low && pos.x <= origin.x ==> r.Left() == pos.x) &&
            (HorizontalSide(anchor) == High && pos.x >= origin.x ==> r.Right() == pos.x) &&
            (VerticalSide(anchor) == Low && pos.y <= origin.y ==> r.Top() == pos.y) &&
            (VerticalSide(anchor) == High && pos.y >= origin.y ==> r.Bottom() == pos.y)
  {
    var origin := AnchorPoint(bounds, AnchorAlignment(Opposite(anchor)));
    var r := AnchorResize(bounds, anchor, pos, origin);
    match anchor
    case TopLeftAnchor =>
    case TopRightAnchor =>
    case BottomLeftAnchor =>
    case BottomRightAnchor =>
    case TopAnchor =>
      assert r.x == bounds.x && r.width == bounds.width;
    case BottomAnchor =>
      assert r.x == bounds.x && r.width == bounds.width;
    case LeftAnchor =>
      assert r.y == bounds.y && r.height == bounds.height;
    case RightAnchor =>
      assert r.y == bounds.y && r.height == bounds.height;
  }

  /** The position and size a resize gives an object. */
  datatype Placement = Placement(position: Point, size: Size)

  /** The anchor path of `updateResizingSingleItem`: the object's bounds are
      aligned, their dragged edges moved, and the result unaligned again. */
  function AnchorPlacement(oldPos: Point, oldSize: Size, alignment: Alignment,
                           anchor: AnchorPosition, pos: Point, origin: Point): (p: Placement)
    ensures var resized := AnchorResize(Align(RectAt(oldPos, oldSize), alignment), anchor, pos, origin);
            p.size == resized.Dimensions() && p.position == AnchorPoint(resized, alignment)
  {
    var resized := AnchorResize(Align(RectAt(oldPos, oldSize), alignment), anchor, pos, origin);
    var unaligned := Unalign(resized, alignment);
    Placement(unaligned.TopLeft(), unaligned.Dimensions())
  }

  /** Dragging a handle of a non-negative rectangle onto where it already is,
      with the opposite handle as origin, leaves the rectangle as it was. */
  lemma {:induction false} AnchorResizeAtHandleIsIdentity(bounds: Rect, anchor: AnchorPosition)
    requires bounds.width >= 0.0 && bounds.height >= 0.0
    ensures AnchorResize(bounds, anchor, AnchorPoint(bounds, AnchorAlignment(anchor)),
                         AnchorPoint(bounds, AnchorAlignment(Opposite(anchor)))) == bounds
  {
    var start := AnchorPoint(bounds, AnchorAlignment(anchor));
    var origin := AnchorPoint(bounds, AnchorAlignment(Opposite(anchor)));
    var r := AnchorResize(bounds, anchor, start, origin);
    AnchorAlignmentFractions(anchor);
    AnchorAlignmentFractions(Opposite(anchor));
    match HorizontalSide(anchor) {
      case Low => assert start.x == bounds.Left() && origin.x == bounds.Right();
      case High => assert start.x == bounds.Right() && origin.x == bounds.Left();
      case Middle =>
    }
    match VerticalSide(anchor) {
      case Low => assert start.y == bounds.Top() && origin.y == bounds.Bottom();
      case High => assert start.y == bounds.Bottom() && origin.y == bounds.Top();
      case Middle =>
    }
    assert r.Left() == bounds.Left() && r.Right() == bounds.Right();
    assert r.Top() == bounds.Top() && r.Bottom() == bounds.Bottom();
  }

  /** Dragging a handle of an object with a non-negative size back onto where
      it started, with the opposite handle as origin, leaves the object as it was. */
  lemma {:induction false} AnchorPlacementAtHandleIsIdentity(oldPos: Point, oldSize: Size, alignment: Alignment,
                                                             anchor: AnchorPosition)
    requires oldSize.width >= 0.0 && oldSize.height >= 0.0
    ensures var bounds := Align(RectAt(oldPos, oldSize), alignment);
            var origin := AnchorPoint(bounds, AnchorAlignment(Opposite(anchor)));
            var start := AnchorPoint(bounds, AnchorAlignment(anchor));
            AnchorPlacement(oldPos, oldSize, alignment, anchor, start, origin) == Placement(oldPos, oldSize)
  {
    var bounds := Align(RectAt(oldPos, oldSize), alignment);
    AnchorResizeAtHandleIsIdentity(bounds, anchor);
    UnalignAlign(RectAt(oldPos, oldSize), alignment);
  }

  /** The per-axis factors of the scale path of `updateResizingSingleItem`:
      each axis's clamped ratio; a locked axis keeps factor 1, or follows the
      other axis when the aspect ratio is preserved; with no lock, preserving
      the aspect ratio takes the smaller factor on both axes. */
  function ScaleFactors(relPos: Point, startDiff: Point, limitHorizontal: bool, limitVertical: bool,
                        preserveAspect: bool): (f: Size)
    requires RatiosDefined(startDiff, limitHorizontal, limitVertical)
    ensures f.width >= MinScale && f.height >= MinScale
    ensures preserveAspect ==> f.width == f.height
    ensures limitHorizontal ==>
              f.height == ClampScale(relPos.y / startDiff.y) && (!preserveAspect ==> f.width == 1.0)
    ensures !limitHorizontal && limitVertical ==>
              f.width == ClampScale(relPos.x / startDiff.x) && (!preserveAspect ==> f.height == 1.0)
    ensures !limitHorizontal && !limitVertical && !preserveAspect ==>
              f == Size(ClampScale(relPos.x / startDiff.x), ClampScale(relPos.y / startDiff.y))
    ensures !limitHorizontal && !limitVertical && preserveAspect ==>
              f.width == Min(ClampScale(relPos.x / startDiff.x), ClampScale(relPos.y / startDiff.y))
  {
    if limitHorizontal then
      var fy := ClampScale(relPos.y / startDiff.y);
      Size(if preserveAspect then fy else 1.0, fy)
    else if limitVertical then
      var fx := ClampScale(relPos.x / startDiff.x);
      Size(fx, if preserveAspect then fx else 1.0)
    else
      var fx, fy := ClampScale(relPos.x / startDiff.x), ClampScale(relPos.y / startDiff.y);
      if preserveAspect then Size(Min(fx, fy), Min(fx, fy)) else Size(fx, fy)
  }

  /** With the pointer back at the handle's start, nothing is scaled. */
  lemma ScaleFactorsAtStartAreOne(startDiff: Point, limitHorizontal: bool, limitVertical: bool,
                                  preserveAspect: bool)
    requires RatiosDefined(startDiff, limitHorizontal, limitVertical)
    ensures ScaleFactors(startDiff, startDiff, limitHorizontal, limitVertical, preserveAspect) == Size(1.0, 1.0)
  {
    SelfRatio(startDiff.x);
    SelfRatio(startDiff.y);
  }

  /** `p` scaled by the factors along each axis. */
  function ScalePerAxis(p: Point, f: Size): Point {
    Point(p.x * f.width, p.y * f.height)
  }

  /** The scale path's new position and size: the old position scaled about
      the origin and the old size scaled, per axis. */
  function ScaledPlacement(oldPos: Point, oldSize: Size, origin: Point, f: Size): Placement {
    Placement(Add(origin, ScalePerAxis(Sub(oldPos, origin), f)),
              Size(oldSize.width * f.width, oldSize.height * f.height))
  }

  /** Equal factors, as preserving the aspect ratio gives, keep the ratio of
      width to height and keep a non-negative size non-negative; an object
      at the origin stays there. */
  lemma {:induction false} ScaledPlacementKeepsAspect(oldPos: Point, oldSize: Size, origin: Point, f: Size)
    requires f.width == f.height && f.width >= MinScale
    requires oldSize.width >= 0.0 && oldSize.height >= 0.0
    ensures var p := ScaledPlacement(oldPos, oldSize, origin, f);
            p.size.width >= 0.0 && p.size.height >= 0.0 &&
            p.size.width * oldSize.height == p.size.height * oldSize.width &&
            (oldPos == origin ==> p.position == origin)
  {
    UniformScaleKeepsRatio(oldSize.width, oldSize.height, f.width);
    if oldPos == origin {
      assert Sub(oldPos, origin) == Zero;
      ScalePerAxisOfZero(f);
    }
  }

  lemma UniformScaleKeepsRatio(w: real, h: real, k: real)
    requires w >= 0.0 && h >= 0.0 && k >= 0.0
    ensures w * k >= 0.0 && h * k >= 0.0
    ensures w * k * h == h * k * w
  {
  }

  lemma ScalePerAxisOfZero(f: Size)
    ensures ScalePerAxis(Zero, f) == Zero
  {
  }

  /** Scaling per axis by positive factors and then by their reciprocals restores the point. */
  lemma {:induction false} ScalePerAxisInverse(p: Point, f: Size)
    requires f.width != 0.0 && f.height != 0.0
    ensures ScalePerAxis(ScalePerAxis(p, f), Size(1.0 / f.width, 1.0 / f.height)) == p
  {
    assert p.x * f.width * (1.0 / f.width) == p.x;
    assert p.y * f.height * (1.0 / f.height) == p.y;
  }

  /** The vertex loop of the scale path: each vertex is scaled per axis. */
  method ScalePolygonPerAxis(polygon: seq<Point>, f: Size) returns (r: seq<Point>)
    ensures |r| == |polygon|
    ensures forall n :: 0 <= n < |r| ==> r[n] == ScalePerAxis(polygon[n], f)
  {
    r := [];
    var n := 0;
    while n < |polygon|
      invariant 0 <= n <= |polygon| && |r| == n
      invariant forall k :: 0 <= k < n ==> r[k] == ScalePerAxis(polygon[k], f)
    {
      r := r + [ScalePerAxis(polygon[n], f)];
      n := n + 1;
    }
  }
}
