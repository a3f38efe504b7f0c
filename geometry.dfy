/** Points, sizes and rectangles as the object-selection tool uses them
    (`QPointF`, `QSizeF`, `QRectF`, with `real` for `qreal`), and the
    nine-way alignment of a map object's position within its bounds. */
module Geometry {

  datatype Point = Point(x: real, y: real)

  /** The null point, `QPointF()`. */
  const Zero := Point(0.0, 0.0)

  function Add(p: Point, q: Point): Point { Point(p.x + q.x, p.y + q.y) }
  function Sub(p: Point, q: Point): Point { Point(p.x - q.x, p.y - q.y) }
  function Neg(p: Point): Point { Point(-p.x, -p.y) }
  function Scale(p: Point, s: real): Point { Point(p.x * s, p.y * s) }

  function Min(a: real, b: real): real { if a <= b then a else b }
  function Max(a: real, b: real): real { if a >= b then a else b }

  datatype Size = Size(width: real, height: real)

  /** A `QRectF`: its top-left corner and a size that may be negative. */
  datatype Rect = Rect(x: real, y: real, width: real, height: real) {
    function Left(): real { x }
    function Top(): real { y }
    function Right(): real { x + width }
    function Bottom(): real { y + height }
    function TopLeft(): Point { Point(x, y) }
    function TopRight(): Point { Point(x + width, y) }
    function BottomLeft(): Point { Point(x, y + height) }
    function BottomRight(): Point { Point(x + width, y + height) }
    function Center(): Point { Point(x + width / 2.0, y + height / 2.0) }
    function Dimensions(): Size { Size(width, height) }

    /** `QRectF::translate`: moves the rectangle, keeping its size. */
    function Translated(d: Point): Rect { Rect(x + d.x, y + d.y, width, height) }

    /** `QRectF::setLeft` and friends move one edge and keep the opposite one. */
    function WithLeft(v: real): (r: Rect)
      ensures r.Left() == v && r.Right() == Right() && r.Top() == Top() && r.Bottom() == Bottom()
    { Rect(v, y, x + width - v, height) }

    function WithRight(v: real): (r: Rect)
      ensures r.Right() == v && r.Left() == Left() && r.Top() == Top() && r.Bottom() == Bottom()
    { Rect(x, y, v - x, height) }

    function WithTop(v: real): (r: Rect)
      ensures r.Top() == v && r.Bottom() == Bottom() && r.Left() == Left() && r.Right() == Right()
    { Rect(x, v, width, y + height - v) }

    function WithBottom(v: real): (r: Rect)
      ensures r.Bottom() == v && r.Top() == Top() && r.Left() == Left() && r.Right() == Right()
    { Rect(x, y, width, v - y) }

    /** `QRectF::normalized`: the same edges, ordered so that the size is not negative. */
    function Normalized(): (r: Rect)
      ensures r.width >= 0.0 && r.height >= 0.0
      ensures r.Left() == Min(Left(), Right()) && r.Right() == Max(Left(), Right())
      ensures r.Top() == Min(Top(), Bottom()) && r.Bottom() == Max(Top(), Bottom())
    {
      var (nx, nw) := if width < 0.0 then (x + width, -width) else (x, width);
      var (ny, nh) := if height < 0.0 then (y + height, -height) else (y, height);
      Rect(nx, ny, nw, nh)
    }

    predicate Contains(p: Point) {
      Min(Left(), Right()) <= p.x <= Max(Left(), Right()) &&
      Min(Top(), Bottom()) <= p.y <= Max(Top(), Bottom())
    }
  }

  /** `QRectF(QPointF, QSizeF)`. */
  function RectAt(p: Point, s: Size): Rect { Rect(p.x, p.y, s.width, s.height) }

  /** `QRectF(QPointF topLeft, QPointF bottomRight)`. */
  function RectBetween(p: Point, q: Point): Rect { Rect(p.x, p.y, q.x - p.x, q.y - p.y) }

  /** The anchor of a map object: which point of its bounds its position names. */
  datatype Alignment =
    | TopLeft | Top | TopRight
    | Left | Center | Right
    | BottomLeft | Bottom | BottomRight

  /** How far across the width the anchor lies: 0, one half or 1. */
  function HorizontalFraction(a: Alignment): real {
    match a
    case TopLeft | Left | BottomLeft => 0.0
    case Top | Center | Bottom => 0.5
    case TopRight | Right | BottomRight => 1.0
  }

  /** How far down the height the anchor lies: 0, one half or 1. */
  function VerticalFraction(a: Alignment): real {
    match a
    case TopLeft | Top | TopRight => 0.0
    case Left | Center | Right => 0.5
    case BottomLeft | Bottom | BottomRight => 1.0
  }

  /** The point of `r` that alignment `a` names, from the fractions above. */
  function AnchorPoint(r: Rect, a: Alignment): Point {
    Point(r.x + HorizontalFraction(a) * r.width, r.y + VerticalFraction(a) * r.height)
  }

  /** `alignmentOffset`: the vector from the top-left corner of `r` to its anchor. */
  function AlignmentOffset(r: Rect, a: Alignment): (d: Point)
    ensures Add(r.TopLeft(), d) == AnchorPoint(r, a)
    ensures a == TopLeft ==> d == Zero
  {
    match a
    case TopLeft => Zero
    case Top => Point(r.width / 2.0, 0.0)
    case TopRight => Point(r.width, 0.0)
    case Left => Point(0.0, r.height / 2.0)
    case Center => Point(r.width / 2.0, r.height / 2.0)
    case Right => Point(r.width, r.height / 2.0)
    case BottomLeft => Point(0.0, r.height)
    case Bottom => Point(r.width / 2.0, r.height)
    case BottomRight => Point(r.width, r.height)
  }

  /** `align`: takes a rectangle whose top-left corner is an object's position
      to the rectangle whose anchor is at that position. */
  function Align(r: Rect, a: Alignment): (q: Rect)
    ensures q.Dimensions() == r.Dimensions()
    ensures AnchorPoint(q, a) == r.TopLeft()
  {
    r.Translated(Neg(AlignmentOffset(r, a)))
  }

  /** `unalign`: the reverse step, moving the rectangle's anchor to its top-left corner. */
  function Unalign(r: Rect, a: Alignment): (q: Rect)
    ensures q.Dimensions() == r.Dimensions()
    ensures q.TopLeft() == AnchorPoint(r, a)
  {
    r.Translated(AlignmentOffset(r, a))
  }

  /** The offset depends on the size alone, so translating leaves it unchanged. */
  lemma OffsetIgnoresTranslation(r: Rect, d: Point, a: Alignment)
    ensures AlignmentOffset(r.Translated(d), a) == AlignmentOffset(r, a)
  {
    match a
    case _ =>
  }

  /** `unalign` undoes `align`, for each of the nine alignments. */
  lemma UnalignAlign(r: Rect, a: Alignment)
    ensures Unalign(Align(r, a), a) == r
  {
    OffsetIgnoresTranslation(r, Neg(AlignmentOffset(r, a)), a);
  }

  /** `align` undoes `unalign`, for each of the nine alignments. */
  lemma AlignUnalign(r: Rect, a: Alignment)
    ensures Align(Unalign(r, a), a) == r
  {
    OffsetIgnoresTranslation(r, AlignmentOffset(r, a), a);
  }

  /** The smallest normalized rectangle holding one more point. */
  function Extend(r: Rect, p: Point): Rect
    requires r.width >= 0.0 && r.height >= 0.0
  {
    var l := Min(r.Left(), p.x);
    var t := Min(r.Top(), p.y);
    Rect(l, t, Max(r.Right(), p.x) - l, Max(r.Bottom(), p.y) - t)
  }

  /** `QPolygonF::boundingRect`: the null rectangle for no points, otherwise
      the smallest rectangle holding them all. */
  function BoundingRect(ps: seq<Point>): (r: Rect)
    ensures |ps| == 0 ==> r == Rect(0.0, 0.0, 0.0, 0.0)
    ensures r.width >= 0.0 && r.height >= 0.0
    ensures forall i :: 0 <= i < |ps| ==> r.Contains(ps[i])
    ensures |ps| > 0 ==> exists i :: 0 <= i < |ps| && ps[i].x == r.Left()
    ensures |ps| > 0 ==> exists i :: 0 <= i < |ps| && ps[i].x == r.Right()
    ensures |ps| > 0 ==> exists i :: 0 <= i < |ps| && ps[i].y == r.Top()
    ensures |ps| > 0 ==> exists i :: 0 <= i < |ps| && ps[i].y == r.Bottom()
  {
    if |ps| == 0 then Rect(0.0, 0.0, 0.0, 0.0)
    else if |ps| == 1 then Rect(ps[0].x, ps[0].y, 0.0, 0.0)
    else
      var init := ps[..|ps| - 1];
      var b := BoundingRect(init);
      assert forall i :: 0 <= i < |init| ==> init[i] == ps[i];
      Extend(b, ps[|ps| - 1])
  }
}
