/** The eight resize handles around the selection: where each sits, which
    axis it locks and which point stays fixed while it is dragged. */
module Handles {
  import opened Geometry

  /** `AnchorPosition`, in the source's enumeration order. */
  datatype AnchorPosition =
    | TopLeftAnchor | TopRightAnchor | BottomLeftAnchor | BottomRightAnchor
    | TopAnchor | LeftAnchor | RightAnchor | BottomAnchor

  const CornerAnchorCount: nat := 4
  const AnchorCount: nat := 8

  /** The enumerator's value. */
  function Index(a: AnchorPosition): (i: nat)
    ensures i < AnchorCount
  {
    match a
    case TopLeftAnchor => 0
    case TopRightAnchor => 1
    case BottomLeftAnchor => 2
    case BottomRightAnchor => 3
    case TopAnchor => 4
    case LeftAnchor => 5
    case RightAnchor => 6
    case BottomAnchor => 7
  }

  /** The first four enumerators are the corners. */
  predicate IsCorner(a: AnchorPosition) {
    Index(a) < CornerAnchorCount
  }

  /** Where along one axis of the selection a handle sits. */
  datatype Side = Low | Middle | High

  function Flip(s: Side): Side {
    match s
    case Low => High
    case Middle => Middle
    case High => Low
  }

  /** Which vertical edge the handle lies on: left, neither, or right. */
  function HorizontalSide(a: AnchorPosition): Side {
    match a
    case TopLeftAnchor | LeftAnchor | BottomLeftAnchor => Low
    case TopAnchor | BottomAnchor => Middle
    case TopRightAnchor | RightAnchor | BottomRightAnchor => High
  }

  /** Which horizontal edge the handle lies on: top, neither, or bottom. */
  function VerticalSide(a: AnchorPosition): Side {
    match a
    case TopLeftAnchor | TopAnchor | TopRightAnchor => Low
    case LeftAnchor | RightAnchor => Middle
    case BottomLeftAnchor | BottomAnchor | BottomRightAnchor => High
  }

  /** The handle across the selection. */
  function Opposite(a: AnchorPosition): (b: AnchorPosition)
    ensures HorizontalSide(b) == Flip(HorizontalSide(a))
    ensures VerticalSide(b) == Flip(VerticalSide(a))
  {
    match a
    case TopLeftAnchor => BottomRightAnchor
    case TopRightAnchor => BottomLeftAnchor
    case BottomLeftAnchor => TopRightAnchor
    case BottomRightAnchor => TopLeftAnchor
    case TopAnchor => BottomAnchor
    case LeftAnchor => RightAnchor
    case RightAnchor => LeftAnchor
    case BottomAnchor => TopAnchor
  }

  /** Taking the opposite handle twice leads back. */
  lemma OppositeIsInvolution(a: AnchorPosition)
    ensures Opposite(Opposite(a)) == a
  {
  }

  /** A resize handle's fixed data: its anchor and its axis locks. */
  datatype ResizeHandle = ResizeHandle(anchor: AnchorPosition, limitHorizontal: bool, limitVertical: bool)

  /** The `ResizeHandle` constructor: a handle in the middle of an axis locks that axis. */
  function NewResizeHandle(a: AnchorPosition): (h: ResizeHandle)
    ensures h.anchor == a
    ensures h.limitHorizontal <==> HorizontalSide(a) == Middle
    ensures h.limitVertical <==> VerticalSide(a) == Middle
    ensures !(h.limitHorizontal && h.limitVertical)
    ensures IsCorner(a) <==> !h.limitHorizontal && !h.limitVertical
  {
    match a
    case TopAnchor => ResizeHandle(a, true, false)
    case LeftAnchor => ResizeHandle(a, false, true)
    case RightAnchor => ResizeHandle(a, false, true)
    case BottomAnchor => ResizeHandle(a, true, false)
    case _ => ResizeHandle(a, false, false)
  }

  /** The four corners and the center that `updateHandles` places the handles
      and the origin indicator at (in screen space). */
  datatype Frame = Frame(topLeft: Point, topRight: Point, bottomLeft: Point, bottomRight: Point, center: Point)

  /** The frame of an unrotated rectangle. */
  function RectFrame(r: Rect): Frame {
    Frame(r.TopLeft(), r.TopRight(), r.BottomLeft(), r.BottomRight(), r.Center())
  }

  function Midpoint(p: Point, q: Point): Point {
    Point((p.x + q.x) / 2.0, (p.y + q.y) / 2.0)
  }

  /** Where `updateHandles` puts each resize handle: on a corner, or halfway along an edge. */
  function HandlePos(f: Frame, a: AnchorPosition): Point {
    match a
    case TopLeftAnchor => f.topLeft
    case TopRightAnchor => f.topRight
    case BottomLeftAnchor => f.bottomLeft
    case BottomRightAnchor => f.bottomRight
    case TopAnchor => Midpoint(f.topLeft, f.topRight)
    case LeftAnchor => Midpoint(f.topLeft, f.bottomLeft)
    case RightAnchor => Midpoint(f.topRight, f.bottomRight)
    case BottomAnchor => Midpoint(f.bottomLeft, f.bottomRight)
  }

  /** The resizing origin `updateHandles` gives each handle. */
  function ResizingOrigin(f: Frame, a: AnchorPosition): Point {
    match a
    case TopAnchor => Midpoint(f.bottomLeft, f.bottomRight)
    case LeftAnchor => Midpoint(f.topRight, f.bottomRight)
    case RightAnchor => Midpoint(f.topLeft, f.bottomLeft)
    case BottomAnchor => Midpoint(f.topLeft, f.topRight)
    case TopLeftAnchor => f.bottomRight
    case TopRightAnchor => f.bottomLeft
    case BottomLeftAnchor => f.topRight
    case BottomRightAnchor => f.topLeft
  }

  /** Every handle's resizing origin is where the opposite handle sits. */
  lemma OriginIsOppositeHandle(f: Frame, a: AnchorPosition)
    ensures ResizingOrigin(f, a) == HandlePos(f, Opposite(a))
  {
  }

  /** The alignment that names the same point of a rectangle as the anchor. */
  function AnchorAlignment(a: AnchorPosition): Alignment {
    match a
    case TopLeftAnchor => TopLeft
    case TopRightAnchor => TopRight
    case BottomLeftAnchor => BottomLeft
    case BottomRightAnchor => BottomRight
    case TopAnchor => Top
    case LeftAnchor => Left
    case RightAnchor => Right
    case BottomAnchor => Bottom
  }

  /** How far along an axis a side lies: 0, one half or 1. */
  function SideFraction(s: Side): real {
    match s
    case Low => 0.0
    case Middle => 0.5
    case High => 1.0
  }

  /** The alignment of an anchor names the point at the anchor's sides. */
  lemma AnchorAlignmentFractions(a: AnchorPosition)
    ensures HorizontalFraction(AnchorAlignment(a)) == SideFraction(HorizontalSide(a))
    ensures VerticalFraction(AnchorAlignment(a)) == SideFraction(VerticalSide(a))
  {
  }

  /** On an unrotated rectangle each handle sits on the point its anchor names. */
  lemma HandleSitsAtAnchor(r: Rect, a: AnchorPosition)
    ensures HandlePos(RectFrame(r), a) == AnchorPoint(r, AnchorAlignment(a))
  {
  }

  /** Why the edge handles lock an axis: on an unrotated rectangle a handle and
      its resizing origin share an x coordinate exactly when the handle locks
      horizontal scaling or the rectangle has no width, so only a locked axis
      would divide by zero; likewise for y. */
  lemma LockedAxisHasNoExtent(r: Rect, a: AnchorPosition)
    ensures HandlePos(RectFrame(r), a).x == ResizingOrigin(RectFrame(r), a).x
            <==> NewResizeHandle(a).limitHorizontal || r.width == 0.0
    ensures HandlePos(RectFrame(r), a).y == ResizingOrigin(RectFrame(r), a).y
            <==> NewResizeHandle(a).limitVertical || r.height == 0.0
  {
    match a
    case _ =>
  }
}
