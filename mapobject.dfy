/** The map objects the tool edits, and their bounds in pixel space. */
module MapObjects {
  import opened Geometry

  /** Identifies a map object together with the scene item that shows it. */
  type ObjectId = nat

  datatype Shape = Rectangle | Polygon | Polyline | Ellipse

  /** A map object as the tool sees it. `position` is in pixel space,
      `polygon` in object-local coordinates, `rotation` in degrees;
      `isTileObject` stands for a non-empty tile cell. */
  datatype MapObject = MapObject(
    position: Point,
    size: Size,
    rotation: real,
    polygon: seq<Point>,
    shape: Shape,
    alignment: Alignment,
    isTileObject: bool)

  /** `resizeInPixelSpace`: only tile objects are resized in screen space. */
  predicate ResizeInPixelSpace(o: MapObject) {
    !o.isTileObject
  }

  /** `pixelBounds` of an object that is not a tile object: for rectangles and
      ellipses the aligned rectangle of the object's size, for polygons and
      polylines the bounding rectangle of the vertices placed at the position. */
  function PixelBounds(o: MapObject): (r: Rect)
    requires !o.isTileObject
    ensures (o.shape == Rectangle || o.shape == Ellipse) ==>
              r.Dimensions() == o.size && AnchorPoint(r, o.alignment) == o.position
    ensures (o.shape == Polygon || o.shape == Polyline) ==>
              r.width >= 0.0 && r.height >= 0.0 &&
              forall i :: 0 <= i < |o.polygon| ==> r.Contains(Add(o.polygon[i], o.position))
    // an empty polygon has the null rectangle; otherwise every edge touches a vertex
    ensures (o.shape == Polygon || o.shape == Polyline) && |o.polygon| == 0 ==> r == Rect(0.0, 0.0, 0.0, 0.0)
    ensures (o.shape == Polygon || o.shape == Polyline) && |o.polygon| > 0 ==>
              (exists i :: 0 <= i < |o.polygon| && Add(o.polygon[i], o.position).x == r.Left()) &&
              (exists i :: 0 <= i < |o.polygon| && Add(o.polygon[i], o.position).x == r.Right()) &&
              (exists i :: 0 <= i < |o.polygon| && Add(o.polygon[i], o.position).y == r.Top()) &&
              (exists i :: 0 <= i < |o.polygon| && Add(o.polygon[i], o.position).y == r.Bottom())
  {
    match o.shape
    case Rectangle | Ellipse =>
      Align(RectAt(o.position, o.size), o.alignment)
    case Polygon | Polyline =>
      var placed := seq(|o.polygon|, i requires 0 <= i < |o.polygon| => Add(o.polygon[i], o.position));
      assert forall i :: 0 <= i < |placed| ==> placed[i] == Add(o.polygon[i], o.position);
      BoundingRect(placed)
  }
}
