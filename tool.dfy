/** `ObjectSelectionTool`: the tool that selects, moves, rotates and resizes
    map objects, as a class over the objects it edits, the handles it shows
    and the state of the current mouse gesture. */
module SelectionTool {
  import opened Geometry
  import opened MapObjects
  import opened Collaborators
  import opened Handles
  import opened Gesture
  import opened Snapping
  import opened Resizing
  import opened UndoLog

  datatype MouseButton = LeftButton | OtherButton

  /** What a press landed on among the tool's own handles. */
  datatype HandleHit = NoHandle | RotateHandleHit | ResizeHandleHit(anchor: AnchorPosition)

  /** The screen position of an object's item: the scene keeps every item at
      its object's position taken to the screen. */
  function ItemPosition(renderer: Renderer, o: MapObject): Point {
    renderer.pixelToScreen(o.position)
  }

  function SquaredDistance(p: Point, q: Point): real {
    var d := Sub(p, q);
    d.x * d.x + d.y * d.y
  }

  /** `ms` holds one snapshot of each object of `ids`, taken from its current
      state, as `saveSelectionState` leaves the snapshot list. */
  predicate IsSnapshotList(ms: seq<MovingObject>, ids: set<ObjectId>, objects: map<ObjectId, MapObject>,
                           renderer: Renderer) {
    DistinctItems(ms) && Items(ms) == ids &&
    forall k :: 0 <= k < |ms| ==>
      ms[k].item in objects &&
      ms[k] == SnapshotOf(ms[k].item, ItemPosition(renderer, objects[ms[k].item]), objects[ms[k].item])
  }

  /** With nothing selected there is no snapshot, so `startMoving` as written
      has no first snapshot to start its minimum from. */
  lemma EmptySelectionHasNoSnapshots(ms: seq<MovingObject>, objects: map<ObjectId, MapObject>, renderer: Renderer)
    requires IsSnapshotList(ms, {}, objects, renderer)
    ensures ms == []
  {
    if |ms| > 0 {
      assert ms[0].item in Items(ms) by {
        assert ms[0] in ms;
      }
    }
  }

  /** The loop of `saveSelectionState`: a snapshot of every selected object. */
  method TakeSnapshots(renderer: Renderer, objects: map<ObjectId, MapObject>, ids: set<ObjectId>)
    returns (ms: seq<MovingObject>)
    requires ids <= objects.Keys
    ensures IsSnapshotList(ms, ids, objects, renderer)
  {
    var rest := ids;
    ms := [];
    while rest != {}
      invariant rest <= ids
      invariant DistinctItems(ms) && Items(ms) == ids - rest
      invariant forall k :: 0 <= k < |ms| ==>
                  ms[k].item in objects &&
                  ms[k] == SnapshotOf(ms[k].item, ItemPosition(renderer, objects[ms[k].item]), objects[ms[k].item])
      decreases rest
    {
      var id :| id in rest;
      var m := SnapshotOf(id, ItemPosition(renderer, objects[id]), objects[id]);
      ItemsAppend(ms, m);
      ms := ms + [m];
      rest := rest - {id};
    }
  }

  /** Where `updateMovingItems` puts the object `o` of snapshot `m`: its item
      displaced by `delta` from where it was, and only its position changed. */
  function MovedMember(renderer: Renderer, m: MovingObject, o: MapObject, delta: Point): (r: MapObject)
    requires renderer.Inverse()
    ensures ItemPosition(renderer, r) == Add(m.oldItemPosition, delta)
    ensures r == o.(position := r.position)
  {
    o.(position := renderer.screenToPixel(Add(m.oldItemPosition, delta)))
  }

  /** Where `updateRotatingItems` puts the object `o` of snapshot `m`: its
      item turned about `origin` by `angle`, at the same distance from the
      origin as before, and its rotation grown by the angle. */
  function RotatedMember(renderer: Renderer, trig: Trig, m: MovingObject, o: MapObject, origin: Point,
                         angle: real): (r: MapObject)
    requires renderer.Inverse() && trig.Pythagorean()
    ensures ItemPosition(renderer, r) == RotateAt(trig, origin, angle, m.oldItemPosition)
    ensures SquaredDistance(ItemPosition(renderer, r), origin) == SquaredDistance(m.oldItemPosition, origin)
    ensures r == o.(position := r.position, rotation := m.oldRotation + angle)
  {
    RotateAtKeepsDistance(trig, origin, angle, m.oldItemPosition);
    o.(position := renderer.screenToPixel(RotateAt(trig, origin, angle, m.oldItemPosition)),
       rotation := m.oldRotation + angle)
  }

  /** The loop of `updateMovingItems`: every snapshot's object moved by `delta`. */
  method MoveSnapshots(renderer: Renderer, ms: seq<MovingObject>, objects: map<ObjectId, MapObject>, delta: Point)
    returns (r: map<ObjectId, MapObject>)
    requires renderer.Inverse()
    requires DistinctItems(ms) && forall k :: 0 <= k < |ms| ==> ms[k].item in objects
    ensures r.Keys == objects.Keys
    ensures forall k :: 0 <= k < |ms| ==> r[ms[k].item] == MovedMember(renderer, ms[k], objects[ms[k].item], delta)
    ensures forall id :: id in objects && id !in Items(ms) ==> r[id] == objects[id]
  {
    r := objects;
    var i := 0;
    while i < |ms|
      invariant 0 <= i <= |ms| && r.Keys == objects.Keys
      invariant forall k :: 0 <= k < i ==> r[ms[k].item] == MovedMember(renderer, ms[k], objects[ms[k].item], delta)
      invariant forall id :: id in objects && id !in Items(ms[..i]) ==> r[id] == objects[id]
    {
      var m := ms[i];
      PrefixItems(ms, i);
      r := r[m.item := MovedMember(renderer, m, r[m.item], delta)];
      i := i + 1;
    }
    assert ms[..i] == ms;
  }

  /** The loop of `updateRotatingItems`: every snapshot's object turned by
      `angle` about `origin`. */
  method RotateSnapshots(renderer: Renderer, trig: Trig, ms: seq<MovingObject>, objects: map<ObjectId, MapObject>,
                         origin: Point, angle: real) returns (r: map<ObjectId, MapObject>)
    requires renderer.Inverse() && trig.Pythagorean()
    requires DistinctItems(ms) && forall k :: 0 <= k < |ms| ==> ms[k].item in objects
    ensures r.Keys == objects.Keys
    ensures forall k :: 0 <= k < |ms| ==>
              r[ms[k].item] == RotatedMember(renderer, trig, ms[k], objects[ms[k].item], origin, angle)
    ensures forall id :: id in objects && id !in Items(ms) ==> r[id] == objects[id]
  {
    r := objects;
    var i := 0;
    while i < |ms|
      invariant 0 <= i <= |ms| && r.Keys == objects.Keys
      invariant forall k :: 0 <= k < i ==>
                  r[ms[k].item] == RotatedMember(renderer, trig, ms[k], objects[ms[k].item], origin, angle)
      invariant forall id :: id in objects && id !in Items(ms[..i]) ==> r[id] == objects[id]
    {
      var m := ms[i];
      PrefixItems(ms, i);
      r := r[m.item := RotatedMember(renderer, trig, m, r[m.item], origin, angle)];
      i := i + 1;
    }
    assert ms[..i] == ms;
  }

  /** Every snapshot's object holds the values undoing a macro of this kind
      would restore: the action changed nothing worth recording. */
  predicate AllRestored(kind: MacroKind, ms: seq<MovingObject>, objects: map<ObjectId, MapObject>) {
    forall k :: 0 <= k < |ms| ==> ms[k].item in objects && Restores(kind, ms[k], objects[ms[k].item])
  }

  /** What `objectsRemoved` gives back to one snapshot's object: its position,
      and for a rotation its rotation. */
  function Restored(kind: MacroKind, m: MovingObject, o: MapObject): (r: MapObject)
    ensures Restores(kind, m, r) || kind == ResizeMacro
    ensures kind != RotateMacro ==> r.rotation == o.rotation
    ensures r.size == o.size && r.polygon == o.polygon && r.shape == o.shape
    ensures r.alignment == o.alignment && r.isTileObject == o.isTileObject
  {
    o.(position := m.oldPosition, rotation := if kind == RotateMacro then m.oldRotation else o.rotation)
  }

  /** The loop of `objectsRemoved`: every snapshot's object that was not
      removed gets back what `Restored` gives it; the rest stay as they are. */
  method RestoreSnapshots(kind: MacroKind, ms: seq<MovingObject>, objects: map<ObjectId, MapObject>,
                          removed: set<ObjectId>) returns (r: map<ObjectId, MapObject>)
    requires DistinctItems(ms) && forall k :: 0 <= k < |ms| ==> ms[k].item in objects
    ensures r.Keys == objects.Keys
    ensures forall k :: 0 <= k < |ms| && ms[k].item !in removed ==>
              r[ms[k].item] == Restored(kind, ms[k], objects[ms[k].item])
    ensures forall id :: id in objects && (id in removed || id !in Items(ms)) ==> r[id] == objects[id]
  {
    r := objects;
    var i := 0;
    while i < |ms|
      invariant 0 <= i <= |ms| && r.Keys == objects.Keys
      invariant forall k :: 0 <= k < i ==>
                  r[ms[k].item] == if ms[k].item in removed then objects[ms[k].item]
                                   else Restored(kind, ms[k], objects[ms[k].item])
      invariant forall id :: id in objects && id !in Items(ms[..i]) ==> r[id] == objects[id]
    {
      var m := ms[i];
      PrefixItems(ms, i);
      if m.item !in removed {
        r := r[m.item := Restored(kind, m, r[m.item])];
      }
      i := i + 1;
    }
    assert ms[..i] == ms;
  }

  /** How a group resize by `s` about `origin` leaves a snapshot's object,
      which was `before`: its item scaled about the origin, its size scaled,
      its polygon (if it has one) scaled uniformly, and nothing else changed. */
  predicate GroupResized(renderer: Renderer, m: MovingObject, before: MapObject, after: MapObject,
                         origin: Point, s: real) {
    renderer.pixelToScreen(after.position) == ScaleAbout(origin, m.oldItemPosition, s) &&
    after == before.(position := after.position, polygon := after.polygon,
                     size := Size(m.oldSize.width * s, m.oldSize.height * s)) &&
    (if |before.polygon| > 0 then IsScaled(after.polygon, m.oldPolygon, s) else after.polygon == before.polygon)
  }

  /** The working frame of `updateResizingSingleItem`: a screen point with the
      object's rotation undone about its old item position, taken to pixel
      space unless the object is a tile object. */
  function ToObjectSpace(renderer: Renderer, trig: Trig, m: MovingObject, pixelSpace: bool, p: Point): Point {
    var unrotated := RotateAt(trig, m.oldItemPosition, -m.oldRotation, p);
    if pixelSpace then renderer.screenToPixel(unrotated) else unrotated
  }

  /** The way back: a position of the working frame, rotated again, as the
      object's new pixel position. */
  function FromObjectSpace(renderer: Renderer, trig: Trig, m: MovingObject, pixelSpace: bool, p: Point): Point {
    var screen := if pixelSpace then renderer.pixelToScreen(p) else p;
    renderer.screenToPixel(RotateAt(trig, m.oldItemPosition, m.oldRotation, screen))
  }

  /** Going into the working frame and back lands on the pixel position under
      the screen point, so a position the resize does not change stays put. */
  lemma ObjectSpaceRoundTrip(renderer: Renderer, trig: Trig, m: MovingObject, pixelSpace: bool, p: Point)
    requires renderer.Inverse() && trig.Pythagorean() && trig.Symmetric()
    ensures FromObjectSpace(renderer, trig, m, pixelSpace, ToObjectSpace(renderer, trig, m, pixelSpace, p))
            == renderer.screenToPixel(p)
  {
    RotateAtInverse(trig, m.oldItemPosition, m.oldRotation, p);
  }

  /** Whether `updateResizingSingleItem` moves the dragged edges directly: the
      handle's own origin is in use, on a rectangle or an ellipse, and the
      aspect ratio is not preserved. */
  predicate UsesAnchorPath(handleOrigin: Point, resizingOrigin: Point, shape: Shape, preserveAspect: bool) {
    handleOrigin == resizingOrigin && (shape == Rectangle || shape == Ellipse) && !preserveAspect
  }

  /** The scale path's polygon: every vertex scaled per axis. */
  function ScaledPolygon(polygon: seq<Point>, f: Size): (r: seq<Point>)
    ensures |r| == |polygon|
    ensures forall n :: 0 <= n < |r| ==> r[n] == ScalePerAxis(polygon[n], f)
  {
    seq(|polygon|, n requires 0 <= n < |polygon| => ScalePerAxis(polygon[n], f))
  }

  /** The state of a resize gesture: the dragged handle, the handle frame it
      belongs to, where the handle was when the resize started, and the
      handle's axis locks. */
  datatype ResizeGesture = ResizeGesture(anchor: AnchorPosition, frame: Frame, start: Point,
                                         limitHorizontal: bool, limitVertical: bool)

  /** What `updateResizingSingleItem` makes of the only snapshot's object `o`:
      in the object's unrotated working frame, either the dragged edges move
      to the pointer (`AnchorPlacement`) or the object is scaled per axis
      (`ScaleFactors`, `ScaledPlacement`, and its polygon with them); the
      object is left as it is where the scale path would divide by zero.
      Only the position, the size and the polygon change. */
  function ResizedSingle(renderer: Renderer, trig: Trig, m: MovingObject, o: MapObject, g: ResizeGesture,
                         resizingOrigin: Point, screenPos: Point, preserveAspect: bool): (r: MapObject)
    ensures r == o.(position := r.position, size := r.size, polygon := r.polygon)
    ensures UsesAnchorPath(ResizingOrigin(g.frame, g.anchor), resizingOrigin, o.shape, preserveAspect) ==>
              r.polygon == o.polygon
    ensures preserveAspect && |m.oldPolygon| > 0 && r.polygon != o.polygon ==>
              exists k: real :: k >= MinScale && r.polygon == ScaledPolygon(m.oldPolygon, Size(k, k))
  {
    var pixelSpace := ResizeInPixelSpace(o);
    var origin := ToObjectSpace(renderer, trig, m, pixelSpace, resizingOrigin);
    var pos := ToObjectSpace(renderer, trig, m, pixelSpace, screenPos);
    var startPos := ToObjectSpace(renderer, trig, m, pixelSpace, g.start);
    var oldPos := if pixelSpace then m.oldPosition else m.oldItemPosition;
    if UsesAnchorPath(ResizingOrigin(g.frame, g.anchor), resizingOrigin, o.shape, preserveAspect) then
      var p := AnchorPlacement(oldPos, m.oldSize, o.alignment, g.anchor, pos, origin);
      o.(position := FromObjectSpace(renderer, trig, m, pixelSpace, p.position), size := p.size)
    else if RatiosDefined(Sub(startPos, origin), g.limitHorizontal, g.limitVertical) then
      var f := ScaleFactors(Sub(pos, origin), Sub(startPos, origin), g.limitHorizontal, g.limitVertical,
                            preserveAspect);
      var p := ScaledPlacement(oldPos, m.oldSize, origin, f);
      o.(position := FromObjectSpace(renderer, trig, m, pixelSpace, p.position), size := p.size,
         polygon := if |m.oldPolygon| > 0 then ScaledPolygon(m.oldPolygon, f) else o.polygon)
    else
      o
  }

  /** One pass of the group loop of `updateResizingItems`: the object of
      snapshot `m`, which is `o`, scaled by `scale` about the origin; a
      polygon is scaled in the object's unrotated frame. */
  method ResizeMember(renderer: Renderer, trig: Trig, m: MovingObject, o: MapObject, origin: Point, scale: real)
    returns (r: MapObject)
    requires renderer.Inverse() && trig.Pythagorean()
    ensures GroupResized(renderer, m, o, r, origin, scale)
  {
    var polygon := o.polygon;
    if |o.polygon| > 0 {
      var cs, sn := trig.cos(-o.rotation), trig.sin(-o.rotation);
      assert sn * sn + cs * cs == 1.0;
      polygon := RotScalePolygon(m.oldPolygon, cs, sn, scale);
    }
    var newScreenPos := ScaleAbout(origin, m.oldItemPosition, scale);
    r := o.(position := renderer.screenToPixel(newScreenPos), polygon := polygon,
            size := Size(m.oldSize.width * scale, m.oldSize.height * scale));
  }

  /** The group loop of `updateResizingItems`: every snapshot's object scaled
      by `scale` about `origin`. */
  method ResizeSnapshots(renderer: Renderer, trig: Trig, ms: seq<MovingObject>, objects: map<ObjectId, MapObject>,
                         origin: Point, scale: real) returns (r: map<ObjectId, MapObject>)
    requires renderer.Inverse() && trig.Pythagorean()
    requires DistinctItems(ms) && forall k :: 0 <= k < |ms| ==> ms[k].item in objects
    ensures r.Keys == objects.Keys
    ensures forall k :: 0 <= k < |ms| ==> GroupResized(renderer, ms[k], objects[ms[k].item], r[ms[k].item], origin, scale)
    ensures forall id :: id in objects && id !in Items(ms) ==> r[id] == objects[id]
  {
    r := objects;
    var i := 0;
    while i < |ms|
      invariant 0 <= i <= |ms| && r.Keys == objects.Keys
      invariant forall k :: 0 <= k < i ==> GroupResized(renderer, ms[k], objects[ms[k].item], r[ms[k].item], origin, scale)
      invariant forall id :: id in objects && id !in Items(ms[..i]) ==> r[id] == objects[id]
    {
      var m := ms[i];
      PrefixItems(ms, i);
      var resized := ResizeMember(renderer, trig, m, r[m.item], origin, scale);
      r := r[m.item := resized];
      i := i + 1;
    }
    assert ms[..i] == ms;
  }

  /** The origin a resize scales about: the dragged handle's own, or with
      Shift the origin indicator's position when the resize started. */
  function ResizeOrigin(shift: bool, origin: Point, g: ResizeGesture): (r: Point)
    ensures shift ==> r == origin
    ensures !shift ==> r == HandlePos(g.frame, Opposite(g.anchor))
  {
    if shift then origin else ResizingOrigin(g.frame, g.anchor)
  }

  class ObjectSelectionTool {
    // Collaborators: the map's projection, the trigonometry, the snapping
    // preference, and the layout of the handle frame around a selection
    // that `updateHandles` derives from the objects' bounds.
    const renderer: Renderer
    const trig: Trig
    const preferences: SnapHelper
    const layout: (map<ObjectId, MapObject>, set<ObjectId>) -> Frame

    // The document the tool edits, its selection and its undo stack.
    var objects: map<ObjectId, MapObject>
    var selection: set<ObjectId>
    var undoStack: seq<Macro>

    // The handles.
    var frame: Frame
    var originIndicator: Point
    var visibility: Visibility
    var selectionRect: Rect

    // The gesture.
    var mousePressed: bool
    var start: Point
    var clickedObject: Option<ObjectId>
    var clickedRotateHandle: bool
    var clickedResizeHandle: Option<AnchorPosition>
    var limitHorizontal: bool
    var limitVertical: bool
    var mode: Mode
    var action: Action
    var movingObjects: seq<MovingObject>
    var alignPosition: Point
    var origin: Point

    /** The collaborators obey the laws the tool relies on. */
    ghost predicate Lawful() {
      renderer.Inverse() && trig.Pythagorean()
    }

    /** The handles shown are those `updateHandleVisibility` derives from the
        selection, the action and the mode. */
    predicate HandlesCurrent()
      reads this`visibility, this`selection, this`action, this`mode
    {
      visibility == HandleVisibility(selection != {}, action, mode)
    }

    /** For a document whose objects are `keys`: the selection, the pressed
        object and the snapshots name objects of it, the snapshots name
        distinct objects, and a resize knows its handle. */
    ghost predicate ConsistentFor(keys: set<ObjectId>)
      reads this`selection, this`clickedObject, this`movingObjects, this`action, this`clickedResizeHandle
    {
      selection <= keys &&
      (clickedObject.Some? ==> clickedObject.value in keys) &&
      DistinctItems(movingObjects) &&
      (forall k :: 0 <= k < |movingObjects| ==> movingObjects[k].item in keys) &&
      (action == Resizing ==> clickedResizeHandle.Some?)
    }

    ghost predicate Consistent()
      reads this`objects, this`selection, this`clickedObject, this`movingObjects, this`action,
            this`clickedResizeHandle
    {
      ConsistentFor(objects.Keys)
    }

    /** Besides, the handles are current whenever no action holds them frozen. */
    ghost predicate Valid()
      reads this`objects, this`selection, this`clickedObject, this`movingObjects, this`action,
            this`clickedResizeHandle, this`visibility, this`mode
    {
      Consistent() && (!Busy(action) ==> HandlesCurrent())
    }

    /** The resize gesture the fields describe. */
    function Gesture(): ResizeGesture
      reads this`clickedResizeHandle, this`frame, this`start, this`limitHorizontal, this`limitVertical
      requires clickedResizeHandle.Some?
    {
      ResizeGesture(clickedResizeHandle.value, frame, start, limitHorizontal, limitVertical)
    }

    /** A move step from the objects `before`: every snapshot's item is
        displaced by the pointer's displacement since the press, snapped by
        `snapToGrid`, and the other objects are as they were. */
    ghost predicate MovedFrom(before: map<ObjectId, MapObject>, pos: Point, mods: Modifiers)
      requires Lawful()
      reads this`objects, this`movingObjects, this`alignPosition, this`start
    {
      var delta := SnapDelta(renderer, SnapHelperFor(preferences, mods.ctrl), alignPosition, Sub(pos, start));
      objects.Keys == before.Keys &&
      (forall k :: 0 <= k < |movingObjects| ==>
         movingObjects[k].item in before &&
         objects[movingObjects[k].item] == MovedMember(renderer, movingObjects[k], before[movingObjects[k].item], delta)) &&
      (forall id :: id in before && id !in Items(movingObjects) ==> objects[id] == before[id])
    }

    /** A rotation step from the objects `before`: every snapshot's item is
        turned about the origin by the pointer's angle, and the other objects
        are as they were. */
    ghost predicate RotatedFrom(before: map<ObjectId, MapObject>, pos: Point, mods: Modifiers)
      requires Lawful()
      reads this`objects, this`movingObjects, this`origin, this`start
    {
      var angle := RotationAngle(trig, origin, start, pos, mods.ctrl);
      objects.Keys == before.Keys &&
      (forall k :: 0 <= k < |movingObjects| ==>
         movingObjects[k].item in before &&
         objects[movingObjects[k].item] ==
           RotatedMember(renderer, trig, movingObjects[k], before[movingObjects[k].item], origin, angle)) &&
      (forall id :: id in before && id !in Items(movingObjects) ==> objects[id] == before[id])
    }

    /** A resize step from the objects `before`: the origin indicator shows the
        origin in use; the only snapshot's object is resized on its own, or
        every snapshot's object is scaled by `GroupScale` of the snapped
        pointer (nothing changes where that scale would divide by zero); the
        other objects are as they were. */
    ghost predicate ResizedFrom(before: map<ObjectId, MapObject>, pos: Point, mods: Modifiers)
      requires Lawful()
      reads this`objects, this`movingObjects, this`originIndicator, this`origin, this`start,
            this`clickedResizeHandle, this`frame, this`limitHorizontal, this`limitVertical
    {
      clickedResizeHandle.Some? &&
      originIndicator == ResizeOrigin(mods.shift, origin, Gesture()) &&
      objects.Keys == before.Keys &&
      (forall k :: 0 <= k < |movingObjects| ==> movingObjects[k].item in before) &&
      var snapped := SnappedScreenPos(renderer, preferences, mods.alt, pos);
      (|movingObjects| == 1 ==>
         var id := movingObjects[0].item;
         objects == before[id := ResizedSingle(renderer, trig, movingObjects[0], before[id], Gesture(),
                                               originIndicator, snapped, mods.ctrl)]) &&
      (|movingObjects| != 1 && !RatiosDefined(Sub(start, originIndicator), limitHorizontal, limitVertical) ==>
         objects == before) &&
      (|movingObjects| != 1 && RatiosDefined(Sub(start, originIndicator), limitHorizontal, limitVertical) ==>
         var s := GroupScale(Sub(snapped, originIndicator), Sub(start, originIndicator), limitHorizontal, limitVertical);
         forall k :: 0 <= k < |movingObjects| ==>
           GroupResized(renderer, movingObjects[k], before[movingObjects[k].item],
                        objects[movingObjects[k].item], originIndicator, s)) &&
      (forall id :: id in before && id !in Items(movingObjects) ==> objects[id] == before[id])
    }

    /** How the running action has followed the pointer to `pos`, from the
        objects `before`. */
    ghost predicate Followed(before: map<ObjectId, MapObject>, pos: Point, mods: Modifiers)
      requires Lawful()
      reads this`objects, this`movingObjects, this`alignPosition, this`start, this`origin, this`originIndicator,
            this`clickedResizeHandle, this`frame, this`limitHorizontal, this`limitVertical, this`action,
            this`selectionRect
    {
      match action
      case NoAction => objects == before
      case Selecting => objects == before && selectionRect == RectBetween(start, pos).Normalized()
      case Moving => MovedFrom(before, pos, mods)
      case Rotating => RotatedFrom(before, pos, mods)
      case Resizing => ResizedFrom(before, pos, mods)
    }

    /** The state a drag that starts action `a` sets up, from the selection,
        the objects, the origin indicator and the handle frame it started
        with: the snapshots of the (move) selection, and the reference point
        of a move, or the origin of a rotation or a resize, and a resize's
        handle locks and start. */
    ghost predicate SetUpFor(a: Action, sel0: set<ObjectId>, objects0: map<ObjectId, MapObject>,
                             indicator0: Point, frame0: Frame, mods: Modifiers)
      reads this`selection, this`movingObjects, this`alignPosition, this`origin, this`limitHorizontal,
            this`limitVertical, this`start, this`clickedObject, this`clickedResizeHandle
    {
      match a
      case NoAction => selection == sel0
      case Selecting => selection == sel0
      case Moving =>
        selection == MoveSelection(sel0, clickedObject, mods.alt) &&
        IsSnapshotList(movingObjects, selection, objects0, renderer) &&
        (|movingObjects| > 0 ==> IsAxisMin(alignPosition, movingObjects))
      case Rotating =>
        selection == sel0 && origin == indicator0 && IsSnapshotList(movingObjects, selection, objects0, renderer)
      case Resizing =>
        selection == sel0 && origin == indicator0 && IsSnapshotList(movingObjects, selection, objects0, renderer) &&
        clickedResizeHandle.Some? &&
        limitHorizontal == NewResizeHandle(clickedResizeHandle.value).limitHorizontal &&
        limitVertical == NewResizeHandle(clickedResizeHandle.value).limitVertical &&
        start == HandlePos(frame0, clickedResizeHandle.value)
    }

    /** What a drag that starts action `a` leaves as it was: only a move
        changes the selection and with it the handle frame, and takes the
        align position; only a resize takes a new
        start point and new axis locks; a move or a selection keeps the
        origin; a selection keeps the snapshots and the handle visibility. */
    ghost predicate KeptBy(a: Action, frame0: Frame, visibility0: Visibility,
                           ms0: seq<MovingObject>, align0: Point, origin0: Point, lockH0: bool, lockV0: bool,
                           start0: Point)
      reads this`frame, this`visibility, this`movingObjects, this`alignPosition,
            this`origin, this`limitHorizontal, this`limitVertical, this`start
    {
      (a != Moving ==> frame == frame0 && alignPosition == align0) &&
      (a != Resizing ==> start == start0 && limitHorizontal == lockH0 && limitVertical == lockV0) &&
      (a == Moving || a == Selecting ==> origin == origin0) &&
      (a == Selecting ==> movingObjects == ms0 && visibility == visibility0)
    }

    /** A drag has just started from the state given by the other
        parameters: the action `DragAction` picks, set up as `SetUpFor` says,
        with the fields `KeptBy` names as they were. */
    ghost predicate DragStarted(mods: Modifiers, sel0: set<ObjectId>, objects0: map<ObjectId, MapObject>,
                                indicator0: Point, frame0: Frame, visibility0: Visibility,
                                ms0: seq<MovingObject>, align0: Point, origin0: Point, lockH0: bool, lockV0: bool,
                                start0: Point)
      reads this`selection, this`movingObjects, this`alignPosition, this`origin, this`limitHorizontal,
            this`limitVertical, this`start, this`clickedObject, this`clickedResizeHandle,
            this`clickedRotateHandle, this`action, this`frame, this`visibility
    {
      action == DragAction(clickedObject.Some?, clickedRotateHandle, clickedResizeHandle.Some?, mods) &&
      SetUpFor(action, sel0, objects0, indicator0, frame0, mods) &&
      KeptBy(action, frame0, visibility0, ms0, align0, origin0, lockH0, lockV0, start0)
    }

    /** What ending a move or a resize leaves, from the snapshot list `ms`
        and the undo stack `stack0`: when every object still holds its
        snapshot's values nothing is recorded and the list is kept; otherwise
        one macro over the snapshots is pushed and the list is cleared. */
    predicate FinishedWith(kind: MacroKind, ms: seq<MovingObject>, stack0: seq<Macro>)
      reads this`objects, this`undoStack, this`movingObjects
    {
      if AllRestored(kind, ms, objects) then undoStack == stack0 && movingObjects == ms
      else undoStack == Pushed(stack0, Macro(kind, |ms|, MacroCommands(kind, ms))) && movingObjects == []
    }

    /** What ending a rotation leaves: as `FinishedWith`, but the test is
        whether the button was released where it was pressed. */
    predicate RotationFinishedWith(released: bool, ms: seq<MovingObject>, stack0: seq<Macro>)
      reads this`undoStack, this`movingObjects
    {
      if released then undoStack == stack0 && movingObjects == ms
      else undoStack == Pushed(stack0, Macro(RotateMacro, |ms|, MacroCommands(RotateMacro, ms))) && movingObjects == []
    }

    constructor (renderer: Renderer, trig: Trig, preferences: SnapHelper,
                 layout: (map<ObjectId, MapObject>, set<ObjectId>) -> Frame,
                 objects: map<ObjectId, MapObject>)
      requires renderer.Inverse() && trig.Pythagorean()
      ensures Valid() && Lawful()
      ensures this.objects == objects && selection == {} && undoStack == []
      ensures mode == Resize && action == NoAction && !mousePressed && movingObjects == []
      ensures clickedObject.None? && !clickedRotateHandle && clickedResizeHandle.None?
    {
      this.renderer := renderer;
      this.trig := trig;
      this.preferences := preferences;
      this.layout := layout;
      this.objects := objects;
      selection := {};
      undoStack := [];
      frame := Frame(Zero, Zero, Zero, Zero, Zero);
      originIndicator := Zero;
      visibility := HandleVisibility(false, NoAction, Resize);
      selectionRect := Rect(0.0, 0.0, 0.0, 0.0);
      mousePressed := false;
      start := Zero;
      clickedObject := None;
      clickedRotateHandle := false;
      clickedResizeHandle := None;
      limitHorizontal := false;
      limitVertical := false;
      mode := Resize;
      action := NoAction;
      movingObjects := [];
      alignPosition := Zero;
      origin := Zero;
    }

    /** `updateHandleVisibility`. */
    method UpdateHandleVisibility()
      modifies this`visibility
      ensures HandlesCurrent()
    {
      visibility := HandleVisibility(selection != {}, action, mode);
    }

    /** `updateHandles`: frozen while moving, rotating or resizing; otherwise
        the handles are laid out around a non-empty selection and their
        visibility is brought up to date. */
    method UpdateHandles()
      requires Consistent()
      modifies this`frame, this`originIndicator, this`visibility
      ensures Valid()
      ensures Busy(action) ==> unchanged(this`frame, this`originIndicator, this`visibility)
      ensures !Busy(action) && selection != {} ==>
                frame == layout(objects, selection) && originIndicator == frame.center
      ensures !Busy(action) && selection == {} ==> unchanged(this`frame, this`originIndicator)
    {
      if Busy(action) {
        return;
      }
      if selection != {} {
        frame := layout(objects, selection);
        originIndicator := frame.center;
      }
      UpdateHandleVisibility();
    }

    /** `setMode`: a change of mode refreshes the handles. */
    method SetMode(m: Mode)
      requires Valid()
      modifies this`mode, this`frame, this`originIndicator, this`visibility
      ensures Valid() && mode == m
      ensures old(mode) == m ==> unchanged(this`frame, this`originIndicator, this`visibility)
    {
      if mode != m {
        mode := m;
        UpdateHandles();
      }
    }

    /** `MapScene::setSelectedObjectItems`, whose change signal refreshes the handles. */
    method SetSelectedObjectItems(s: set<ObjectId>)
      requires Valid() && s <= objects.Keys
      modifies this`selection, this`frame, this`originIndicator, this`visibility
      ensures Valid() && selection == s
    {
      selection := s;
      UpdateHandles();
    }

    /** `mousePressed`: ignored while an action runs; a left press records
        where it happened and what it hit, and only a press on no handle
        records the topmost object under the pointer. */
    method MousePressed(button: MouseButton, pos: Point, hit: HandleHit, topMost: Option<ObjectId>)
      requires Valid()
      requires topMost.Some? ==> topMost.value in objects
      modifies this`mousePressed, this`start, this`clickedObject, this`clickedRotateHandle, this`clickedResizeHandle
      ensures Valid()
      ensures old(action) != NoAction || button != LeftButton ==>
                unchanged(this`mousePressed, this`start, this`clickedObject, this`clickedRotateHandle,
                          this`clickedResizeHandle)
      ensures old(action) == NoAction && button == LeftButton ==>
                mousePressed && start == pos &&
                clickedRotateHandle == hit.RotateHandleHit? &&
                clickedResizeHandle == (if hit.ResizeHandleHit? then Some(hit.anchor) else None) &&
                clickedObject == (if hit.NoHandle? then topMost else old(clickedObject))
    {
      if action != NoAction || button != LeftButton {
        return;
      }
      mousePressed := true;
      start := pos;
      clickedRotateHandle := hit.RotateHandleHit?;
      clickedResizeHandle := if hit.ResizeHandleHit? then Some(hit.anchor) else None;
      if hit.NoHandle? {
        clickedObject := topMost;
      }
    }

    /** `mouseMoved`: once a press has been dragged far enough (`dragStarted`,
        the drag-distance test), starts the action `DragAction` picks, then
        lets the running action follow the pointer. */
    method MouseMoved(pos: Point, mods: Modifiers, dragStarted: bool)
      requires Valid() && Lawful()
      modifies this`selection, this`frame, this`originIndicator, this`visibility, this`movingObjects,
               this`action, this`alignPosition, this`origin, this`limitHorizontal, this`limitVertical,
               this`start, this`selectionRect, this`objects
      ensures Valid()
      ensures old(action) == NoAction && old(mousePressed) && dragStarted ==>
                DragStarted(mods, old(selection), old(objects), old(originIndicator), old(frame), old(visibility),
                            old(movingObjects), old(alignPosition), old(origin), old(limitHorizontal),
                            old(limitVertical), old(start))
      ensures action != Moving && action != Resizing ==> originIndicator == old(originIndicator)
      ensures !(old(action) == NoAction && old(mousePressed) && dragStarted) ==>
                action == old(action) && selection == old(selection) && movingObjects == old(movingObjects) &&
                unchanged(this`start, this`alignPosition, this`origin, this`limitHorizontal, this`limitVertical,
                          this`frame, this`visibility)
      ensures Followed(old(objects), pos, mods)
    {
      if action == NoAction && mousePressed && dragStarted {
        StartDrag(mods);
      }
      FollowPointer(pos, mods);
    }

    /** The end of `mouseMoved`: the running action follows the pointer. */
    method FollowPointer(pos: Point, mods: Modifiers)
      requires Valid() && Lawful()
      modifies this`originIndicator, this`selectionRect, this`objects
      ensures Valid() && Followed(old(objects), pos, mods)
      ensures action != Resizing ==> originIndicator == old(originIndicator)
      ensures action != Selecting ==> selectionRect == old(selectionRect)
      ensures unchanged(this`selection, this`movingObjects, this`alignPosition, this`origin,
                        this`limitHorizontal, this`limitVertical, this`start, this`clickedObject,
                        this`clickedResizeHandle, this`clickedRotateHandle, this`action, this`frame,
                        this`visibility)
    {
      match action {
        case Selecting =>
          selectionRect := RectBetween(start, pos).Normalized();
        case Moving =>
          UpdateMovingItems(pos, mods);
        case Rotating =>
          UpdateRotatingItems(pos, mods);
        case Resizing =>
          UpdateResizingItems(pos, mods);
        case NoAction =>
      }
    }

    /** The choice of `mouseMoved` once a drag starts. */
    method StartDrag(mods: Modifiers)
      requires Valid() && action == NoAction
      modifies this`selection, this`frame, this`originIndicator, this`visibility, this`movingObjects,
               this`action, this`alignPosition, this`origin, this`limitHorizontal, this`limitVertical, this`start
      ensures Valid()
      ensures DragStarted(mods, old(selection), objects, old(originIndicator), old(frame), old(visibility),
                          old(movingObjects), old(alignPosition), old(origin), old(limitHorizontal),
                          old(limitVertical), old(start))
      ensures action != Moving ==> originIndicator == old(originIndicator)
    {
      var next := DragAction(clickedObject.Some?, clickedRotateHandle, clickedResizeHandle.Some?, mods);
      if next == Moving {
        StartMoving(mods);
      } else if next == Rotating {
        StartRotating();
      } else if next == Resizing {
        StartResizing();
      } else {
        StartSelecting();
      }
    }

    /** `mouseReleased`: a left release without a drag applies the click rules
        of `ClickRelease`, otherwise it ends the running action; either way
        the press is forgotten. `itemsIn` is the scene's query for the
        objects whose items meet a rectangle. */
    method MouseReleased(button: MouseButton, pos: Point, mods: Modifiers, itemsIn: Rect -> set<ObjectId>)
      requires Valid()
      requires forall r :: itemsIn(r) <= objects.Keys
      modifies this`selection, this`mode, this`frame, this`originIndicator, this`visibility, this`action,
               this`undoStack, this`movingObjects, this`mousePressed, this`clickedObject,
               this`clickedRotateHandle, this`clickedResizeHandle
      ensures Valid()
      ensures button != LeftButton ==> unchanged(this)
      ensures button == LeftButton ==>
                action == NoAction && !mousePressed && clickedObject.None? &&
                !clickedRotateHandle && clickedResizeHandle.None?
      ensures button == LeftButton && old(action) == NoAction ==>
                var r := ClickRelease(old(selection), old(mode),
                                      old(clickedRotateHandle) || old(clickedResizeHandle).Some?,
                                      old(clickedObject), mods);
                selection == r.selection && mode == r.mode && undoStack == old(undoStack)
      ensures button == LeftButton && old(action) == Selecting ==>
                var hits := itemsIn(SelectionQueryRect(start, pos));
                (if mods.ctrl || mods.shift then selection == hits + old(selection) && mode == old(mode)
                 else selection == hits && mode == Resize) &&
                undoStack == old(undoStack)
      ensures button == LeftButton && Busy(old(action)) ==> selection == old(selection) && mode == old(mode)
      ensures button == LeftButton && !Busy(old(action)) ==> movingObjects == old(movingObjects)
      ensures button == LeftButton && old(action) == Moving ==>
                FinishedWith(MoveMacro, old(movingObjects), old(undoStack))
      ensures button == LeftButton && old(action) == Rotating ==>
                RotationFinishedWith(ReleasedAtStart(start, pos), old(movingObjects), old(undoStack))
      ensures button == LeftButton && old(action) == Resizing ==>
                FinishedWith(ResizeMacro, old(movingObjects), old(undoStack))
    {
      if button != LeftButton {
        return;
      }
      EndGesture(pos, mods, itemsIn);
      ForgetPress();
    }

    /** The left release of `mouseReleased` before the press is forgotten:
        a click, or the end of the running action. */
    method EndGesture(pos: Point, mods: Modifiers, itemsIn: Rect -> set<ObjectId>)
      requires Valid()
      requires forall r :: itemsIn(r) <= objects.Keys
      modifies this`selection, this`mode, this`frame, this`originIndicator, this`visibility, this`action,
               this`undoStack, this`movingObjects
      ensures Valid() && action == NoAction
      ensures old(action) == NoAction ==>
                var r := ClickRelease(old(selection), old(mode), clickedRotateHandle || clickedResizeHandle.Some?,
                                      clickedObject, mods);
                selection == r.selection && mode == r.mode && undoStack == old(undoStack)
      ensures old(action) == Selecting ==>
                var hits := itemsIn(SelectionQueryRect(start, pos));
                (if mods.ctrl || mods.shift then selection == hits + old(selection) && mode == old(mode)
                 else selection == hits && mode == Resize) &&
                undoStack == old(undoStack)
      ensures Busy(old(action)) ==> selection == old(selection) && mode == old(mode)
      ensures !Busy(old(action)) ==> movingObjects == old(movingObjects)
      ensures old(action) == Moving ==> FinishedWith(MoveMacro, old(movingObjects), old(undoStack))
      ensures old(action) == Rotating ==>
                RotationFinishedWith(ReleasedAtStart(start, pos), old(movingObjects), old(undoStack))
      ensures old(action) == Resizing ==> FinishedWith(ResizeMacro, old(movingObjects), old(undoStack))
    {
      match action {
        case NoAction =>
          ReleaseClick(mods);
        case Selecting =>
          UpdateSelection(pos, mods, itemsIn);
          action := NoAction;
        case Moving =>
          FinishMoving(pos);
        case Rotating =>
          FinishRotating(pos);
        case Resizing =>
          FinishResizing(pos);
      }
    }

    /** The end of `mouseReleased`: the press is forgotten. */
    method ForgetPress()
      requires Valid() && action == NoAction
      modifies this`mousePressed, this`clickedObject, this`clickedRotateHandle, this`clickedResizeHandle
      ensures Valid()
      ensures !mousePressed && clickedObject.None? && !clickedRotateHandle && clickedResizeHandle.None?
    {
      mousePressed := false;
      clickedObject := None;
      clickedRotateHandle := false;
      clickedResizeHandle := None;
    }

    /** A release without a drag: the click rules of `mouseReleased`. */
    method ReleaseClick(mods: Modifiers)
      requires Valid() && action == NoAction
      modifies this`selection, this`mode, this`frame, this`originIndicator, this`visibility
      ensures Valid()
      ensures var r := ClickRelease(old(selection), old(mode), clickedRotateHandle || clickedResizeHandle.Some?,
                                    clickedObject, mods);
              selection == r.selection && mode == r.mode
    {
      var clickedHandle := clickedRotateHandle || clickedResizeHandle.Some?;
      var r := ClickRelease(selection, mode, clickedHandle, clickedObject, mods);
      SetMode(r.mode);
      if !clickedHandle && (clickedObject.Some? || !mods.shift) {
        assert r.selection <= objects.Keys;
        SetSelectedObjectItems(r.selection);
      }
    }

    /** `updateSelection`: the objects meeting the dragged rectangle become the
        selection, added to it with Control or Shift, and otherwise the mode
        returns to resizing. */
    method UpdateSelection(pos: Point, mods: Modifiers, itemsIn: Rect -> set<ObjectId>)
      requires Valid() && action == Selecting
      requires forall r :: itemsIn(r) <= objects.Keys
      modifies this`selection, this`mode, this`frame, this`originIndicator, this`visibility
      ensures Valid()
      ensures var hits := itemsIn(SelectionQueryRect(start, pos));
              if mods.ctrl || mods.shift then selection == hits + old(selection) && mode == old(mode)
              else selection == hits && mode == Resize
    {
      var hits := itemsIn(SelectionQueryRect(start, pos));
      if mods.ctrl || mods.shift {
        hits := hits + selection;
      } else {
        SetMode(Resize);
      }
      SetSelectedObjectItems(hits);
    }

    /** `startSelecting`. */
    method StartSelecting()
      requires Valid() && action == NoAction
      modifies this`action
      ensures Valid() && action == Selecting
    {
      action := Selecting;
    }

    /** `saveSelectionState`: one snapshot per selected object. */
    method SaveSelectionState()
      requires Valid()
      modifies this`movingObjects
      ensures Valid() && IsSnapshotList(movingObjects, selection, objects, renderer)
    {
      movingObjects := TakeSnapshots(renderer, objects, selection);
    }

    /** `startMoving`: the pressed object alone is moved when it was not
        selected (unless Alt is held), and the group's reference point is the
        axis-wise minimum of the snapshots' positions. */
    method StartMoving(mods: Modifiers)
      requires Valid() && action == NoAction
      modifies this`selection, this`frame, this`originIndicator, this`visibility,
               this`movingObjects, this`action, this`alignPosition
      ensures Valid() && action == Moving && HandlesCurrent()
      ensures selection == MoveSelection(old(selection), clickedObject, mods.alt)
      ensures IsSnapshotList(movingObjects, selection, objects, renderer)
      ensures |movingObjects| > 0 ==> IsAxisMin(alignPosition, movingObjects)
    {
      SelectForMove(mods);
      SaveSelectionState();
      ghost var saved := movingObjects;
      action := Moving;
      UpdateAlignPosition();
      UpdateHandleVisibility();
      assert movingObjects == saved;
    }

    /** The reference point of a move: the axis-wise minimum of the
        snapshots' positions, left as it was when there are none. */
    method UpdateAlignPosition()
      modifies this`alignPosition
      ensures |movingObjects| > 0 ==> IsAxisMin(alignPosition, movingObjects)
      ensures |movingObjects| == 0 ==> alignPosition == old(alignPosition)
    {
      if |movingObjects| > 0 {
        alignPosition := AlignPositionOf(movingObjects);
      }
    }

    /** The first step of `startMoving`: pressing an unselected object
        without Alt selects it alone. */
    method SelectForMove(mods: Modifiers)
      requires Valid() && action == NoAction
      modifies this`selection, this`frame, this`originIndicator, this`visibility
      ensures Valid() && selection == MoveSelection(old(selection), clickedObject, mods.alt)
    {
      if clickedObject.Some? && !mods.alt && clickedObject.value !in selection {
        SetSelectedObjectItems({clickedObject.value});
      }
    }

    /** `updateMovingItems`: every snapshot's item moves from where it was by
        the same displacement, the pointer's snapped by `snapToGrid`, and its
        object to the pixel position under it; the other objects stay. */
    method UpdateMovingItems(pos: Point, mods: Modifiers)
      requires Valid() && Lawful()
      modifies this`objects
      ensures Valid() && MovedFrom(old(objects), pos, mods)
    {
      var delta := SnapDelta(renderer, SnapHelperFor(preferences, mods.ctrl), alignPosition, Sub(pos, start));
      objects := MoveSnapshots(renderer, movingObjects, objects, delta);
    }

    /** `finishMoving`: the move ends and, unless it left every object where
        it was, one "Move" macro is pushed that undoes it. */
    method FinishMoving(pos: Point)
      requires Valid() && action == Moving
      modifies this`action, this`frame, this`originIndicator, this`visibility, this`undoStack, this`movingObjects
      ensures Valid() && action == NoAction
      ensures FinishedWith(MoveMacro, old(movingObjects), old(undoStack))
    {
      Finish(MoveMacro);
    }

    /** The common end of an action, with the recording test corrected to ask
        whether the objects still hold their snapshots' values. */
    method Finish(kind: MacroKind)
      requires Valid() && Busy(action)
      modifies this`action, this`frame, this`originIndicator, this`visibility, this`undoStack, this`movingObjects
      ensures Valid() && action == NoAction
      ensures FinishedWith(kind, old(movingObjects), old(undoStack))
    {
      action := NoAction;
      UpdateHandles();
      if AllRestored(kind, movingObjects, objects) {
        return;
      }
      var macro := RecordMacro(kind, movingObjects);
      undoStack := Pushed(undoStack, macro);
      movingObjects := [];
    }

    /** `startRotating`: rotation is about the origin indicator. */
    method StartRotating()
      requires Valid()
      modifies this`action, this`origin, this`movingObjects, this`visibility
      ensures Valid() && action == Rotating && origin == originIndicator && HandlesCurrent()
      ensures IsSnapshotList(movingObjects, selection, objects, renderer)
    {
      BeginTransform(Rotating);
    }

    /** The common start of a rotation and a resize: the origin indicator's
        position is the origin, every selected object is snapshotted, and the
        handles are hidden. */
    method BeginTransform(a: Action)
      requires Valid() && (a == Rotating || (a == Resizing && clickedResizeHandle.Some?))
      modifies this`action, this`origin, this`movingObjects, this`visibility
      ensures Valid() && action == a && origin == originIndicator && HandlesCurrent()
      ensures IsSnapshotList(movingObjects, selection, objects, renderer)
    {
      action := a;
      origin := originIndicator;
      SaveSelectionState();
      UpdateHandleVisibility();
    }

    /** `updateRotatingItems`: every snapshot's item turns about the origin by
        the pointer's angle, which keeps its distance to the origin, and the
        object's rotation grows by that angle. */
    method UpdateRotatingItems(pos: Point, mods: Modifiers)
      requires Valid() && Lawful()
      modifies this`objects
      ensures Valid() && RotatedFrom(old(objects), pos, mods)
    {
      var angle := RotationAngle(trig, origin, start, pos, mods.ctrl);
      objects := RotateSnapshots(renderer, trig, movingObjects, objects, origin, angle);
    }

    /** `finishRotating`: the rotation ends and, unless the button is released
        where it was pressed, one "Rotate" macro is pushed that undoes it. */
    method FinishRotating(pos: Point)
      requires Valid() && action == Rotating
      modifies this`action, this`frame, this`originIndicator, this`visibility, this`undoStack, this`movingObjects
      ensures Valid() && action == NoAction
      ensures RotationFinishedWith(ReleasedAtStart(start, pos), old(movingObjects), old(undoStack))
    {
      action := NoAction;
      UpdateHandles();
      if ReleasedAtStart(start, pos) {
        return;
      }
      var macro := RecordMacro(RotateMacro, movingObjects);
      undoStack := Pushed(undoStack, macro);
      movingObjects := [];
    }

    /** `startResizing`: the clicked handle's locks apply, the resize starts
        from the handle's position, and the origin indicator's position is the
        alternative origin. */
    method StartResizing()
      requires Valid() && clickedResizeHandle.Some?
      modifies this`action, this`origin, this`limitHorizontal, this`limitVertical, this`start,
               this`movingObjects, this`visibility
      ensures Valid() && action == Resizing && origin == originIndicator && HandlesCurrent()
      ensures limitHorizontal == NewResizeHandle(clickedResizeHandle.value).limitHorizontal
      ensures limitVertical == NewResizeHandle(clickedResizeHandle.value).limitVertical
      ensures start == HandlePos(frame, clickedResizeHandle.value)
      ensures IsSnapshotList(movingObjects, selection, objects, renderer)
    {
      var handle := NewResizeHandle(clickedResizeHandle.value);
      limitHorizontal := handle.limitHorizontal;
      limitVertical := handle.limitVertical;
      start := HandlePos(frame, clickedResizeHandle.value);
      BeginTransform(Resizing);
    }

    /** `updateResizingItems`: the pointer is snapped (Alt inverts snapping);
        a single object is resized on its own, a group is scaled uniformly
        by `GroupScale` about the origin. */
    method UpdateResizingItems(pos: Point, mods: Modifiers)
      requires Valid() && Lawful() && action == Resizing
      modifies this`objects, this`originIndicator
      ensures Valid() && objects.Keys == old(objects).Keys
      ensures ResizedFrom(old(objects), pos, mods)
    {
      var resizingOrigin := ResizeOrigin(mods.shift, origin, Gesture());
      originIndicator := resizingOrigin;
      var snapped := SnappedScreenPos(renderer, preferences, mods.alt, pos);
      if |movingObjects| == 1 {
        UpdateResizingSingleItem(resizingOrigin, snapped, mods);
        assert Items(movingObjects) == {movingObjects[0].item} by {
          assert movingObjects[0] in movingObjects;
        }
        return;
      }
      var startDiff := Sub(start, resizingOrigin);
      if !RatiosDefined(startDiff, limitHorizontal, limitVertical) {
        return;
      }
      var scale := GroupScale(Sub(snapped, resizingOrigin), startDiff, limitHorizontal, limitVertical);
      ResizeGroup(resizingOrigin, scale);
    }

    /** The group loop of `updateResizingItems`: every snapshot's item is
        scaled by `scale` about the origin, its size scaled, and a polygon
        scaled in the object's unrotated frame. */
    method ResizeGroup(resizingOrigin: Point, scale: real)
      requires Valid() && Lawful()
      modifies this`objects
      ensures Valid() && objects.Keys == old(objects).Keys
      ensures forall k :: 0 <= k < |movingObjects| ==>
                GroupResized(renderer, movingObjects[k], old(objects)[movingObjects[k].item],
                             objects[movingObjects[k].item], resizingOrigin, scale)
      ensures forall id :: id in objects && id !in Items(movingObjects) ==> objects[id] == old(objects)[id]
    {
      objects := ResizeSnapshots(renderer, trig, movingObjects, objects, resizingOrigin, scale);
    }

    /** `updateResizingSingleItem`. */
    method UpdateResizingSingleItem(resizingOrigin: Point, screenPos: Point, mods: Modifiers)
      requires Valid() && |movingObjects| == 1 && clickedResizeHandle.Some?
      modifies this`objects
      ensures Valid() && objects.Keys == old(objects).Keys
      ensures var id := movingObjects[0].item;
              objects == old(objects)[id := ResizedSingle(renderer, trig, movingObjects[0], old(objects)[id],
                                                          Gesture(), resizingOrigin, screenPos, mods.ctrl)]
    {
      var m := movingObjects[0];
      var resized := ResizedSingle(renderer, trig, m, objects[m.item], Gesture(), resizingOrigin, screenPos, mods.ctrl);
      objects := objects[m.item := resized];
    }

    /** `finishResizing`: the resize ends and, unless it left every object as
        it was, one "Resize" macro is pushed that undoes it. */
    method FinishResizing(pos: Point)
      requires Valid() && action == Resizing
      modifies this`action, this`frame, this`originIndicator, this`visibility, this`undoStack, this`movingObjects
      ensures Valid() && action == NoAction
      ensures FinishedWith(ResizeMacro, old(movingObjects), old(undoStack))
    {
      Finish(ResizeMacro);
    }

    /** `objectsRemoved`: removing objects during a move or a rotation aborts
        it; every snapshot's object that is still there gets back its
        position (and its rotation, for a rotation), and the snapshots are
        dropped. The action itself is left as it is. */
    method ObjectsRemoved(removed: set<ObjectId>)
      requires Valid()
      modifies this`objects, this`movingObjects
      ensures Valid() && objects.Keys == old(objects).Keys
      ensures action != Moving && action != Rotating ==> unchanged(this`objects, this`movingObjects)
      ensures action == Moving || action == Rotating ==>
                movingObjects == [] &&
                forall k :: 0 <= k < |old(movingObjects)| && old(movingObjects)[k].item !in removed ==>
                  objects[old(movingObjects)[k].item] ==
                    Restored(if action == Rotating then RotateMacro else MoveMacro,
                             old(movingObjects)[k], old(objects)[old(movingObjects)[k].item])
      ensures forall id :: id in objects && (id in removed || id !in Items(old(movingObjects))) ==>
                objects[id] == old(objects)[id]
    {
      if action != Moving && action != Rotating {
        return;
      }
      var kind := if action == Rotating then RotateMacro else MoveMacro;
      objects := RestoreSnapshots(kind, movingObjects, objects, removed);
      movingObjects := [];
    }
  }

  /** `finishMoving` as written: it records the move unless the button is
      released where it was pressed. */
  predicate FinishMovingRecordsAsWritten(start: Point, pos: Point) {
    !ReleasedAtStart(start, pos)
  }

  /** The grid point of whole pixels at or below `p`. */
  function WholePixel(p: Point): Point {
    Point(p.x.Floor as real, p.y.Floor as real)
  }

  /** A helper snapping to a grid of whole pixels. */
  function WholePixels(): SnapHelper {
    SnapHelper(true, WholePixel)
  }

  /** With snapping on, a move whose reference point is off the grid displaces
      the object even when the pointer comes back to where it was pressed, so
      the object no longer holds its snapshot's position; yet `finishMoving`
      as written records nothing, and the displacement cannot be undone. */
  lemma SnappedMoveBackToStartIsNotRecorded(o: MapObject)
    ensures var m := SnapshotOf(0, Point(0.5, 0.5), o.(position := Point(0.5, 0.5)));
            var pressed := Point(3.0, 4.0);
            var delta := SnapDelta(Orthogonal(), WholePixels(), m.oldPosition, Sub(pressed, pressed));
            var moved := Orthogonal().screenToPixel(Add(m.oldItemPosition, delta));
            !Restores(MoveMacro, m, o.(position := moved)) && !FinishMovingRecordsAsWritten(pressed, pressed)
  {
    var pressed := Point(3.0, 4.0);
    assert Sub(pressed, pressed) == Zero;
    assert (0.5).Floor == 0;
    assert WholePixel(Point(0.5, 0.5)) == Zero;
    var delta := SnapDelta(Orthogonal(), WholePixels(), Point(0.5, 0.5), Zero);
    assert delta == Point(-0.5, -0.5);
    assert Orthogonal().screenToPixel(Add(Point(0.5, 0.5), delta)) == Zero;
  }

  /** `finishResizing` as written: it records the resize unless the button is
      released on the point where the handle was. */
  predicate FinishResizingRecordsAsWritten(start: Point, pos: Point) {
    !ReleasedAtStart(start, pos)
  }

  /** With snapping on, releasing a group's corner handle exactly where it
      was, off the grid, still resizes the group: with the opposite corner,
      the origin, at `Zero` and the handle at (0.5, 0.5), the pointer snaps
      to the origin's grid point and the scale drops to its minimum, yet
      `finishResizing` as written records nothing. */
  lemma SnappedResizeBackToStartIsNotRecorded()
    ensures SnappedScreenPos(Orthogonal(), WholePixels(), false, Point(0.5, 0.5)) == Zero
    ensures GroupScale(SnappedScreenPos(Orthogonal(), WholePixels(), false, Point(0.5, 0.5)),
                       Point(0.5, 0.5), false, false) == MinScale
    ensures !FinishResizingRecordsAsWritten(Point(0.5, 0.5), Point(0.5, 0.5))
  {
    assert (0.5).Floor == 0;
    assert WholePixel(Point(0.5, 0.5)) == Zero;
    assert SnappedScreenPos(Orthogonal(), WholePixels(), false, Point(0.5, 0.5)) == Zero;
  }
}
