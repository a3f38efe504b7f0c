/** The decisions of the drag gesture: which action a drag starts, what a
    plain click does to the selection, which handles are shown, and the
    snapshot taken of each selected object when an action starts. */
module Gesture {
  import opened Geometry
  import opened MapObjects

  datatype Option<T> = None | Some(value: T)

  /** The keyboard modifiers the tool looks at. */
  datatype Modifiers = Modifiers(shift: bool, ctrl: bool, alt: bool)

  /** `Mode`: whether the selection shows resize or rotate handles. */
  datatype Mode = Resize | Rotate

  /** `Action`: what the current drag is doing. */
  datatype Action = NoAction | Selecting | Moving | Rotating | Resizing

  function FlipMode(m: Mode): (r: Mode)
    ensures r != m
  {
    if m == Resize then Rotate else Resize
  }

  /** Moving, rotating and resizing own the snapshot list and freeze the handles. */
  predicate Busy(a: Action) {
    a == Moving || a == Rotating || a == Resizing
  }

  /** The action `mouseMoved` starts once the pointer has travelled far enough
      from the press: moving when an object was pressed or Alt is held and
      Shift is not, otherwise rotating from a rotate handle, otherwise resizing
      from a resize handle, otherwise a rubber-band selection. */
  function DragAction(clickedObject: bool, clickedRotateHandle: bool, clickedResizeHandle: bool,
                      mods: Modifiers): (a: Action)
    ensures a != NoAction
    ensures a == Moving <==> (clickedObject || mods.alt) && !mods.shift
    ensures a == Rotating <==> !((clickedObject || mods.alt) && !mods.shift) && clickedRotateHandle
    ensures a == Resizing <==>
              !((clickedObject || mods.alt) && !mods.shift) && !clickedRotateHandle && clickedResizeHandle
    ensures a == Selecting <==>
              !((clickedObject || mods.alt) && !mods.shift) && !clickedRotateHandle && !clickedResizeHandle
  {
    if (clickedObject || mods.alt) && !mods.shift then Moving
    else if clickedRotateHandle then Rotating
    else if clickedResizeHandle then Resizing
    else Selecting
  }

  /** Holding Shift always starts a selection rather than a move. */
  lemma ShiftNeverMoves(clickedObject: bool, clickedRotateHandle: bool, clickedResizeHandle: bool,
                        mods: Modifiers)
    requires mods.shift
    ensures DragAction(clickedObject, clickedRotateHandle, clickedResizeHandle, mods) != Moving
  {
  }

  datatype ClickResult = ClickResult(selection: set<ObjectId>, mode: Mode)

  /** What releasing the button without a drag does to the selection and mode. */
  function ClickRelease(selection: set<ObjectId>, mode: Mode, clickedHandle: bool,
                        clicked: Option<ObjectId>, mods: Modifiers): (r: ClickResult)
    // a click on a handle changes nothing
    ensures clickedHandle ==> r == ClickResult(selection, mode)
    // Shift or Control toggles the clicked object's membership and nothing else
    ensures !clickedHandle && clicked.Some? && (mods.shift || mods.ctrl) ==>
              (clicked.value in r.selection <==> clicked.value !in selection) &&
              r.selection - {clicked.value} == selection - {clicked.value} && r.mode == mode
    // clicking a selected object flips the mode and keeps the selection
    ensures !clickedHandle && clicked.Some? && !(mods.shift || mods.ctrl) && clicked.value in selection ==>
              r == ClickResult(selection, FlipMode(mode))
    // clicking an unselected object makes it the only selected one, in resize mode
    ensures !clickedHandle && clicked.Some? && !(mods.shift || mods.ctrl) && clicked.value !in selection ==>
              r == ClickResult({clicked.value}, Resize)
    // clicking empty space clears the selection unless Shift is held
    ensures !clickedHandle && clicked.None? ==>
              r == ClickResult(if mods.shift then selection else {}, mode)
  {
    if clickedHandle then ClickResult(selection, mode)
    else if clicked.Some? then
      var o := clicked.value;
      if mods.shift || mods.ctrl then
        ClickResult(if o in selection then selection - {o} else selection + {o}, mode)
      else if o in selection then ClickResult(selection, FlipMode(mode))
      else ClickResult({o}, Resize)
    else if !mods.shift then ClickResult({}, mode)
    else ClickResult(selection, mode)
  }

  /** Two toggling clicks on the same object restore the selection. */
  lemma ToggleClickTwiceRestores(selection: set<ObjectId>, mode: Mode, o: ObjectId, mods: Modifiers)
    requires mods.shift || mods.ctrl
    ensures var once := ClickRelease(selection, mode, false, Some(o), mods);
            ClickRelease(once.selection, once.mode, false, Some(o), mods) == ClickResult(selection, mode)
  {
    var once := ClickRelease(selection, mode, false, Some(o), mods);
    var twice := ClickRelease(once.selection, once.mode, false, Some(o), mods);
    assert twice.selection - {o} == selection - {o};
    assert o in twice.selection <==> o in selection;
    assert twice.selection == selection;
  }

  /** Two plain clicks on a selected object flip the mode there and back. */
  lemma ModeClickTwiceRestores(selection: set<ObjectId>, mode: Mode, o: ObjectId, mods: Modifiers)
    requires !(mods.shift || mods.ctrl) && o in selection
    ensures var once := ClickRelease(selection, mode, false, Some(o), mods);
            once.mode != mode &&
            ClickRelease(once.selection, once.mode, false, Some(o), mods) == ClickResult(selection, mode)
  {
  }

  /** Which handles `updateHandleVisibility` shows. */
  datatype Visibility = Visibility(rotateHandles: bool, resizeHandles: bool, originIndicator: bool)

  function HandleVisibility(hasSelection: bool, action: Action, mode: Mode): (v: Visibility)
    ensures !(v.rotateHandles && v.resizeHandles)
    ensures (v.rotateHandles || v.resizeHandles) <==>
              hasSelection && (action == NoAction || action == Selecting)
    ensures v.rotateHandles ==> mode == Rotate
    ensures v.resizeHandles ==> mode == Resize
    ensures v.originIndicator <==> hasSelection && action != Moving && (mode == Rotate || action == Resizing)
  {
    var showHandles := hasSelection && (action == NoAction || action == Selecting);
    var showOrigin := hasSelection && action != Moving && (mode == Rotate || action == Resizing);
    Visibility(showHandles && mode == Rotate, showHandles && mode == Resize, showOrigin)
  }

  /** The rectangle `updateSelection` queries: the normalized drag rectangle,
      widened to at least one unit on each axis so that it can intersect. */
  function SelectionQueryRect(start: Point, pos: Point): (r: Rect)
    ensures r.width >= 1.0 && r.height >= 1.0
    ensures r.Left() == Min(start.x, pos.x) && r.Top() == Min(start.y, pos.y)
    ensures r.Right() == Max(Max(start.x, pos.x), Min(start.x, pos.x) + 1.0)
    ensures r.Bottom() == Max(Max(start.y, pos.y), Min(start.y, pos.y) + 1.0)
    ensures r.Contains(start) && r.Contains(pos)
  {
    var n := RectBetween(start, pos).Normalized();
    Rect(n.x, n.y, Max(1.0, n.width), Max(1.0, n.height))
  }

  /** `MovingObject`: the state of one selected object when an action starts. */
  datatype MovingObject = MovingObject(
    item: ObjectId,
    oldItemPosition: Point,
    oldPosition: Point,
    oldSize: Size,
    oldPolygon: seq<Point>,
    oldRotation: real)

  /** The snapshot of an object and the screen position of its item. */
  function SnapshotOf(id: ObjectId, itemPos: Point, o: MapObject): MovingObject {
    MovingObject(id, itemPos, o.position, o.size, o.polygon, o.rotation)
  }

  /** No object has two snapshots. */
  predicate DistinctItems(ms: seq<MovingObject>) {
    forall i, j :: 0 <= i < j < |ms| ==> ms[i].item != ms[j].item
  }

  function Items(ms: seq<MovingObject>): set<ObjectId> {
    set m | m in ms :: m.item
  }

  /** Splitting off the last snapshot: the rest are distinct and do not name
      the last one's object. */
  lemma SplitLast(ms: seq<MovingObject>)
    requires DistinctItems(ms) && |ms| > 0
    ensures DistinctItems(ms[..|ms| - 1])
    ensures Items(ms) == Items(ms[..|ms| - 1]) + {ms[|ms| - 1].item}
    ensures ms[|ms| - 1].item !in Items(ms[..|ms| - 1])
  {
    var pre := ms[..|ms| - 1];
    assert ms == pre + [ms[|ms| - 1]];
    forall m | m in pre
      ensures m.item != ms[|ms| - 1].item
    {
      var k :| 0 <= k < |pre| && pre[k] == m;
      assert ms[k] == m;
    }
  }

  /** Appending a snapshot adds its object; a snapshot of an object not yet
      named keeps the snapshots distinct. */
  lemma ItemsAppend(ms: seq<MovingObject>, m: MovingObject)
    ensures Items(ms + [m]) == Items(ms) + {m.item}
    ensures DistinctItems(ms) && m.item !in Items(ms) ==> DistinctItems(ms + [m])
  {
    forall k | 0 <= k < |ms|
      ensures ms[k].item in Items(ms)
    {
      assert ms[k] in ms;
    }
    assert (ms + [m])[|ms|] == m;
  }

  /** The objects of the first `i + 1` snapshots: those of the first `i`, and
      a new one. */
  lemma PrefixItems(ms: seq<MovingObject>, i: nat)
    requires DistinctItems(ms) && i < |ms|
    ensures Items(ms[..i + 1]) == Items(ms[..i]) + {ms[i].item}
    ensures ms[i].item !in Items(ms[..i])
  {
    var pre := ms[..i + 1];
    assert pre[..i] == ms[..i];
    SplitLast(pre);
  }

  /** `p` is the axis-wise minimum of the snapshots' old positions. */
  predicate IsAxisMin(p: Point, ms: seq<MovingObject>) {
    (forall k :: 0 <= k < |ms| ==> p.x <= ms[k].oldPosition.x && p.y <= ms[k].oldPosition.y) &&
    (exists k :: 0 <= k < |ms| && p.x == ms[k].oldPosition.x) &&
    (exists k :: 0 <= k < |ms| && p.y == ms[k].oldPosition.y)
  }

  /** The loop of `startMoving` that computes `mAlignPosition`, starting from
      the first snapshot as the source does (so the list must not be empty). */
  method AlignPositionOf(ms: seq<MovingObject>) returns (p: Point)
    requires |ms| > 0
    ensures IsAxisMin(p, ms)
  {
    p := ms[0].oldPosition;
    var i := 0;
    while i < |ms|
      invariant 0 <= i <= |ms|
      invariant forall k :: 0 <= k < i ==> p.x <= ms[k].oldPosition.x && p.y <= ms[k].oldPosition.y
      invariant exists k :: 0 <= k < |ms| && p.x == ms[k].oldPosition.x
      invariant exists k :: 0 <= k < |ms| && p.y == ms[k].oldPosition.y
    {
      var pos := ms[i].oldPosition;
      if pos.x < p.x {
        p := p.(x := pos.x);
      }
      if pos.y < p.y {
        p := p.(y := pos.y);
      }
      i := i + 1;
    }
  }

  /** The selection `startMoving` works on: the pressed object alone when it
      was not selected and Alt is not held, otherwise the current selection. */
  function MoveSelection(selection: set<ObjectId>, clicked: Option<ObjectId>, alt: bool): (s: set<ObjectId>)
    ensures clicked.Some? && !alt && clicked.value !in selection ==> s == {clicked.value}
    ensures clicked.Some? && clicked.value in selection ==> s == selection
    ensures clicked.None? || alt ==> s == selection
  {
    if clicked.Some? && !alt && clicked.value !in selection then {clicked.value} else selection
  }

  /** With nothing selected and no object pressed, an Alt drag still starts a
      move, over a selection that is empty: `startMoving` then takes the first
      of no snapshots. */
  lemma AltDragOnEmptySelection(mods: Modifiers, clickedRotateHandle: bool, clickedResizeHandle: bool)
    requires mods.alt && !mods.shift
    ensures DragAction(false, clickedRotateHandle, clickedResizeHandle, mods) == Moving
    ensures MoveSelection({}, None, mods.alt) == {}
  {
  }
}
