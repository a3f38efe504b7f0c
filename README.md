# Object selection tool of the Tiled map editor, in Dafny

This project models `ObjectSelectionTool`, the tool of the Tiled map editor
that selects, moves, rotates and resizes map objects with the mouse
(`src/tiled/objectselectiontool.cpp`). It proves properties of that model.

The tool is a state machine driven by mouse events:

- A press records what it landed on: a rotate handle, a resize handle or an
  object.
- A drag far enough from the press starts an action: a rubber-band
  selection, a move, a rotation or a resize.
- Each later motion updates the running action.
- The release either applies the click rules or finishes the action. A
  finished action pushes one undo macro whose commands restore each
  object's old state.

Modules, one per concern of the source:

| module | file | what it holds |
|---|---|---|
| `Geometry` | geometry.dfy | points, rectangles with `QRectF` semantics, the nine alignments, `alignmentOffset`, `align`, `unalign`, and the bounding rectangle of a polygon |
| `MapObjects` | mapobject.dfy | the map object as the tool sees it, `resizeInPixelSpace` and `pixelBounds` |
| `Collaborators` | collaborators.dfy | the map renderer, the snap helper and the trigonometry, as values with the laws the tool relies on |
| `Handles` | handles.dfy | the eight resize handles, their axis locks, their positions and their resizing origins |
| `Gesture` | gesture.dfy | which action a drag starts, the click rules, handle visibility, the selection rectangle, the snapshot (`MovingObject`), and the minimum loop of `startMoving` |
| `Snapping` | snapping.dfy | the 15-degree rotation snap, the snapped resize pointer, and `snapToGrid` |
| `Resizing` | resizing.dfy | the clamped group scale, polygon scaling, and the two ways a single object is resized |
| `UndoLog` | undolog.dfy | the undo stack as a log of macros, and what undoing a macro does |
| `SelectionTool` | tool.dfy | the class `ObjectSelectionTool` and the loops over the snapshot list |

The class keeps the tool's state as fields:

- the document's objects as a `map` from object to state;
- the selection as a `set`;
- the undo stack as a `seq` of macros;
- the snapshot list `movingObjects` as a `seq`;
- the press, the action, the mode, the axis locks, the start point, the
  origin and the align position;
- the handle frame and the handle visibility.

Each event handler is a method with a field-precise `modifies` clause. Its
`ensures` states the new state. `Valid()` is the invariant every handler
keeps:

- the selection, the pressed object and the snapshots name existing objects;
- the snapshots name distinct objects;
- outside a running move, rotation or resize, the handles shown are the
  ones `updateHandleVisibility` derives.

An item's screen position is not stored. It is always the object's pixel
position taken to the screen (`SelectionTool.ItemPosition`), which is what
the scene keeps it at.

The source works in floating point; the model uses `real`. Angles are in
degrees throughout. The source's radians differ only by a positive
factor, and `Snapping.SnapAngleUnitFree` shows that the angle snap does not
depend on that factor.

Where a prose description of the tool differs from the code, the model
follows the code:

- **Resize space.** `resizeInPixelSpace` (lines 642-645) is true when the
  object has no tile cell. So rectangles, ellipses, polygons and polylines
  are resized in pixel space, and tile objects in screen space.
- **Mode flip.** A plain click on an object flips between resize and rotate
  mode whenever the object is selected (lines 545-547). It need not be the
  only selected object.
- **Snapshot list.** A finished action leaves the snapshot list as it was
  when the button is released where the action started (lines 933, 996 and
  1243). The list is cleared only when a macro is pushed.
- **No-op test.** As written, `finishMoving`, `finishRotating` and
  `finishResizing` decide that the action changed nothing by comparing the
  release point with the start point (lines 933, 996 and 1243). The model
  keeps that test for a rotation only. For a move and a resize it uses the
  corrected test from "## Findings": nothing is recorded exactly when every
  object still holds its snapshot's values (`SelectionTool.AllRestored`).
  The two tests disagree in both directions; the second direction is under
  "## Left out".

## Model

| member | source | states |
|---|---|---|
| Geometry.Rect.WithLeft | src/tiled/objectselectiontool.cpp:1164 | the left edge goes to the value; the other three edges stay |
| Geometry.Rect.WithRight | src/tiled/objectselectiontool.cpp:1168 | the right edge goes to the value; the other three edges stay |
| Geometry.Rect.WithTop | src/tiled/objectselectiontool.cpp:1178 | the top edge goes to the value; the other three edges stay |
| Geometry.Rect.WithBottom | src/tiled/objectselectiontool.cpp:1182 | the bottom edge goes to the value; the other three edges stay |
| Geometry.Rect.Normalized | src/tiled/objectselectiontool.cpp:855-856 | the size is non-negative and the edges are the same two x and two y values, ordered |
| Geometry.AlignmentOffset | src/tiled/objectselectiontool.cpp:592-607 | the offset leads from the top-left corner to the point the alignment names; it is zero for top-left |
| Geometry.Align | src/tiled/objectselectiontool.cpp:609-612 | keeps the size; the aligned rectangle's anchor point is the original top-left corner |
| Geometry.Unalign | src/tiled/objectselectiontool.cpp:614-617 | keeps the size; the new top-left corner is the rectangle's anchor point |
| Geometry.OffsetIgnoresTranslation | src/tiled/objectselectiontool.cpp:592-607 | the offset depends on the size alone |
| Geometry.UnalignAlign | src/tiled/objectselectiontool.cpp:609-617 | `unalign` undoes `align` for every alignment |
| Geometry.AlignUnalign | src/tiled/objectselectiontool.cpp:609-617 | `align` undoes `unalign` for every alignment |
| Geometry.BoundingRect | src/tiled/objectselectiontool.cpp:634-635 | the null rectangle for no points; otherwise non-negative, containing every point, with each edge touched by some point |
| MapObjects.ResizeInPixelSpace | src/tiled/objectselectiontool.cpp:642-645 | no contract of its own: true exactly for objects without a tile cell, whatever their shape; `SelectionTool.ResizedSingle` picks its working frame by it |
| MapObjects.PixelBounds | src/tiled/objectselectiontool.cpp:619-640 | for a non-tile object: a rectangle or ellipse gets its size with the alignment's anchor at the position; a polygon or polyline gets the smallest rectangle holding every vertex placed at the position (each edge touched by a vertex), and the null rectangle when it has no vertices |
| Collaborators.RotationKeepsLength | src/tiled/objectselectiontool.cpp:700-707 | a rotation with cos² + sin² = 1 keeps the length of every vector |
| Collaborators.RotateAtKeepsDistance | src/tiled/objectselectiontool.cpp:700-707 | `rotateAt` keeps every point's distance to the center |
| Collaborators.RotateAtInverse | src/tiled/objectselectiontool.cpp:1120-1121 | the `rotate` transform undoes the `unrotate` transform |
| Handles.Opposite | src/tiled/objectselectiontool.cpp:783-804 | the opposite handle lies on the flipped side on both axes |
| Handles.OppositeIsInvolution | src/tiled/objectselectiontool.cpp:783-804 | taking the opposite handle twice leads back |
| Handles.NewResizeHandle | src/tiled/objectselectiontool.cpp:252-276 | a handle locks horizontal scaling iff it is a top or bottom edge handle, and vertical scaling iff it is a left or right one; never both; corners lock neither |
| Handles.OriginIsOppositeHandle | src/tiled/objectselectiontool.cpp:783-804 | every handle's resizing origin is where the opposite handle sits |
| Handles.HandleSitsAtAnchor | src/tiled/objectselectiontool.cpp:783-804 | on an unrotated rectangle each handle sits on the point its anchor's alignment names |
| Handles.LockedAxisHasNoExtent | src/tiled/objectselectiontool.cpp:269-273 | a handle and its origin share an x coordinate iff the handle locks horizontal scaling or the rectangle has no width; the same for y |
| Gesture.FlipMode | src/tiled/objectselectiontool.cpp:547 | the flipped mode is the other mode |
| Gesture.DragAction | src/tiled/objectselectiontool.cpp:448-464 | in both directions: move iff an object was pressed or Alt is held, and Shift is not; otherwise rotate iff on a rotate handle; otherwise resize iff on a resize handle; otherwise select |
| Gesture.ShiftNeverMoves | src/tiled/objectselectiontool.cpp:452-455 | with Shift held a drag never moves |
| Gesture.ClickRelease | src/tiled/objectselectiontool.cpp:532-557 | on a handle nothing changes; Shift or Control toggles the clicked object's membership only; a plain click on a selected object flips the mode; on an unselected object it selects that object alone in resize mode; on empty space it clears the selection unless Shift is held |
| Gesture.ToggleClickTwiceRestores | src/tiled/objectselectiontool.cpp:540-544 | two toggling clicks on the same object restore the selection |
| Gesture.ModeClickTwiceRestores | src/tiled/objectselectiontool.cpp:545-547 | two plain clicks on a selected object change the mode and change it back |
| Gesture.HandleVisibility | src/tiled/objectselectiontool.cpp:815-828 | rotate and resize handles are never both shown; handles are shown iff something is selected and no move, rotation or resize runs; the mode picks which; the origin indicator is shown iff something is selected, no move runs, and the mode is rotate or a resize runs |
| Gesture.SelectionQueryRect | src/tiled/objectselectiontool.cpp:855-859 | the normalized drag rectangle, widened to at least one unit on each axis; it contains both the press and the pointer |
| Gesture.AlignPositionOf | src/tiled/objectselectiontool.cpp:894-902 | for a non-empty list: a lower bound of all old positions on each axis, reached on each axis by some snapshot |
| Gesture.MoveSelection | src/tiled/objectselectiontool.cpp:885-889 | with no pressed object, or with Alt, the selection is unchanged; a pressed object already selected keeps the selection; otherwise, without Alt, the pressed object alone is selected |
| Gesture.AltDragOnEmptySelection | src/tiled/objectselectiontool.cpp:453-455 | an Alt drag with nothing pressed starts a move, and with nothing selected that move has an empty selection |
| Snapping.SnapAngle | src/tiled/objectselectiontool.cpp:969-971 | no contract of its own: the rounding of an angle to a multiple of the step; `SnapAngleIsRoundedMultiple`, `SnapAngleIsNearest`, `SnapAngleIdempotent` and `SnapAngleUnitFree` state what it promises |
| Snapping.SnapAngleIsRoundedMultiple | src/tiled/objectselectiontool.cpp:969-971 | the snapped angle is a whole number of steps, within half a step below or above the angle |
| Snapping.SnapAngleIsNearest | src/tiled/objectselectiontool.cpp:969-971 | no multiple of the step lies closer to the angle than the snapped one |
| Snapping.SnapAngleUnitFree | src/tiled/objectselectiontool.cpp:969-971 | snapping commutes with a change of angle unit, so degrees may stand for radians |
| Snapping.SnapAngleIdempotent | src/tiled/objectselectiontool.cpp:969-971 | a snapped angle snaps to itself |
| Snapping.RotationAngle | src/tiled/objectselectiontool.cpp:962-971 | the angle the pointer turned about the origin since the press; with Control it is a multiple of 15 degrees within half a step of that |
| Snapping.SnappedScreenPos | src/tiled/objectselectiontool.cpp:1040-1045 | the snapped pointer's pixel position is the snap helper's grid point for the pointer, with Alt inverting snapping; without snapping it is the pointer |
| Snapping.SnapDelta | src/tiled/objectselectiontool.cpp:1288-1305 | no contract of its own: `snapToGrid`'s displacement, the pointer's own without snapping; `SnapDeltaPlacesReferenceOnGrid` states that with snapping it takes the reference point onto the grid |
| Snapping.SnapDeltaPlacesReferenceOnGrid | src/tiled/objectselectiontool.cpp:1288-1305 | the reference point moved by the snapped displacement lands exactly on the grid point for where the pointer would take it |
| Resizing.ClampScale | src/tiled/objectselectiontool.cpp:1065 | the scale is at least 0.01 and at least the ratio, and it is one of the two |
| Resizing.GroupScale | src/tiled/objectselectiontool.cpp:1063-1071 | at least 0.01; a locked axis uses the other axis's clamped ratio; unlocked, the smaller of the two clamped ratios |
| Resizing.GroupScaleTracksPointer | src/tiled/objectselectiontool.cpp:1063-1071 | where no ratio falls below 0.01, the handle's offset from the origin, scaled, equals the pointer's offset on the axis that decides the scale |
| Resizing.GroupScaleAtStartIsOne | src/tiled/objectselectiontool.cpp:1063-1071 | with the pointer on the handle's start the group scale is 1 |
| Resizing.ScaleAbout | src/tiled/objectselectiontool.cpp:1074-1077 | no contract of its own: an item position scaled about the origin; `ScaleAboutIsUniform` and `ScaleAboutInverse` state what it promises |
| Resizing.ScaleAboutIsUniform | src/tiled/objectselectiontool.cpp:1074-1077 | scaling about the origin keeps the origin and scales every difference by the same factor |
| Resizing.ScaleAboutInverse | src/tiled/objectselectiontool.cpp:1074-1077 | scaling by s and then by 1/s about the same origin restores the point |
| Resizing.RotScalePoint | src/tiled/objectselectiontool.cpp:1093-1097 | no contract of its own: one polygon vertex unrotated, scaled and rotated back; `RotScaleIsUniformScale` states that this is a uniform scaling |
| Resizing.RotScaleIsUniformScale | src/tiled/objectselectiontool.cpp:1092-1098 | unrotating, scaling and rotating back scales the vertex by the same factor |
| Resizing.RotScalePolygon | src/tiled/objectselectiontool.cpp:1089-1100 | every vertex is the unrotate-scale-rotate image of the old one; for a true rotation the polygon is the old one scaled uniformly |
| Resizing.AnchorResize | src/tiled/objectselectiontool.cpp:1160-1186 | the edges the anchor lies on go to the pointer, never past the origin on that axis; the other edges stay |
| Resizing.AnchorResizeKeepsOpposite | src/tiled/objectselectiontool.cpp:1160-1186 | resizing from the opposite handle keeps that handle in place and the rectangle non-negative; a pointer outside the origin carries the dragged edge |
| Resizing.AnchorPlacement | src/tiled/objectselectiontool.cpp:1157-1191 | the new size is the resized bounds' size; the new position is their anchor point |
| Resizing.AnchorResizeAtHandleIsIdentity | src/tiled/objectselectiontool.cpp:1160-1186 | dragging a handle onto where it is leaves the bounds unchanged |
| Resizing.AnchorPlacementAtHandleIsIdentity | src/tiled/objectselectiontool.cpp:1157-1191 | dragging a handle onto where it is leaves the object's position and size unchanged |
| Resizing.ScaleFactors | src/tiled/objectselectiontool.cpp:1196-1207 | both factors are at least 0.01; a locked axis keeps factor 1, or takes the other factor when the aspect ratio is preserved; preserving the aspect ratio gives equal factors, the smaller clamped ratio |
| Resizing.ScaleFactorsAtStartAreOne | src/tiled/objectselectiontool.cpp:1193-1207 | with the pointer on the handle's start both factors are 1 |
| Resizing.ScaledPlacement | src/tiled/objectselectiontool.cpp:1209-1214 | no contract of its own: the scale path's new position and size; `ScaledPlacementKeepsAspect` states that equal factors keep the aspect ratio |
| Resizing.ScaledPlacementKeepsAspect | src/tiled/objectselectiontool.cpp:1209-1214 | equal factors keep the ratio of width to height |
| Resizing.ScalePerAxisInverse | src/tiled/objectselectiontool.cpp:1209-1211 | scaling per axis and then by the reciprocals restores the point |
| Resizing.ScalePolygonPerAxis | src/tiled/objectselectiontool.cpp:1216-1224 | every vertex is the old vertex scaled per axis |
| UndoLog.CommandsFor | src/tiled/objectselectiontool.cpp:1248-1255 | per snapshot: the old position first, all about that object; a move adds nothing; a rotation adds the old rotation; a rotation is exactly the old position and the old rotation; a resize is the old position, the old size and, only for a non-empty polygon, the old polygon |
| UndoLog.RecordMacro | src/tiled/objectselectiontool.cpp:936-943 | the macro counts the snapshots and holds their commands in push order |
| UndoLog.Undo | src/tiled/objectselectiontool.cpp:939-941 | undoing a command changes only its own object |
| UndoLog.UndoCommandsForRestores | src/tiled/objectselectiontool.cpp:1248-1255 | undoing one snapshot's commands restores that object's recorded state |
| UndoLog.UndoMacroRestores | src/tiled/objectselectiontool.cpp:999-1006 | undoing the macro over distinct snapshots restores every snapshot's object and leaves the other objects as they were |
| UndoLog.UndoMacroElsewhere | src/tiled/objectselectiontool.cpp:936-943 | undoing a macro leaves every object without a snapshot as it was |
| UndoLog.Pushed | src/tiled/objectselectiontool.cpp:937-943 | pushing appends the macro and keeps the older ones |
| SelectionTool.EmptySelectionHasNoSnapshots | src/tiled/objectselectiontool.cpp:891-894 | with nothing selected the snapshot list is empty, so it has no first element |
| SelectionTool.TakeSnapshots | src/tiled/objectselectiontool.cpp:1274-1285 | exactly one snapshot of each selected object, holding its current state |
| SelectionTool.MovedMember | src/tiled/objectselectiontool.cpp:915-919 | the item is displaced by the delta from its old screen position; only the position changes |
| SelectionTool.RotatedMember | src/tiled/objectselectiontool.cpp:973-986 | the item is turned about the origin and keeps its distance to it; the rotation grows by the angle; nothing else changes |
| SelectionTool.MoveSnapshots | src/tiled/objectselectiontool.cpp:915-924 | every snapshot's object is moved by the delta; every other object stays |
| SelectionTool.RotateSnapshots | src/tiled/objectselectiontool.cpp:973-987 | every snapshot's object is rotated; every other object stays |
| SelectionTool.Restored | src/tiled/objectselectiontool.cpp:838-845 | the object gets back its position, and for a rotation its rotation; any other rotation, and size, polygon, shape, alignment and tile cell stay |
| SelectionTool.RestoreSnapshots | src/tiled/objectselectiontool.cpp:836-847 | every snapshot's object that was not removed is restored; removed objects and objects without a snapshot stay |
| SelectionTool.ToObjectSpace | src/tiled/objectselectiontool.cpp:1120-1138 | no contract of its own: a screen point with the object's rotation undone, in pixel space unless it is a tile object; `ObjectSpaceRoundTrip` states that `FromObjectSpace` undoes it |
| SelectionTool.FromObjectSpace | src/tiled/objectselectiontool.cpp:1227-1230 | no contract of its own: a working-frame position rotated again and taken to pixel space; `ObjectSpaceRoundTrip` states the round trip |
| SelectionTool.ObjectSpaceRoundTrip | src/tiled/objectselectiontool.cpp:1120-1121 | going into the unrotated working frame and back gives the pixel position under the screen point |
| SelectionTool.ResizedSingle | src/tiled/objectselectiontool.cpp:1109-1235 | only position, size and polygon change; the anchor path keeps the polygon; with the aspect ratio preserved a changed polygon is the old one scaled by one factor of at least 0.01 |
| SelectionTool.ResizeMember | src/tiled/objectselectiontool.cpp:1074-1105 | the item is scaled about the origin; the size is scaled; a polygon is scaled uniformly; nothing else changes |
| SelectionTool.ResizeSnapshots | src/tiled/objectselectiontool.cpp:1073-1106 | every snapshot's object is group-resized; every other object stays |
| SelectionTool.ResizeOrigin | src/tiled/objectselectiontool.cpp:1031-1033 | with Shift the origin saved when the resize started; otherwise the position of the handle opposite the dragged one |
| SelectionTool.ObjectSelectionTool.constructor | src/tiled/objectselectiontool.cpp:314-334 | no press, no handle clicked, no locks, resize mode, no action, empty selection and snapshot list |
| SelectionTool.ObjectSelectionTool.UpdateHandleVisibility | src/tiled/objectselectiontool.cpp:815-828 | the visibility becomes what `HandleVisibility` derives |
| SelectionTool.ObjectSelectionTool.UpdateHandles | src/tiled/objectselectiontool.cpp:718-813 | frozen while moving, rotating or resizing; otherwise the frame is laid out around a non-empty selection, the origin indicator goes to its center, and the visibility is refreshed |
| SelectionTool.ObjectSelectionTool.SetMode | src/tiled/objectselectiontool.cpp:1261-1267 | the mode is set; the handles are refreshed only when it changed |
| SelectionTool.ObjectSelectionTool.SetSelectedObjectItems | src/tiled/objectselectiontool.cpp:888 | the selection is replaced and the handles refreshed |
| SelectionTool.ObjectSelectionTool.MousePressed | src/tiled/objectselectiontool.cpp:491-524 | ignored while an action runs or for another button; otherwise records the press point and which handle was hit, and records the topmost object only when no handle was hit |
| SelectionTool.ObjectSelectionTool.MouseMoved | src/tiled/objectselectiontool.cpp:443-482 | a press dragged far enough starts the action `DragAction` picks, set up as `SetUpFor` states and keeping what `KeptBy` names (`DragStarted`); otherwise the action, selection, snapshots, start point, align position, origin, locks, frame and visibility stay; the origin indicator moves only in a move's set-up or a resize; then the action follows the pointer as `Followed` states |
| SelectionTool.ObjectSelectionTool.FollowPointer | src/tiled/objectselectiontool.cpp:466-481 | `Followed`: without an action the objects stay; a selection shows the normalized drag rectangle; a move, rotation or resize updates the objects as `MovedFrom`, `RotatedFrom` or `ResizedFrom` state; the origin indicator changes only in a resize, the rectangle only in a selection, and every other field stays |
| SelectionTool.ObjectSelectionTool.StartDrag | src/tiled/objectselectiontool.cpp:448-464 | `DragStarted`: the action becomes `DragAction` of what was pressed and the modifiers, and `SetUpFor` holds: a move selects and snapshots the move selection and takes the axis-wise minimum; a rotation or resize snapshots the selection about the origin indicator; a resize takes the handle's locks and position; by `KeptBy`, only a move changes the frame and align position, only a resize the start point and locks, a move or selection keeps the origin, a selection keeps the snapshots and visibility; only a move changes the origin indicator |
| SelectionTool.ObjectSelectionTool.MouseReleased | src/tiled/objectselectiontool.cpp:526-579 | another button changes no field at all; a left release applies the click rules, ends a selection with the objects in the rectangle, or finishes a move or resize as `FinishedWith` and a rotation as `RotationFinishedWith` states, and then forgets the press |
| SelectionTool.ObjectSelectionTool.EndGesture | src/tiled/objectselectiontool.cpp:531-573 | the action ends; a click applies `ClickRelease`; a selection ends with the objects in the rectangle; moves, rotations and resizes keep the selection and mode and record their macro as `FinishedWith` or `RotationFinishedWith` state |
| SelectionTool.ObjectSelectionTool.ForgetPress | src/tiled/objectselectiontool.cpp:575-578 | no press, no pressed object, no pressed handle |
| SelectionTool.ObjectSelectionTool.ReleaseClick | src/tiled/objectselectiontool.cpp:532-557 | the selection and mode become `ClickRelease` of the old ones |
| SelectionTool.ObjectSelectionTool.UpdateSelection | src/tiled/objectselectiontool.cpp:852-875 | the objects meeting the query rectangle become the selection, or with Shift or Control are added to it; without those the mode returns to resize |
| SelectionTool.ObjectSelectionTool.StartSelecting | src/tiled/objectselectiontool.cpp:877-881 | the action becomes selecting |
| SelectionTool.ObjectSelectionTool.SaveSelectionState | src/tiled/objectselectiontool.cpp:1269-1286 | the snapshot list holds one snapshot per selected object |
| SelectionTool.ObjectSelectionTool.StartMoving | src/tiled/objectselectiontool.cpp:883-905 | the move selection is taken and snapshotted; the action is moving; for a non-empty list the align position is the axis-wise minimum of the old positions |
| SelectionTool.ObjectSelectionTool.UpdateAlignPosition | src/tiled/objectselectiontool.cpp:894-902 | the axis-wise minimum for a non-empty list; otherwise the align position stays |
| SelectionTool.ObjectSelectionTool.SelectForMove | src/tiled/objectselectiontool.cpp:885-889 | the selection becomes `MoveSelection` of the old one |
| SelectionTool.ObjectSelectionTool.UpdateMovingItems | src/tiled/objectselectiontool.cpp:907-925 | every snapshot's object moves by one snapped delta; the other objects stay |
| SelectionTool.ObjectSelectionTool.FinishMoving | src/tiled/objectselectiontool.cpp:927-946 | the action ends; if any object left its snapshot's position, one move macro that undoes it is pushed and the list cleared; otherwise nothing is recorded and the list kept |
| SelectionTool.ObjectSelectionTool.Finish | src/tiled/objectselectiontool.cpp:927-946 | the common end of move and resize, recording a macro exactly when some object no longer holds its snapshot's values |
| SelectionTool.ObjectSelectionTool.StartRotating | src/tiled/objectselectiontool.cpp:948-955 | the action is rotating about the origin indicator, over snapshots of the selection |
| SelectionTool.ObjectSelectionTool.BeginTransform | src/tiled/objectselectiontool.cpp:948-955 | the action starts with the origin indicator as origin and snapshots of the selection |
| SelectionTool.ObjectSelectionTool.UpdateRotatingItems | src/tiled/objectselectiontool.cpp:957-988 | every snapshot's object is rotated by `RotationAngle` about the origin; the other objects stay |
| SelectionTool.ObjectSelectionTool.FinishRotating | src/tiled/objectselectiontool.cpp:990-1009 | the action ends; released at the start, nothing is recorded and the list kept; otherwise one rotate macro is pushed and the list cleared |
| SelectionTool.ObjectSelectionTool.StartResizing | src/tiled/objectselectiontool.cpp:1012-1024 | the pressed handle's locks apply; the start is the handle's position; the action is resizing over snapshots of the selection |
| SelectionTool.ObjectSelectionTool.UpdateResizingItems | src/tiled/objectselectiontool.cpp:1026-1107 | the origin is the handle's or, with Shift, the saved one; one object is resized by `ResizedSingle`; a group is scaled by `GroupScale` about the origin; the other objects stay |
| SelectionTool.ObjectSelectionTool.ResizeGroup | src/tiled/objectselectiontool.cpp:1073-1106 | every snapshot's object is group-resized; the other objects stay |
| SelectionTool.ObjectSelectionTool.UpdateResizingSingleItem | src/tiled/objectselectiontool.cpp:1109-1235 | the only snapshot's object becomes `ResizedSingle` of its current state, computed in place; the other objects stay |
| SelectionTool.ObjectSelectionTool.FinishResizing | src/tiled/objectselectiontool.cpp:1237-1259 | the action ends; if any object no longer holds its snapshot's values, one resize macro that undoes it is pushed and the list cleared |
| SelectionTool.ObjectSelectionTool.ObjectsRemoved | src/tiled/objectselectiontool.cpp:830-850 | during a move or rotation each surviving snapshot's object becomes exactly `Restored` of its state before the call, and the list is cleared; removed objects and other objects stay; otherwise nothing changes |
| SelectionTool.SnappedMoveBackToStartIsNotRecorded | src/tiled/objectselectiontool.cpp:933 | a snapped move released at its press point displaces the object, yet the move as written records nothing |
| SelectionTool.SnappedResizeBackToStartIsNotRecorded | src/tiled/objectselectiontool.cpp:1243 | a snapped group resize released at the handle drops the scale to 0.01, yet the resize as written records nothing |

## Left out

- `keyPressed` (the arrow-key move and Escape) is not part of this model.
- Painting is not modelled: the selection rectangle item, the handle glyphs, the origin indicator's appearance, their z-order, and the removal of the rectangle from the scene.
- `activate` and `deactivate` are not modelled: they add and remove the tool's items and connect signals.
- `modifiersChanged`, `languageChanged` and the forwarding of other buttons to `AbstractObjectTool` are not modelled.
- The scene queries are inputs of the event methods: which handle lies under the pointer (`HandleHit`), `topMostObjectItemAt`, whether the drag distance was reached, and which items meet a rectangle.
- Handle layout is the abstract `layout` function: `objectBounds`, the union of the selection's bounds, the tile-object screen bounds and the rotation of the frame for a single rotated object.
- The isometric handle-rotation correction is not modelled, and neither is turning the handle glyphs.
- The map renderer, the snap helper's grid and the trigonometric functions are abstract values. The model assumes the two projections undo each other and that cos² + sin² = 1; `SelectionTool.ObjectSpaceRoundTrip` also assumes cosine even and sine odd.
- Floating point is modelled as `real`, and angles are in degrees rather than radians.
- Division by zero is not modelled. IEEE infinities and NaN are out of scope. Where a ratio's denominator is zero on an axis the resize uses, the model leaves the objects as they are.
- The undo commands (`MoveMapObject`, `RotateMapObject`, `ResizeMapObject`, `ChangePolygon`) are recorded with the values they restore. Their own code is not part of this model; `UndoLog.Undo` states what undoing one does.
- Removed objects stay in the model's map after `ObjectsRemoved`: the tool only receives the signal, and the document that removes them is not part of this model.
- The object items of `mapobjectitem.cpp` are not part of this model. An item's position is derived from its object's position, and `resizeObject` is modelled as setting the size.
- `SelectionTool.ResizedSingle` does not state the new position and size in closed form. The placement functions it uses (`Resizing.AnchorPlacement`, `Resizing.ScaledPlacement`) state them in the object's working frame.
- SelectionTool.ObjectSelectionTool.FinishMoving: when the button is released away from the press but every object still holds its snapshot's position (the snapped delta is zero, or `objectsRemoved` emptied the list), the source pushes a macro of commands that change nothing; the model records nothing and keeps the list, because it uses the corrected test of "## Findings".
- SelectionTool.ObjectSelectionTool.FinishResizing: the same for a resize released away from the handle's start that leaves every object holding its snapshot's values.
- MapObjects.PixelBounds is not used by the handle layout, which is the abstract `layout` function; it states `pixelBounds` on its own.
- `SelectionTool.Restored` does not restore a resize, because `objectsRemoved` only gives back the position and the rotation.

## Findings

| source | as written | input that shows it | evidently intended | confidence | as-written member | corrected member |
|---|---|---|---|---|---|---|
| src/tiled/objectselectiontool.cpp:894 | `startMoving` starts the minimum from `mMovingObjects.first()`, which does not exist when the snapshot list is empty | nothing selected, no object under the press, then an Alt drag: `mouseMoved` starts a move over the empty selection | with no snapshots there is nothing to move, so the align position is left as it is | not executed | Gesture.AltDragOnEmptySelection, SelectionTool.EmptySelectionHasNoSnapshots, Gesture.AlignPositionOf | SelectionTool.ObjectSelectionTool.UpdateAlignPosition |
| src/tiled/objectselectiontool.cpp:933 | `finishMoving` records nothing when the button is released where it was pressed, even if snapping moved the objects | snapping to whole pixels, an object at (0.5, 0.5) on an orthogonal map, press and release at (3, 4): the reference point snaps to a grid point other than (0.5, 0.5), so the object moves (with the model's flooring snap `SelectionTool.WholePixels` it ends at (0, 0); a rounding snap would take it to (1, 1)) | record the move whenever an object no longer holds its snapshot's position | not executed | SelectionTool.SnappedMoveBackToStartIsNotRecorded | SelectionTool.ObjectSelectionTool.FinishMoving |
| src/tiled/objectselectiontool.cpp:1243 | `finishResizing` records nothing when the button is released on the handle's start point, even if snapping changed the objects | snapping to whole pixels, a group whose handle is at (0.5, 0.5) with its origin at (0, 0), released on the handle: the pointer snaps to the origin and the scale drops to 0.01 | record the resize whenever an object no longer holds its snapshot's values | not executed | SelectionTool.SnappedResizeBackToStartIsNotRecorded | SelectionTool.ObjectSelectionTool.FinishResizing |
