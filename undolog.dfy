/** The undo stack as an append-only log of macros, and the commands that
    finishing a move, a rotation or a resize records for each snapshot. */
module UndoLog {
  import opened Geometry
  import opened MapObjects
  import opened Gesture

  /** The undo commands the tool pushes; each remembers the value it restores. */
  datatype Command =
    | MoveMapObject(item: ObjectId, oldPosition: Point)
    | ResizeMapObject(item: ObjectId, oldSize: Size)
    | RotateMapObject(item: ObjectId, oldRotation: real)
    | ChangePolygon(item: ObjectId, oldPolygon: seq<Point>)

  /** The three macros: "Move", "Rotate" and "Resize %n Object(s)". */
  datatype MacroKind = MoveMacro | RotateMacro | ResizeMacro

  /** A macro, its object count (the `%n` of its name) and its commands in push order. */
  datatype Macro = Macro(kind: MacroKind, count: nat, commands: seq<Command>)

  /** What finishing an action pushes for one snapshot: its position, then
      its rotation for a rotation, or its size and (when it had one) its
      polygon for a resize. */
  function CommandsFor(kind: MacroKind, m: MovingObject): (cs: seq<Command>)
    ensures |cs| > 0 && cs[0] == MoveMapObject(m.item, m.oldPosition)
    ensures forall c :: c in cs ==> c.item == m.item
    ensures kind == MoveMacro ==> |cs| == 1
    ensures kind == RotateMacro ==> cs == [MoveMapObject(m.item, m.oldPosition), RotateMapObject(m.item, m.oldRotation)]
    ensures kind == ResizeMacro ==>
              |cs| == (if |m.oldPolygon| > 0 then 3 else 2) &&
              cs[1] == ResizeMapObject(m.item, m.oldSize) &&
              (|m.oldPolygon| > 0 ==> cs[2] == ChangePolygon(m.item, m.oldPolygon))
  {
    var move := MoveMapObject(m.item, m.oldPosition);
    match kind
    case MoveMacro => [move]
    case RotateMacro => [move, RotateMapObject(m.item, m.oldRotation)]
    case ResizeMacro =>
      [move, ResizeMapObject(m.item, m.oldSize)] +
      (if |m.oldPolygon| > 0 then [ChangePolygon(m.item, m.oldPolygon)] else [])
  }

  /** The commands of a macro over the snapshots, in the order they are pushed. */
  function MacroCommands(kind: MacroKind, ms: seq<MovingObject>): seq<Command> {
    if |ms| == 0 then [] else MacroCommands(kind, ms[..|ms| - 1]) + CommandsFor(kind, ms[|ms| - 1])
  }

  /** The loop of `finishMoving`, `finishRotating` and `finishResizing` that
      fills a macro, one snapshot at a time. */
  method RecordMacro(kind: MacroKind, ms: seq<MovingObject>) returns (macro: Macro)
    ensures macro == Macro(kind, |ms|, MacroCommands(kind, ms))
  {
    var commands := [];
    var i := 0;
    while i < |ms|
      invariant 0 <= i <= |ms|
      invariant commands == MacroCommands(kind, ms[..i])
    {
      assert ms[..i + 1][..i] == ms[..i];
      commands := commands + CommandsFor(kind, ms[i]);
      i := i + 1;
    }
    assert ms[..|ms|] == ms;
    macro := Macro(kind, |ms|, commands);
  }

  /** Undoing one command restores the value it remembers. */
  function Undo(objects: map<ObjectId, MapObject>, c: Command): (r: map<ObjectId, MapObject>)
    ensures r.Keys == objects.Keys
    ensures forall id :: id in objects && id != c.item ==> r[id] == objects[id]
  {
    if c.item !in objects then objects
    else
      var o := objects[c.item];
      objects[c.item := match c
        case MoveMapObject(_, p) => o.(position := p)
        case ResizeMapObject(_, s) => o.(size := s)
        case RotateMapObject(_, a) => o.(rotation := a)
        case ChangePolygon(_, poly) => o.(polygon := poly)]
  }

  /** Undoing a macro undoes its commands last first. */
  function UndoAll(objects: map<ObjectId, MapObject>, cs: seq<Command>): (r: map<ObjectId, MapObject>)
    ensures r.Keys == objects.Keys
  {
    if |cs| == 0 then objects
    else UndoAll(Undo(objects, cs[|cs| - 1]), cs[..|cs| - 1])
  }

  /** Undoing commands about other objects leaves an object as it was. */
  lemma {:induction false} UndoAllElsewhere(objects: map<ObjectId, MapObject>, cs: seq<Command>, id: ObjectId)
    requires id in objects
    requires forall k :: 0 <= k < |cs| ==> cs[k].item != id
    ensures UndoAll(objects, cs)[id] == objects[id]
  {
    if |cs| > 0 {
      UndoAllElsewhere(Undo(objects, cs[|cs| - 1]), cs[..|cs| - 1], id);
    }
  }

  lemma {:induction false} UndoAllAppend(objects: map<ObjectId, MapObject>, a: seq<Command>, b: seq<Command>)
    ensures UndoAll(objects, a + b) == UndoAll(UndoAll(objects, b), a)
    decreases |b|
  {
    if |b| > 0 {
      assert (a + b)[..|a + b| - 1] == a + b[..|b| - 1];
      UndoAllAppend(Undo(objects, b[|b| - 1]), a, b[..|b| - 1]);
    } else {
      assert a + b == a;
    }
  }

  /** The snapshot's values that undoing a macro of the given kind brings back. */
  predicate Restores(kind: MacroKind, m: MovingObject, o: MapObject) {
    o.position == m.oldPosition &&
    (kind == RotateMacro ==> o.rotation == m.oldRotation) &&
    (kind == ResizeMacro ==> o.size == m.oldSize && (|m.oldPolygon| > 0 ==> o.polygon == m.oldPolygon))
  }

  lemma UndoCommandsForRestores(objects: map<ObjectId, MapObject>, kind: MacroKind, m: MovingObject)
    requires m.item in objects
    ensures Restores(kind, m, UndoAll(objects, CommandsFor(kind, m))[m.item])
  {
    var cs := CommandsFor(kind, m);
    match kind
    case MoveMacro =>
      assert cs[..0] == [];
    case RotateMacro =>
      var move, rotate := cs[0], cs[1];
      assert cs[..1] == [move];
      assert [move][..0] == [];
      var o1 := Undo(objects, rotate);
      assert UndoAll(objects, cs) == UndoAll(o1, [move]);
      assert UndoAll(o1, [move]) == Undo(o1, move);
    case ResizeMacro =>
      var move, resize := cs[0], cs[1];
      var o1 := if |m.oldPolygon| > 0 then Undo(objects, cs[2]) else objects;
      assert UndoAll(objects, cs) == UndoAll(o1, [move, resize]) by {
        if |m.oldPolygon| > 0 {
          assert cs[..2] == [move, resize];
        } else {
          assert cs == [move, resize];
        }
      }
      assert [move, resize][..1] == [move];
      var o2 := Undo(o1, resize);
      assert UndoAll(o1, [move, resize]) == UndoAll(o2, [move]);
      assert [move][..0] == [];
      assert UndoAll(o2, [move]) == Undo(o2, move);
      assert o1[m.item].polygon == (if |m.oldPolygon| > 0 then m.oldPolygon else objects[m.item].polygon);
  }

  lemma RestoresAppend(kind: MacroKind, pre: seq<MovingObject>, last: MovingObject,
                       after: map<ObjectId, MapObject>)
    requires forall k :: 0 <= k < |pre| ==> pre[k].item in after && Restores(kind, pre[k], after[pre[k].item])
    requires last.item in after && Restores(kind, last, after[last.item])
    ensures var ms := pre + [last];
            forall k :: 0 <= k < |ms| ==> ms[k].item in after && Restores(kind, ms[k], after[ms[k].item])
  {
  }

  /** A macro only names the objects of its snapshots. */
  lemma {:induction false} MacroCommandsAbout(kind: MacroKind, ms: seq<MovingObject>)
    ensures forall c :: c in MacroCommands(kind, ms) ==> c.item in Items(ms)
  {
    if |ms| > 0 {
      var pre, last := ms[..|ms| - 1], ms[|ms| - 1];
      assert ms == pre + [last];
      ItemsAppend(pre, last);
      MacroCommandsAbout(kind, pre);
    }
  }

  /** Undoing a macro leaves every object without a snapshot as it was. */
  lemma UndoMacroElsewhere(objects: map<ObjectId, MapObject>, kind: MacroKind, ms: seq<MovingObject>,
                           id: ObjectId)
    requires id in objects && id !in Items(ms)
    ensures UndoAll(objects, MacroCommands(kind, ms))[id] == objects[id]
  {
    var cs := MacroCommands(kind, ms);
    MacroCommandsAbout(kind, ms);
    assert forall k :: 0 <= k < |cs| ==> cs[k] in cs;
    UndoAllElsewhere(objects, cs, id);
  }

  /** Undoing the macro recorded for distinct snapshots brings every
      snapshot's values back and leaves every other object as it was. */
  lemma {:induction false} UndoMacroRestores(objects: map<ObjectId, MapObject>, kind: MacroKind,
                                             ms: seq<MovingObject>)
    requires DistinctItems(ms)
    requires forall k :: 0 <= k < |ms| ==> ms[k].item in objects
    ensures var after := UndoAll(objects, MacroCommands(kind, ms));
            after.Keys == objects.Keys &&
            (forall k :: 0 <= k < |ms| ==> Restores(kind, ms[k], after[ms[k].item])) &&
            (forall id :: id in objects && id !in Items(ms) ==> after[id] == objects[id])
  {
    if |ms| > 0 {
      var pre, last := ms[..|ms| - 1], ms[|ms| - 1];
      assert ms == pre + [last];
      SplitLast(ms);
      var lastCmds := CommandsFor(kind, last);
      var mid := UndoAll(objects, lastCmds);
      var after := UndoAll(mid, MacroCommands(kind, pre));
      assert MacroCommands(kind, ms) == MacroCommands(kind, pre) + lastCmds;
      assert UndoAll(objects, MacroCommands(kind, ms)) == after by {
        UndoAllAppend(objects, MacroCommands(kind, pre), lastCmds);
      }
      assert Restores(kind, last, mid[last.item]) by {
        UndoCommandsForRestores(objects, kind, last);
      }
      UndoMacroRestores(mid, kind, pre);
      UndoMacroElsewhere(mid, kind, pre, last.item);
      RestoresAppend(kind, pre, last, after);
    }
    forall id | id in objects && id !in Items(ms)
      ensures UndoAll(objects, MacroCommands(kind, ms))[id] == objects[id]
    {
      UndoMacroElsewhere(objects, kind, ms, id);
    }
  }

  /** Pushing a macro appends it and keeps the older ones. */
  function Pushed(undoStack: seq<Macro>, macro: Macro): (r: seq<Macro>)
    ensures |r| == |undoStack| + 1 && r[..|undoStack|] == undoStack && r[|undoStack|] == macro
  {
    undoStack + [macro]
  }
}
