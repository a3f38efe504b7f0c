/** Snapping during a gesture: the rotation angle to multiples of a step,
    and a group move to the grid through its alignment reference point. */
module Snapping {
  import opened Geometry
  import opened Collaborators

  /** The rotation snap step of `updateRotatingItems`, in degrees. */
  const RotationSnapStep: real := 15.0

  /** `r` is a whole multiple of `step`. */
  predicate IsMultipleOf(r: real, step: real)
    requires step > 0.0
  {
    (r / step).Floor as real == r / step
  }

  /** The angle snap of `updateRotatingItems`: `floor((a + s/2) / s) * s`. */
  function SnapAngle(a: real, step: real): real
    requires step > 0.0
  {
    ((a + step / 2.0) / step).Floor as real * step
  }

  lemma MulLeft(x: real, y: real, s: real)
    requires x <= y && s > 0.0
    ensures x * s <= y * s
  {
  }

  lemma MulLeftStrict(x: real, y: real, s: real)
    requires x < y && s > 0.0
    ensures x * s < y * s
  {
  }

  /** The snapped angle is a whole number of steps and lies within half a step
      of the angle, below it by less than half a step or above it by at most half. */
  lemma {:induction false} SnapAngleIsRoundedMultiple(a: real, step: real)
    requires step > 0.0
    ensures IsMultipleOf(SnapAngle(a, step), step)
    ensures a - step / 2.0 < SnapAngle(a, step) <= a + step / 2.0
  {
    var q := (a + step / 2.0) / step;
    var k := q.Floor;
    var r := SnapAngle(a, step);
    assert r == k as real * step;
    assert r / step == k as real;
    assert k as real <= q < k as real + 1.0;
    assert q * step == a + step / 2.0;
    MulLeft(k as real, q, step);
    MulLeftStrict(q, k as real + 1.0, step);
    assert (k as real + 1.0) * step == r + step;
  }

  function Abs(x: real): real { if x < 0.0 then -x else x }

  lemma AbsOfScaled(x: real, s: real)
    requires s > 0.0
    ensures Abs(x * s) == Abs(x) * s
  {
    if x < 0.0 {
      MulLeftStrict(x, 0.0, s);
      assert Abs(x * s) == -x * s;
    } else {
      MulLeft(0.0, x, s);
    }
  }

  /** With a unit step, no whole number lies closer to `q` than its snap. */
  lemma {:induction false} UnitSnapIsNearest(q: real, m: int)
    ensures Abs(q - SnapAngle(q, 1.0)) <= Abs(q - m as real)
  {
    var k := (q + 0.5).Floor;
    assert (q + 1.0 / 2.0) / 1.0 == q + 0.5;
    assert SnapAngle(q, 1.0) == k as real;
    assert k as real <= q + 0.5 < k as real + 1.0;
    if m > k {
      assert m as real >= k as real + 1.0;
    } else if m < k {
      assert m as real <= k as real - 1.0;
    }
  }

  lemma SubTimes(x: real, y: real, s: real)
    ensures x * s - y * s == (x - y) * s
  {
  }

  /** Scaling by a positive factor keeps which of two points lies closer. */
  lemma ScaledCloser(q: real, k: real, n: real, s: real)
    requires s > 0.0 && Abs(q - k) <= Abs(q - n)
    ensures Abs(q * s - k * s) <= Abs(q * s - n * s)
  {
    SubTimes(q, k, s);
    SubTimes(q, n, s);
    AbsOfScaled(q - k, s);
    AbsOfScaled(q - n, s);
    MulLeft(Abs(q - k), Abs(q - n), s);
  }

  /** No multiple of the step lies closer to the angle than the snapped one. */
  lemma {:induction false} SnapAngleIsNearest(a: real, step: real, m: int)
    requires step > 0.0
    ensures Abs(a - SnapAngle(a, step)) <= Abs(a - m as real * step)
  {
    var q := a / step;
    DivideBack(a, q, step) by {
      assert a == q * step;
    }
    var k := SnapAngle(q, 1.0);
    assert SnapAngle(a, step) == k * step by {
      SnapAngleUnitFree(q, 1.0, step);
      assert q * step == a && 1.0 * step == step;
    }
    UnitSnapIsNearest(q, m);
    ScaledCloser(q, k, m as real, step);
  }

  /** Snapping commutes with a change of angle unit: snapping radians to a step
      in radians and converting gives the same as snapping degrees to the step
      in degrees. */
  lemma {:induction false} SnapAngleUnitFree(a: real, step: real, c: real)
    requires step > 0.0 && c > 0.0
    ensures SnapAngle(a * c, step * c) == SnapAngle(a, step) * c
  {
    assert (a * c + step * c / 2.0) / (step * c) == (a + step / 2.0) / step by {
      assert a * c + step * c / 2.0 == (a + step / 2.0) * c;
    }
  }

  /** A snapped angle snaps to itself. */
  lemma {:induction false} SnapAngleIdempotent(a: real, step: real)
    requires step > 0.0
    ensures SnapAngle(SnapAngle(a, step), step) == SnapAngle(a, step)
  {
    var k := ((a + step / 2.0) / step).Floor;
    var r := SnapAngle(a, step);
    assert r == k as real * step;
    DivideBack(r + step / 2.0, k as real + 0.5, step);
    assert (k as real + 0.5).Floor == k;
  }

  lemma DivideBack(x: real, y: real, s: real)
    requires s != 0.0 && x == y * s
    ensures x / s == y
  {
  }

  /** The angle of `updateRotatingItems`: how far the pointer has turned about
      the origin since the press (the difference of the two `atan2` bearings),
      rounded to a whole number of snap steps while Control is held. */
  function RotationAngle(trig: Trig, origin: Point, start: Point, pos: Point, snap: bool): (angle: real)
    ensures var startDiff, currentDiff := Sub(origin, start), Sub(origin, pos);
            var turned := trig.atan2(currentDiff.y, currentDiff.x) - trig.atan2(startDiff.y, startDiff.x);
            (snap ==> IsMultipleOf(angle, RotationSnapStep) &&
                      turned - RotationSnapStep / 2.0 < angle <= turned + RotationSnapStep / 2.0) &&
            (!snap ==> angle == turned)
  {
    var startDiff, currentDiff := Sub(origin, start), Sub(origin, pos);
    var turned := trig.atan2(currentDiff.y, currentDiff.x) - trig.atan2(startDiff.y, startDiff.x);
    SnapAngleIsRoundedMultiple(turned, RotationSnapStep);
    if snap then SnapAngle(turned, RotationSnapStep) else turned
  }

  /** The test `finishMoving`, `finishRotating` and `finishResizing` use to
      decide that the action changed nothing: the button is released where
      the action started. */
  predicate ReleasedAtStart(start: Point, pos: Point) {
    start == pos
  }

  /** The pointer of a resize, snapped to the grid in pixel space (`toggle`
      inverts the preference, as Alt does) and taken back to the screen. */
  function SnappedScreenPos(renderer: Renderer, preferences: SnapHelper, toggle: bool, pos: Point): (r: Point)
    requires renderer.Inverse()
    ensures renderer.screenToPixel(r) == SnapHelperFor(preferences, toggle).Snap(renderer.screenToPixel(pos))
    ensures !SnapHelperFor(preferences, toggle).snaps ==> r == pos
  {
    renderer.pixelToScreen(SnapHelperFor(preferences, toggle).Snap(renderer.screenToPixel(pos)))
  }

  /** `snapToGrid`: snaps a move's displacement so that the group's alignment
      reference point, not each object, lands on the grid. */
  function SnapDelta(renderer: Renderer, helper: SnapHelper, alignPosition: Point, diff: Point): Point {
    if helper.snaps then
      var alignScreenPos := renderer.pixelToScreen(alignPosition);
      var newAlignScreenPos := Add(alignScreenPos, diff);
      var newAlignPixelPos := helper.Snap(renderer.screenToPixel(newAlignScreenPos));
      Sub(renderer.pixelToScreen(newAlignPixelPos), alignScreenPos)
    else
      diff
  }

  /** When snapping, the reference point moved by the snapped displacement is
      exactly the grid point nearest (by the snap helper) to where the pointer
      would have taken it; without snapping the displacement is the pointer's. */
  lemma {:induction false} SnapDeltaPlacesReferenceOnGrid(renderer: Renderer, helper: SnapHelper,
                                                       alignPosition: Point, diff: Point)
    requires renderer.Inverse()
    ensures var delta := SnapDelta(renderer, helper, alignPosition, diff);
            var alignScreenPos := renderer.pixelToScreen(alignPosition);
            renderer.screenToPixel(Add(alignScreenPos, delta)) ==
              helper.Snap(renderer.screenToPixel(Add(alignScreenPos, diff)))
  {
    var alignScreenPos := renderer.pixelToScreen(alignPosition);
    var target := helper.Snap(renderer.screenToPixel(Add(alignScreenPos, diff)));
    if helper.snaps {
      var delta := SnapDelta(renderer, helper, alignPosition, diff);
      assert Add(alignScreenPos, delta) == renderer.pixelToScreen(target);
    } else {
      assert renderer.screenToPixel(Add(alignScreenPos, diff)) == target;
    }
  }
}
