/** The tool's collaborators whose code lies outside this model: the map
    renderer's projection, the grid snapping helper and the trigonometry of
    the C library. Each is a value holding functions, together with the law
    the tool relies on. */
module Collaborators {
  import opened Geometry

  /** `MapRenderer::pixelToScreenCoords` and `screenToPixelCoords`. */
  datatype Renderer = Renderer(pixelToScreen: Point -> Point, screenToPixel: Point -> Point) {
    /** The two projections undo each other. */
    ghost predicate Inverse() {
      (forall p {:trigger screenToPixel(pixelToScreen(p))} :: screenToPixel(pixelToScreen(p)) == p) &&
      (forall p {:trigger pixelToScreen(screenToPixel(p))} :: pixelToScreen(screenToPixel(p)) == p)
    }
  }

  /** The renderer of an orthogonal map, whose screen and pixel coordinates agree. */
  function Orthogonal(): (r: Renderer)
    ensures r.Inverse()
  {
    Renderer(p => p, p => p)
  }

  /** `SnapHelper`: whether snapping is on (from the preferences) and the grid
      quantisation it applies in pixel space. */
  datatype SnapHelper = SnapHelper(snaps: bool, grid: Point -> Point) {
    /** `SnapHelper::toggleSnap`. */
    function ToggleSnap(): SnapHelper { this.(snaps := !snaps) }

    /** `SnapHelper::snap`: quantises the point when snapping is on. */
    function Snap(p: Point): Point { if snaps then grid(p) else p }
  }

  /** `SnapHelper(renderer, modifiers)`: Control inverts the preference. */
  function SnapHelperFor(preferences: SnapHelper, ctrl: bool): SnapHelper {
    if ctrl then preferences.ToggleSnap() else preferences
  }

  /** `std::sin`, `std::cos` and `std::atan2`, all in degrees here. */
  datatype Trig = Trig(sin: real -> real, cos: real -> real, atan2: (real, real) -> real) {
    ghost predicate Pythagorean() {
      forall a :: sin(a) * sin(a) + cos(a) * cos(a) == 1.0
    }

    /** Cosine is even and sine is odd. */
    ghost predicate Symmetric() {
      forall a :: cos(-a) == cos(a) && sin(-a) == -sin(a)
    }
  }

  /** The image of `v` under a rotation with the given cosine and sine, as
      `QTransform::rotate` maps points (y pointing down). */
  function Rotated(v: Point, cs: real, sn: real): Point {
    Point(v.x * cs - v.y * sn, v.x * sn + v.y * cs)
  }

  /** `rotateAt(center, degrees)` applied to `p`. */
  function RotateAt(trig: Trig, center: Point, degrees: real, p: Point): Point {
    Add(center, Rotated(Sub(p, center), trig.cos(degrees), trig.sin(degrees)))
  }

  /** A rotation keeps the length of every vector. */
  lemma RotationKeepsLength(v: Point, cs: real, sn: real)
    requires cs * cs + sn * sn == 1.0
    ensures var w := Rotated(v, cs, sn); w.x * w.x + w.y * w.y == v.x * v.x + v.y * v.y
  {
    var w := Rotated(v, cs, sn);
    calc {
      w.x * w.x + w.y * w.y;
      (v.x * cs - v.y * sn) * (v.x * cs - v.y * sn) + (v.x * sn + v.y * cs) * (v.x * sn + v.y * cs);
      v.x * v.x * (cs * cs + sn * sn) + v.y * v.y * (cs * cs + sn * sn);
      v.x * v.x + v.y * v.y;
    }
  }

  /** Rotating about a center keeps every point's distance to the center. */
  lemma RotateAtKeepsDistance(trig: Trig, center: Point, degrees: real, p: Point)
    requires trig.Pythagorean()
    ensures var d := Sub(RotateAt(trig, center, degrees, p), center);
            var e := Sub(p, center);
            d.x * d.x + d.y * d.y == e.x * e.x + e.y * e.y
  {
    var cs, sn := trig.cos(degrees), trig.sin(degrees);
    assert sn * sn + cs * cs == 1.0;
    RotationKeepsLength(Sub(p, center), cs, sn);
  }

  /** `rotateAt(center, -degrees)` followed by `rotateAt(center, degrees)`, as
      `updateResizingSingleItem` unrotates and rotates back, is the identity. */
  lemma {:induction false} RotateAtInverse(trig: Trig, center: Point, degrees: real, p: Point)
    requires trig.Pythagorean() && trig.Symmetric()
    ensures RotateAt(trig, center, degrees, RotateAt(trig, center, -degrees, p)) == p
  {
    var cs, sn := trig.cos(degrees), trig.sin(degrees);
    assert trig.cos(-degrees) == cs && trig.sin(-degrees) == -sn;
    assert sn * sn + cs * cs == 1.0;
    var v := Sub(p, center);
    var w := Rotated(v, cs, -sn);
    assert Sub(Add(center, w), center) == w;
    calc {
      w.x * cs - w.y * sn;
      v.x * (cs * cs + sn * sn) + v.y * (sn * cs - cs * sn);
      v.x;
    }
    calc {
      w.x * sn + w.y * cs;
      v.y * (cs * cs + sn * sn) + v.x * (cs * sn - sn * cs);
      v.y;
    }
  }
}
