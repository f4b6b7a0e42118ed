/**
  The pure arithmetic of the camera layer (src/Camera.ts): points, the
  thresholded `lerp`, the per-tick catch-up rate, the snap clamp, the heading
  normalisation used by `setHeading`, and the stage <-> screen formulas of
  `Transform`.  Coordinates are mathematical reals.
*/
module Geometry {
  import opened Wrappers

  /** Snap's `Point`, used as a value: every operation the core uses returns a new point. */
  datatype Point = Point(x: real, y: real) {
    function Add(o: Point): Point { Point(x + o.x, y + o.y) }
    function Sub(o: Point): Point { Point(x - o.x, y - o.y) }
    function MultiplyBy(k: real): Point { Point(x * k, y * k) }
  }

  const Origin := Point(0.0, 0.0)

  function Abs(x: real): real { if x < 0.0 then -x else x }

  function Min(a: real, b: real): real { if a <= b then a else b }

  function Max(a: real, b: real): real { if a <= b then b else a }

  // ---------------------------------------------------------------------------
  // lerp and Point.prototype.lerp
  // ---------------------------------------------------------------------------

  /**
    `lerp(a, b, p, thresh)`: when a threshold is given and `a` is closer to `b`
    than it, the result is exactly `b`; otherwise the linear blend.
    `None` is an omitted (undefined) threshold.
  */
  function Lerp(a: real, b: real, p: real, thresh: Option<real>): real {
    if thresh.Some? && Abs(a - b) < thresh.value then b else a * (1.0 - p) + b * p
  }

  /** `Point.prototype.lerp`: `Lerp` on each axis with the same rate and threshold. */
  function PointLerp(a: Point, b: Point, p: real, thresh: Option<real>): Point {
    Point(Lerp(a.x, b.x, p, thresh), Lerp(a.y, b.y, p, thresh))
  }

  /** Within the threshold the result is the target itself; outside it, the blend. */
  lemma LerpCases(a: real, b: real, p: real, t: real)
    ensures Abs(a - b) < t ==> Lerp(a, b, p, Some(t)) == b
    ensures Abs(a - b) >= t ==> Lerp(a, b, p, Some(t)) == a + (b - a) * p
  {
    assert a * (1.0 - p) + b * p == a + (b - a) * p;
  }

  /** With rate 1 the target is reached in one step; a value already at its target stays. */
  lemma LerpFixedPoints(a: real, b: real, p: real, thresh: Option<real>)
    ensures Lerp(a, b, 1.0, thresh) == b
    ensures Lerp(a, a, p, thresh) == a
  {
    assert a * (1.0 - p) + a * p == a * ((1.0 - p) + p);
  }

  lemma ProductNonNegative(u: real, v: real)
    requires 0.0 <= u && 0.0 <= v
    ensures 0.0 <= u * v
  {
  }

  /** For a rate in [0, 1] the result lies between the two inputs. */
  lemma LerpBetween(a: real, b: real, p: real, thresh: Option<real>)
    requires 0.0 <= p <= 1.0
    ensures Min(a, b) <= Lerp(a, b, p, thresh) <= Max(a, b)
  {
    var r := Lerp(a, b, p, thresh);
    if r != b {
      assert r == a + (b - a) * p;
      assert b - r == (b - a) * (1.0 - p);
      if a <= b {
        ProductNonNegative(b - a, p);
        ProductNonNegative(b - a, 1.0 - p);
      } else {
        ProductNonNegative(a - b, p);
        ProductNonNegative(a - b, 1.0 - p);
      }
    }
  }

  /**
    One step never moves away from the target, and outside the threshold it
    removes exactly the fraction `p` of the remaining distance.
  */
  lemma LerpConverges(a: real, b: real, p: real, thresh: Option<real>)
    requires 0.0 <= p <= 1.0
    ensures Abs(Lerp(a, b, p, thresh) - b) <= Abs(a - b)
    ensures Lerp(a, b, p, thresh) != b ==> Abs(Lerp(a, b, p, thresh) - b) == (1.0 - p) * Abs(a - b)
  {
    var r := Lerp(a, b, p, thresh);
    if r != b {
      assert r - b == (a - b) * (1.0 - p);
      if a <= b {
        ProductNonNegative(b - a, 1.0 - p);
        ProductNonNegative(b - a, p);
        assert Abs(r - b) == (b - a) * (1.0 - p);
      } else {
        ProductNonNegative(a - b, 1.0 - p);
        ProductNonNegative(a - b, p);
        assert Abs(r - b) == (a - b) * (1.0 - p);
      }
    }
  }

  /** A blend of two positive values is positive (camera zoom stays positive). */
  lemma LerpPositive(a: real, b: real, p: real, thresh: Option<real>)
    requires 0.0 < a && 0.0 < b && 0.0 <= p <= 1.0
    ensures 0.0 < Lerp(a, b, p, thresh)
  {
    LerpBetween(a, b, p, thresh);
  }

  /** `Point.lerp` at rate 1 returns the target; a point at its target stays. */
  lemma PointLerpFixedPoints(a: Point, b: Point, p: real, thresh: Option<real>)
    ensures PointLerp(a, b, 1.0, thresh) == b
    ensures PointLerp(a, a, p, thresh) == a
  {
    LerpFixedPoints(a.x, b.x, p, thresh);
    LerpFixedPoints(a.y, b.y, p, thresh);
  }

  // ---------------------------------------------------------------------------
  // Catch-up rate and snap
  // ---------------------------------------------------------------------------

  /** The per-tick rate of `Camera.update`: 0.05 + 0.95 * (snap / 100)^4. */
  function Rate(snap: real): real {
    var f := snap / 100.0;
    0.05 + 0.95 * (f * f * f * f)
  }

  lemma UnitProduct(u: real, v: real)
    requires 0.0 <= u <= 1.0 && 0.0 <= v <= 1.0
    ensures 0.0 <= u * v <= v <= 1.0
  {
    ProductNonNegative(u, v);
    assert u * v <= 1.0 * v by {
      ProductNonNegative(1.0 - u, v);
    }
  }

  /** For a snap in [0, 100] the rate lies in [0.05, 1]; it is 1 exactly at snap 100. */
  lemma RateBounds(snap: real)
    requires 0.0 <= snap <= 100.0
    ensures 0.05 <= Rate(snap) <= 1.0
    ensures Rate(snap) == 1.0 <==> snap == 100.0
  {
    var f := snap / 100.0;
    UnitProduct(f, f);
    UnitProduct(f * f, f);
    UnitProduct(f * f * f, f);
  }

  /** A higher snap never gives a slower rate. */
  lemma RateMonotone(s1: real, s2: real)
    requires 0.0 <= s1 <= s2 <= 100.0
    ensures Rate(s1) <= Rate(s2)
  {
    var f, g := s1 / 100.0, s2 / 100.0;
    assert 0.0 <= f <= g;
    assert f * f <= g * g by {
      ProductNonNegative(g - f, f);
      ProductNonNegative(g - f, g);
    }
    var f2, g2 := f * f, g * g;
    assert f2 * f2 <= g2 * g2 by {
      ProductNonNegative(f, f);
      ProductNonNegative(g2 - f2, f2);
      ProductNonNegative(g2 - f2, g2);
    }
    assert f * f * f * f == f2 * f2;
    assert g * g * g * g == g2 * g2;
  }

  /** The `set camera snap to` block: `Math.min(Math.max(snap, 0), 100)`. */
  function ClampSnap(v: real): (r: real)
    ensures 0.0 <= r <= 100.0
    ensures 0.0 <= v <= 100.0 ==> r == v
    ensures v < 0.0 ==> r == 0.0
    ensures 100.0 < v ==> r == 100.0
  {
    Min(Max(v, 0.0), 100.0)
  }

  /** `setScale`'s stored stage scale: `Math.max(0, percent / 100)`. */
  function StoredScale(percent: real): (r: real)
    ensures 0.0 <= r
    ensures 0.0 <= percent ==> r * 100.0 == percent
    ensures percent < 0.0 ==> r == 0.0
  {
    Max(0.0, percent / 100.0)
  }

  // ---------------------------------------------------------------------------
  // Heading normalisation: ((d % 360) + 360) % 360 with JavaScript's `%`
  // ---------------------------------------------------------------------------

  /** Rounding toward zero, as JavaScript's `%` does on its quotient. */
  function Trunc(x: real): int {
    if x >= 0.0 then x.Floor else -((-x).Floor)
  }

  /** JavaScript's `a % n` on numbers: the remainder keeps the sign of `a`. */
  function JsRem(a: real, n: real): real
    requires n != 0.0
  {
    a - n * (Trunc(a / n) as real)
  }

  /** `setHeading`'s stored rotation: `((degrees % 360) + 360) % 360`. */
  function NormalizeHeading(d: real): real {
    JsRem(JsRem(d, 360.0) + 360.0, 360.0)
  }

  /** `x` is a whole number of turns of 360 degrees. */
  predicate WholeTurns(x: real) {
    (x / 360.0).Floor as real == x / 360.0
  }

  lemma JsRemBounds(a: real)
    ensures a >= 0.0 ==> 0.0 <= JsRem(a, 360.0) < 360.0
    ensures a < 0.0 ==> -360.0 < JsRem(a, 360.0) <= 0.0
    ensures WholeTurns(a - JsRem(a, 360.0))
  {
    var t := Trunc(a / 360.0);
    assert a - JsRem(a, 360.0) == 360.0 * (t as real);
    assert (360.0 * (t as real)) / 360.0 == t as real;
    if a >= 0.0 {
      assert t == (a / 360.0).Floor;
    } else {
      var f := (-a / 360.0).Floor;
      assert t == -f;
      assert f as real <= -a / 360.0 < f as real + 1.0;
    }
  }

  /**
    The stored heading lies in [0, 360) and differs from the requested one by
    a whole number of turns.
  */
  lemma {:induction false} HeadingNormalized(d: real)
    ensures 0.0 <= NormalizeHeading(d) < 360.0
    ensures WholeTurns(NormalizeHeading(d) - d)
  {
    var r1 := JsRem(d, 360.0);
    JsRemBounds(d);
    var s := r1 + 360.0;
    JsRemBounds(s);
    var r := JsRem(s, 360.0);
    var sum := (s - r) + (d - r1);
    WholeTurnsAdd(s - r, d - r1);
    assert WholeTurns(360.0) by {
      FloorOfWhole(1);
    }
    WholeTurnsAdd(sum, 360.0);
    WholeTurnsAdd(-sum, 360.0);
    assert -sum + 360.0 == r - d;
  }

  lemma FloorOfWhole(k: int)
    ensures (k as real).Floor == k
  {
  }

  lemma WholeTurnsAdd(a: real, b: real)
    requires WholeTurns(a) && WholeTurns(b)
    ensures WholeTurns(a + b) && WholeTurns(-a)
  {
    var m, n := (a / 360.0).Floor, (b / 360.0).Floor;
    assert (a + b) / 360.0 == a / 360.0 + b / 360.0;
    assert (a + b) / 360.0 == (m + n) as real;
    FloorOfWhole(m + n);
    assert -a / 360.0 == (-m) as real;
    FloorOfWhole(-m);
  }

  /** Two headings in [0, 360) a whole number of turns apart are equal. */
  lemma SameHeading(a: real, b: real)
    requires 0.0 <= a < 360.0 && 0.0 <= b < 360.0
    requires WholeTurns(a - b)
    ensures a == b
  {
    var k := ((a - b) / 360.0).Floor;
    assert -1.0 < (a - b) / 360.0 < 1.0;
    assert k == 0;
  }

  /** A heading already in [0, 360) is stored unchanged (normalisation is idempotent). */
  lemma HeadingNormalIdentity(d: real)
    requires 0.0 <= d < 360.0
    ensures NormalizeHeading(d) == d
  {
    HeadingNormalized(d);
    SameHeading(NormalizeHeading(d), d);
  }

  /** Normalisation depends only on the heading modulo 360: whole turns are forgotten. */
  lemma HeadingTurnInvariant(d: real, k: int)
    ensures NormalizeHeading(d + 360.0 * (k as real)) == NormalizeHeading(d)
  {
    var e := d + 360.0 * (k as real);
    HeadingNormalized(d);
    HeadingNormalized(e);
    assert WholeTurns(360.0 * (k as real)) by {
      assert (360.0 * (k as real)) / 360.0 == k as real;
    }
    WholeTurnsAdd(NormalizeHeading(e) - e, 360.0 * (k as real));
    WholeTurnsAdd(NormalizeHeading(d) - d, 0.0);
    assert WholeTurns(-(NormalizeHeading(d) - d)) by {
      WholeTurnsAdd(NormalizeHeading(d) - d, NormalizeHeading(d) - d);
    }
    WholeTurnsAdd(NormalizeHeading(e) - e + 360.0 * (k as real), -(NormalizeHeading(d) - d));
    assert NormalizeHeading(e) - e + 360.0 * (k as real) + -(NormalizeHeading(d) - d)
        == NormalizeHeading(e) - NormalizeHeading(d);
    SameHeading(NormalizeHeading(e), NormalizeHeading(d));
  }

  // ---------------------------------------------------------------------------
  // Stage <-> screen mapping of `Transform`
  // ---------------------------------------------------------------------------

  /** What `getGlobal*` read from the camera: its own transform's position and scale. */
  datatype CameraView = CameraView(position: Point, scale: real)

  /** What the mapping reads from the sprite's stage: its centre and its scale. */
  datatype StageView = StageView(center: Point, scale: real)

  /** `getGlobalScale`: the stage scale times the camera's zoom, when there is a camera. */
  function GlobalScale(scale: real, camera: Option<CameraView>): real {
    match camera
    case None => scale
    case Some(c) => scale * c.scale
  }

  /**
    A positive scale under a positive zoom is drawn at a positive scale;
    without a camera it is drawn as it is, and a zoom of 1 changes nothing.
  */
  lemma GlobalScaleProperties(scale: real, camera: Option<CameraView>)
    ensures camera.None? ==> GlobalScale(scale, camera) == scale
    ensures camera.Some? && camera.value.scale == 1.0 ==> GlobalScale(scale, camera) == scale
    ensures 0.0 < scale && (camera.Some? ==> 0.0 < camera.value.scale) ==> 0.0 < GlobalScale(scale, camera)
  {
  }

  /**
    `getGlobalPosition`: the on-screen top-left corner for a stage position `p`.
    Without a stage the position is returned as it is; otherwise it is taken
    relative to the camera and zoomed, scaled by the stage, placed around the
    stage centre with Y flipped, and shifted by the sprite's anchor (its
    rotation offset, or half its extent when it has no costume).
  */
  function GlobalPosition(p: Point, camera: Option<CameraView>, stage: Option<StageView>, anchor: Point): Point {
    match stage
    case None => p
    case Some(s) =>
      var q := match camera
        case None => p
        case Some(c) => p.Sub(c.position).MultiplyBy(c.scale);
      Point(s.center.x + q.x * s.scale, s.center.y - q.y * s.scale).Sub(anchor)
  }

  /**
    `Transform.set`: the stage position read back from a sprite's rotation
    centre, relative to the stage centre when there is a stage, with Y flipped.
    Neither the camera nor the stage scale is undone.
  */
  function StagePosition(rotationCenter: Point, stage: Option<StageView>): Point {
    var q := match stage
      case None => rotationCenter
      case Some(s) => rotationCenter.Sub(s.center);
    Point(q.x, -q.y)
  }

  /**
    The exact inverse of `GlobalPosition` for a camera and a stage with
    non-zero scales (a reference definition used to state invertibility).
  */
  function ScreenToStage(screen: Point, camera: CameraView, stage: StageView, anchor: Point): Point
    requires camera.scale != 0.0 && stage.scale != 0.0
  {
    var k := camera.scale * stage.scale;
    var c := screen.Add(anchor);
    Point(camera.position.x + (c.x - stage.center.x) / k,
          camera.position.y + (stage.center.y - c.y) / k)
  }

  lemma DivCancel(u: real, a: real, b: real)
    requires a != 0.0 && b != 0.0
    ensures u * a * b / (a * b) == u && (u / (a * b)) * a * b == u
  {
    assert u * a * b == u * (a * b);
    assert (u / (a * b)) * a * b == (u / (a * b)) * (a * b);
  }

  /** Stage -> screen -> stage is the identity. */
  lemma ScreenToStageUndoesX(p: Point, camera: CameraView, stage: StageView, anchor: Point)
    requires camera.scale != 0.0 && stage.scale != 0.0
    ensures ScreenToStage(GlobalPosition(p, Some(camera), Some(stage), anchor), camera, stage, anchor).x == p.x
  {
    var c, k := camera.scale, stage.scale;
    var u := (p.x - camera.position.x) * c * k;
    var g := GlobalPosition(p, Some(camera), Some(stage), anchor);
    assert g.Add(anchor).x - stage.center.x == u;
    DivCancel(p.x - camera.position.x, c, k);
  }

  lemma ScreenToStageUndoesY(p: Point, camera: CameraView, stage: StageView, anchor: Point)
    requires camera.scale != 0.0 && stage.scale != 0.0
    ensures ScreenToStage(GlobalPosition(p, Some(camera), Some(stage), anchor), camera, stage, anchor).y == p.y
  {
    var c, k := camera.scale, stage.scale;
    var w := (p.y - camera.position.y) * c * k;
    var g := GlobalPosition(p, Some(camera), Some(stage), anchor);
    assert stage.center.y - g.Add(anchor).y == w;
    DivCancel(p.y - camera.position.y, c, k);
  }

  /** Stage -> screen -> stage is the identity. */
  lemma ScreenToStageUndoes(p: Point, camera: CameraView, stage: StageView, anchor: Point)
    requires camera.scale != 0.0 && stage.scale != 0.0
    ensures ScreenToStage(GlobalPosition(p, Some(camera), Some(stage), anchor), camera, stage, anchor) == p
  {
    ScreenToStageUndoesX(p, camera, stage, anchor);
    ScreenToStageUndoesY(p, camera, stage, anchor);
  }

  lemma GlobalPositionUndoesX(screen: Point, camera: CameraView, stage: StageView, anchor: Point)
    requires camera.scale != 0.0 && stage.scale != 0.0
    ensures GlobalPosition(ScreenToStage(screen, camera, stage, anchor), Some(camera), Some(stage), anchor).x == screen.x
  {
    var c, k := camera.scale, stage.scale;
    var s := screen.Add(anchor);
    var q := ScreenToStage(screen, camera, stage, anchor);
    assert q.x == camera.position.x + (s.x - stage.center.x) / (c * k);
    DivCancel(s.x - stage.center.x, c, k);
    assert (q.x - camera.position.x) * c * k == s.x - stage.center.x;
  }

  lemma GlobalPositionUndoesY(screen: Point, camera: CameraView, stage: StageView, anchor: Point)
    requires camera.scale != 0.0 && stage.scale != 0.0
    ensures GlobalPosition(ScreenToStage(screen, camera, stage, anchor), Some(camera), Some(stage), anchor).y == screen.y
  {
    var c, k := camera.scale, stage.scale;
    var s := screen.Add(anchor);
    var q := ScreenToStage(screen, camera, stage, anchor);
    assert q.y == camera.position.y + (stage.center.y - s.y) / (c * k);
    DivCancel(stage.center.y - s.y, c, k);
    assert (q.y - camera.position.y) * c * k == stage.center.y - s.y;
  }

  /** Screen -> stage -> screen is the identity. */
  lemma GlobalPositionUndoes(screen: Point, camera: CameraView, stage: StageView, anchor: Point)
    requires camera.scale != 0.0 && stage.scale != 0.0
    ensures GlobalPosition(ScreenToStage(screen, camera, stage, anchor), Some(camera), Some(stage), anchor) == screen
  {
    GlobalPositionUndoesX(screen, camera, stage, anchor);
    GlobalPositionUndoesY(screen, camera, stage, anchor);
  }

  /** The screen mapping is a bijection: `ScreenToStage` undoes it and vice versa. */
  lemma GlobalPositionInverse(p: Point, screen: Point, camera: CameraView, stage: StageView, anchor: Point)
    requires camera.scale != 0.0 && stage.scale != 0.0
    ensures ScreenToStage(GlobalPosition(p, Some(camera), Some(stage), anchor), camera, stage, anchor) == p
    ensures GlobalPosition(ScreenToStage(screen, camera, stage, anchor), Some(camera), Some(stage), anchor) == screen
  {
    ScreenToStageUndoes(p, camera, stage, anchor);
    GlobalPositionUndoes(screen, camera, stage, anchor);
  }

  /**
    `Transform.set` undoes `getGlobalPosition` for a camera at rest (or
    none) on a stage of scale 1, for a sprite with a costume (anchor = its
    rotation offset); `SetInvertsGlobalIf` gives the general condition.
  */
  lemma SetInvertsGlobalAtRest(p: Point, camera: Option<CameraView>, center: Point, offset: Point)
    requires camera.None? || camera == Some(CameraView(Origin, 1.0))
    ensures StagePosition(GlobalPosition(p, camera, Some(StageView(center, 1.0)), offset).Add(offset),
                          Some(StageView(center, 1.0))) == p
  {
  }

  /** The stage point `Transform.set` reads back from where `getGlobalPosition` drew `p`. */
  function SetAfterGlobal(p: Point, camera: CameraView, stage: StageView, offset: Point): Point {
    StagePosition(GlobalPosition(p, Some(camera), Some(stage), offset).Add(offset), Some(stage))
  }

  /** Reading back scales the offset from the camera by the product of the two zooms. */
  lemma SetAfterGlobalIsScaling(p: Point, camera: CameraView, stage: StageView, offset: Point)
    ensures SetAfterGlobal(p, camera, stage, offset)
            == Point((p.x - camera.position.x) * (camera.scale * stage.scale),
                     (p.y - camera.position.y) * (camera.scale * stage.scale))
  {
    var c, k := camera.scale, stage.scale;
    var q := p.Sub(camera.position).MultiplyBy(c);
    assert q.x * k == (p.x - camera.position.x) * (c * k);
    assert q.y * k == (p.y - camera.position.y) * (c * k);
  }

  /** A camera at the origin whose zoom times the stage's is 1 lets `Transform.set` undo `getGlobalPosition`. */
  lemma SetInvertsGlobalIf(p: Point, camera: CameraView, stage: StageView, offset: Point)
    requires camera.position == Origin && camera.scale * stage.scale == 1.0
    ensures SetAfterGlobal(p, camera, stage, offset) == p
  {
    SetAfterGlobalIsScaling(p, camera, stage, offset);
  }

  /**
    With a zoomed camera `Transform.set` does not undo `getGlobalPosition`:
    this is why the stage transform must not be re-read while it is being
    pushed to the screen.
  */
  lemma SetIgnoresZoom()
    ensures var p := Point(1.0, 0.0);
            var stage := Some(StageView(Origin, 1.0));
            StagePosition(GlobalPosition(p, Some(CameraView(Origin, 2.0)), stage, Origin), stage) != p
  {
  }

  /**
    Worked example: a sprite at stage (100, 0), camera at rest, stage centre
    (240, 180) of scale 1 is drawn with its anchor at screen (340, 180).
  */
  lemma StageToScreenExample(anchor: Point)
    ensures GlobalPosition(Point(100.0, 0.0), Some(CameraView(Origin, 1.0)),
                           Some(StageView(Point(240.0, 180.0), 1.0)), anchor)
            == Point(340.0, 180.0).Sub(anchor)
  {
  }

  // ---------------------------------------------------------------------------
  // Panning
  // ---------------------------------------------------------------------------

  /**
    `updateUserCamera` while the left button is held: the camera position is
    the pan start plus the mouse travel since the pan began, divided by the
    camera zoom and the stage scale, with Y flipped.
  */
  function PannedPosition(cameraStart: Point, mouseStart: Point, mouse: Point, cameraScale: real, stageScale: real): Point
    requires cameraScale != 0.0 && stageScale != 0.0
  {
    var k := 1.0 / cameraScale / stageScale;
    var offset := mouseStart.Sub(mouse).MultiplyBy(k);
    cameraStart.Add(Point(offset.x, -offset.y))
  }

  /**
    Panning drags the scene with the mouse: every stage point is drawn moved
    by exactly the mouse travel since the pan began.
  */
  lemma PanFollowsMouse(q: Point, cameraStart: Point, mouseStart: Point, mouse: Point,
                        cameraScale: real, stage: StageView, anchor: Point)
    requires cameraScale != 0.0 && stage.scale != 0.0
    ensures var panned := PannedPosition(cameraStart, mouseStart, mouse, cameraScale, stage.scale);
            GlobalPosition(q, Some(CameraView(panned, cameraScale)), Some(stage), anchor)
            == GlobalPosition(q, Some(CameraView(cameraStart, cameraScale)), Some(stage), anchor).Add(mouse.Sub(mouseStart))
  {
    var c, k := cameraScale, stage.scale;
    assert 1.0 / c / k == 1.0 / (c * k);
    var dx, dy := mouseStart.x - mouse.x, mouseStart.y - mouse.y;
    assert dx * (1.0 / c / k) == dx / (c * k);
    assert dy * (1.0 / c / k) == dy / (c * k);
    DivCancel(dx, c, k);
    DivCancel(dy, c, k);
    var panned := PannedPosition(cameraStart, mouseStart, mouse, c, k);
    assert panned == Point(cameraStart.x + dx / (c * k), cameraStart.y - dy / (c * k));
    assert (q.x - panned.x) * c * k == (q.x - cameraStart.x) * c * k - (dx / (c * k)) * c * k;
    assert (q.y - panned.y) * c * k == (q.y - cameraStart.y) * c * k + (dy / (c * k)) * c * k;
  }

  /** Worked example: dragging the mouse 20 units left moves the camera 20 stage units right. */
  lemma PanExample()
    ensures PannedPosition(Origin, Point(100.0, 100.0), Point(80.0, 100.0), 1.0, 1.0) == Point(20.0, 0.0)
  {
  }
}
