/**
  The stateful part of src/Camera.ts: the `Transform` objects, the sprite and
  stage overrides that keep a sprite's stage transform and its on-screen pose
  in step, and the `Camera` with its follow / user-control / pan state.

  Snap's globals (`Camera.getCamera()`, `Snap.world.hand`, `Snap.IDE.stage`)
  are passed in as parameters: a `Camera?` that is `null` when there is no
  IDE, and an `Option<PanInput>` that is `None` when there is no world, hand
  or stage.
*/
module StageModel {
  import opened Wrappers
  import opened Geometry

  // ---------------------------------------------------------------------------
  // Transform
  // ---------------------------------------------------------------------------

  /** A sprite's (or the camera's) pose in stage coordinates. */
  class Transform {
    var position: Point
    var scale: real
    var rotation: real

    /** A fresh transform is the identity: at the origin, scale 1, rotation 0. */
    constructor ()
      ensures position == Origin && scale == 1.0 && rotation == 0.0
    {
      position := Origin;
      scale := 1.0;
      rotation := 0.0;
    }

    /** `Transform.set`: read the sprite's on-screen pose back into stage coordinates. */
    method Set(sprite: Sprite)
      modifies this
      ensures position == StagePosition(sprite.RotationCenter(), StageViewOf(sprite.stage))
      ensures scale == sprite.scale && rotation == sprite.heading
    {
      position := StagePosition(sprite.RotationCenter(), StageViewOf(sprite.stage));
      scale := sprite.scale;
      rotation := sprite.heading;
    }
  }

  /** What the mapping reads of a stage, `None` when the sprite is not on one. */
  function StageViewOf(stage: Stage?): Option<StageView>
    reads stage
  {
    if stage == null then None else Some(StageView(stage.center, stage.scale))
  }

  /** The objects a camera's view is read from. */
  function CameraFrame(camera: Camera?): set<Transform> {
    if camera == null then {} else {camera.transform}
  }

  /** The camera as a set, empty when there is none (to frame its fields). */
  function CameraSet(camera: Camera?): set<Camera> {
    if camera == null then {} else {camera}
  }

  /** What the mapping reads of the camera, `None` when there is none. */
  function CameraViewOf(camera: Camera?): Option<CameraView>
    reads CameraFrame(camera)
  {
    if camera == null then None else Some(CameraView(camera.transform.position, camera.transform.scale))
  }

  // ---------------------------------------------------------------------------
  // Stage and its children
  // ---------------------------------------------------------------------------

  /** A child morph of the stage: a sprite, or anything else (skipped by every loop here). */
  datatype Child = SpriteChild(sprite: Sprite) | OtherMorph

  function Sprites(cs: seq<Child>): set<Sprite> {
    set c | c in cs && c.SpriteChild? :: c.sprite
  }

  function Transforms(cs: seq<Child>): set<Transform> {
    set c | c in cs && c.SpriteChild? :: c.sprite.transform
  }

  /** No sprite occurs twice among the children. */
  ghost predicate SpritesDistinct(cs: seq<Child>) {
    forall i, j :: 0 <= i < j < |cs| && cs[i].SpriteChild? && cs[j].SpriteChild? ==>
      cs[i].sprite != cs[j].sprite
  }

  /**
    No sprite, and no sprite's transform, occurs twice among the children:
    every sprite owns its stage transform, so writing one sprite's transform
    changes no other sprite.
  */
  ghost predicate OwnTransforms(cs: seq<Child>) {
    forall i, j :: 0 <= i < j < |cs| && cs[i].SpriteChild? && cs[j].SpriteChild? ==>
      cs[i].sprite != cs[j].sprite && cs[i].sprite.transform != cs[j].sprite.transform
  }

  class Stage {
    var center: Point
    var scale: real
    var children: seq<Child>

    constructor (center: Point, scale: real)
      ensures this.center == center && this.scale == scale && children == []
    {
      this.center := center;
      this.scale := scale;
      children := [];
    }

    /**
      `updateSpriteForCamera`, run once per frame: the camera is advanced one
      tick and every sprite child is re-projected through it; when the camera
      was going to move (or `force` is set) every sprite is marked dirty first.
    */
    method UpdateSpriteForCamera(camera: Camera?, force: bool, input: Option<PanInput>)
      requires camera != null ==> camera.Valid()
      requires SpritesDistinct(children)
      requires camera != null ==> camera.transform !in Transforms(children)
      modifies CameraSet(camera)`isPanning, CameraSet(camera)`panMouseStart, CameraSet(camera)`panCameraStart
      modifies CameraFrame(camera)`position, CameraFrame(camera)`scale
      modifies Sprites(children)`heading, Sprites(children)`scale, Sprites(children)`position
      modifies Sprites(children)`isUpdatingGlobalTransform, Sprites(children)`dirtyTransform
      ensures camera == null ==> forall c | c in children && c.SpriteChild? :: unchanged(c.sprite)
      ensures camera != null ==> camera.Valid() && camera.AfterFrame(old(camera.Snapshot()), input)
      ensures forall c | c in children && c.SpriteChild? :: unchanged(c.sprite.transform)
      ensures camera != null ==> forall c | c in children && c.SpriteChild? ::
        && c.sprite.isUpdatingGlobalTransform == old(c.sprite.isUpdatingGlobalTransform)
        && (c.sprite.isUpdatingGlobalTransform ==> c.sprite.PoseUnchanged(old(c.sprite.CurrentPose())))
        && (!c.sprite.isUpdatingGlobalTransform ==> c.sprite.Synced(camera))
        && c.sprite.dirtyTransform ==
             (old(c.sprite.dirtyTransform) || force || camera.MovedTarget(old(camera.Snapshot()), input))
    {
      if camera == null {
        return;
      }
      ghost var c0 := camera.Snapshot();
      var scale, center := camera.transform.scale, camera.transform.position;
      var newScale := camera.PreviewScale();
      var newCenter := camera.PreviewPosition(input);
      var forceDirty := force || newScale != Some(scale) || newCenter != center;
      assert forceDirty == (force || camera.MovedTarget(c0, input));
      SecondPollChangesNothing(c0, input);
      assert camera.Snapshot() == Polled(c0, input);
      camera.Update(input);
      RedrawSprites(camera, forceDirty);
    }

    /**
      The loop of `updateSpriteForCamera`: each sprite child is marked dirty
      when `forceDirty` is set and then re-projected through the camera.
      Other children are skipped.
    */
    method RedrawSprites(camera: Camera, forceDirty: bool)
      requires SpritesDistinct(children)
      modifies Sprites(children)`heading, Sprites(children)`scale, Sprites(children)`position
      modifies Sprites(children)`isUpdatingGlobalTransform, Sprites(children)`dirtyTransform
      ensures forall c | c in children && c.SpriteChild? :: unchanged(c.sprite.transform)
      ensures forall c | c in children && c.SpriteChild? ::
        && c.sprite.isUpdatingGlobalTransform == old(c.sprite.isUpdatingGlobalTransform)
        && (c.sprite.isUpdatingGlobalTransform ==> c.sprite.PoseUnchanged(old(c.sprite.CurrentPose())))
        && (!c.sprite.isUpdatingGlobalTransform ==> c.sprite.Synced(camera))
        && c.sprite.dirtyTransform == (old(c.sprite.dirtyTransform) || forceDirty)
    {
      var cs := children;
      var i := 0;
      while i < |cs|
        invariant 0 <= i <= |cs|
        invariant forall j | 0 <= j < |cs| && cs[j].SpriteChild? ::
          unchanged(cs[j].sprite.transform) && cs[j].sprite.isUpdatingGlobalTransform == old(cs[j].sprite.isUpdatingGlobalTransform)
        invariant forall j | i <= j < |cs| && cs[j].SpriteChild? ::
          cs[j].sprite.PoseUnchanged(old(cs[j].sprite.CurrentPose())) && cs[j].sprite.dirtyTransform == old(cs[j].sprite.dirtyTransform)
        invariant forall j | 0 <= j < i && cs[j].SpriteChild? ::
          && (cs[j].sprite.isUpdatingGlobalTransform ==> cs[j].sprite.PoseUnchanged(old(cs[j].sprite.CurrentPose())))
          && (!cs[j].sprite.isUpdatingGlobalTransform ==> cs[j].sprite.Synced(camera))
          && cs[j].sprite.dirtyTransform == (old(cs[j].sprite.dirtyTransform) || forceDirty)
      {
        if cs[i].SpriteChild? {
          var s := cs[i].sprite;
          assert s in Sprites(children);
          s.Redraw(camera, forceDirty);
        }
        i := i + 1;
      }
    }

    /**
      `mouseScroll`: while the user controls the camera and is not panning, a
      scroll multiplies the camera's zoom by `factor`, which stands for
      `Math.pow(1.1, y)`; otherwise nothing happens.
    */
    method MouseScroll(camera: Camera?, factor: real)
      requires 0.0 < factor
      modifies if camera == null then {} else {camera.transform}
      ensures camera != null && camera.IsUserControlling() && !camera.isPanning ==>
        camera.transform.scale == old(camera.transform.scale) * factor
      ensures camera != null ==> camera.transform.position == old(camera.transform.position)
      ensures camera != null ==> camera.transform.rotation == old(camera.transform.rotation)
      ensures camera != null && !(camera.IsUserControlling() && !camera.isPanning) ==> unchanged(camera.transform)
      ensures camera != null && 0.0 < old(camera.transform.scale) ==> 0.0 < camera.transform.scale
    {
      if camera == null || !camera.IsUserControlling() {
        return;
      }
      if camera.isPanning {
        return;
      }
      camera.transform.scale := camera.transform.scale * factor;
    }

    /**
      `mouseDownLeft`: while the user controls the camera a press starts a pan
      from the press position and the camera's current position, and `handled`
      is true; otherwise the host's own handler runs (`handled` is false).
    */
    method MouseDownLeft(camera: Camera?, pos: Point) returns (handled: bool)
      requires camera != null ==> camera.Valid()
      modifies CameraSet(camera)`isPanning, CameraSet(camera)`panMouseStart, CameraSet(camera)`panCameraStart
      ensures handled == (camera != null && old(camera.IsUserControlling()))
      ensures camera != null ==> camera.Valid() && camera.target == old(camera.target)
      ensures handled ==> camera.isPanning && camera.panMouseStart == Some(pos)
                          && camera.panCameraStart == Some(camera.transform.position)
      ensures camera != null && !handled ==> unchanged(camera)
    {
      if camera == null || !camera.IsUserControlling() {
        return false;
      }
      camera.isPanning := true;
      camera.panMouseStart := Some(pos);
      camera.panCameraStart := Some(camera.transform.position);
      return true;
    }
  }

  // ---------------------------------------------------------------------------
  // Sprite
  // ---------------------------------------------------------------------------

  /** The on-screen pose a sprite is drawn with (the host morph's own fields). */
  datatype Pose = Pose(position: Point, heading: real, scale: real)

  /**
    A Snap sprite with the fields the core reads: the host's on-screen pose
    (top-left `position`, `heading`, `scale`), its rotation offset, extent and
    costume, its stage (`parentThatIsA(StageMorph)`), the host attributes the
    level table reads and writes, and the fields Camera.ts adds: its stage
    `transform`, the re-entrancy guard and the dirty flag.
  */
  class Sprite {
    var position: Point
    var heading: real
    var scale: real
    var rotationOffset: Point
    var extent: Point
    var hasCostume: bool
    var stage: Stage?
    var name: string
    var isTemporary: bool
    var cloneOriginName: string
    var costumeIndex: real
    var shown: bool
    const transform: Transform
    var isUpdatingGlobalTransform: bool
    var dirtyTransform: bool

    /**
      The `init` hook: after the host has set the sprite up, its stage
      transform is read back from its on-screen pose and it is not dirty.
    */
    constructor (pose: Pose, rotationOffset: Point, extent: Point, hasCostume: bool, stage: Stage?, name: string)
      ensures CurrentPose() == pose && this.rotationOffset == rotationOffset && this.extent == extent
      ensures this.hasCostume == hasCostume && this.stage == stage && this.name == name
      ensures !isTemporary && cloneOriginName == "" && costumeIndex == 0.0 && shown
      ensures fresh(transform)
      ensures transform.position == StagePosition(RotationCenter(), StageViewOf(stage))
      ensures transform.scale == pose.scale && transform.rotation == pose.heading
      ensures !isUpdatingGlobalTransform && !dirtyTransform
    {
      position, heading, scale := pose.position, pose.heading, pose.scale;
      this.rotationOffset, this.extent, this.hasCostume := rotationOffset, extent, hasCostume;
      this.stage, this.name := stage, name;
      isTemporary, cloneOriginName, costumeIndex, shown := false, "", 0.0, true;
      transform := new Transform();
      isUpdatingGlobalTransform, dirtyTransform := false, false;
      new;
      transform.Set(this);
    }

    function CurrentPose(): Pose
      reads this
    {
      Pose(position, heading, scale)
    }

    predicate PoseUnchanged(p: Pose)
      reads this
    {
      CurrentPose() == p
    }

    /** The host's `rotationCenter()`: the top-left corner plus the rotation offset. */
    function RotationCenter(): Point
      reads this
    {
      position.Add(rotationOffset)
    }

    /** What `getGlobalPosition` subtracts: the rotation offset, or half the extent without a costume. */
    function Anchor(): Point
      reads this
    {
      if hasCostume then rotationOffset else extent.MultiplyBy(0.5)
    }

    /** `xPosition`, `yPosition`, `direction`, `getScale`: read from the stage transform. */
    function XPosition(): real
      reads transform
    {
      transform.position.x
    }

    function YPosition(): real
      reads transform
    {
      transform.position.y
    }

    function Direction(): real
      reads transform
    {
      transform.rotation
    }

    function GetScale(): real
      reads transform
    {
      transform.scale * 100.0
    }

    /** `getGlobalPosition(this)` for the given camera. */
    function ScreenPosition(camera: Camera?): Point
      reads this, transform, stage, CameraFrame(camera)
    {
      GlobalPosition(transform.position, CameraViewOf(camera), StageViewOf(stage), Anchor())
    }

    /** `getGlobalScale()` for the given camera. */
    function ScreenScale(camera: Camera?): real
      reads transform, CameraFrame(camera)
    {
      GlobalScale(transform.scale, CameraViewOf(camera))
    }

    /**
      The on-screen pose agrees with the stage transform seen through the
      camera: scale and position exactly, heading as the rotation or its
      normalised form (`getGlobalRotation` ignores the camera).
    */
    ghost predicate Synced(camera: Camera?)
      reads this, transform, stage, CameraFrame(camera)
    {
      && scale == ScreenScale(camera)
      && position == ScreenPosition(camera)
      && (heading == transform.rotation || heading == NormalizeHeading(transform.rotation))
    }

    // --- host setters, reached through `setGlobalHeading`, `setGlobalScale`, `setPosition`

    /** The host's original `setHeading`: stores the normalised heading. */
    method SetGlobalHeading(degrees: real)
      modifies this`heading
      ensures heading == NormalizeHeading(degrees)
    {
      heading := NormalizeHeading(degrees);
    }

    /** The host's original `setScale`: stores the percentage as a scale factor. */
    method SetGlobalScale(percent: real)
      modifies this`scale
      ensures scale == percent / 100.0
    {
      scale := percent / 100.0;
    }

    /**
      The host's `setPosition` with Camera.ts's `after` hook: the sprite is
      moved on screen and then `updateStageTransform` runs.
    */
    method SetPosition(p: Point)
      modifies this`position, if isUpdatingGlobalTransform then {} else {transform}
      ensures position == p
      ensures isUpdatingGlobalTransform ==> unchanged(transform)
      ensures !isUpdatingGlobalTransform ==>
        && transform.position == StagePosition(RotationCenter(), StageViewOf(stage))
        && transform.scale == scale && transform.rotation == heading
    {
      position := p;
      UpdateStageTransform();
    }

    // --- Camera.ts overrides

    /**
      `updateStageTransform`: the stage transform is re-read from the screen
      pose, except while `updateGlobalTransform` is running.
    */
    method UpdateStageTransform()
      modifies if isUpdatingGlobalTransform then {} else {transform}
      ensures isUpdatingGlobalTransform ==> unchanged(transform)
      ensures !isUpdatingGlobalTransform ==>
        && transform.position == StagePosition(RotationCenter(), StageViewOf(stage))
        && transform.scale == scale && transform.rotation == heading
    {
      if isUpdatingGlobalTransform {
        return;
      }
      transform.Set(this);
    }

    /**
      `updateGlobalTransform`: push the stage transform to the screen pose,
      writing heading and scale only when they differ. The position test
      compares the new point with the morph's `position` method rather than
      its value, so it never finds them equal and `setPosition` always runs
      (with the storing setter the end state is the same either way). It
      returns at once when the guard is already set; otherwise it sets the
      guard, so the `updateStageTransform` that `setPosition` triggers is
      ignored, and clears it at the end. The stage transform is never changed.
    */
    method UpdateGlobalTransform(camera: Camera?)
      modifies this`heading, this`scale, this`position, this`isUpdatingGlobalTransform
      ensures unchanged(transform)
      ensures isUpdatingGlobalTransform == old(isUpdatingGlobalTransform)
      ensures old(isUpdatingGlobalTransform) ==> PoseUnchanged(old(CurrentPose()))
      ensures !old(isUpdatingGlobalTransform) ==>
        && heading == (if old(heading) == transform.rotation then old(heading) else NormalizeHeading(transform.rotation))
        && scale == ScreenScale(camera)
        && position == ScreenPosition(camera)
      ensures !old(isUpdatingGlobalTransform) ==> Synced(camera)
    {
      if isUpdatingGlobalTransform {
        return;
      }
      isUpdatingGlobalTransform := true;
      var h := transform.rotation;
      if h != heading {
        SetGlobalHeading(h);
      }
      var s := GlobalScale(transform.scale, CameraViewOf(camera));
      if s != scale {
        SetGlobalScale(s * 100.0);
      }
      var p := GlobalPosition(transform.position, CameraViewOf(camera), StageViewOf(stage), Anchor());
      SetPosition(p);
      isUpdatingGlobalTransform := false;
    }

    /**
      One pass of `updateSpriteForCamera`'s loop over this sprite: marked
      dirty when `forceDirty` holds, then re-projected through the camera.
    */
    method Redraw(camera: Camera, forceDirty: bool)
      modifies this`heading, this`scale, this`position, this`isUpdatingGlobalTransform, this`dirtyTransform
      ensures unchanged(transform) && isUpdatingGlobalTransform == old(isUpdatingGlobalTransform)
      ensures isUpdatingGlobalTransform ==> PoseUnchanged(old(CurrentPose()))
      ensures !isUpdatingGlobalTransform ==> Synced(camera)
      ensures dirtyTransform == (old(dirtyTransform) || forceDirty)
    {
      if forceDirty {
        dirtyTransform := true;
      }
      UpdateGlobalTransform(camera);
    }

    /**
      `gotoXY`: the stage transform's position is set to (x, y) directly and
      pushed to the screen; afterwards `xPosition()` is x and `yPosition()` is y.
    */
    method GotoXY(x: real, y: real, camera: Camera?)
      modifies this`heading, this`scale, this`position, this`isUpdatingGlobalTransform, this`dirtyTransform, transform
      ensures XPosition() == x && YPosition() == y
      ensures transform.rotation == old(transform.rotation) && transform.scale == old(transform.scale)
      ensures dirtyTransform && isUpdatingGlobalTransform == old(isUpdatingGlobalTransform)
      ensures old(isUpdatingGlobalTransform) ==> PoseUnchanged(old(CurrentPose()))
      ensures !old(isUpdatingGlobalTransform) ==> Synced(camera)
    {
      transform.position := Point(x, y);
      dirtyTransform := true;
      UpdateGlobalTransform(camera);
    }

    /** `setHeading`: the stage rotation becomes the heading normalised to [0, 360). */
    method SetHeading(degrees: real)
      modifies transform`rotation, this`dirtyTransform
      ensures Direction() == NormalizeHeading(degrees) && 0.0 <= Direction() < 360.0
      ensures dirtyTransform
    {
      HeadingNormalized(degrees);
      transform.rotation := NormalizeHeading(degrees);
      dirtyTransform := true;
    }

    /** `turn`: clockwise by `degrees` from the stored rotation. */
    method Turn(degrees: real)
      modifies transform`rotation, this`dirtyTransform
      ensures Direction() == NormalizeHeading(old(Direction()) + degrees)
      ensures dirtyTransform
    {
      SetHeading(transform.rotation + degrees);
    }

    /** `turnLeft`: counter-clockwise by `degrees` from the stored rotation. */
    method TurnLeft(degrees: real)
      modifies transform`rotation, this`dirtyTransform
      ensures Direction() == NormalizeHeading(old(Direction()) - degrees)
      ensures dirtyTransform
    {
      SetHeading(transform.rotation - degrees);
    }

    /** `setScale`: the stage scale becomes `max(0, percent / 100)`; `getScale()` then reports `percent` when it is not negative. */
    method SetScale(percent: real)
      modifies transform`scale, this`dirtyTransform
      ensures transform.scale == StoredScale(percent)
      ensures 0.0 <= GetScale() && (0.0 <= percent ==> GetScale() == percent)
      ensures dirtyTransform
    {
      transform.scale := StoredScale(percent);
      dirtyTransform := true;
    }
  }

  /** A turn followed by the opposite turn restores a normalised direction. */
  lemma TurnThenTurnBack(r: real, d: real)
    requires 0.0 <= r < 360.0
    ensures NormalizeHeading(NormalizeHeading(r + d) - d) == r
  {
    var n := NormalizeHeading(r + d);
    HeadingNormalized(r + d);
    var k := ((n - (r + d)) / 360.0).Floor;
    assert n - d == r + 360.0 * (k as real);
    HeadingTurnInvariant(r, k);
    HeadingNormalIdentity(r);
  }

  /** Turning by a whole turn leaves the direction where it was. */
  lemma FullTurnIsIdentity(r: real)
    requires 0.0 <= r < 360.0
    ensures NormalizeHeading(r + 360.0) == r && NormalizeHeading(r - 360.0) == r
  {
    HeadingTurnInvariant(r, 1);
    HeadingTurnInvariant(r, -1);
    HeadingNormalIdentity(r);
  }

  // ---------------------------------------------------------------------------
  // Camera
  // ---------------------------------------------------------------------------

  /** Who holds the camera: no one (user control), the stage, or a sprite. */
  datatype Holder = Nobody | StageHolder | SpriteHolder(sprite: Sprite)

  /** The camera's `target`: its holder, and the transform the camera moves toward. */
  datatype CameraTarget = CameraTarget(holder: Holder, transform: Transform)

  /** The polled mouse and stage: button state, mouse position, stage scale. */
  datatype PanInput = PanInput(leftButton: bool, mouse: Point, stageScale: real)

  /** The pan sub-state: whether a drag is in progress and where it started. */
  datatype PanState = PanState(isPanning: bool, mouseStart: Option<Point>, cameraStart: Option<Point>)

  predicate PanValid(st: PanState) {
    st.isPanning ==> st.mouseStart.Some? && st.cameraStart.Some?
  }

  /**
    `updateUserCamera` on values: from the pan state, the camera position and
    zoom and the polled input, the new pan state and camera position.
    Divisions by a zero zoom or stage scale (Infinity in JavaScript) leave
    the position where it was.
  */
  function PanStep(st: PanState, position: Point, cameraScale: real, input: Option<PanInput>): (PanState, Point)
    requires PanValid(st)
  {
    if !st.isPanning || input.None? then (st, position)
    else if !input.value.leftButton then (PanState(false, None, None), position)
    else if cameraScale == 0.0 || input.value.stageScale == 0.0 then (st, position)
    else (st, PannedPosition(st.cameraStart.value, st.mouseStart.value, input.value.mouse, cameraScale, input.value.stageScale))
  }

  /**
    The pan sub-state machine: a valid state stays valid; without a drag in
    progress nothing moves; releasing the left button ends the drag where the
    camera is; polling twice with the same input is the same as polling once.
  */
  lemma PanStepProperties(st: PanState, position: Point, cameraScale: real, input: Option<PanInput>)
    requires PanValid(st)
    ensures PanValid(PanStep(st, position, cameraScale, input).0)
    ensures !st.isPanning ==> PanStep(st, position, cameraScale, input) == (st, position)
    ensures st.isPanning && input.Some? && !input.value.leftButton ==>
      PanStep(st, position, cameraScale, input) == (PanState(false, None, None), position)
    ensures var (st1, p1) := PanStep(st, position, cameraScale, input);
            PanStep(st1, p1, cameraScale, input) == (st1, p1)
  {
  }

  /**
    While dragging with the left button, the scene drawn through the panned
    camera has moved by exactly the mouse travel since the press.
  */
  lemma PanDragsScene(st: PanState, position: Point, cameraScale: real, input: PanInput,
                      q: Point, center: Point, anchor: Point)
    requires PanValid(st) && st.isPanning && input.leftButton
    requires cameraScale != 0.0 && input.stageScale != 0.0
    ensures var p1 := PanStep(st, position, cameraScale, Some(input)).1;
            var stage := Some(StageView(center, input.stageScale));
            GlobalPosition(q, Some(CameraView(p1, cameraScale)), stage, anchor)
            == GlobalPosition(q, Some(CameraView(st.cameraStart.value, cameraScale)), stage, anchor)
                 .Add(input.mouse.Sub(st.mouseStart.value))
  {
    PanFollowsMouse(q, st.cameraStart.value, st.mouseStart.value, input.mouse, cameraScale,
                    StageView(center, input.stageScale), anchor);
  }

  /**
    `previewScale` on values: the target's own scale under user control,
    otherwise 100 divided by the followed transform's scale (`None` for the
    division by zero, which is Infinity in JavaScript).
  */
  function PreviewScaleOf(userControlling: bool, targetScale: real): Option<real> {
    if userControlling then Some(targetScale)
    else if targetScale == 0.0 then None
    else Some(100.0 / targetScale)
  }

  /** A positive target scale gives a positive preview scale in both modes. */
  lemma PreviewScalePositive(userControlling: bool, targetScale: real)
    requires 0.0 < targetScale
    ensures PreviewScaleOf(userControlling, targetScale).Some?
    ensures 0.0 < PreviewScaleOf(userControlling, targetScale).value
    ensures !userControlling ==> PreviewScaleOf(userControlling, targetScale).value * targetScale == 100.0
  {
  }

  /** What a camera tick starts from: the values `update` reads. */
  datatype CameraSnapshot = CameraSnapshot(
    userControlling: bool, targetIsOwn: bool, targetPosition: Point, targetScale: real,
    pan: PanState, position: Point, scale: real, snap: real)

  /**
    The position a tick moves toward (what `previewPosition()` returns): the
    pan result when the target is the camera's own transform under user
    control, otherwise the target transform's position.
  */
  function GoalOf(c: CameraSnapshot, input: Option<PanInput>): Point
    requires PanValid(c.pan)
  {
    if c.userControlling && c.targetIsOwn then PanStep(c.pan, c.position, c.scale, input).1
    else c.targetPosition
  }

  /** The camera's position after `previewPosition()` has polled the pan. */
  function PannedOf(c: CameraSnapshot, input: Option<PanInput>): Point
    requires PanValid(c.pan)
  {
    if c.userControlling then PanStep(c.pan, c.position, c.scale, input).1 else c.position
  }

  /** The camera's pan state after `previewPosition()` has polled the pan. */
  function PanAfter(c: CameraSnapshot, input: Option<PanInput>): PanState
    requires PanValid(c.pan)
  {
    if c.userControlling then PanStep(c.pan, c.position, c.scale, input).0 else c.pan
  }

  /** The camera's zoom after one tick. */
  function ScaleAfter(c: CameraSnapshot): real {
    match PreviewScaleOf(c.userControlling, c.targetScale)
    case None => c.scale
    case Some(ps) => Lerp(c.scale, ps, Rate(c.snap), Some(0.01))
  }

  /**
    At snap 100 one tick lands exactly on the preview; a user-controlled
    camera whose target is its own transform and that is not panning stays
    where it is.
  */
  lemma TickLandsOrHolds(c: CameraSnapshot, input: Option<PanInput>)
    requires PanValid(c.pan)
    ensures c.snap == 100.0 ==>
      PointLerp(c.position, GoalOf(c, input), Rate(c.snap), Some(1.0)) == GoalOf(c, input)
    ensures c.snap == 100.0 && PreviewScaleOf(c.userControlling, c.targetScale).Some? ==>
      ScaleAfter(c) == PreviewScaleOf(c.userControlling, c.targetScale).value
    ensures c.userControlling && c.targetIsOwn && c.targetScale == c.scale && !c.pan.isPanning ==>
      PointLerp(c.position, GoalOf(c, input), Rate(c.snap), Some(1.0)) == c.position && ScaleAfter(c) == c.scale
  {
    RateBounds(100.0);
    PointLerpFixedPoints(c.position, GoalOf(c, input), Rate(c.snap), Some(1.0));
    if PreviewScaleOf(c.userControlling, c.targetScale).Some? {
      LerpFixedPoints(c.scale, PreviewScaleOf(c.userControlling, c.targetScale).value, Rate(c.snap), Some(0.01));
    }
  }

  /** For a snap in [0, 100], positive zoom and positive target scale, the zoom stays positive. */
  lemma TickKeepsZoomPositive(c: CameraSnapshot)
    requires 0.0 <= c.snap <= 100.0 && 0.0 < c.scale && 0.0 < c.targetScale
    ensures 0.0 < ScaleAfter(c)
  {
    RateBounds(c.snap);
    PreviewScalePositive(c.userControlling, c.targetScale);
    LerpPositive(c.scale, PreviewScaleOf(c.userControlling, c.targetScale).value, Rate(c.snap), Some(0.01));
  }

  /** The snapshot after `previewPosition()` has polled the pan (scale and target unchanged). */
  function Polled(c: CameraSnapshot, input: Option<PanInput>): CameraSnapshot
    requires PanValid(c.pan)
  {
    c.(targetPosition := if c.targetIsOwn then PannedOf(c, input) else c.targetPosition,
       pan := PanAfter(c, input), position := PannedOf(c, input))
  }

  /**
    `updateSpriteForCamera` polls the pan twice (once through
    `previewPosition()`, once inside `update()`); the second poll finds the
    pan already applied, so the tick moves toward the same goal and ends in
    the same pan state as a single poll.
  */
  lemma SecondPollChangesNothing(c: CameraSnapshot, input: Option<PanInput>)
    requires PanValid(c.pan)
    requires c.targetIsOwn ==> c.targetPosition == c.position && c.targetScale == c.scale
    ensures PanValid(Polled(c, input).pan)
    ensures GoalOf(Polled(c, input), input) == GoalOf(c, input)
    ensures PannedOf(Polled(c, input), input) == PannedOf(c, input)
    ensures PanAfter(Polled(c, input), input) == PanAfter(c, input)
    ensures ScaleAfter(Polled(c, input)) == ScaleAfter(c)
  {
    PanStepProperties(c.pan, c.position, c.scale, input);
  }

  class Camera {
    var target: CameraTarget
    const transform: Transform
    var snap: real
    var isPanning: bool
    var panMouseStart: Option<Point>
    var panCameraStart: Option<Point>

    /** A pan in progress always knows where it started. */
    ghost predicate Valid()
      reads this
    {
      PanValid(Pan()) && 0.0 <= snap <= 100.0
    }

    /**
      A new camera, with its own identity transform and snap 100. Its holder
      is `Snap.stage` as read at construction: the stage, or no one
      (user control) when that global is not yet set (`stageSet`).
    */
    constructor (stageSet: bool)
      ensures Valid() && fresh(target.transform) && fresh(transform) && target.transform != transform
      ensures target.holder == (if stageSet then StageHolder else Nobody)
      ensures target.transform.position == Origin && target.transform.scale == 1.0 && target.transform.rotation == 0.0
      ensures transform.position == Origin && transform.scale == 1.0 && transform.rotation == 0.0
      ensures snap == 100.0 && !isPanning
    {
      var t := new Transform();
      target := CameraTarget(if stageSet then StageHolder else Nobody, t);
      transform := new Transform();
      snap := 100.0;
      isPanning := false;
      panMouseStart, panCameraStart := None, None;
    }

    function Pan(): PanState
      reads this
    {
      PanState(isPanning, panMouseStart, panCameraStart)
    }

    /** `isUserControlling`: nobody holds the camera. */
    predicate IsUserControlling()
      reads this
    {
      target.holder.Nobody?
    }

    /** `Camera.isHoldingCamera(sprite)`: false without a camera, else whether `sprite` holds it. */
    static predicate IsHoldingCamera(camera: Camera?, sprite: Sprite)
      reads camera
    {
      camera != null && camera.target.holder == SpriteHolder(sprite)
    }

    /** The values a tick reads, gathered (used to state what a tick does). */
    function Snapshot(): CameraSnapshot
      reads this, transform, target.transform
    {
      CameraSnapshot(IsUserControlling(), target.transform == transform, target.transform.position,
                     target.transform.scale, Pan(), transform.position, transform.scale, snap)
    }

    /** The state after one tick (one `update()`) from snapshot `c`. */
    ghost predicate AfterTick(c: CameraSnapshot, input: Option<PanInput>)
      reads this, transform
      requires PanValid(c.pan)
    {
      && transform.position == PointLerp(c.position, GoalOf(c, input), Rate(c.snap), Some(1.0))
      && transform.scale == ScaleAfter(c)
      && Pan() == PanAfter(c, input)
    }

    /**
      The state after a frame (`previewPosition()` then `update()`): the pan
      is polled first, so the tick starts from the panned position.
    */
    ghost predicate AfterFrame(c: CameraSnapshot, input: Option<PanInput>)
      reads this, transform
      requires PanValid(c.pan)
    {
      && transform.position == PointLerp(PannedOf(c, input), GoalOf(c, input), Rate(c.snap), Some(1.0))
      && transform.scale == ScaleAfter(c)
      && Pan() == PanAfter(c, input)
    }

    /** Whether a frame from snapshot `c` was going to move the camera (`forceDirty`). */
    ghost predicate MovedTarget(c: CameraSnapshot, input: Option<PanInput>)
      requires PanValid(c.pan)
    {
      PreviewScaleOf(c.userControlling, c.targetScale) != Some(c.scale) || GoalOf(c, input) != c.position
    }

    /** `startUserControl`: nobody holds the camera and its target is the camera's own transform. */
    method StartUserControl()
      modifies this`target
      ensures target == CameraTarget(Nobody, transform)
      ensures IsUserControlling()
    {
      target := CameraTarget(Nobody, transform);
    }

    /**
      `setTarget`: a sprite holds the camera through its own live transform;
      the stage, or no one, with a fresh identity transform. `setTarget(null)`
      therefore leaves the camera user-controlled.
    */
    method SetTarget(holder: Holder)
      modifies this`target
      ensures target.holder == holder
      ensures IsUserControlling() <==> holder == Nobody
      ensures holder.SpriteHolder? ==> target.transform == holder.sprite.transform && IsHoldingCamera(this, holder.sprite)
      ensures !holder.SpriteHolder? ==>
        fresh(target.transform) && target.transform.position == Origin
        && target.transform.scale == 1.0 && target.transform.rotation == 0.0
    {
      if holder.SpriteHolder? {
        target := CameraTarget(holder, holder.sprite.transform);
      } else {
        var t := new Transform();
        target := CameraTarget(holder, t);
      }
    }

    /**
      `updateUserCamera`: polls the mouse while a pan is in progress; a
      released left button ends the pan, a held one moves the camera by the
      mouse travel. Nothing else changes.
    */
    method UpdateUserCamera(input: Option<PanInput>)
      requires Valid()
      modifies this`isPanning, this`panMouseStart, this`panCameraStart, transform`position
      ensures Valid()
      ensures (Pan(), transform.position) == old(PanStep(Pan(), transform.position, transform.scale, input))
    {
      if !isPanning {
        return;
      }
      if input.None? {
        return;
      }
      if !input.value.leftButton {
        isPanning := false;
        panCameraStart := None;
        panMouseStart := None;
        return;
      }
      if transform.scale == 0.0 || input.value.stageScale == 0.0 {
        return;
      }
      transform.position := PannedPosition(panCameraStart.value, panMouseStart.value, input.value.mouse,
                                           transform.scale, input.value.stageScale);
    }

    /** `previewPosition`: polls the pan under user control, then answers the target's position. */
    method PreviewPosition(input: Option<PanInput>) returns (p: Point)
      requires Valid()
      modifies this`isPanning, this`panMouseStart, this`panCameraStart, transform`position
      ensures Valid()
      ensures p == GoalOf(old(Snapshot()), input)
      ensures transform.position == PannedOf(old(Snapshot()), input)
      ensures Pan() == PanAfter(old(Snapshot()), input)
    {
      if IsUserControlling() {
        UpdateUserCamera(input);
      }
      p := target.transform.position;
    }

    /** `previewScale`: the scale a tick moves toward (`None` for JavaScript's Infinity). */
    function PreviewScale(): Option<real>
      reads this, target.transform
    {
      PreviewScaleOf(IsUserControlling(), target.transform.scale)
    }

    /**
      `update`: one tick. The position moves toward `previewPosition()` at
      `Rate(snap)` with threshold 1, from the position read before the pan
      is polled; the zoom moves toward `previewScale()` with threshold 0.01.
    */
    method Update(input: Option<PanInput>)
      requires Valid()
      modifies this`isPanning, this`panMouseStart, this`panCameraStart, transform`position, transform`scale
      ensures Valid()
      ensures AfterTick(old(Snapshot()), input)
      ensures old(snap) == 100.0 ==> transform.position == GoalOf(old(Snapshot()), input)
      ensures old(snap) == 100.0 && old(PreviewScale()).Some? ==> transform.scale == old(PreviewScale()).value
      ensures old(IsUserControlling() && target.transform == transform && !isPanning) ==>
        transform.position == old(transform.position) && transform.scale == old(transform.scale)
      ensures 0.0 < old(transform.scale) && 0.0 < old(target.transform.scale) ==> 0.0 < transform.scale
    {
      ghost var c := Snapshot();
      TickLandsOrHolds(c, input);
      if 0.0 < c.scale && 0.0 < c.targetScale {
        TickKeepsZoomPositive(c);
      }
      var rate := Rate(snap);
      var from := transform.position;
      var goal := PreviewPosition(input);
      transform.position := PointLerp(from, goal, rate, Some(1.0));
      var s := transform.scale;
      var ps := PreviewScale();
      if ps.Some? {
        transform.scale := Lerp(s, ps.value, rate, Some(0.01));
      }
    }
  }

  /** The `set camera snap to` block: clamps the value into [0, 100]; no camera, no effect. */
  method SetCameraSnap(camera: Camera?, value: real)
    modifies camera
    ensures camera != null ==> camera.snap == ClampSnap(value) && 0.0 <= camera.snap <= 100.0
    ensures camera != null ==> camera.target == old(camera.target) && camera.Pan() == old(camera.Pan())
    ensures camera != null && old(camera.Valid()) ==> camera.Valid()
    ensures camera != null ==> GetCameraSnap(camera) == ClampSnap(value)
  {
    if camera == null {
      return;
    }
    camera.snap := ClampSnap(value);
  }

  /** The `camera snap` reporter: the camera's snap, or 1 without a camera. */
  function GetCameraSnap(camera: Camera?): (r: real)
    reads camera
    ensures camera == null ==> r == 1.0
    ensures camera != null ==> r == camera.snap
    ensures camera != null && camera.Valid() ==> 0.0 <= r <= 100.0
  {
    if camera == null then 1.0 else camera.snap
  }
}
