# snap-games camera and level table, in Dafny

This project models the camera layer of the snap-games Snap! extension
(`src/Camera.ts`) and its level save/load table (`src/level.ts`).

In the camera layer every sprite keeps a *stage transform*: a position,
scale and rotation in a Y-up stage frame. That transform is the source of
truth. Each frame, a camera that follows a sprite, the stage or the user
maps it to the host's on-screen pose. Two directions keep the two in step:

- `updateGlobalTransform` pushes the stage transform to the screen.
- `updateStageTransform` reads the screen pose back.

A re-entrancy flag stops the push from triggering the read-back. The level
table saves one row of attributes per sprite under a header. Loading it
writes the cells back through the sprites' setters and re-creates clones.

Modules and files:

- `wrappers.dfy` (`Wrappers`): `Option`.
- `geometry.dfy` (`Geometry`): the pure arithmetic. This covers `lerp` and
  `Point.lerp`, the catch-up rate, the snap clamp, `setScale`'s stored
  scale, and heading normalisation with JavaScript's truncating `%`
  (`JsRem`). It also covers the stage→screen mapping of `getGlobalPosition`
  and `getGlobalScale`, the screen→stage read-back of `Transform.set`, and
  the pan formula. Each comes with lemmas about its meaning.
- `camera.dfy` (`StageModel`): the classes `Transform`, `Sprite`, `Stage`
  and `Camera`. Their methods update fields in place, as the source does.
  - The camera's tick is stated against `CameraSnapshot`, a value holding
    what a tick reads, and the pure `PanStep`, `GoalOf` and `ScaleAfter`.
  - A sprite's projection is stated by `Synced`: its on-screen pose equals
    the stage transform seen through the camera.
- `level.dfy` (`Levels`): the table format and the value-level specification
  of saving and loading, over a `Scene` (the stage's children as sprite
  records or other morphs).
- `level_blocks.dfy` (`LevelBlocks`): the `saveLevel` and `loadLevel` block
  actions over the live stage. They are proved against `Levels` through
  `Depicts`, which says that the stage's children are a given scene.

Snap's globals become parameters:

- `Camera.getCamera()` is a `Camera?` that is `null` without an IDE.
- `Snap.world.hand` with `Snap.IDE.stage` is an `Option<PanInput>`: left
  button, mouse position and stage scale.
- `Snap.IDE` for `saveLevel` is a `Stage?`.
- `Snap.stage` at camera construction is the flag `stageSet`.

The host setters the overrides fall back on (`setGlobalHeading`,
`setGlobalScale`, `setPosition`) are modelled as storing their argument: the
heading normalised and the percentage divided by 100.

The model follows the code, including where its behaviour looks unintended:

- `update()` does not interpolate rotation, and there are no axis locks.
- `getGlobalRotation` ignores the camera.
- A scroll multiplies the zoom by `1.1^y` (an opaque positive factor here),
  not `1.1^-y`.
- Dragging the mouse 20 units left moves the camera 20 stage units right
  (`Geometry.PanExample`), because the offset is start minus mouse.
- `previewScale` returns `100 / scale` when the camera is not user-controlled.
  Its first branch tests `this.target instanceof StageMorph`. `target` is a
  plain record, so that branch never fires, and the model leaves it out.
- `updateGlobalTransform` compares the new screen position with
  `this.position`, which is the morph's `position` method, not a point; the
  test never holds, so `setPosition` always runs. The model calls it
  unconditionally; with the storing setter the end state is the same.
- `setTarget(null)` leaves no holder, so the camera is user-controlled
  afterwards. Its target is then a fresh identity transform rather than
  the camera's own.
- `Transform.set` undoes neither the camera nor the stage scale: it gives
  the offset from the camera scaled by the product of the two zooms
  (`Geometry.SetAfterGlobalIsScaling`). For a sprite with a costume (whose
  anchor is its rotation offset) it therefore inverts `getGlobalPosition`
  when the camera sits at the stage origin and the camera and stage zooms
  multiply to 1, in particular for a camera at rest on a stage of scale 1
  (`Geometry.SetInvertsGlobalIf`, `Geometry.SetInvertsGlobalAtRest`), and
  not in general (`Geometry.SetIgnoresZoom`). That is why the re-entrancy
  guard matters.

## Model

| member | source | states |
|---|---|---|
| Geometry.Lerp | src/Camera.ts:117-120 | `lerp`: the target itself when a threshold is given and the two values are closer than it, otherwise `a * (1 - p) + b * p`; an omitted threshold is `None` |
| Geometry.PointLerp | src/Camera.ts:122-127 | `Point.lerp`: `Lerp` on x and on y with the same rate and threshold |
| Geometry.Rate | src/Camera.ts:104 | the tick rate `0.05 + 0.95 * (snap / 100)^4` |
| Geometry.JsRem | src/Camera.ts:272 | JavaScript's `%` on numbers: the remainder of a quotient truncated toward zero, with the sign of the dividend |
| Geometry.NormalizeHeading | src/Camera.ts:271-272 | `setHeading`'s stored rotation `((d % 360) + 360) % 360` with JavaScript's `%` |
| Geometry.GlobalScale | src/Camera.ts:164-169 | `getGlobalScale`: the transform's scale, times the camera zoom when there is a camera |
| Geometry.GlobalScaleProperties | src/Camera.ts:164-169 | without a camera, or under a zoom of 1, the drawn scale is the stage scale; a positive scale under a positive zoom is drawn positive |
| Geometry.GlobalPosition | src/Camera.ts:171-187 | `getGlobalPosition`: the position itself without a stage; otherwise the offset from the camera times its zoom (when there is a camera), times the stage scale, placed around the stage centre with Y flipped, minus the sprite's anchor |
| Geometry.StagePosition | src/Camera.ts:135-144 | `Transform.set`'s position: the rotation centre relative to the stage centre (when there is a stage), with Y flipped |
| Geometry.PannedPosition | src/Camera.ts:86-90 | the dragged camera position: the pan start plus the press point minus the mouse, divided by the camera zoom and the stage scale, with Y flipped |
| Geometry.LerpCases | src/Camera.ts:117-120 | within the threshold `lerp` is exactly the target, outside it is `a + (b - a) * p` |
| Geometry.LerpFixedPoints | src/Camera.ts:117-120 | rate 1 reaches the target; a value already at its target stays |
| Geometry.LerpBetween | src/Camera.ts:117-120 | for a rate in [0, 1] the result lies between the two inputs |
| Geometry.LerpConverges | src/Camera.ts:117-120 | a step never moves away from the target; outside the threshold it removes exactly the fraction `p` of the distance |
| Geometry.LerpPositive | src/Camera.ts:117-120 | a blend of two positive values is positive |
| Geometry.PointLerpFixedPoints | src/Camera.ts:122-127 | `Point.lerp` at rate 1 returns the target; a point at its target stays |
| Geometry.RateBounds | src/Camera.ts:103-104 | for a snap in [0, 100] the tick rate lies in [0.05, 1], and it is 1 exactly at snap 100 |
| Geometry.RateMonotone | src/Camera.ts:103-104 | a higher snap never gives a slower rate |
| Geometry.ClampSnap | src/Camera.ts:398-404 | the snap block's value is in [0, 100]: unchanged inside, 0 below, 100 above |
| Geometry.StoredScale | src/Camera.ts:297-303 | `setScale`'s stored scale is never negative, is 0 for a negative percentage, and is the percentage over 100 otherwise |
| Geometry.JsRemBounds | src/Camera.ts:271-273 | JavaScript's `% 360` keeps the sign of its operand, stays within one turn of 0, and removes whole turns only |
| Geometry.HeadingNormalized | src/Camera.ts:271-273 | the stored heading lies in [0, 360) and differs from the request by whole turns |
| Geometry.HeadingNormalIdentity | src/Camera.ts:271-273 | a heading already in [0, 360) is stored unchanged |
| Geometry.HeadingTurnInvariant | src/Camera.ts:271-273 | adding whole turns to the request does not change the stored heading |
| Geometry.ScreenToStageUndoesX | src/Camera.ts:171-187 | the independent inverse of the screen mapping recovers the stage x |
| Geometry.ScreenToStageUndoesY | src/Camera.ts:171-187 | the independent inverse of the screen mapping recovers the stage y |
| Geometry.ScreenToStageUndoes | src/Camera.ts:171-187 | stage → screen → stage is the identity for non-zero camera and stage scales |
| Geometry.GlobalPositionUndoesX | src/Camera.ts:171-187 | the on-screen x of the stage point recovered from a screen point is that screen point's x |
| Geometry.GlobalPositionUndoesY | src/Camera.ts:171-187 | the on-screen y of the stage point recovered from a screen point is that screen point's y |
| Geometry.GlobalPositionUndoes | src/Camera.ts:171-187 | screen → stage → screen is the identity for non-zero camera and stage scales |
| Geometry.GlobalPositionInverse | src/Camera.ts:171-187 | `getGlobalPosition` is a bijection, with both round trips |
| Geometry.SetInvertsGlobalAtRest | src/Camera.ts:135-144 | `Transform.set` undoes `getGlobalPosition` when the camera is absent or at rest and the stage scale is 1 |
| Geometry.SetAfterGlobalIsScaling | src/Camera.ts:135-144 | `Transform.set` applied to where `getGlobalPosition` drew a point gives that point's offset from the camera scaled by the product of the camera and stage zooms |
| Geometry.SetInvertsGlobalIf | src/Camera.ts:135-144 | a camera at the origin whose zoom times the stage's is 1 lets `Transform.set` undo `getGlobalPosition` |
| Geometry.SetIgnoresZoom | src/Camera.ts:171-187 | with a camera zoomed by 2, `Transform.set` does not undo `getGlobalPosition` |
| Geometry.StageToScreenExample | src/Camera.ts:171-187 | stage (100, 0) on a centre (240, 180) of scale 1, with the camera at rest, is drawn at (340, 180) minus the anchor |
| Geometry.PanFollowsMouse | src/Camera.ts:86-90 | through the panned camera every stage point is drawn moved by exactly the mouse travel since the press |
| Geometry.PanExample | src/Camera.ts:86-90 | start (0, 0), press at (100, 100), mouse at (80, 100), scales 1: the camera moves to (20, 0) |
| StageModel.Sprite.XPosition | src/Camera.ts:247-252 | `xPosition`: the stage transform's x |
| StageModel.Sprite.YPosition | src/Camera.ts:254-259 | `yPosition`: the stage transform's y |
| StageModel.Sprite.Direction | src/Camera.ts:288-293 | `direction`: the stage transform's rotation |
| StageModel.Sprite.GetScale | src/Camera.ts:305-311 | `getScale`: the stage transform's scale as a percentage (times 100) |
| StageModel.PanStep | src/Camera.ts:74-91 | `updateUserCamera` on values: nothing when not panning or without a hand and stage; the pan cleared with the position kept when the left button is up; otherwise the position becomes `PannedPosition` of the press and the mouse |
| StageModel.PreviewScaleOf | src/Camera.ts:93-101 | `previewScale` on values: the target's scale under user control, otherwise 100 over it (`None` for a zero scale) |
| StageModel.Camera.IsUserControlling | src/Camera.ts:56-58 | `isUserControlling`: the camera's target has no sprite |
| StageModel.Camera.IsHoldingCamera | src/Camera.ts:50-54 | `Camera.isHoldingCamera`: false without a camera, otherwise whether the camera's target is that very sprite |
| StageModel.Camera.PreviewScale | src/Camera.ts:93-101 | `previewScale()` of this camera: `PreviewScaleOf` of its user control and its target's scale |
| StageModel.Transform.constructor | src/Camera.ts:130-133 | a new transform is at the origin with scale 1 and rotation 0 |
| StageModel.Transform.Set | src/Camera.ts:135-144 | position is the sprite's rotation centre relative to the stage centre with Y flipped; scale and rotation are the sprite's |
| StageModel.Stage.UpdateSpriteForCamera | src/Camera.ts:326-339 | without a camera nothing changes; otherwise the camera ends one frame on (`AfterFrame`) and every unguarded sprite child is `Synced` with it. Sprite transforms are untouched, and every sprite is marked dirty when `force` is set or the camera was going to move. Its frame lets only the camera's pan fields, position and zoom and the sprites' on-screen pose, guard and dirty flag change |
| StageModel.Stage.RedrawSprites | src/Camera.ts:332-338 | each sprite child is marked dirty when `forceDirty` holds and is re-projected; guarded ones keep their pose; its frame lets only the sprites' on-screen pose, guard and dirty flag change, so no transform changes |
| StageModel.Sprite.Redraw | src/Camera.ts:333-337 | one pass of the loop: the sprite is dirty afterwards exactly when it was before or `forceDirty` holds, and it is re-projected unless guarded; its stage transform is outside the frame |
| StageModel.Stage.MouseScroll | src/Camera.ts:345-350 | under user control and not panning, the zoom is multiplied by the factor, so a positive zoom stays positive; otherwise nothing changes; position and rotation never change |
| StageModel.Stage.MouseDownLeft | src/Camera.ts:352-362 | the press is handled exactly when the user controls the camera; then a pan starts from the press and the current camera position; otherwise the camera is unchanged. Its frame holds only the three pan fields |
| StageModel.Sprite.constructor | src/Camera.ts:212-215 | after `init` the stage transform is read back from the on-screen pose and the sprite is not dirty |
| StageModel.Sprite.SetGlobalHeading | src/Camera.ts:269 | the host heading setter stores the normalised heading |
| StageModel.Sprite.SetGlobalScale | src/Camera.ts:295 | the host scale setter stores the percentage over 100 |
| StageModel.Sprite.SetPosition | src/Camera.ts:217-219 | the sprite moves, then the stage transform is re-read unless the guard is set, in which case it is untouched |
| StageModel.Sprite.UpdateStageTransform | src/Camera.ts:206-210 | while the guard is set the transform is untouched; otherwise it is read back from the screen pose |
| StageModel.Sprite.UpdateGlobalTransform | src/Camera.ts:190-204 | the stage transform never changes and the guard ends as it began. With the guard already set nothing moves; otherwise the heading is written only when it differs, and scale and position become the camera-mapped values (`Synced`) |
| StageModel.Sprite.GotoXY | src/Camera.ts:235-259 | afterwards `xPosition()` is x and `yPosition()` is y (the nested read-back does not clobber them); rotation and scale are kept; the sprite is dirty and synced |
| StageModel.Sprite.SetHeading | src/Camera.ts:271-278 | `direction()` becomes the normalised heading, in [0, 360); the sprite is dirty |
| StageModel.Sprite.Turn | src/Camera.ts:280-282 | the direction becomes the normalised old direction plus `degrees` |
| StageModel.Sprite.TurnLeft | src/Camera.ts:284-286 | the direction becomes the normalised old direction minus `degrees` |
| StageModel.Sprite.SetScale | src/Camera.ts:297-311 | the stored scale is `max(0, s / 100)`; `getScale()` is then never negative and equals `s` for `s >= 0` |
| StageModel.TurnThenTurnBack | src/Camera.ts:280-286 | `turn(d)` followed by `turnLeft(d)` restores a normalised direction |
| StageModel.FullTurnIsIdentity | src/Camera.ts:271-286 | turning by a full turn either way leaves the direction unchanged |
| StageModel.PanStepProperties | src/Camera.ts:74-91 | the pan poll keeps the pan state valid, does nothing when not panning, ends the pan in place when the left button is up, and gives the same result when repeated |
| StageModel.PanDragsScene | src/Camera.ts:74-91 | while the left button is held the scene drawn through the camera has moved by the mouse travel since the press |
| StageModel.PreviewScalePositive | src/Camera.ts:93-101 | a positive target scale gives a positive preview scale; when following, preview times the target's scale is 100 |
| StageModel.TickLandsOrHolds | src/Camera.ts:103-107 | at snap 100 one tick lands on the preview position and scale; a user-controlled camera targeting itself and not panning stays put |
| StageModel.TickKeepsZoomPositive | src/Camera.ts:103-107 | for a snap in [0, 100] a positive zoom toward a positive target stays positive |
| StageModel.SecondPollChangesNothing | src/Camera.ts:326-331 | the second pan poll inside `update()` finds the pan already applied, so the goal, the pan state and the new zoom are those of a single poll |
| StageModel.Camera.constructor | src/Camera.ts:36-43 | a new camera is held by `Snap.stage` (no one when that is unset), with its own and its target's identity transforms, snap 100 and no pan |
| StageModel.Camera.StartUserControl | src/Camera.ts:60-65 | afterwards the user controls the camera and the target transform is the camera's own transform |
| StageModel.Camera.SetTarget | src/Camera.ts:109-114 | a sprite holds the camera through its own transform (`isHoldingCamera` true, user control false); the stage or no one gets a fresh identity transform; user control holds exactly for no one |
| StageModel.Camera.UpdateUserCamera | src/Camera.ts:74-91 | the pan state and camera position become those of `PanStep`: no-op when not panning or without input, release clears the pan, a held button moves by the mouse travel |
| StageModel.Camera.PreviewPosition | src/Camera.ts:67-72 | under user control the pan is polled first; the answer is the target's position after that |
| StageModel.Camera.Update | src/Camera.ts:103-107 | position lerps at `Rate(snap)` with threshold 1 from the pre-poll position toward the goal; zoom lerps toward `previewScale()` with threshold 0.01; at snap 100 both land exactly; a self-targeting, user-controlled, idle camera does not move; a positive zoom toward a positive target stays positive |
| StageModel.SetCameraSnap | src/Camera.ts:398-404 | the snap becomes the clamped value in [0, 100], so the reporter then answers `ClampSnap(value)`; no camera, no effect; target and pan state unchanged and a valid camera stays valid |
| StageModel.GetCameraSnap | src/Camera.ts:406-412 | without a camera the reporter answers 1; with one it answers the camera's snap, which lies in [0, 100] for a valid camera |
| Levels.Header | src/level.ts:81-84 | the header row: the eight slots' names in `getAttributes` order |
| Levels.Get | src/level.ts:20-64 | each slot's getter: origin name for a clone else the name, x, y, rotation, scale times 100, costume number, shown flag, temporary flag |
| Levels.SaveRow | src/level.ts:91-92 | a sprite's row: one getter value per slot, in order |
| Levels.SpriteRows | src/level.ts:88-94 | the rows of the sprite children in stage order, skipping other morphs |
| Levels.SaveLevelSpec | src/level.ts:80-96 | the saved table: the header followed by `SpriteRows` |
| Levels.RemoveClones | src/level.ts:106 | `removeAllClones`: the scene with its temporary sprites dropped, the rest in order |
| Levels.FindByName | src/level.ts:119-121 | the first sprite child with the name, as a position |
| Levels.CloneOf | src/level.ts:126-128 | a clone's record: the original's, marked temporary, with the original's name as origin |
| Levels.WriteRow | src/level.ts:130-135 | the given slots written in order, each through its setter when it has one and the row has a cell under its column |
| Levels.ApplyRow | src/level.ts:110-136 | one data row: skipped without a text name or a sprite of that name; otherwise written into that sprite, or into a clone of it appended to the stage when the `is clone` cell is truthy |
| Levels.LoadRows | src/level.ts:110-136 | the data rows applied one after the other, in order |
| Levels.LoadLevelSpec | src/level.ts:101-137 | `loadLevel`: the scene unchanged for a null list; otherwise clones removed, then the rows after the first applied with the first as header |
| Levels.Write | src/level.ts:28-57 | a setter never changes name, clone flag or origin; the read-only slots ignore the value; `showing` takes the value's truthiness |
| Levels.WriteKeepsNormalised | src/level.ts:38-47 | after any setter the rotation stays in [0, 360) and the scale non-negative |
| Levels.WriteGetIsIdentity | src/level.ts:20-65 | writing back what a slot's getter reports leaves a normalised record unchanged |
| Levels.IndexOf | src/level.ts:72 | `None` exactly when the value is absent; otherwise the first position holding it |
| Levels.GetAttribute | src/level.ts:71-75 | `None` when no header column has the name; otherwise the row's cell at the first such column, or `None` past the row's end |
| Levels.NameInjective | src/level.ts:20-64 | the eight slots have pairwise different column names |
| Levels.HeaderLookup | src/level.ts:80-84 | each slot's name is found in the saved header at the slot's own position |
| Levels.NameCellPrefersSpriteName | src/level.ts:114-116 | a `sprite name` column with a cell in the row gives the name, whatever a `Name` column holds |
| Levels.NameCellFallback | src/level.ts:114-116 | without a `sprite name` column, the cell under the first legacy `Name` column gives the name |
| Levels.SpriteRowsAt | src/level.ts:88-94 | the k-th saved data row is the row of the k-th sprite child |
| Levels.SavedTableReadsBack | src/level.ts:80-96 | a saved table starts with the header and has one more row than there are sprites; looking any slot up by name in any sprite's row gives that slot's getter value |
| Levels.RemoveClonesProperties | src/level.ts:106 | no clone survives `removeAllClones`; a scene without clones is left as it was |
| Levels.RemoveClonesConcat | src/level.ts:106 | removing clones splits over any cut of the scene, so the survivors keep their order |
| Levels.RemoveClonesSingle | src/level.ts:106 | a single child is dropped exactly when it is a temporary sprite |
| Levels.RemoveClonesMembers | src/level.ts:106 | a child survives exactly when it was on the stage and is not a clone |
| Levels.FindFrom | src/level.ts:119-121 | the first sprite child with the name at or after a position, and `None` exactly when there is none |
| Levels.WriteRowKeepsIdentity | src/level.ts:130-135 | name, clone flag and origin are never written, whatever the row holds |
| Levels.MissingColumnUnchanged | src/level.ts:132-133 | a slot whose column or cell is missing keeps its value |
| Levels.UnmatchedRowSkipped | src/level.ts:119-125 | a row whose name matches no sprite changes nothing |
| Levels.CloneRowAppends | src/level.ts:126-128 | a truthy `is clone` leaves every existing child as it was and appends one temporary clone of the named sprite |
| Levels.HeaderIsNeverData | src/level.ts:102-111 | a null list changes nothing; a header-only or empty list only removes the clones |
| Levels.WriteSavedRow | src/level.ts:130-135 | writing a normalised record's own saved row back gives the same record |
| Levels.SavedRowCells | src/level.ts:114-117 | a saved row's name cell is the sprite's name (its origin's for a clone) and its `is clone` cell is the clone flag |
| Levels.SavedNameCell | src/level.ts:23-26 | a saved row's `sprite name` cell is the sprite's name, or its origin's name for a clone |
| Levels.SavedCloneCell | src/level.ts:58-62 | a saved row's `is clone` cell is the sprite's temporary flag |
| Levels.SavedCell | src/level.ts:71-75 | looking a slot up in a saved row under the saved header gives the slot's getter value |
| Levels.SavedRowRestores | src/level.ts:110-136 | with distinct names, no clones and normalised records, a sprite's saved row reloaded leaves the scene unchanged |
| Levels.SaveThenLoadRestores | src/level.ts:80-137 | loading a saved level back into the scene it came from leaves that scene unchanged, under the same conditions |
| Levels.LoadSavedPrefix | src/level.ts:110-136 | every prefix of the saved rows reloads to the unchanged scene |
| LevelBlocks.SaveSprite | src/level.ts:91-93 | a sprite's row is `SaveRow` of its record: one getter value per slot, in order |
| LevelBlocks.SaveLevel | src/level.ts:80-96 | without an IDE only the header row; otherwise the header followed by the rows of the sprite children, as `SaveLevelSpec` |
| LevelBlocks.NonClones | src/level.ts:106 | the children that are not temporary sprites, in their order (specification of the live filter) |
| LevelBlocks.DepictsAppend | src/level.ts:106 | appending a child whose entry is `e` to children that depict a scene depicts the scene with `e` appended |
| LevelBlocks.NonClonesDepicts | src/level.ts:106 | the live filter depicts the value filter: children depicting a scene, filtered by `NonClones`, depict `RemoveClones` of that scene |
| LevelBlocks.NonClonesOwn | src/level.ts:106 | filtering adds no sprite or transform, and keeps the property that each sprite owns its transform |
| LevelBlocks.RemoveAllClones | src/level.ts:106 | the stage's children become exactly the old non-clone children in their old order (`NonClones`), depicting `RemoveClones` of the scene, with no new sprite or transform; a stage whose sprites own their transforms keeps that property |
| LevelBlocks.FindSprite | src/level.ts:119-121 | the position of the first sprite child with the name, as `FindByName` |
| LevelBlocks.NewClone | src/level.ts:126-128 | a fresh sprite with its own fresh transform whose record is the original's, marked temporary, with the original's name as origin, on the original's stage and not in the middle of a transform update |
| LevelBlocks.WriteAttribute | src/level.ts:28-57 | one slot's setter on the live sprite changes its record as `Write` says; only the pose, costume, visibility, dirty flag and transform fields may change, and the update guard is unchanged |
| LevelBlocks.WriteAttributes | src/level.ts:130-135 | the record becomes `WriteRow` of the old record over all slots; the same field frame and unchanged guard as one write |
| LevelBlocks.WriteExisting | src/level.ts:130-135 | only the named sprite's entry changes, to the row written into it; only that sprite's pose, costume, visibility, dirty flag and transform fields may change, and its guard is unchanged |
| LevelBlocks.AppendClone | src/level.ts:126-135 | the existing children are kept and one fresh clone, with the row written into it, is appended; the clone is on the original's stage and not in the middle of a transform update |
| LevelBlocks.LoadRow | src/level.ts:110-136 | the stage ends as `ApplyRow` says; existing children keep their places, only fresh sprites are added, and only the listed sprite fields may change |
| LevelBlocks.LoadDataRows | src/level.ts:110-136 | the stage ends as `LoadRows` of the data rows under the first row as header says; the old children stay as a prefix in their places, every sprite and transform afterwards is an old one or fresh, and only the listed sprite fields may change |
| LevelBlocks.LoadLevel | src/level.ts:101-137 | the stage ends as `LoadLevelSpec` says: nothing for a null list (the children are the same), otherwise clones removed and the data rows applied under the first row as header, with the old non-clone children kept as a prefix in order; every sprite and transform afterwards is an old one or fresh; only the listed sprite fields may change |

## Left out

- NaN, Infinity and IEEE rounding: coordinates are mathematical reals.
- `StageModel.PreviewScaleOf`: returns `None` where JavaScript divides by a zero scale and gets Infinity. The camera's zoom is then left as it was.
- `StageModel.PanStep`: leaves the position unchanged for a zero camera or stage scale, where JavaScript divides by zero.
- `StageModel.Stage.MouseScroll`: takes `Math.pow(1.1, y)` as an opaque positive `factor`.
- `Transform.forwardPosition` and the `forward` override are left out. They depend on the host's `Point.distanceAngle` trigonometry.
- The exemplar-inheritance branches of `xPosition`, `yPosition`, `direction` and `getScale`, and the `shadowAttribute` calls, are left out. They belong to the host's inheritance machinery.
- `positionTalkBubble`, `justMe`, the pen, rendering, and the `setCenter`, `reactToDropOf` and `add` hooks (src/Camera.ts:221-233) are left out. Each re-reads the stage transform from the on-screen pose, as `UpdateStageTransform` does.
- `LevelBlocks.NewClone`: because the `add` hook is left out, the clone keeps the original's stage transform values instead of re-reading them from its on-screen pose when the host's `newClone` adds it to the stage. The two can differ, for instance under a zoomed camera (`Geometry.SetIgnoresZoom`). After a load this shows only for a clone row that lacks an `x`, `y`, `direction` or `size` cell, because the cells present overwrite those values.
- The `!this.transform` guards (`updateStageTransform`, `gotoXY`) are not modelled: every modelled sprite has a transform from construction.
- `StageModel.Sprite.UpdateGlobalTransform`: the `setPosition` it calls runs the host's `setPosition`. That is modelled as storing the position.
- `StageModel.Sprite.SetGlobalHeading`, `StageModel.Sprite.SetGlobalScale`: the host's original `setHeading` and `setScale` (src/Camera.ts:269, 295) are modelled as storing the normalised heading and the percentage over 100. Their shadowing, costume and rendering side effects belong to the host and are not modelled.
- `Levels.Write`: JavaScript coercion of text or booleans given to the numeric setters is not modelled; such cells leave the record unchanged. `doSwitchToCostume`'s costume lookup is modelled as storing the number.
- `LevelBlocks.NewClone`: models the host's `newClone` as a copy whose transform is a separate object holding the original's values. Whether the host's shallow copy shares the original's `Transform` object is host behaviour that is not modelled.
- `LevelBlocks.LoadLevel` (and the `LevelBlocks.LoadRow` step it is made of; `LevelBlocks.RemoveAllClones` only passes the property on): requires every sprite on the stage to own its transform (`OwnTransforms`), because the writes go through the transforms. This is an assumption about the host's clones, not something the source checks; a stage where a clone shares its original's transform is not covered by these contracts.
- `LevelBlocks.LoadLevel`: states the level-visible state (names, flags, stage transforms, costume, visibility), not the on-screen pose that the `gotoXY` calls re-project. Table cells are numbers, text or booleans; nested lists and other cell kinds are not modelled.
- `LevelBlocks.LoadRow`, `LevelBlocks.LoadDataRows`, `LevelBlocks.LoadLevel`: do not state that the old sprites' re-entrancy flag (`isUpdatingGlobalTransform`) ends as it started. Each single write states it (`LevelBlocks.WriteAttribute`, `LevelBlocks.WriteExisting`), and the frames restrict which fields may change, but the stage-wide statement is not carried through the loops, because it makes their proofs too costly.
- `LevelBlocks.LoadLevel`: requires `Snap.IDE.stage` to exist, as the source dereferences it; its `console.warn` is left out.
- `StageModel.Stage.UpdateSpriteForCamera`: requires no sprite to appear twice among the children, as a morph has one place in the scene graph (sprites may share a transform). It also requires the camera's own transform not to be a sprite's; the camera creates that transform itself (src/Camera.ts:36-43).
- The `reset camera`, `hold camera`, `let user control camera` and `is holding camera` blocks are one-line calls of `SetTarget(Nobody)`, `SetTarget(SpriteHolder(this))`, `StartUserControl` and `IsHoldingCamera`.
- Block registration, `OverrideRegistry` hooking and the `stepFrame` hook are left out; they are host glue.
- src/Physics.ts (the Matter.js bridge), src/camera.js (entirely commented out) and src/index.ts (extension registration) are not part of this model.
