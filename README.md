# mintview drawing core in Dafny

This project models the editing core of mintview, a screen-annotation app built with React and fabric.js:

- **The vector library** `utils/vectors.ts` (module `Vectors`). The non-mutating operations are functions on coordinate lists. Their thrown errors are `Err` values. The `*Mutate` operations and the `Vector2` accessors are methods of the classes `Vector` and `Vector2`, which have a `coords` field.
- **The editing modes** `Action` of `utils/index.ts` (module `Utils`).
- **The Canvas component** `components/Canvas/index.tsx`. It has a stroke history that can be undone and redone, the DRAW-mode click handler, the commit effect that turns the strokes into one polyline, and `deleteObj`, `flip` and `lock`.
  - Module `Canvas` states each handler as a transition function on an `Editor` value (`UndoStep`, `RedoStep`, `ClickStep`, `CommitStep`, ...). It proves that every transition keeps the invariant `Inv`, and it proves what each handler does.
  - Module `CanvasComponent` is the component as an object, class `Component`. Its React state and the part of the fabric canvas it touches are fields. Every handler updates them in place by calling small methods that stand for fabric calls and React setters (`Add`, `Remove`, `SetActive`, `SetLines`, ...). Each handler is proved to perform the transition of the same name and to keep `Inv`.
  - Module `Cursor` holds the anchor point and the stop test that ends a stroke.
- **The pointer dispatcher** `components/Canvas/MouseHandler.tsx` (module `MouseHandler`): wheel zoom with its clamp, middle-button panning, and tracking of the held button.
- **The page** `pages/app.tsx` (module `App`): the key-to-command chain of `handleKeyDown`, the mode cycle `setNextAction`, `onDrawingComplete`, and the toolbar callbacks. The key and toolbar commands for undo, redo, delete, flip and lock call the Canvas component through the page's reference to it. `setNextAction` and `onDrawingComplete` only change the page's `action`; the Canvas sees that change through its `action` prop, which re-runs its commit effect.

## Modelling decisions

**Numbers.** Coordinates, zoom and pan offsets are exact reals, so there is no floating-point rounding.

**`Math.sqrt`.** It is a parameter `sqrt` of the vector functions. They require `IsSqrt(sqrt)`: for non-negative arguments, the result is non-negative, its square is the argument, and it is zero only at zero. `projectOnto` divides by `Math.pow(magnitude, 2)`, which is the sum of the squares over the reals.

**The stop test** (`components/Canvas/index.tsx:274`). It reads `Math.sqrt((p0 - c0) ^ 2 + (p1 - c1) ^ 2) < DRAWING_STOP_DISTANCE`. In JavaScript `^` is bitwise exclusive or on ToInt32 values, and `+` binds tighter than `^`. The radicand is therefore `((p0 - c0) ^ (2 + (p1 - c1))) ^ 2`. The model follows the code, not the Euclidean distance the constant's name suggests:
- a click stops the stroke exactly when the two ToInt32 patterns differ in bit 1 alone (`Cursor.StopMeansBitPattern`, `Cursor.BitPatternMeansStop`);
- clicking the anchor itself stops (`Cursor.SamePointStops`);
- a click 3 away in both directions also stops (`Cursor.DistantPointStops`).

**The canvas.** fabric's canvas is reduced to what the handlers read and write:
- the stack of object ids, bottom first;
- each object's kind and its `selectable`, `evented` and `flipX` flags;
- the active selection and the webcam image.

The model assumes that a removed object also leaves the active selection. Nothing in the source says so: `deleteObj` (`components/Canvas/index.tsx:83-93`) never calls `discardActiveObject`, and fabric's own code is not part of this model. See `Canvas.RemoveObjects` under Left out for what depends on this assumption.

**Handlers that run together.** A change of the `action` prop, or of `lines`, re-runs the Canvas's commit effect. The page's methods (`App.Page.SetAction`, `App.Page.Click`) make that call explicitly.

**The invariant and `deleteObj`.** `deleteObj` can remove drawn strokes from the canvas. So the invariant is split:
- `Inv` is kept by every handler;
- `InSync` ("every drawn line is on the canvas") is kept by every handler except `deleteObj`.

**`projectOnto`'s doc comment** (`utils/vectors.ts:152-155`) describes the projection of the argument onto `this`. The code projects `this` onto the argument, and the model follows the code.

**The click listener and React renders.** fabric calls the `mouse:down` listener that MouseHandler attached at its last re-attachment (`components/Canvas/MouseHandler.tsx:87-103`). It re-attaches only when the canvas, the held button or the action change. A mouse-down and a mouse-up each change the held button, so a click normally sees the current state. A keyboard or toolbar `undo` or `redo` between a mouse-up and the next click changes none of the three, and that click sees the history from before. `Canvas.StaleClickStep` models such a click and `Canvas.StaleClickAfterUndo` shows what goes wrong (see Findings). The rest of the model, `CanvasComponent.Component.OnMouseDown` included, reads the current state, as intended.

**`Vector2`.** Both accessor pairs address `coords[0]`. `Vector2.Y` and `Vector2.SetY` model that as written. The corrected pair is `IntendedY` and `SetIntendedY` (see Findings).

## Model

| member | source | states |
|---|---|---|
| Vectors.Add | utils/vectors.ts:39-45 | fails with a dimension mismatch exactly when the lengths differ; otherwise the i-th coordinate is the sum of the i-th coordinates |
| Vectors.Sub | utils/vectors.ts:61-67 | fails exactly when the lengths differ; otherwise the i-th coordinate is the difference |
| Vectors.Scale | utils/vectors.ts:122-124 | never fails, keeps the length, multiplies every coordinate by `s` |
| Vectors.Dot | utils/vectors.ts:110-116 | a length mismatch is an error; equal but empty lists fail in `reduce`; otherwise the sum of the products |
| Vectors.Magnitude | utils/vectors.ts:82-84 | fails on the empty vector (`reduce`); otherwise a non-negative number whose square is the sum of the squares |
| Vectors.IsZero | utils/vectors.ts:89-91 | fails on the empty vector; otherwise true exactly when every coordinate is 0 |
| Vectors.Normalize | utils/vectors.ts:96-104 | fails exactly on the empty or the zero vector, with the matching error; otherwise the vector scaled by the inverse of its magnitude |
| Vectors.DistanceTo | utils/vectors.ts:148-150 | fails on a length mismatch or empty vectors; otherwise non-negative and its square is the sum of the squared differences |
| Vectors.ProjectOnto | utils/vectors.ts:156-158 | fails on a length mismatch or empty vectors; otherwise `b` scaled by `(a·b)/(b·b)`, a multiple of `b` |
| Vectors.ToVector2Coords | utils/vectors.ts:12-18 | fails for more than two coordinates; otherwise two coordinates, the given ones first and 0 for the missing ones |
| Vectors.AddThenSub | utils/vectors.ts:39-67 | subtracting `b` after adding it gives back `a` |
| Vectors.DotCommutes | utils/vectors.ts:110-116 | `a.dot(b)` equals `b.dot(a)`, errors included |
| Vectors.ScaleTwice | utils/vectors.ts:122-124 | scaling by `s` and then by `t` is scaling by `s*t` |
| Vectors.NormalizeIsUnit | utils/vectors.ts:96-104 | a normalised vector has sum of squares 1 |
| Vectors.DistanceToSelf | utils/vectors.ts:148-150 | the distance of a vector to itself is 0, or the empty-reduce error for the empty vector |
| Vectors.DistanceSymmetric | utils/vectors.ts:148-150 | `a.distanceTo(b)` equals `b.distanceTo(a)`, errors included |
| Vectors.ProjectionResidueOrthogonal | utils/vectors.ts:156-158 | `a` minus its projection onto a non-zero `b` is orthogonal to `b` |
| Vectors.ScaledResidueOrthogonal | utils/vectors.ts:156-158 | the same orthogonality for the coefficient `(a·b)/(b·b)` itself |
| Vectors.ProjectionIdempotent | utils/vectors.ts:156-158 | projecting a projection onto the same `b` gives it back |
| Vectors.SumSquaresZeroIff | utils/vectors.ts:82-91 | the sum of the squares is 0 exactly when every coordinate is 0 |
| Vectors.SumSquaresNonNegative | utils/vectors.ts:82-84 | the sum of the squares is never negative |
| Vectors.Vector.constructor | utils/vectors.ts:5-7 | the coordinates are the arguments |
| Vectors.Vector.Clone | utils/vectors.ts:24-26 | a fresh vector with the same coordinates |
| Vectors.Vector.Copy | utils/vectors.ts:31-33 | a fresh vector with the same coordinates |
| Vectors.Vector.ToVector2 | utils/vectors.ts:12-18 | fails for more than two coordinates; otherwise a fresh `Vector2` holding `ToVector2Coords` |
| Vectors.Vector.AddMutate | utils/vectors.ts:51-55 | on matching lengths the coordinates become `add`'s result and `this` is returned; on a mismatch it fails before anything changes |
| Vectors.Vector.SubMutate | utils/vectors.ts:73-77 | the same for `sub` |
| Vectors.Vector.ScaleMutate | utils/vectors.ts:130-134 | the coordinates become `scale`'s result and `this` is returned |
| Vectors.Vector2.constructor | utils/vectors.ts:185-187 | the coordinates are `[x, y]`, each argument defaulting to 0 |
| Vectors.Vector2.X | utils/vectors.ts:169-171 | the `x` getter reads the first coordinate |
| Vectors.Vector2.Y | utils/vectors.ts:177-179 | as written, the `y` getter reads the first coordinate, the same as `x` |
| Vectors.Vector2.SetX | utils/vectors.ts:173-175 | the first coordinate becomes `v` and nothing else changes |
| Vectors.Vector2.SetY | utils/vectors.ts:181-183 | as written, the `y` setter overwrites the first coordinate, so `x` and `y` both read `v` |
| Vectors.Vector2.IntendedY | utils/vectors.ts:177-179 | the intended getter: it reads the second coordinate |
| Vectors.Vector2.SetIntendedY | utils/vectors.ts:177-183 | the intended setter: the second coordinate becomes `v` and `x` is unchanged |
| Utils.Ordinal | utils/index.ts:1-4 | DRAG is 0, DRAW is not, and every value is below half the enum's key count |
| Utils.FromOrdinal | utils/index.ts:1-4 | a number names a member exactly when it is 0 or 1, and then `Ordinal` gives it back |
| Cursor.HasAnchor | components/Canvas/index.tsx:282 | `previousCursor[0] > -1`; the no-anchor value `[-1, -1]` has no anchor |
| Cursor.StopTest | components/Canvas/index.tsx:274 | the stop test as written: `Math.sqrt` of the exclusive-or radicand below 0.5; its meaning is stated by the lemmas below |
| Cursor.StopMeansBitPattern | components/Canvas/index.tsx:274-280 | a click that ends the stroke leaves the ToInt32 patterns of `dx` and `2 + dy` differing in bit 1 alone |
| Cursor.BitPatternMeansStop | components/Canvas/index.tsx:274-280 | conversely, such patterns end the stroke |
| Cursor.XorStops | components/Canvas/index.tsx:274 | the square root of `(a ^ c) ^ 2` is below 0.5 exactly when `a ^ c` is 2 |
| Cursor.SamePointStops | components/Canvas/index.tsx:274-280 | a click on the anchor itself ends the stroke |
| Cursor.DistantPointStops | components/Canvas/index.tsx:274-280 | a click 3 right and 3 down of the anchor, about 4.24 away, also ends it |
| Cursor.ClosePointContinues | components/Canvas/index.tsx:274-280 | a click 0.3 below the anchor does not end it |
| Cursor.OffsetClickStops | components/Canvas/index.tsx:274-280 | a click 2 right and 6 down ends it; from the no-anchor value that is the click at (1, 5) |
| Canvas.Initial | components/Canvas/index.tsx:29-33 | no canvas, no lines, offset -1, no anchor, and the invariant holds |
| Canvas.Endpoints | components/Canvas/index.tsx:229 | the polyline points: `(x1, y1), (x2, y2)` of each line in order, twice as many as lines |
| Canvas.AddObject | components/Canvas/index.tsx:77 | `canvas.add` of an existing object puts it on top of the stack |
| Canvas.AddNew | components/Canvas/index.tsx:235 | `canvas.add` of a new object puts it on top with the next id and its shape; nothing else changes |
| Canvas.RemoveObjects | components/Canvas/index.tsx:65 | the removed ids leave the canvas and the selection, nothing else does |
| Canvas.ImagesOf | components/Canvas/index.tsx:143 | exactly the objects on the canvas whose kind is image |
| Canvas.ToggleFlips | components/Canvas/index.tsx:141-145 | the `forEach` of `flip`: only `flipX` can change, and the same objects keep a shape |
| Canvas.DisableAll | components/Canvas/index.tsx:50 | the `forEach` of `lock` on the flags: kinds and `flipX` stay, and `selectable` is only ever cleared |
| Canvas.SendAllToBack | components/Canvas/index.tsx:50 | the `moveTo(0)` calls of `lock`: the same objects remain, still distinct |
| Canvas.ToggleFlipsSpec | components/Canvas/index.tsx:141-145 | flipping distinct objects negates `flipX` of exactly those and changes nothing else |
| Canvas.DisableAllSpec | components/Canvas/index.tsx:49-50 | exactly the locked objects lose `selectable` and `evented` |
| Canvas.SendAllToBackSpec | components/Canvas/index.tsx:49-50 | moving the selected objects to index 0 one after the other leaves them at the bottom in reverse order, the rest in order |
| Canvas.SendToBackAbove | components/Canvas/index.tsx:50 | `moveTo(0)` of an object above `low` puts it below `low` and keeps the rest in order |
| Canvas.UndoStep | components/Canvas/index.tsx:55-69 | `lines`, shapes, webcam and ids are unchanged |
| Canvas.RedoStep | components/Canvas/index.tsx:71-81 | `lines`, shapes, selection and ids are unchanged |
| Canvas.UndoMovesAnchorBack | components/Canvas/index.tsx:56-67 | after an `undo` with more than one drawn line, the anchor is the start of the undone line and the offset drops by one |
| Canvas.CompletesDrawing | components/Canvas/index.tsx:266-280 | a left click in DRAW mode on a canvas for which the stop test holds |
| Canvas.DrawLine | components/Canvas/index.tsx:282-300 | `lines` becomes the drawn lines plus the new stroke from the anchor to the click; the offset is the new length; the undone lines leave the canvas; the new stroke, neither selectable nor evented, is added on top; the click is the new anchor |
| Canvas.ClickStep | components/Canvas/index.tsx:265-311 | the canvas and the webcam stay |
| Canvas.MouseDownStep | components/Canvas/index.tsx:226-311 | the click, then the commit effect when the click replaced `lines`; the canvas stays mounted, and `Canvas.MouseDownPreservesInv` states what the pair keeps |
| Canvas.StaleClickStep | components/Canvas/MouseHandler.tsx:87-103 | the click as the attached listener performs it, with the React state of an earlier render; when that state is current it is exactly `ClickStep` |
| Canvas.StaleClickAfterUndo | components/Canvas/index.tsx:282-298 | as written: a drawing click after an `undo` with no mouse event in between counts the undone line as drawn although it is off the canvas, so the drawn lines are no longer all on the canvas |
| Canvas.ClickAfterUndoKeepsSync | components/Canvas/index.tsx:282-298 | as intended: a click after an `undo` that reads the current state continues from the start of the undone line, drops it from the history and keeps the invariant and every drawn line on the canvas |
| Canvas.ClickContinuesStroke | components/Canvas/index.tsx:282-298 | a left click in DRAW mode just below the anchor appends a stroke from the anchor to the drawn lines and keeps the invariant and the sync |
| Canvas.CommitStep | components/Canvas/index.tsx:226-252 | with no lines, the object list is unchanged |
| Canvas.DeleteStep | components/Canvas/index.tsx:83-93 | the history, the anchor and the shapes are unchanged |
| Canvas.FlipTargets | components/Canvas/index.tsx:137-145 | the selection if there is one, otherwise exactly the images on the canvas |
| Canvas.FlipStep | components/Canvas/index.tsx:137-147 | nothing but the shapes changes |
| Canvas.LockStep | components/Canvas/index.tsx:48-53 | nothing but the object order, the shapes and the selection changes |
| Canvas.MountStep | components/Canvas/index.tsx:151-161 | afterwards the canvas exists; with no lines the object list is unchanged |
| Canvas.AttachWebcamStep | components/Canvas/index.tsx:179-192 | with a canvas, a fresh image goes on top of the stack and becomes the webcam; without one, nothing changes |
| Canvas.SelectStep | components/Canvas/index.tsx:85 | fabric's mouse selection, a step of the environment that `getActiveObjects` later reads: the selection becomes exactly the selectable objects on the canvas among those picked |
| Canvas.UndoPreservesInv | components/Canvas/index.tsx:55-69 | `undo` keeps the invariant: offset in range, no undone line on the canvas, every stroke on the canvas a drawn line, distinct objects, a selectable selection |
| Canvas.UndoKeepsSync | components/Canvas/index.tsx:55-69 | `undo` keeps every drawn line on the canvas |
| Canvas.RedoPreservesInv | components/Canvas/index.tsx:71-81 | `redo` keeps the invariant |
| Canvas.RedoKeepsSync | components/Canvas/index.tsx:71-81 | `redo` keeps every drawn line on the canvas |
| Canvas.PrunedAreUndone | components/Canvas/index.tsx:283 | the lines a click removes, `lines.slice(lineOffset + 1)`, are all undone ones |
| Canvas.DrawLinePreservesInv | components/Canvas/index.tsx:282-300 | drawing a stroke keeps the invariant and leaves nothing to redo |
| Canvas.DrawLineKeepsSync | components/Canvas/index.tsx:282-300 | drawing a stroke keeps every drawn line on the canvas |
| Canvas.ClickPreservesInv | components/Canvas/index.tsx:265-311 | every click keeps the invariant and the sync |
| Canvas.CommitPreservesInv | components/Canvas/index.tsx:226-252 | the commit effect keeps the invariant and the sync |
| Canvas.DeletePreservesInv | components/Canvas/index.tsx:83-93 | `deleteObj` keeps the invariant; the webcam stays |
| Canvas.FlipPreservesInv | components/Canvas/index.tsx:137-147 | `flip` keeps the invariant and the sync |
| Canvas.LockPreservesInv | components/Canvas/index.tsx:48-53 | `lock` keeps the invariant and the sync |
| Canvas.AttachWebcamPreservesInv | components/Canvas/index.tsx:179-192 | attaching the webcam keeps the invariant and the sync |
| Canvas.SelectPreservesInv | components/Canvas/index.tsx:85 | a mouse selection by the user, a step of the environment, keeps the invariant and the sync |
| Canvas.MountPreservesInv | components/Canvas/index.tsx:151-161 | creating the canvas keeps the invariant and the sync |
| Canvas.MouseDownPreservesInv | components/Canvas/index.tsx:226-311 | a click followed by the commit effect keeps the invariant and the sync |
| Canvas.RedoThenUndo | components/Canvas/index.tsx:55-81 | `undo` after `redo` gives back the state, with the anchor at the start of the re-added line |
| Canvas.UndoThenRedo | components/Canvas/index.tsx:55-81 | `redo` after `undo` gives back the history, the offset, the shapes and the objects on the canvas; the anchor is the end of that line |
| Canvas.DrawLineDiscardsRedo | components/Canvas/index.tsx:282-300 | after a stroke, the history is the drawn lines plus the stroke, and `redo` does nothing |
| Canvas.CompletingClickChangesNothing | components/Canvas/index.tsx:274-280 | a click that calls `onDrawingComplete` changes neither the lines, the offset nor the anchor |
| Canvas.DoubleClickCompletes | components/Canvas/index.tsx:265-280 | a second left click in DRAW mode at the same point completes the drawing |
| Canvas.CommitMakesPolyline | components/Canvas/index.tsx:226-251 | leaving DRAW with lines adds one selected polyline through the endpoints of the drawn lines, with `2·lineOffset` points; every line leaves the canvas; lines reset to `[]` and offset to -1; no anchor |
| Canvas.CommitLeavesNoStrokes | components/Canvas/index.tsx:226-251 | after leaving DRAW no stroke is on the canvas |
| Canvas.CommitIdempotent | components/Canvas/index.tsx:226-252 | running the commit effect twice is running it once |
| Canvas.DeleteRemovesExactly | components/Canvas/index.tsx:83-93 | with a selection, exactly the selected objects go; without one, everything but the webcam goes; the webcam always stays |
| Canvas.FlipKeepsTargets | components/Canvas/index.tsx:137-147 | a flip changes no kind, so a second flip acts on the same objects |
| Canvas.ToggleFlipsTwice | components/Canvas/index.tsx:141-145 | toggling the same distinct objects twice restores every shape |
| Canvas.FlipTwice | components/Canvas/index.tsx:137-147 | two flips with the same selection restore the state |
| Canvas.LockSpec | components/Canvas/index.tsx:48-53 | the selected objects go to the bottom, last selected lowest, and lose `selectable` and `evented`; the set of objects is unchanged; other shapes are unchanged; the selection is cleared |
| Canvas.LockWithoutSelection | components/Canvas/index.tsx:48-53 | with nothing selected, `lock` changes nothing |
| CanvasComponent.Component.constructor | components/Canvas/index.tsx:29-33 | the initial state, which satisfies the invariant |
| CanvasComponent.Component.Add | components/Canvas/index.tsx:235 | `canvas.add` of a new object puts it on top with the next id |
| CanvasComponent.Component.Remove | components/Canvas/index.tsx:239 | `canvas.remove` takes the objects off the canvas and the selection |
| CanvasComponent.Component.AddBack | components/Canvas/index.tsx:77 | `canvas.add(line)` of an existing line puts it back on top |
| CanvasComponent.Component.SetActive | components/Canvas/index.tsx:237 | `setActiveObject` or `discardActiveObject`: the selection becomes the given list, nothing else changes |
| CanvasComponent.Component.FlipObject | components/Canvas/index.tsx:141 | `obj.flipX = !obj.flipX` on one object, nothing else changes |
| CanvasComponent.Component.DisableObject | components/Canvas/index.tsx:50 | `obj.selectable = false; obj.evented = false` on one object |
| CanvasComponent.Component.MoveToBottom | components/Canvas/index.tsx:50 | `obj.moveTo(0)`: an object on the canvas goes to the bottom of the stack |
| CanvasComponent.Component.SetLines | components/Canvas/index.tsx:241 | `setLines`: only `lines` changes |
| CanvasComponent.Component.SetLineOffset | components/Canvas/index.tsx:243 | `setLineOffset`: only the offset changes |
| CanvasComponent.Component.SetPreviousCursor | components/Canvas/index.tsx:247 | `setPreviousCursor`: only the anchor changes |
| CanvasComponent.Component.SetWebcam | components/Canvas/index.tsx:188 | `setWebcam`: the webcam becomes the given image |
| CanvasComponent.Component.Mount | components/Canvas/index.tsx:151-161 | performs `MountStep` and keeps the invariant |
| CanvasComponent.Component.Commit | components/Canvas/index.tsx:226-252 | performs `CommitStep` in place and keeps the invariant and the sync |
| CanvasComponent.Component.Undo | components/Canvas/index.tsx:55-69 | performs `UndoStep` in place and keeps the invariant and the sync |
| CanvasComponent.Component.Redo | components/Canvas/index.tsx:71-81 | performs `RedoStep` in place and keeps the invariant and the sync |
| CanvasComponent.Component.DeleteObj | components/Canvas/index.tsx:83-93 | performs `DeleteStep` in place and keeps the invariant |
| CanvasComponent.Component.Flip | components/Canvas/index.tsx:137-147 | performs `FlipStep` in place and keeps the invariant and the sync |
| CanvasComponent.Component.FlipEach | components/Canvas/index.tsx:141-145 | the `forEach` loop toggles `flipX` of each listed object in turn |
| CanvasComponent.Component.Lock | components/Canvas/index.tsx:48-53 | performs `LockStep` in place and keeps the invariant and the sync |
| CanvasComponent.Component.LockEach | components/Canvas/index.tsx:49-50 | the `forEach` loop disables each listed object and moves it to index 0 in turn |
| CanvasComponent.Component.OnMouseDown | components/Canvas/index.tsx:265-311 | performs `ClickStep` in place, keeps the invariant and the sync, and reports whether the click completes the drawing |
| CanvasComponent.Component.DrawLineTo | components/Canvas/index.tsx:282-298 | prunes the undone lines, appends the stroke and adds it to the canvas, as `DrawLine` |
| CanvasComponent.Component.AttachWebcam | components/Canvas/index.tsx:179-192 | performs `AttachWebcamStep` in place and keeps the invariant and the sync |
| CanvasComponent.Component.Select | components/Canvas/index.tsx:85 | fabric's mouse selection as a step of the environment; performs `SelectStep` in place and keeps the invariant and the sync |
| MouseHandler.Clamp | components/Canvas/MouseHandler.tsx:28-31 | the zoom always lies in `[0.01, 20]`; in range it is unchanged, above it becomes 20, below it becomes 0.01 |
| MouseHandler.ClampMonotone | components/Canvas/MouseHandler.tsx:28-31 | a larger wheel result never gives a smaller zoom |
| MouseHandler.ClampIdempotent | components/Canvas/MouseHandler.tsx:28-31 | clamping a clamped zoom changes nothing |
| MouseHandler.Unproject | components/Canvas/MouseHandler.tsx:33 | the canvas point shown at a screen coordinate, which projects back to it |
| MouseHandler.Handler.constructor | components/Canvas/MouseHandler.tsx:18 | no button held |
| MouseHandler.Handler.ZoomToPoint | components/Canvas/MouseHandler.tsx:33 | the zoom becomes the value and the canvas point under the cursor stays under it |
| MouseHandler.Handler.Wheel | components/Canvas/MouseHandler.tsx:24-37 | with a canvas, the zoom becomes the clamped product and the point under the cursor stays fixed; without one, the viewport is unchanged; the button is never changed |
| MouseHandler.Handler.Move | components/Canvas/MouseHandler.tsx:43-59 | pans by the movement exactly when there is a canvas and button 2 is held; zoom and button are unchanged |
| MouseHandler.Handler.Down | components/Canvas/MouseHandler.tsx:65-73 | with a canvas the button is recorded; the event is forwarded exactly when there is a canvas and an `onMouseDown`; without a canvas nothing changes |
| MouseHandler.Handler.Up | components/Canvas/MouseHandler.tsx:79-81 | no button is held afterwards, whatever was released; the viewport is unchanged |
| App.CommandOfExactly | pages/app.tsx:123-135 | each command comes from exactly its key: ctrl+z undo, ctrl+y redo, space next action with or without ctrl, Delete or Backspace delete, Home capture, ctrl+c copy, any other key none |
| App.CtrlOnlyForLetters | pages/app.tsx:123-135 | for keys other than z, y and c, holding ctrl does not change the command |
| App.Next | pages/app.tsx:116-118 | the next mode always differs from the current one |
| App.NextTwice | pages/app.tsx:116-118 | cycling twice gives back the mode |
| App.CommandOf | pages/app.tsx:123-135 | the first matching branch of the chain; which key gives which command is stated by `App.CommandOfExactly` |
| App.Page.constructor | pages/app.tsx:109-114 | DRAG mode, the dialog closed, no canvas |
| App.Page.Attach | pages/app.tsx:176 | the page now holds the canvas, and the mode and dialog are unchanged |
| App.Page.SetAction | pages/app.tsx:109 | `setAction` (declared at 109, called at 117 and 180): the mode becomes `a`; if it changed, the canvas runs its commit effect (components/Canvas/index.tsx:226-252) with `a`; otherwise the canvas is unchanged |
| App.Page.SetNextAction | pages/app.tsx:116-118 | `setNextAction`, also the toolbar's `onChangeAction` (162): the mode cycles, and the canvas commits with the new mode |
| App.Page.OnDrawingComplete | pages/app.tsx:180 | the mode becomes DRAG whatever it was; leaving DRAW commits the strokes |
| App.Page.Click | components/Canvas/index.tsx:265-311 | a completing click commits the strokes and returns to DRAG; any other click performs the click and the commit effect, and the mode stays |
| App.Page.HandleKeyDown | pages/app.tsx:121-137 | without a canvas nothing changes; otherwise the canvas performs exactly the command the key maps to, and capture, copy and other keys leave the model unchanged |
| App.Page.OnUndo | pages/app.tsx:161 | `undo` runs on the canvas only when there is one |
| App.Page.OnRedo | pages/app.tsx:160 | `redo` runs on the canvas only when there is one |
| App.Page.OnFlip | pages/app.tsx:163 | `flip` runs on the canvas only when there is one |
| App.Page.OnDelete | pages/app.tsx:164 | `deleteObj` runs on the canvas only when there is one |
| App.Page.OnLock | pages/app.tsx:165 | `lock` runs on the canvas only when there is one |
| App.Page.OnWebcamCapture | pages/app.tsx:167-172 | with a canvas the capture dialog opens; without one nothing changes |

## Left out

- `angleTo` (utils/vectors.ts:140-142) uses `Math.acos`, which is transcendental. `toString` is display only.
- Floating-point rounding is not modelled: coordinates, zoom and pans are exact reals. `Math.sqrt` is a parameter, required to be a square root.
- Vectors.ProjectOnto: projecting onto a non-empty zero vector is excluded by its precondition. The source divides by zero there and yields NaN coordinates.
- Vectors.Vector.AddMutate, Vectors.Vector.SubMutate: aliasing is not modelled. The argument's coordinates are read before `this` changes, which is what the source's `map` does.
- `copy` and `webcamCapture` of the Canvas component are not modelled: asynchronous cloning, image loading, DOM reads and writes. The page's `Home` and ctrl+c keys and its toolbar `onCopy` therefore leave the model unchanged.
- Webcam acquisition through `getUserMedia` (components/Canvas/index.tsx:163-198) is not modelled, and neither is the frame-filter timer loop (200-224). Media I/O and timers appear only as the `AttachWebcam` step, taken when the image is ready.
- The theme and visibility effects (components/Canvas/index.tsx:37-46) are not modelled. The listener attach and detach effect of MouseHandler (components/Canvas/MouseHandler.tsx:87-103) is modelled only through the state a click reads, in `Canvas.StaleClickStep`.
- CanvasComponent.Component.OnMouseDown: reads the current lines, offset and anchor. In the source the listener can read those of an earlier render, after a keyboard or toolbar `undo` or `redo` (see Findings). Canvas.InSync, Canvas.UndoThenRedo and Canvas.DrawLineDiscardsRedo therefore describe the program only when no `undo` or `redo` comes between a mouse-up and the next click.
- `followLine` (components/Canvas/MouseHandler.tsx:45-48) is not modelled: the Canvas never passes it.
- MouseHandler.Handler.ZoomToPoint: fabric's `zoomToPoint` is modelled by its defining property, that the point under the cursor stays fixed. The full viewport matrix is not modelled.
- MouseHandler.Handler.Wheel: the factor `0.999 ** deltaY` is a parameter. `preventDefault` and `stopPropagation` are not modelled.
- The opacity slider controls (components/Canvas/SliderControl.ts and pages/app.tsx:9-105) are not modelled, nor clipboard and drop handling (components/Canvas/UtilHandler.tsx). They rely on geometry over fabric internals, prototype patching and file I/O.
- The UI panels, the capture window, electron setup, localization and the API are not modelled.
- Canvas.UndoThenRedo: states the set of objects on the canvas, not their order. The re-added line goes on top of the stack, so the order can differ from the order before `undo`.
- CanvasComponent.Component.DeleteObj: keeps `Inv` but not `InSync`, because deleting a drawn stroke leaves it in the history.
- Canvas.RemoveObjects: assumes that fabric drops a removed object from the active selection. fabric's own code is not part of this model. If fabric instead keeps removed members in a selection of several objects, a second Delete in the program removes nothing (the selection is still non-empty), while the model has an empty selection and removes every object except the webcam. The clause `r.active == []` of Canvas.DeleteRemovesExactly rests on the same assumption.
- Vectors.Vector2: `Vector2 extends Vector` is not modelled, because the project has no class inheritance. A `Vector2` therefore lacks the operations of `Vector`; they apply to its coordinates through `Vector`. The constructor's default arguments are modelled.
- Canvas.SelectStep: mouse selection is reduced to choosing a set of ids. fabric's hit testing is not part of this model.

## Findings

| source | as written | input that shows it | evidently intended | confidence | as-written member | corrected member |
|---|---|---|---|---|---|---|
| utils/vectors.ts:177-183 | the `y` getter and setter of `Vector2` address `coords[0]`, the same coordinate as `x` | `new Vector2(1, 2).y` is 1, not 2, and setting `y` overwrites `x` | `y` reads and writes `coords[1]` | high (follows from the code; not executed) | Vectors.YReadsFirstCoordinate | Vectors.Vector2.SetIntendedY |
| components/Canvas/MouseHandler.tsx:87-103 with components/Canvas/index.tsx:265-300 | the `mouse:down` listener is re-attached only when the canvas, the held button or the action change, so it reads `lines`, `lineOffset` and `previousCursor` from the render in which it was attached | in DRAW mode click a, b, c; press ctrl+z; click d just below c: the stroke starts at the stale anchor c and the lines become [ab, bc, cd] with offset 3, so the undone bc counts as drawn but is not on the canvas, and the next commit includes it | the click reads the current state: the stroke starts at b, the anchor `undo` set, bc leaves the history, and every drawn line stays on the canvas | high (follows from React's closure semantics; not executed) | Canvas.StaleClickAfterUndo | Canvas.ClickAfterUndoKeepsSync |
