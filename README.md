# midori04: camera controls, eased zoom and particle fields

A verified Dafny model of the logic inside the midori04 three.js demo page
(`midori04/app.js`). The rest of the page is scene-graph construction and rendering.
Four pieces of the page are modelled:

- **Camera controls** (`setupControls`). Press, move and release events drive a drag.
  The drag pans the camera (`position.x/y`) or rotates it (`rotation.x/y`). Which one
  depends on a mode that a double-click toggles. A wheel event computes a target depth
  clamped to [5, 15] and starts an eased zoom toward it. This is modelled as the class
  `Interaction.Controls`, with one method per event handler, over the class
  `Scene.Camera`.
- **Eased zoom** (`smoothZoom` / `zoomStep`). Each frame turns the elapsed time into a
  fraction capped at 1 and eases it with a cubic ease-in-out curve. It then interpolates
  the camera's z between the start and target depths. The frame at fraction 1 snaps z to
  the target and requests no further frame. This is modelled as the pure functions
  `Zoom.Fraction`, `Zoom.Ease` and `Zoom.ZoomStep`, plus the method `Zoom.RunZoomStep`,
  which writes the camera.
- **Bamboo particle field** (`animateBamboo`). This is an in-place loop over a flat
  position buffer (three numbers per particle) and a parallel array of velocity vectors.
  Each particle moves by its velocity. Then each velocity component is negated when the
  moved coordinate lies outside [-250, 250]. `Bamboo.BambooTick` is proved equal to the
  specification function `Bamboo.Tick`.
- **Cube particles** (the `animate` function of `addCubeParticles`). Each cube's position
  moves by its own velocity, with no boundary. `Cubes.Drift` is proved equal to
  `Cubes.Drifted`.

JavaScript numbers are modelled as exact `real`s. Timestamps enter as the `elapsed`
parameter, which is `timestamp - startTime`. One animation frame is one method or
function call.

The code reflects only the velocity and never clamps the position, so coordinates are
not kept within [-250, 250]: a coordinate can end a frame up to one unit outside.
`Bamboo.TicksWithinOneUnit` proves the bound the code does keep: starting from the page's
initial ranges, every coordinate stays within [-251, 251] for any number of frames.

## Model

| member | source | states |
|---|---|---|
| Scene.Camera.constructor | midori04/app.js:12-13 | the camera starts at position (0, 0, 100) with no rotation |
| Zoom.Fraction | midori04/app.js:232 | the fraction never exceeds 1; it equals 1 exactly when elapsed >= 500; below 1 it is elapsed / 500; it is not negative for non-negative elapsed |
| Zoom.Ease | midori04/app.js:234 | the curve gives 0 at f = 0, 0.5 at f = 0.5 and 1 at f = 1 |
| Zoom.EaseBranchesAgree | midori04/app.js:234 | both branches of the curve give 0.5 at f = 0.5 |
| Zoom.EaseMonotone | midori04/app.js:234 | the curve never decreases, on the whole real line |
| Zoom.EaseInUnit | midori04/app.js:234 | a fraction in [0, 1] is eased to a value in [0, 1] |
| Zoom.EaseSlowStart | midori04/app.js:234 | over the first half the curve lags the uniform motion: Ease(f) <= f for f in [0, 0.5] |
| Zoom.EaseFastFinish | midori04/app.js:234 | over the second half the curve leads the uniform motion: f <= Ease(f) for f in [0.5, 1] |
| Zoom.EaseSymmetric | midori04/app.js:234 | ease-out mirrors ease-in: Ease(1 - f) = 1 - Ease(f) for every f |
| Zoom.ZoomStep | midori04/app.js:230-241 | another frame is requested exactly when elapsed < 500; otherwise z is exactly endZ; at elapsed 0, z is startZ; for non-negative elapsed, z lies between startZ and endZ |
| Zoom.RunZoomStep | midori04/app.js:230-241 | a frame changes only the camera's position.z, to ZoomStep's z, and returns ZoomStep's reschedule flag |
| Zoom.ZoomStepHalfway | midori04/app.js:231-235 | half way through the duration, z is exactly the midpoint of startZ and endZ, and the animation continues |
| Zoom.ZoomStepMonotone | midori04/app.js:231-241 | z moves monotonically: an earlier frame's z lies between startZ and any later frame's z |
| Interaction.ZoomTarget | midori04/app.js:202-205 | the target is always in [5, 15]; it is z - deltaY * 0.5 when that is in range, 5 when it is below, 15 when it is above |
| Interaction.ZoomTargetMonotone | midori04/app.js:203-205 | a larger deltaY never gives a larger target |
| Interaction.ZoomTargetIdempotent | midori04/app.js:205 | clamping an already clamped target again changes nothing |
| Interaction.WheelZoomStaysBetween | midori04/app.js:202-206 | during a wheel zoom, z stays between the depth it started from and the clamped target; once finished, z is in [5, 15] |
| Interaction.Dragged | midori04/app.js:182-192 | a drag never changes position.z; rotate mode never changes the position; pan mode never changes the rotation; any non-zero pointer motion changes the camera |
| Interaction.DraggedAdditive | midori04/app.js:182-192 | two drags in the same mode equal one drag by the summed deltas |
| Interaction.FollowPathTelescopes | midori04/app.js:174-196 | a sequence of move events leaves the camera where one move from the press point to the last point would; only the end points matter |
| Interaction.Controls.constructor | midori04/app.js:165 | the controls start idle and in pan mode |
| Interaction.Controls.ToggleMode | midori04/app.js:170-172 | a double-click flips the rotate mode and changes nothing else |
| Interaction.Controls.StartDragging | midori04/app.js:174-178 | a press starts a drag and records the event's coordinates; the mode and the camera are untouched |
| Interaction.Controls.Drag | midori04/app.js:180-196 | with no drag under way a move changes nothing; during a drag the camera becomes Dragged by the motion since the last event (rotation in rotate mode, position in pan mode), and the event's coordinates become the last position |
| Interaction.Controls.EndDragging | midori04/app.js:198-200 | a release always leaves the controls idle and changes nothing else |
| Interaction.Controls.Zoom | midori04/app.js:202-207 | a wheel event starts the animation from the camera's current z, toward a target in [5, 15] given by ZoomTarget |
| Interaction.ToggleTwice | midori04/app.js:170-172 | two double-clicks restore the original mode; the drag flag, the last pointer position and the camera are unchanged |
| Interaction.EndDraggingIdempotent | midori04/app.js:198-200 | releasing twice leaves the same state as releasing once: idle, and mode and last position untouched |
| Interaction.DragGesture | midori04/app.js:174-196 | a press followed by move events on the real controls leaves a drag under way in the same mode, the camera as FollowPath says, which is one drag from the press point to the last point, and the last pointer position at the last point (at the press point when there was no move) |
| Bamboo.Tick | midori04/app.js:121-130 | a frame keeps three buffer entries per particle and the particle count |
| Bamboo.TickParticle | midori04/app.js:121-129 | per particle and axis: the new coordinate is the old one plus the velocity from before the frame; the component is negated if the moved coordinate is below -250 or above 250 and unchanged otherwise; its magnitude is preserved; lengths are unchanged |
| Bamboo.Advanced | midori04/app.js:121-124 | moving the buffer keeps one entry per coordinate; AdvancedAt gives each entry |
| Bamboo.Bounced | midori04/app.js:126-129 | reflection keeps one velocity per particle and the magnitude of every component; a particle whose moved coordinates are all within [-250, 250] keeps its velocity |
| Bamboo.AdvancedAt | midori04/app.js:122-124 | entry 3j + k of the moved buffer is the old entry plus component k of particle j's velocity |
| Bamboo.InitialContained | midori04/app.js:90-99 | the page's initial ranges (coordinates in [-250, 250], velocity components in [-1, 1]) satisfy the per-axis invariant Contained |
| Bamboo.TickContained | midori04/app.js:121-129 | a frame preserves Contained on every axis of every particle |
| Bamboo.FirstTickWithinOneUnit | midori04/app.js:90-130 | from the initial ranges, one frame leaves every coordinate in [-251, 251] |
| Bamboo.TicksWithinOneUnit | midori04/app.js:117-135 | from the initial ranges, every coordinate stays in [-251, 251] and every velocity component in [-1, 1] after any number of frames |
| Bamboo.BambooTick | midori04/app.js:119-130 | the in-place loop leaves the buffer and the velocities equal to Tick of their old values |
| Bamboo.MoveParticle | midori04/app.js:122-129 | the loop body moves only particle i/3's three coordinates, by its old velocity; it then sets only that particle's velocity to the reflection against the moved coordinates |
| Cubes.Cube.constructor | midori04/app.js:47-53 | a cube is created at the given position |
| Cubes.Drifted | midori04/app.js:69-71 | a frame keeps one position per cube |
| Cubes.DriftedFrames | midori04/app.js:69-71 | any number of frames keeps one position per cube |
| Cubes.DriftedFramesUniform | midori04/app.js:69-71 | after n frames each cube has moved by exactly n times its velocity |
| Cubes.DriftIsUnbounded | midori04/app.js:69-71 | with a positive x velocity, a cube passes any x bound once enough frames have run; nothing turns it back |
| Cubes.Drift | midori04/app.js:69-71 | each cube's position moves by the velocity with the same index; the velocities are not changed |

## Left out

- Scene construction through the rendering library is not modelled, because it is foreign library calls with no logic of the page's own. This covers `addSphere`, `addImage`, the empty `addGridHelper`, materials, textures, `BufferGeometry`, `Float32BufferAttribute` and setting `needsUpdate`.
- Rendering and frame scheduling are not modelled: `renderer.render`, `requestAnimationFrame` and `performance.now()`. Time enters as the `elapsed` parameter, and one frame is one call.
- The sphere's per-frame turn (`rotation.y += 0.01` in `animate`) and the start button's click handler are not modelled. Both are presentation: the handler only starts the loops and hides the button.
- Random initialisation with `Math.random()` is not modelled. Initial positions and velocities are inputs. `Bamboo.Initial` states the ranges the page draws from, and the bamboo bounds assume them.
- DOM event wiring is not modelled: listener registration, `preventDefault` and the user-agent test for mobile devices. A touch handler passes the coordinates of `touches[0]` to the same handler, so it is the same method here. On mobile the page registers no wheel listener; that gap is kept by not modelling the registration.
- Float32 rounding of the position buffer and the IEEE behaviour of `Math.pow` are not modelled. The model uses exact reals, so the final snap to `endZ` in `RunZoomStep` gives the value interpolation at fraction 1 already gives.
- Overlapping zoom animations from repeated wheel events are not modelled. This is an interleaving of independent frame callbacks, not sequential logic; each animation is modelled on its own.
- `maxRotation` is declared but never used by the page. Rotation is not clamped here either.
- Interaction.Controls.constructor: `lastX` and `lastY` are `undefined` until the first press. They start at 0 here. A move with no drag under way never reads them.
- The `elapsed` value may be negative, because a frame timestamp can precede the start time. ZoomStep accepts it; its "between startZ and endZ" and monotonicity results are stated for non-negative elapsed.
