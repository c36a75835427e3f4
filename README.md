# City-walk video generator: a Dafny model of its animation and capture logic

The system is a single React page (`app/page.jsx`). It draws a Three.js street scene in which a
character walks past traffic on a scrolling street, and it records seven seconds of the live
canvas into a WebM file with the browser's MediaRecorder. This project models the page's
sequential logic and proves properties of it:

- **Traffic** (`traffic.dfy`, module `Traffic`). `addCars` lays out twelve cars and `updateCars`
  advances each one per frame, wrapping at +-35. The car list is an `array<Car>` that
  `CarGroup.UpdateCars` updates in place. Its object invariant says that every car is on the track.
- **Parallax scroll** (`parallax.dfy`, module `Parallax`). This is the `forEach` over the scene's
  top-level children in `animate`. A tagged child moves +0.12 in z and is pulled back by 60 once
  it passes 30. `SceneGraph.ScrollParallax` mutates an `array<Node>` in place.
- **Gait** (`gait.dfy`, module `Gait`). `updateCharacter` is split into a pure pose function and
  a method that writes the pose into a `Rig` object. `Math.sin` and `Math.PI` are a parameter
  `Trig`, so only the pairing and scaling of the limbs is fixed.
- **Render tick** (`render_loop.dfy`, module `RenderLoop`). This is the body of `animate`: the
  clock advances 0.016, then the cars move, the character is posed and the scene scrolls.
- **Camera director** (`camera.dfy`, module `CameraDirector`). It covers the progress
  `min(1, elapsed/7000)`, the cubic ease-out, and the self-rescheduling keyframe. The keyframe
  chain is a recursive function over the times at which animation frames arrive.
- **Capture pipeline** (`capture.dfy`, module `Capture`). It covers the vp9 -> vp8 -> webm
  fallback, the chunk buffer and the status lifecycle "Idle" -> "Recording video..." ->
  "Finalizing..." -> "Done". The lifecycle lives in class `VideoGenerator`, whose object
  invariant ties the status to the recorder, the buffer and the live object URLs.

JavaScript numbers are modelled as Dafny `real`, which idealises floating point. `Math.random`
draws are an input sequence. Object URLs are natural numbers handed out by a counter. The
browser's live URL registry is a map from URL to blob: `createObjectURL` adds an entry and
`revokeObjectURL` removes one.

Some behaviours are absent from the code, and the model follows the code:

- Re-entry into `generateVideo` is not guarded by the function. Only the disabled button
  (app/page.jsx:158) prevents it, and a second call would start a second recorder. So the
  model does not claim an idempotent start. `GenerateVideo` requires `!isGenerating`, which is
  what the button guarantees its callers.
- The MIME fallback never checks plain `video/webm`: it is chosen whenever neither codec is
  supported. If the browser does not support it either, `new MediaRecorder(...)`
  (app/page.jsx:108) throws. By then `isGenerating` is already true and the status reads
  "Recording video..." (lines 91-92). Nothing catches the error, so the page stays in that
  state with the button disabled for good. The model does not follow this path (see
  "## Left out").
- There is no failure path. Nothing catches an error thrown by the capture calls.
- The leg angle is `0.6 * sin(t * 3.2)`, and the right leg's is `0.6 * sin(t * 3.2 + PI)`.
- Progress is only clamped from above (`Math.min(1, …)`); there is no lower clamp. Since frame
  times never precede the start, it makes no difference.

## Model

| member | source | states |
|---|---|---|
| `Traffic.LayoutCarShape` | app/page.jsx:304-306 | Car i starts at z = -30 + 5i. Even cars are in lane -2.3 with speed in [0.12, 0.20); odd cars are in lane 2.3 with speed in (-0.20, -0.12]. This assumes the random draw is in [0, 1). |
| `Traffic.LayoutCar` | app/page.jsx:304-306 | Car i is in the left lane exactly when i is even. For a draw in [0, 1), a car drives forward (positive speed) exactly when it is in the left lane. |
| `Traffic.Layout` | app/page.jsx:290-307 | The layout has exactly twelve cars. |
| `Traffic.LayoutOnTrack` | app/page.jsx:305 | Every car of the layout starts within [-30, 25], so on the track [-35, 35]. |
| `Traffic.Advance` | app/page.jsx:316-318 | A frame changes only a car's z; lane and speed are kept. |
| `Traffic.AdvanceMoves` | app/page.jsx:316-318 | A car moves by exactly its own speed, unless it passes the end it heads for. A positive-speed car beyond 35 goes to -35; a negative-speed car below -35 goes to 35. A car whose new z is within [-35, 35] is never wrapped. |
| `Traffic.AdvanceOnTrack` | app/page.jsx:316-318 | One frame keeps a car on [-35, 35], whatever its speed. |
| `Traffic.AdvanceAll` | app/page.jsx:315-319 | A frame keeps the number of cars. |
| `Traffic.Frames` | app/page.jsx:314-319 | Any number of frames keeps the number of cars. |
| `Traffic.FramesOnTrack` | app/page.jsx:314-319 | Cars that start on the track stay on it after any number of frames. |
| `Traffic.FramesKeepLanes` | app/page.jsx:314-319 | No number of frames changes a car's lane or speed. |
| `Traffic.LayoutStaysOnTrack` | app/page.jsx:290-319 | From the addCars layout, every car stays within [-35, 35] after any number of updates. |
| `Traffic.CarGroup.constructor` | app/page.jsx:287-311 | addCars builds the twelve-car layout from the random draws, in a counted loop. The group is on the track. |
| `Traffic.CarGroup.UpdateCars` | app/page.jsx:314-320 | The in-place loop leaves each car advanced by one frame. The on-track invariant is preserved. |
| `Parallax.Scroll` | app/page.jsx:68-73 | The parallax tag is kept. An untagged child is left exactly as it was. |
| `Parallax.ScrollAll` | app/page.jsx:68-73 | One frame keeps the number of children and every child's tag, and leaves every untagged child exactly as it was. |
| `Parallax.ScrollMoves` | app/page.jsx:70-71 | A tagged child moves +0.12, or +0.12 - 60 when the moved z exceeds 30. |
| `Parallax.ScrollKeepsWindow` | app/page.jsx:70-71 | One step keeps a child in (-30, 30]. |
| `Parallax.ScrollEntersWindow` | app/page.jsx:70-71 | A tagged child anywhere in (-30, 89.88] is inside (-30, 30] after one step. |
| `Parallax.ScrollFramesInWindow` | app/page.jsx:63-73 | After k frames, a tagged child that started in (-30, 30] is still in it. It has moved 0.12k less a whole number of 60s, so no overshoot accumulates. |
| `Parallax.UntaggedStaysPut` | app/page.jsx:68-69 | An untagged child never moves, however many frames pass. |
| `Parallax.SceneGraph.ScrollParallax` | app/page.jsx:68-73 | The in-place forEach applies one scroll step to every top-level child and to nothing else. |
| `Gait.Swing` | app/page.jsx:408 | For a sine within [-1, 1], the swing stays within +-0.6. |
| `Gait.Counter` | app/page.jsx:409 | For a sine within [-1, 1], the counter value stays within +-0.6. When sin(x + PI) = -sin(x), it is exactly the negated swing. |
| `Gait.GaitPose` | app/page.jsx:407-415 | The left leg gets the swing and the right leg the counter-phase value. The left arm is 0.7 x the right leg and the right arm is 0.7 x the left leg. |
| `Gait.MirroredStride` | app/page.jsx:408-414 | When sin(x + PI) = -sin(x), the right leg mirrors the left leg and the left arm mirrors the right arm. |
| `Gait.PoseBounds` | app/page.jsx:408-415 | For a sine within [-1, 1], legs stay within +-0.6, arms within +-0.42, and the torso within [1.75, 1.85]. |
| `Gait.Rig.constructor` | app/page.jsx:338 | A new rig has unrotated limbs and the torso at height 1.8. |
| `Gait.UpdateCharacter` | app/page.jsx:405-416 | Existing parts receive the gait pose for time t. Absent parts mean nothing happens. |
| `RenderLoop.Animate` | app/page.jsx:63-73 | One tick advances the clock by 0.016, advances every car, poses the character at the new time, and scrolls the scene. |
| `RenderLoop.ClockAfter` | app/page.jsx:62-64 | After n ticks the clock reads 0.016 n. |
| `RenderLoop.RunFrames` | app/page.jsx:62-77 | Starting from t = 0, n rescheduled ticks leave the clock at ClockAfter(n). The cars have gone through n frames and the on-track invariant still holds, the scene children have scrolled n times, and the character holds the pose for the final time. |
| `CameraDirector.Progress` | app/page.jsx:132 | Progress never exceeds 1 and is non-negative for non-negative elapsed time. It equals 1 exactly once 7000 ms have elapsed, and before that it is elapsed/7000. |
| `CameraDirector.Ease` | app/page.jsx:133 | The ease is 0 at p = 0 and 1 at p = 1. |
| `CameraDirector.EaseBounds` | app/page.jsx:133-134 | For p in [0, 1], the ease 1 - (1-p)^3 lies in [0, 1]. It is 0 at p = 0, and it equals 1 exactly at p = 1. |
| `CameraDirector.EaseMonotone` | app/page.jsx:133-134 | The ease never decreases as p grows within [0, 1]. |
| `CameraDirector.ReschedulesUntilDuration` | app/page.jsx:132-139 | The keyframe reschedules itself exactly when fewer than 7000 ms have elapsed. |
| `CameraDirector.Keyframes` | app/page.jsx:130-141 | The chain applies at most one keyframe per animation frame. |
| `CameraDirector.KeyframesInRange` | app/page.jsx:130-141 | For frame times at or after the start that never go back, every applied ease is in [0, 1], and the eases never decrease. |
| `CameraDirector.KeyframesSingleShot` | app/page.jsx:130-141 | If frame k is the first at or after 7000 ms, exactly k + 1 keyframes run. The last has ease 1 and all earlier ones are below 1. |
| `Capture.FirstSupportedIsFirst` | app/page.jsx:101-107 | The reference selection returns a supported preference with no supported one before it, or returns the fallback only when none is supported. |
| `Capture.ChooseMimeType` | app/page.jsx:101-107 | The chosen type is always vp9, vp8 or plain webm. A codec type is chosen only if it is supported. |
| `Capture.ChooseMimeTypeIsFirstSupported` | app/page.jsx:101-107 | The fallback chain equals the first supported entry of [vp9, vp8], else plain webm. |
| `Capture.ChooseMimeTypeOrder` | app/page.jsx:101-107 | vp9 wins when supported, then vp8. Plain webm is chosen exactly when neither codec is supported. |
| `Capture.Kept` | app/page.jsx:109-111 | The buffer holds no more chunks than were delivered. |
| `Capture.KeptNonEmpty` | app/page.jsx:110 | Every buffered chunk is non-empty and was delivered. |
| `Capture.KeptSnoc` | app/page.jsx:110 | A delivery is appended to the end of the buffer iff it is present and its size is > 0; otherwise the buffer is unchanged. |
| `Capture.KeptAppend` | app/page.jsx:109-111 | The buffer of a longer delivery history is the buffer of its first part followed by that of the rest, so arrival order is kept. |
| `Capture.Concat` | app/page.jsx:113 | The blob's size is the sum of the sizes of the buffered chunks. |
| `Capture.ConcatAppend` | app/page.jsx:113 | The blob's bytes are the chunks' bytes concatenated in buffer order. |
| `Capture.DroppingEmptyKeepsBytes` | app/page.jsx:109-113 | The finished file has exactly the bytes of all delivered chunks, in order: skipping empty chunks loses nothing. |
| `Capture.KeptExample` | app/page.jsx:109-113 | Chunks of sizes 0, 120 and 80 arriving in that order buffer as the last two, and the file is their concatenation. |
| `Capture.VideoGenerator.constructor` | app/page.jsx:15-17 | The page starts not generating, with status "Idle", no video URL and no live object URLs. |
| `Capture.VideoGenerator.GenerateVideo` | app/page.jsx:89-119 | Without a renderer, no state changes. Otherwise the call sets generating and status "Recording video...", and the previous URL is revoked before it is cleared. The buffer is emptied, and the recorder starts with the fallback-chain MIME type. |
| `Capture.VideoGenerator.OnDataAvailable` | app/page.jsx:109-111 | A present, non-empty chunk is appended to the buffer; anything else leaves it as it was. |
| `Capture.VideoGenerator.StopRecording` | app/page.jsx:143-145 | After the wait, the recorder is stopped and the status is "Finalizing...". |
| `Capture.VideoGenerator.OnStop` | app/page.jsx:112-118 | A new URL, never handed out before, refers to a blob of the buffered chunks in order, tagged with the session's MIME type. The status becomes "Done" and generating becomes false. That URL is the only live one. |
| `Capture.CaptureThree` | app/page.jsx:89-145 | A full capture with chunks of sizes 0, 120 and 80 ends "Done". The only live URL is the next fresh one, and it refers to a blob of the last two chunks with the chosen MIME type. |
| `Capture.TwoCaptures` | app/page.jsx:89-145 | In two captures in a row, the first file holds the non-empty chunks in order. Starting the second capture revokes the first URL, and the second file gets a different URL. |

## Left out

- Scene construction (`addStreet`, `addBuildings`, the meshes of `addCharacter`, `createShirtTexture`) is not modelled. It is only calls into Three.js and the canvas 2D API with fixed constants. The scene's top-level children appear only as `Parallax.Node` values (tag and z).
- The WebGL renderer, the draw call, the `requestAnimationFrame`/`cancelAnimationFrame` loop, the resize handler and teardown (app/page.jsx:53-86) are browser plumbing. They are not modelled; `RenderLoop.Animate` is one tick of the loop.
- The 7 s `setTimeout` wait is asynchronous scheduling. It is modelled as the single event `StopRecording`, so the model says nothing about wall-clock duration.
- `canvas.captureStream(30)`, the MediaRecorder options (6 Mbit/s) and the event delivery of MediaRecorder, `Blob` and `URL` are foreign browser APIs. They appear only as abstract values, an `isTypeSupported` parameter, and the recorder states that bound when events may arrive.
- The camera position and look-at formulas (app/page.jsx:135-138) depend on exact trigonometric values and are left out. Only progress, ease and rescheduling are modelled.
- Floating-point rounding is not modelled. All arithmetic is on exact reals, including the clock's repeated `+= 0.016`.
- React state updates are treated as immediate assignments, not batched renders.
- Capture.VideoGenerator.GenerateVideo: the model assumes that `canvas.captureStream` and the `MediaRecorder` constructor succeed, so it always ends with an active recorder. In the code, a throw there leaves `isGenerating` true and the status at "Recording video..." with no recorder; that stuck state is not modelled.
- `Capture.VideoGenerator.GenerateVideo` requires `!isGenerating`. The function itself has no such guard: re-entry is blocked only by the disabled button. The model therefore says nothing about a second call during a recording, such as two recorders whose callbacks would both fire.
- Gait.UpdateCharacter: the pose is stated in terms of the given `Trig` values, not real sines. So the concrete angles are not pinned down, only their pairing and scaling.
- The JSX markup and `app/layout.jsx` are presentation only and are not modelled.
