# Scene framing and orientation core of the flood splat viewer

The viewer shows a streamed Gaussian-splat scene (`.ksplat`, `.splat` or `.ply`) and
keeps its camera usable while the scene arrives. This project models, in Dafny, the
part of `src/App.js` that decides where the camera goes and which way is up, and proves
what that code promises:

- **Format guessing** (`guessFormat`): a lower-cased suffix test that picks KSplat,
  Splat or Ply, or nothing (module `Formats`, with the lower-casing and splitting
  helpers in `Text`).
- **Scene naming**: the part of the URL after its last `/`, or `"scene"` when that
  part is empty (`Formats.SceneName`).
- **Bounds accumulation** (`getSceneBounds`): a fold over the traversed nodes that
  unions every box passing the x-only finiteness filter, summarised as centre, size
  and diagonal (`BoundsAccumulation`, written as the in-place loop
  `GetSceneBounds` and specified by the fold `Accumulate`).
- **Retry-until-ready framing** (`fitCameraToScene`): the counter that reschedules a
  call on the next animation frame up to 30 times, then applies a fixed fallback view
  (`Retry`), and the camera placement itself (`Framing`).
- **Up-axis handling** (`setCameraUp`, `applyOrientation` and the Z/Y heuristic run
  after a load): the tag-to-rotation and tag-to-up tables, and the strict
  `size.z > size.y * 1.5` test (`Orientation`).
- **Key capture** (`captureBlocker`): which key events are kept away from the viewer
  while a form field or the report modal has the input (`KeyCapture`).
- **The viewer session** (`ViewerSession`): the camera and the viewer are classes whose
  fields the methods update in place, as the code does. The queue of framing calls
  waiting for the next animation frame is the field `pending`, holding the counter each
  waiting call will run with. `RunFrame` runs one frame's worth of them.

Numbers are exact reals. Angles are whole quarter turns, applied in THREE's default
X-Y-Z Euler order. `Math.sqrt`, `Math.tan` and `Vector3.normalize` are given to the
model as a `Numerics` record. The model assumes only what `Geometry.Sound` states:

- an exact non-negative square root that is zero only at zero;
- a positive tangent for fields of view strictly between 0 and 180 degrees;
- a unit view direction pointing along (-0.9, 0.6, -0.9).

Two places where the code does less than its evident intent; the model follows the
code:

- **Framing is not idempotent from the first call.** Framing is meant to be
  idempotent, with the distance taken from a 45-degree field of view. The code
  computes the distance from the camera's field of view on entry, and only then sets
  it to 45 degrees (`src/App.js:98-108`). So the same bounds give the same camera only
  from the second framing on. `Framing.FrameStableFromSecondCall` proves that. For
  bounds with a positive extent, whenever the entry field of view has a different
  tangent, `Framing.FirstFramingMayMove` proves that the second framing moves the
  camera.
- **Retry chains are not superseded.** A new framing request is meant to supersede
  the one in flight. The code starts two independent chains per load
  (`src/App.js:301-302`) and two per orientation change (`src/App.js:36-37`), and
  cancels none. The model queues every chain. `Retry.QueueDrains` proves that the queue
  still empties within 31 frames, whatever the bounds do. The fallback therefore
  comes once per chain, not once per load. When nothing was queued and the bounds are
  not yet ready, `SceneLoaded` leaves the queue `[1, 0]`: the call the load ran
  rescheduled with counter 1, and the second chain waits with counter 0. If the
  bounds never become ready, the first chain falls back in frame 30 and the second in
  frame 31, so the fallback view is applied twice.

One further observation, proved as `Orientation.CameraUpCrossesRotatedAxis`. For "Z"
(and "X"), the scene rotation turns the asset's tagged axis onto world +Y. The camera
up, however, is set to that same axis in world coordinates, which is perpendicular to
where the rotation put it. The model states this as the code has it.

## Model

| member | source | states |
|---|---|---|
| Text.LowerChar | src/App.js:44 | the modelled lower-casing turns `A`-`Z` into `a`-`z` and the Kelvin sign into `k`, leaves every other character as it is (see "## Left out"), and never yields an upper-case ASCII letter |
| Text.Lower | src/App.js:44 | the modelled lower-casing of a string lowers each character in place and so keeps the length (see "## Left out") |
| Text.LowerIdempotent | src/App.js:44 | lower-casing twice is lower-casing once |
| Text.Split | src/App.js:298 | `split("/")` yields at least one piece, no piece holds the separator, and a string without it splits into itself |
| Text.JoinSplit | src/App.js:298 | joining the pieces of a split with the separator gives back the string |
| Text.LastPieceIsFinalSegment | src/App.js:298 | the last piece of a split is a separator-free suffix that is the whole string or follows a separator |
| Formats.ExtensionsExclusive | src/App.js:45-47 | no string ends with two of `.ksplat`, `.splat`, `.ply`, so the order of the tests cannot change the answer |
| Formats.Extension | src/App.js:45-47 | the suffixes the three tests look for: `.ksplat`, `.splat` and `.ply` |
| Formats.Normalized | src/App.js:44 | the string the suffix tests run on is `""` for a missing name, as long as the name otherwise, and holds no upper-case ASCII letter |
| Formats.GuessFormat | src/App.js:43-49 | the guess is format `g` exactly when the lower-cased input (empty when absent) ends with `g`'s extension; no guess otherwise |
| Formats.GuessFormatOfExtension | src/App.js:43-49 | any name whose suffix lower-cases to a format's extension is guessed as that format |
| Formats.GuessFormatIgnoresCase | src/App.js:44 | the guess does not depend on letter case |
| Formats.UpperCaseKSplatExample | src/App.js:44-45 | `"A.KSPLAT"` is KSplat, not Splat |
| Formats.KelvinKSplatExample | src/App.js:44-45 | `"a.\u212ASPLAT"` (Kelvin sign) lower-cases to `.ksplat` and is KSplat |
| Formats.LowerCaseKSplatExample | src/App.js:45 | `"flood.ksplat"` is KSplat |
| Formats.NoNameExamples | src/App.js:44-48 | a missing or empty name has no format |
| Formats.GuessFormatNoHint | src/App.js:48 | a name whose last character is neither `t` nor `y` in any case has no format |
| Formats.SceneName | src/App.js:298 | an empty URL or one ending in `/` is named `"scene"`; otherwise the name is the non-empty, slash-free final segment of the URL |
| Formats.SceneNameWithoutSlash | src/App.js:298 | a non-empty URL without `/` is its own name |
| Formats.SceneNameOfPath | src/App.js:298 | `dir/file` is named `file` for a non-empty slash-free `file`, and `dir/` is named `"scene"` |
| Formats.SceneNameOfFileExample | src/App.js:298 | `"https://h/f.ply"` is named `"f.ply"` |
| Formats.SceneNameFallbackExamples | src/App.js:298 | a URL ending in `/`, and the empty URL, are named `"scene"` |
| KeyCapture.Suppresses | src/App.js:180-190 | an event is suppressed exactly when its lower-cased key is one of w, a, s, d, the four arrows, space, y, z, r and the modal is open or the lower-cased target tag is input, textarea or select |
| KeyCapture.ListsAreLowerCase | src/App.js:174-182 | every blocked key name and every form tag is its own lower-case form, so each of them can equal a lower-cased key or tag |
| KeyCapture.SuppressesIgnoresCase | src/App.js:181-184 | suppression does not depend on the letter case of tag or key |
| KeyCapture.OtherEventsPass | src/App.js:183-185 | with the modal closed and a non-form target, or with no key name, the event passes |
| KeyCapture.OrientationHotkeysHeldInModal | src/App.js:174-185 | upper-case Y, Z and R are held back while the modal is open |
| KeyCapture.FormFieldExamples | src/App.js:174-190 | ArrowUp into an `INPUT` is held back; Enter into it, or `w` into a `DIV`, passes |
| BoundsAccumulation.Contributes | src/App.js:63-66 | a node counts exactly when its box was computed without throwing and both `min.x` and `max.x` are finite |
| BoundsAccumulation.Include | src/App.js:63-66 | one traversal step: the running box and a passing node's box both lie inside the result, and a node that threw or fails the filter leaves the running box as it was |
| BoundsAccumulation.Accumulate | src/App.js:54-69 | the running box after the traversal, folded over the nodes in order from a fresh `Box3`; `AccumulateContains`, `AccumulateIsLeast` and `AccumulateNoPoints` characterise it |
| BoundsAccumulation.IsEmpty | src/App.js:71 | `Box3.isEmpty`: a fresh box, or one whose maximum lies below its minimum on some axis |
| BoundsAccumulation.Summarize | src/App.js:70-73 | zero centre, size and diagonal for an empty box, otherwise the midpoint, `max - min` and the length of the size; `EmptySceneBounds` and `NonEmptyBoundsGeometry` state its properties |
| BoundsAccumulation.SceneBounds | src/App.js:51-74 | null without a scene root, otherwise the summary of the fold over its nodes |
| BoundsAccumulation.Ready | src/App.js:82 | bounds are ready exactly when they are present and their diagonal is not zero, the negation of `!b \|\| b.diag === 0` |
| BoundsAccumulation.Union | src/App.js:63 | the union contains the new box and the running box |
| BoundsAccumulation.GetSceneBounds | src/App.js:51-74 | the in-place traversal returns null without a scene, and otherwise the summary of the fold over its nodes |
| BoundsAccumulation.AccumulateContains | src/App.js:55-69 | the accumulated box contains every node box that passes the filter |
| BoundsAccumulation.AccumulateIsLeast | src/App.js:55-69 | any box containing all passing node boxes contains the accumulated box |
| BoundsAccumulation.AccumulateNoPoints | src/App.js:55-69 | nothing is accumulated exactly when no node passes the filter |
| BoundsAccumulation.SkippedNodeHasNoEffect | src/App.js:63-68 | removing a node that threw or failed the x-only finiteness test changes nothing |
| BoundsAccumulation.EmptySceneBounds | src/App.js:71 | with no passing node, the result has zero centre, size and diagonal and is not ready |
| BoundsAccumulation.NonEmptyBoundsGeometry | src/App.js:72-73 | a non-empty box has `size = max - min >= 0`, the midpoint as centre, and a non-negative diagonal whose square is the squared length of the size |
| BoundsAccumulation.ReadyBoundsHaveExtent | src/App.js:73 | every scene's diagonal is non-negative; ready bounds have a positive diagonal and a positive extent along some axis |
| BoundsAccumulation.UnitCubeShape | src/App.js:70-73 | a single box from (-1,-1,-1) to (1,1,1) is centred at the origin with size (2,2,2) and diagonal `sqrt(12)` |
| BoundsAccumulation.UnitCubeBounds | src/App.js:70-73 | with exact numerics that box has `diag * diag = 12` and is ready to frame |
| Retry.Decide | src/App.js:82-93 | a call frames exactly when the bounds are ready; otherwise it reschedules with `tries + 1` (at most 30) exactly when `tries < 30`, and falls back exactly when `tries >= 30` |
| Retry.Chain | src/App.js:79-93 | a retry chain from counter `t` has at most `31 - t` steps, every step is the decision for counter `t + k`, every step but the last reschedules with the next counter, and a chain that stops before its frames run out stops by framing or falling back |
| Retry.ChainFromZero | src/App.js:82-93 | a chain from 0 evaluates the bounds at most 31 times and falls back at most once, as its 31st and last step, only after 31 not-ready evaluations |
| Retry.NeverReadyFallsBack | src/App.js:82-93 | bounds that are never ready make a chain from `t` run exactly `31 - t` evaluations ending in the fallback |
| Retry.ReadyChainFramesAtOnce | src/App.js:82-96 | ready bounds at the first evaluation frame and stop the chain |
| Retry.Advance | src/App.js:82-84 | a frame requeues no more calls than it ran, none when the bounds are ready, and only counters from 1 to 30 |
| Retry.Exhausted | src/App.js:86-93 | no more calls fall back in a frame than ran in it |
| Retry.AdvanceValues | src/App.js:82-93 | with ready bounds a frame requeues nothing and nothing falls back; otherwise it requeues, in order, `t + 1` for every waiting `t` below 30, the calls at 30 or more fall back, and each call does exactly one of the two |
| Retry.ExhaustedWhen | src/App.js:82-87 | calls fall back in a frame exactly when the bounds are not ready and some waiting counter has reached 30 |
| Retry.AdvanceAll | src/App.js:83-84 | a run of frames never adds calls to the queue, and after at least one frame every waiting counter lies between 1 and 30 |
| Retry.AdvanceRaises | src/App.js:84 | every requeued counter is at least one above any lower bound of the waiting counters, and nothing is requeued once that bound reaches 30 |
| Retry.AdvanceAllRaises | src/App.js:84 | after `k` frames every waiting counter is at least `k` above the starting lower bound, and the queue is empty once that passes the ceiling |
| Retry.QueueDrains | src/App.js:83-84 | whatever the bounds do, the frame queue is empty after 31 frames |
| Retry.QueueWhileRescheduling | src/App.js:82-84 | a single call whose evaluations all reschedule holds counter `t + k` after `k` frames |
| Retry.QueueFollowsChain | src/App.js:79-93 | while its chain goes on, the queue of a single call after `k` frames holds exactly the chain's `k`-th counter |
| Retry.ChainFallbackFrame | src/App.js:82-93 | that call falls back in frame `k` exactly when the chain's `k`-th step is the fallback |
| Retry.ChainEndEmptiesQueue | src/App.js:82-96 | once the chain has framed or fallen back, nothing is left queued |
| Retry.NeverReadyQueue | src/App.js:82-84 | with bounds never ready a single call waits with counter `t + k` after `k` frames until it reaches 30, and nothing is queued afterwards |
| Retry.AdvanceRescheduled | src/App.js:83-84 | a single call that reschedules is the only call of the next frame |
| Retry.AdvanceOne | src/App.js:84 | a single waiting call moves to the next frame as its chain decides |
| Framing.Distance | src/App.js:99 | the distance at which `1.2 * maxDim` spans the view: `dist * 2 * tan(fov / 2) = maxDim * 1.2` |
| Framing.Frame | src/App.js:96-117 | framing sets the field of view to 45, keeps the up vector, aims at the centre of the bounds and applies the roll; `FramedCamera` adds the clip planes and the position |
| Framing.Fallback | src/App.js:87-91 | the fallback stands at (3,2,3), looks at the origin and applies the roll, keeping up vector, field of view and clip planes |
| Framing.MaxDim | src/App.js:96 | the largest dimension is at least each of the three sizes and equal to one of them |
| Framing.FramedCamera | src/App.js:96-117 | after framing: fov 45, `near >= 0.01` and `near >= dist * 0.001` (equal to one), `far >= near + 1` and `far >= dist * 20` (equal to one), target the centre, position `2 * dist` along the view direction, up kept, roll applied |
| Framing.FrameDependsOnUpAndFov | src/App.js:96-113 | framing reads only the camera's up and the tangent of its field of view |
| Framing.FrameStableFromSecondCall | src/App.js:98-108 | a second framing of the same bounds equals framing at 45 degrees, and every later one repeats it |
| Framing.FirstFramingMayMove | src/App.js:98-108 | when the entry field of view's tangent differs from 45 degrees' and the bounds have a positive dimension, the second framing moves the camera |
| Framing.FramedCameraDistance | src/App.js:104-105 | the framed camera stands exactly `2 * dist` from the centre |
| Framing.DistancePositive | src/App.js:99 | a positive largest dimension gives a positive distance |
| Framing.ReadyBoundsFrameAtPositiveDistance | src/App.js:82-99 | ready bounds give a positive distance for every field of view between 0 and 180 degrees |
| Framing.FallbackFixed | src/App.js:87-91 | the fallback views the origin from (3,2,3), rolled, leaving lens and up alone, and applying it twice is applying it once |
| Framing.FitOutcome | src/App.js:79-119 | one call leaves a field of view with a positive tangent |
| Framing.ProcessQueue | src/App.js:84 | a frame of calls leaves a field of view with a positive tangent |
| Framing.ReadyQueueFrames | src/App.js:96-113 | with ready bounds one waiting call frames with the camera's own field of view, and two or more settle on the 45-degree framing |
| Framing.MissingQueueFallsBack | src/App.js:82-93 | with bounds not ready a frame leaves the camera alone unless some call reached the ceiling, and then shows the fallback view |
| Orientation.UpFor | src/App.js:16-18 | the camera up for a tag: +Z for "Z", +X for "X", +Y for every other tag |
| Orientation.RotationFor | src/App.js:28-30 | after the reset, a quarter turn backwards about X for "Z", a quarter turn about Z for "X", and no rotation otherwise |
| Orientation.UpAxisOf | src/App.js:309 | "Z" when the z extent exceeds one and a half times the y extent, "Y" otherwise |
| Orientation.UpIsUnitAxis | src/App.js:13-18 | every tag gets a unit up along an axis, and every tag but "Z" and "X" behaves as "Y" (identity rotation, up +Y) |
| Orientation.RotationLiftsTaggedAxis | src/App.js:28-30 | the rotation for a tag turns that tag's axis onto world +Y |
| Orientation.RotationKeepsLength | src/App.js:28-30 | the rotation for any tag preserves lengths |
| Orientation.CameraUpCrossesRotatedAxis | src/App.js:16-30 | for "Z" and "X" the camera up is perpendicular to where the rotation puts the tagged axis |
| Orientation.DetectUpAxis | src/App.js:306-314 | a choice is made exactly when bounds exist with a positive diagonal; it is "Z" exactly when `size.z > size.y * 1.5`, and "Y" otherwise |
| Orientation.UpAxisThreshold | src/App.js:309 | the test is strict: z at most 1.5 y is Y-up, anything more Z-up |
| Orientation.UpAxisScaleInvariant | src/App.js:309 | scaling the size by a positive factor does not change the choice |
| Orientation.DetectUpAxisIffReady | src/App.js:307 | with exact numerics a choice is made exactly when the bounds are ready to frame |
| ViewerSession.FramesCamera | src/App.js:79-119 | each frame of a run applies `ProcessQueue` to the calls the earlier frames left queued; its own contract keeps a positive tangent (see "## Left out"), and `FramesNeverReady` and `FramesReadyAtOnce` give its value |
| ViewerSession.FramesClearColor | src/App.js:118 | after a run of frames the clear colour is either the starting one or 0xf5f7fb |
| ViewerSession.FramesClearColorSet | src/App.js:82-118 | once a frame finds ready bounds with a call waiting, the clear colour is 0xf5f7fb from then on |
| ViewerSession.FramesNeverReady | src/App.js:82-93 | with bounds never ready a single queued call leaves the camera and colour alone until its counter reaches 30, and from that frame on the camera shows the fallback view |
| ViewerSession.FramesReadyAtOnce | src/App.js:82-118 | with bounds ready on the first frame a single queued call frames the camera there and sets the colour, and the later frames change nothing |
| ViewerSession.MissingSingleCall | src/App.js:82-93 | one not-ready frame of a single call falls back exactly when its counter is 30 or more, and otherwise leaves the camera alone |
| ViewerSession.EmptyQueueStays | src/App.js:83-84 | with nothing queued, nothing is ever queued by later frames |
| ViewerSession.Camera.LookAt | src/App.js:87 | the look-at moves and aims the camera and clears its roll, changing nothing else |
| ViewerSession.Camera.RotateZHalfTurn | src/App.js:91 | the half-turn roll toggles the roll and changes nothing else |
| ViewerSession.Viewer.constructor | src/App.js:204-219 | a new viewer looks at the origin from (-2.2, 1.8, -1.6), rolled, with identity rotation and an empty frame queue |
| ViewerSession.Viewer.SetCameraUp | src/App.js:13-20 | only the camera up changes, to the tag's vector |
| ViewerSession.Viewer.FitCameraToScene | src/App.js:79-119 | the step is the retry decision on the current bounds; the camera becomes `FitOutcome`; a rescheduled call is appended to the queue; the clear colour is set only when framing |
| ViewerSession.Viewer.ApplyOrientation | src/App.js:23-38 | without a scene nothing changes; otherwise the rotation is the tag's, the camera up is the tag's, one framing call has run and one more is queued with counter 0 |
| ViewerSession.Viewer.RunFrame | src/App.js:84 | a frame runs every queued call: the queue becomes `Advance`, the camera `ProcessQueue`, and the number of fallbacks is `Exhausted` |
| ViewerSession.Viewer.RunFrames | src/App.js:79-119 | after any run of frames the queue is `AdvanceAll` of the readiness of the per-frame bounds `BoundsOf` (empty after 31 frames), the camera is `FramesCamera` and the clear colour `FramesClearColor` of the starting state over those bounds |
| ViewerSession.Viewer.SettleOrientation | src/App.js:305-315 | the delayed step acts exactly when the heuristic chooses, and then on ready bounds: rotation and camera up are the tag's, the camera is framed with the tag's up, one chain is queued with counter 0 and the clear colour is set; with no choice nothing changes |
| ViewerSession.Viewer.SceneLoaded | src/App.js:298-302 | the name is the URL's scene name; one framing call runs, a rescheduled call and a second chain with counter 0 are queued, the clear colour is set exactly when the bounds are ready, and the rotation is kept |
| ViewerSession.ReorientZThenY | src/App.js:23-33 | orienting Z-up and then Y-up leaves the identity rotation and the camera up +Y |

## Left out

- `server.mjs` (static file serving, cross-origin isolation headers, port errors) is
  not part of this model: it is HTTP plumbing.
- The user interface is not modelled: `drawOverlay`, the JSX, React state and effects,
  modals, pins, random ids and timestamps. It is pixel drawing and UI state.
- The keydown handler that dispatches the y, z and r hotkeys (`src/App.js:160-167`)
  is not modelled. It only wires events to `ApplyOrientation` and
  `FitCameraToScene`, which are modelled. Its own form-field test is narrower
  (input and textarea only).
- The async scene load is left out: `addSplatScene`, `clearScenes`, the loading flag,
  the error message and `onPickFile` handing the guessed format to the loader. They
  are foreign calls and concurrency. `SceneLoaded` covers the steps after the scene
  is added.
- The 80 ms `setTimeout` before the orientation heuristic becomes a separate method,
  `SettleOrientation`, that the caller invokes. Real `requestAnimationFrame` timing is
  a frame counter: each `RunFrame` is one frame.
- Library internals become inputs or abstract effects:
  - A node's world box (`computeBoundingBox`, `applyMatrix4`, `Box3.setFromObject`) is
    an input of each frame's scene snapshot. The effect of the scene rotation on those
    boxes is therefore not derived.
  - `setCameraLookAt` becomes `Camera.LookAt`. It is assumed to set position and
    target and to clear any roll.
  - `updateProjectionMatrix` has no modelled state.
  - `setClearColor` records only the colour, not the alpha.
- The `try`/`catch` blocks around the roll and the clear colour are assumed not to
  throw. A throwing node traversal is modelled as a `Threw` node.
- The guards for a missing viewer and a missing camera, including the `?? 50` default
  field of view, are not modelled. The viewer and its camera always exist here.
- Floating point is replaced by exact reals. `isFinite` becomes two flags per node
  box. NaN and infinities are not modelled. `Math.sqrt`, `Math.tan` and `normalize`
  are the injected `Numerics`, and the model assumes only `Geometry.Sound` about them.
- LowerChar and Lower: only `A`-`Z` and U+212A are lowered; every other character
  is kept, and so is the length. `toLowerCase` lowers more: it maps 'À' to 'à', and
  U+0130 ('İ') to the two characters "i" and U+0307. Neither the suffix tests of
  `guessFormat` nor the key and tag tests of `captureBlocker` can tell the difference.
  All the strings they compare with are ASCII, and no other character lower-cases to
  ASCII text alone: U+0130 always brings the non-ASCII U+0307 with it.
- Radians become quarter turns. Only the angles the code uses occur.
- `NonEmptyBoundsGeometry`: it proves that the diagonal is zero exactly when the squared
  length of the size is zero, and that a zero size gives a zero diagonal. It does not
  prove the converse, that a zero diagonal forces a zero size. `ReadyBoundsHaveExtent`
  gives the positive direction: ready bounds have a positive size along some axis.
- `FitOutcome`, `ProcessQueue` and `FramesCamera`: their own contracts state only that
  the field of view keeps a positive tangent. What they do to the camera is stated by
  `FramedCamera`, `FallbackFixed`, `ReadyQueueFrames`, `MissingQueueFallsBack`,
  `FramesNeverReady` and `FramesReadyAtOnce`.
