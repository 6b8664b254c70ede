# StickyCamera2D, modelled in Dafny

`StickyCamera2D` is a Godot `Camera2D` node. It follows a target node and
leads a little toward the mouse pointer. It also zooms in and out in steps on
input events. Every frame it eases its position and zoom toward where they
should be. This project models the controller logic under the engine
plumbing. Every `float` is read as a `real`.

- `Vectors`: Godot's `Vector2` and the operators the camera uses. `MathF.Sqrt`
  is a parameter `sqrt` that satisfies `IsSqrt`: for x >= 0 it returns a
  non-negative root whose square is x. `Normalized` follows Godot, so the
  zero vector stays zero and any other vector is divided by its length.
- `ZoomControl`: the desired zoom level `_zoom` and the three zoom actions,
  plus the `Clamp` helper.
- `ViewportMetrics`: the viewport centre and the aspect-correction vector
  computed from the viewport size.
- `LookAhead`: `CalcCameraPosition`, the point the camera aims for.
- `Smoothing`: Godot's `Lerp` and the guarded per-frame step
  `if (!a.IsEqualApprox(b)) a = a.Lerp(b, t)`.
- `StickyCamera`: the node as a class with the source's fields. Its methods
  are the handlers the engine calls. A `processing` flag stands in for
  `SetProcess`, and `Frame` is the engine calling `_Process` only while that
  flag is on. The `Valid` invariant says three things:
  - the camera processes only while it has a target;
  - the desired zoom is uniform and within [0.5, 4];
  - the applied zoom is uniform.

Two behaviours of the code are easy to miss:

- **Lerp weight.** The weight `delta * 4` is not clamped to 1. A frame of
  exactly 0.25 s lands on the destination. A longer frame passes it, and a
  frame over 0.5 s ends up further away than it started (`LerpRealOvershoots`,
  `LerpDiverges`).
- **Square viewport.** A square viewport takes the `else` branch and gives
  (1, 1). So at least one component of the aspect vector is 1, and
  possibly both.

## Model

| member | source | states |
|---|---|---|
| ZoomControl.Clamp | StickyCamera2D.cs:117-120 | below the range gives `min`, above it gives `max`, inside it the value itself; with `min <= max` the result always lies in [min, max] |
| ZoomControl.ZoomAfter | StickyCamera2D.cs:93-115 | an unpressed event, or a pressed one matching no action, leaves the zoom alone; a pressed event matching any of the three actions yields a uniform level in [0.5, 4] |
| ZoomControl.ZoomAfterKeepsLevel | StickyCamera2D.cs:98-114 | one event keeps a uniform level in [0.5, 4] uniform and in range |
| ZoomControl.ZoomAfterAllKeepsLevel | StickyCamera2D.cs:93-115 | any sequence of events, handled in order from a valid level such as the initial (1, 1), leaves the level uniform and in [0.5, 4] |
| ZoomControl.ZoomResetRestores | StickyCamera2D.cs:111-114 | a pressed ZoomReset (without ZoomIn or ZoomOut) yields (1, 1) whatever the prior level |
| ZoomControl.ZoomPrecedence | StickyCamera2D.cs:101-111 | an event matching ZoomIn acts as ZoomIn alone whatever else it matches; one matching ZoomOut but not ZoomIn acts as ZoomOut alone |
| ZoomControl.ZoomStepBounded | StickyCamera2D.cs:101-110 | from a valid level ZoomIn raises the level by at most 0.1 and never lowers it; ZoomOut lowers it by at most 0.1 and never raises it |
| ZoomControl.ZoomInStep | StickyCamera2D.cs:101-105 | from a valid level a pressed ZoomIn gives the uniform level old + 0.1, or 4 if that would pass 4 |
| ZoomControl.ZoomOutStep | StickyCamera2D.cs:106-110 | from a valid level a pressed ZoomOut, without ZoomIn, gives the uniform level old - 0.1, or 0.5 if that would fall below 0.5 |
| ZoomControl.RepeatedZoomIn | StickyCamera2D.cs:101-105 | n presses of ZoomIn from a valid level z give the uniform level z + 0.1 n, or 4 once that would exceed 4 |
| ZoomControl.ZoomInSaturates | StickyCamera2D.cs:101-105 | at (4, 4) a further ZoomIn leaves the level unchanged |
| ZoomControl.RepeatedZoomOut | StickyCamera2D.cs:106-110 | n presses of ZoomOut from a valid level z give the uniform level z - 0.1 n, or 0.5 once that would fall below 0.5 |
| ZoomControl.ZoomOutSaturates | StickyCamera2D.cs:106-110 | at (0.5, 0.5) a further ZoomOut leaves the level unchanged |
| ZoomControl.FiftyZoomInsFromDefault | StickyCamera2D.cs:101-105 | fifty ZoomIn presses from (1, 1) stop at (4, 4), not (6, 6) |
| ZoomControl.InitialZoomOnGrid | StickyCamera2D.cs:23 | the initial level (1, 1) is a multiple of 0.1 in [0.5, 4] |
| ZoomControl.ZoomAfterStaysOnGrid | StickyCamera2D.cs:101-114 | an event takes a level that is a multiple of 0.1 in [0.5, 4] to another such level |
| ZoomControl.ReachableLevelsOnGrid | StickyCamera2D.cs:93-115 | every level reachable by events from a grid level, such as (1, 1), is one of the 36 multiples of 0.1 from 0.5 to 4 |
| ViewportMetrics.ViewportCenter | StickyCamera2D.cs:34 | the centre is the point that, doubled, gives the viewport size |
| ViewportMetrics.AxisScaling | StickyCamera2D.cs:36-43 | for a positive size both components are at least 1 and at least one of them is exactly 1 |
| ViewportMetrics.AxisScalingByOrientation | StickyCamera2D.cs:36-43 | a wide viewport gives (1, W/H), a tall one (H/W, 1), a square one (1, 1) |
| ViewportMetrics.AxisScalingEqualisesSides | StickyCamera2D.cs:34-43 | the scaling stretches both sides to the longer side's length, so the scaled half-extents are equal |
| ViewportMetrics.AxisScalingUnique | StickyCamera2D.cs:36-43 | any vector with a component equal to 1, both components >= 1, and equal scaled sides is the computed scaling |
| LookAhead.Min | StickyCamera2D.cs:69 | the result is one of the two arguments and no greater than either |
| LookAhead.CalcCameraPosition | StickyCamera2D.cs:55-71 | when the squared scaled pointer offset is at most 200 squared, the result is exactly the target position |
| LookAhead.LeadTowardPointer | StickyCamera2D.cs:60-70 | past the dead zone, the result is the target plus a positive multiple of the scaled pointer offset; its distance from the target is min(sqrt(lenSq) - 200, 100), which lies in (0, 100] |
| LookAhead.LeadSaturates | StickyCamera2D.cs:68-70 | once the scaled pointer offset is 300 or longer, the camera leads by exactly 100 |
| LookAhead.LeadExample | StickyCamera2D.cs:60-70 | a scaled offset of (300, 0) with the target at the origin aims the camera at (100, 0) |
| LookAhead.FullHdOffset | StickyCamera2D.cs:34-60 | on a 1920x1080 viewport the pointer 300 pixels right of the centre has scaled offset (300, 0) |
| LookAhead.FullHdExample | StickyCamera2D.cs:29-71 | on a 1920x1080 viewport, with the pointer 300 pixels right of the centre and the target at the origin, the camera aims at (100, 0) |
| Vectors.NormalizedIsUnit | StickyCamera2D.cs:70 | a non-zero vector normalises to a positive multiple of itself whose squared length is 1 |
| Smoothing.LerpReal | StickyCamera2D.cs:84 | the remaining distance to the destination is the old one times (1 - weight) |
| Smoothing.Lerp | StickyCamera2D.cs:84 | the remaining offset to the destination is the old one scaled by (1 - weight); weight 0 stays put, weight 1 lands on the destination |
| Smoothing.LerpRealBetween | StickyCamera2D.cs:84 | with a weight in [0, 1] the scalar result lies between its two ends |
| Smoothing.LerpBetween | StickyCamera2D.cs:84 | with a weight in [0, 1] each component lies between the current and the desired value |
| Smoothing.LerpRealOvershoots | StickyCamera2D.cs:84 | with a weight above 1 the result ends on the far side of the destination |
| Smoothing.LerpDistance | StickyCamera2D.cs:84 | the squared distance left is multiplied by (1 - weight) squared |
| Smoothing.LerpCloser | StickyCamera2D.cs:84 | a weight in (0, 2) brings a value that is not at its destination strictly closer |
| Smoothing.LerpDiverges | StickyCamera2D.cs:84 | a weight above 2 moves a value that is not at its destination strictly further away |
| Smoothing.LerpKeepsUniform | StickyCamera2D.cs:86-87 | interpolating between uniform zoom vectors gives a uniform vector |
| Smoothing.Follow | StickyCamera2D.cs:83-84 | a value already at its destination is left unchanged; weight 1 lands on the destination |
| Smoothing.FollowBetween | StickyCamera2D.cs:83-84 | with a weight in [0, 1] one guarded step never passes the destination |
| Smoothing.FollowIsLerp | StickyCamera2D.cs:83-84 | with the guard read as exact equality, the guarded step always equals a plain `Lerp` |
| Smoothing.RepeatRemaining | StickyCamera2D.cs:83-87 | after n frames toward a fixed destination, the remaining offset is the first one scaled by (1 - weight)^n |
| StickyCamera.StickyCamera2D.constructor | StickyCamera2D.cs:12-23 | a new camera is not force-centred, has no target or viewport, does not process, and has desired zoom (1, 1); the invariant holds |
| StickyCamera.StickyCamera2D.CalculateCameraAxisScaling | StickyCamera2D.cs:29-44 | it records the viewport; the centre doubled is the size; the scaling is >= 1 in both components and 1 in one of them, and it stretches both sides to the longer one |
| StickyCamera.StickyCamera2D.SetTarget | StickyCamera2D.cs:49-53 | the target is the given node, and processing is on exactly when that node is not null |
| StickyCamera.StickyCamera2D.NextCamPos | StickyCamera2D.cs:81 | when force-centred, the target's position; otherwise the look-ahead point for the current pointer, centre, scaling and target |
| StickyCamera.StickyCamera2D.Process | StickyCamera2D.cs:76-88 | the position takes one guarded step toward `NextCamPos` with weight delta * 4, and the applied zoom one toward the desired zoom; when delta * 4 is 1 each lands exactly; the invariant is kept |
| StickyCamera.StickyCamera2D.Frame | StickyCamera2D.cs:76-88 | a camera that is not processing keeps its position and zoom; one that is processing moves as `Process` says |
| StickyCamera.StickyCamera2D.UnhandledInput | StickyCamera2D.cs:93-115 | the desired zoom becomes `ZoomAfter` of the old one and the event; the invariant is kept |
| StickyCamera.StickyCamera2D.Dispose | StickyCamera2D.cs:139-146 | when managed objects may be released, processing stops and target and viewport are cleared; otherwise nothing changes |
| StickyCamera.SetUpForFullHd | StickyCamera2D.cs:29-71 | a camera whose fields satisfy `CalculateCameraAxisScaling`'s contract on 1920x1080 aims at (100, 0) for the pointer 300 pixels right of the centre |
| StickyCamera.FullHdCamera | StickyCamera2D.cs:29-53 | after creation, the viewport set-up and `SetTarget`, the camera processes and aims at (100, 0) |
| StickyCamera.FullHdFirstFrame | StickyCamera2D.cs:76-88 | a quarter-second frame moves that camera from the origin exactly to (100, 0), and its zoom stays (1, 1) |

## Left out

- Engine calls are inputs, not modelled operations. `GetViewport`, `GetVisibleRect` and `GetMousePosition` become the `Viewport` object's fields, and `IsPressed`/`IsAction` become the fields of `InputEvent`.
- `_Notification` (StickyCamera2D.cs:122-134) is engine dispatch and is not modelled. Its two cases call `SetProcess(Target != null)` and `CalculateCameraAxisScaling`. `base.Dispose` is the engine's own and is not modelled either.
- The `[Export]` mechanism, rendering and the scene tree are not modelled. A `Target` set in the editor is treated like a target set by `SetTarget`.
- Float rounding: the 0.1 step, `MathF.Sqrt`, `Normalized` and `Lerp` are exact real arithmetic. `MathF.Sqrt` is a parameter characterised by `IsSqrt`, not a computed root.
- The `(float)delta` cast is not modelled; `delta` is a real.
- StickyCamera.StickyCamera2D.Process: `IsEqualApprox` is exact equality, so a value within Godot's tolerance of its destination still takes a step.
- StickyCamera.StickyCamera2D.Process: requires a viewport whenever the camera is not force-centred. The source would throw a null reference exception if `_Process` ran before `CalculateCameraAxisScaling`; that exception is not modelled.
- StickyCamera.StickyCamera2D.CalculateCameraAxisScaling: requires a positive viewport size. A zero-sized viewport would divide by zero in floating point, and that case is not modelled.
