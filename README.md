# Screen Distance v2: capture and warning core, in Dafny

This project models two sequential pieces of an Android app. The app estimates how
far the user's face is from the screen and shows a full-screen warning when the face
is too close.

- `Camera.dfy` (module `Camera`) models `CameraManager`:
  - `calculateDistance` converts a face bounding-box height `h` in pixels into
    `4000 / h` centimetres, or the sentinel `-1` when `h <= 0`.
  - The inner `FaceAnalyzer.analyze` turns the detector's result for one frame into
    exactly one value for the distance callback, and closes the frame on every path.
    The frame is a `Frame` object with a close counter. The callback is a
    `DistanceSink` that records every value it receives. The detector's result is a
    parameter, `Faces(heights) | Failure`.
  - `startFaceDetection` / `stopFaceDetection` are modelled on an abstract provider
    state: whether a provider was obtained, and the list of bound use cases. Start
    means "obtain the provider, unbind everything, then bind one image-analysis use
    case". A throwing bind is swallowed. Whether `bindToLifecycle` throws is a
    parameter.
- `Overlay.dfy` (module `Overlay`) models `WarningOverlay`:
  - The `isShowing` flag guards `addView` and `removeView`.
  - The class also holds counters of both calls, and the last distance written to the
    warning text.
  - A ghost log records every call issued. A small model of the window manager
    (`Attach`) rejects adding a view that is already attached and removing a view
    that is not attached.

`CameraManager` and `WarningOverlay` each have a pure state datatype and step
functions, and their methods are proved to follow those step functions. `Frame` and
`DistanceSink` stand in for CameraX's `ImageProxy` and the caller's distance callback:
they only record the calls made on them. Lemmas about `Run`, which applies a sequence of
operations, state the properties that hold over every call sequence. Distances are
`real` numbers, so the model says nothing about `Float` rounding.

Three facts about the code shape the model:

- `analyze` has no generation counter and discards no stale result.
- `bindToLifecycle` is called without checking the lifecycle phase.
- A bind exception is swallowed and not reported.

A `Start` operation of the camera model is one run of the provider-ready listener. It
is not the `startFaceDetection` call, which only registers that listener. The binding
is modelled with CameraX's meaning: `bindToLifecycle` adds a use case to those already
bound, so only the preceding `unbindAll` keeps at most one bound.

## Model

| member | source | states |
|---|---|---|
| Camera.CalculateDistance | app/src/main/java/com/example/screendistancev2/service/CameraManager.kt:117-124 | every height `<= 0` gives the sentinel `-1`; every positive height gives a positive distance `d` with `d * h == 4000` |
| Camera.CalculateDistanceDecreasing | app/src/main/java/com/example/screendistancev2/service/CameraManager.kt:111-124 | for `0 < h1 < h2` the distance of `h2` is positive and strictly smaller than that of `h1` (a bigger face is closer) |
| Camera.TwoHundredPixelsIsTwentyCentimetres | app/src/main/java/com/example/screendistancev2/service/CameraManager.kt:117-124 | a 200-pixel face is at 20 cm |
| Camera.ReportedDistance | app/src/main/java/com/example/screendistancev2/service/CameraManager.kt:86-100 | the reported value is the sentinel or positive; it is positive exactly when there is a first face with positive height; with at least one face it is `calculateDistance` of the first face's height |
| Camera.LaterFacesIgnored | app/src/main/java/com/example/screendistancev2/service/CameraManager.kt:87-93 | faces after the first never change the reported value, which is `calculateDistance(first)` |
| Camera.NoFaceOrFailureIsSentinel | app/src/main/java/com/example/screendistancev2/service/CameraManager.kt:94-100 | an empty face list and a detector failure both report `-1` |
| Camera.Deliveries | app/src/main/java/com/example/screendistancev2/service/CameraManager.kt:81-107 | a frame with an image yields exactly one callback value, the reported distance; a frame without one yields none; every value is the sentinel or positive |
| Camera.FaceAnalyzer.Analyze | app/src/main/java/com/example/screendistancev2/service/CameraManager.kt:80-108 | the frame's close count rises by exactly one on every path; the callback receives exactly `Deliveries(hasImage, outcome)` |
| Camera.Frame.constructor | app/src/main/java/com/example/screendistancev2/service/CameraManager.kt:80-82 | a frame handed to `analyze` carries or lacks an image and has not been closed yet |
| Camera.Frame.Close | app/src/main/java/com/example/screendistancev2/service/CameraManager.kt:101-106 | `imageProxy.close()` raises the frame's close count by exactly one |
| Camera.DistanceSink.constructor | app/src/main/java/com/example/screendistancev2/service/CameraManager.kt:36 | the callback passed to `startFaceDetection` has received nothing yet |
| Camera.DistanceSink.Deliver | app/src/main/java/com/example/screendistancev2/service/CameraManager.kt:93-99 | each `onDistanceResult(...)` call appends exactly its value to what the callback has received |
| Camera.FaceAnalyzer.constructor | app/src/main/java/com/example/screendistancev2/service/CameraManager.kt:78 | the analyzer holds the distance callback it was created with |
| Camera.StartStep | app/src/main/java/com/example/screendistancev2/service/CameraManager.kt:36-68 | after the provider listener runs, a provider is held, and only the new use case is bound if the bind returned; nothing is bound if it threw |
| Camera.StopStep | app/src/main/java/com/example/screendistancev2/service/CameraManager.kt:70-73 | after a stop nothing is bound, and whether a provider is held does not change |
| Camera.StopIdempotent | app/src/main/java/com/example/screendistancev2/service/CameraManager.kt:70-73 | stopping twice equals stopping once; stopping before any provider was obtained changes nothing |
| Camera.RunKeepsBindInvariant | app/src/main/java/com/example/screendistancev2/service/CameraManager.kt:53-62 | over every sequence of starts and stops, at most one use case is bound, and none is bound without a provider |
| Camera.LastOperationDecides | app/src/main/java/com/example/screendistancev2/service/CameraManager.kt:53-73 | after any history, in the order the listener runs and stops happen, a final stop leaves nothing bound; a final listener run leaves exactly its own use case bound, or nothing if its bind threw |
| Camera.CameraManager.constructor | app/src/main/java/com/example/screendistancev2/service/CameraManager.kt:26 | a new manager holds no provider and has nothing bound |
| Camera.CameraManager.StartFaceDetection | app/src/main/java/com/example/screendistancev2/service/CameraManager.kt:36-68 | the new state is `StartStep` of the old one, and the bind invariant is kept |
| Camera.CameraManager.StopFaceDetection | app/src/main/java/com/example/screendistancev2/service/CameraManager.kt:70-73 | the new state is `StopStep` of the old one: nothing bound, provider unchanged |
| Overlay.ShowStep | src/main/java/com/example/screendistancev2/service/WarningOverlay.kt:50-58 | show makes the overlay showing and the displayed distance `d`; it adds one `addView` only when it was hidden; it never removes; it keeps the add/remove balance |
| Overlay.HideStep | src/main/java/com/example/screendistancev2/service/WarningOverlay.kt:63-69 | hide makes the overlay hidden; it adds one `removeView` only when it was showing; the displayed distance is untouched; when already hidden the state is unchanged |
| Overlay.Issued | src/main/java/com/example/screendistancev2/service/WarningOverlay.kt:50-69 | an operation issues `addView` exactly when it is a show on a hidden overlay, and `removeView` exactly when it is a hide on a showing overlay; a show ends with setting the text to its distance, and a hide sets no text |
| Overlay.StepAccepted | src/main/java/com/example/screendistancev2/service/WarningOverlay.kt:50-69 | the calls of one show or hide are accepted by the window manager, which ends with the view attached exactly when the overlay is showing |
| Overlay.CountersMatchLog | src/main/java/com/example/screendistancev2/service/WarningOverlay.kt:50-69 | over any call sequence, the add and remove counters advance by exactly the number of `addView` and `removeView` calls issued |
| Overlay.RunBalanced | src/main/java/com/example/screendistancev2/service/WarningOverlay.kt:23-24 | over any call sequence, `addCount - removeCount` is 1 while showing and 0 while hidden |
| Overlay.SurfaceNeverMisused | src/main/java/com/example/screendistancev2/service/WarningOverlay.kt:23-24 | over any call sequence, the window manager never sees a second `addView` of an attached view or a `removeView` of a detached one; at the end the view is attached exactly when `isShowing` holds |
| Overlay.RunLastDistance | src/main/java/com/example/screendistancev2/service/WarningOverlay.kt:50-69 | after any call sequence, the displayed distance is the one passed to the latest show; hides never change it |
| Overlay.WarningOverlay.constructor | src/main/java/com/example/screendistancev2/service/WarningOverlay.kt:24 | a new overlay is hidden, has issued no call, and shows the layout's initial text |
| Overlay.WarningOverlay.Show | src/main/java/com/example/screendistancev2/service/WarningOverlay.kt:50-58 | the new state is `ShowStep` of the old one; the log grows by the calls issued; the counters count the log's adds and removes, balance, and the window manager accepts every call |
| Overlay.WarningOverlay.Hide | src/main/java/com/example/screendistancev2/service/WarningOverlay.kt:63-69 | the new state is `HideStep` of the old one; when already hidden neither the state nor the log changes |

## Left out

- Keep-only-latest backpressure: `CameraManager.kt:44` only configures it, and the frame queue is in CameraX, which is not part of this model.
- Threading and asynchrony are not modelled. This covers the single-thread analysis executor, the main-executor provider listener, and the detector's Task listeners. Each start listener, stop call and frame analysis is one sequential step.
- Camera.FaceAnalyzer.Analyze: does not capture that the callback runs before the frame is closed, because the callback and the frame are separate objects with separate records.
- `Float` arithmetic: distances are exact reals, so rounding and the `Int` to `Float` conversion of large heights are not modelled.
- The `DecimalFormat("#.#")` text: the overlay stores the raw distance, not the formatted string.
- Camera.StartStep: only `bindToLifecycle` throwing is modelled. An exception from `unbindAll` inside the same `try`, and one from `cameraProviderFuture.get()` outside it, are not.
- Overlay.WarningOverlay.Show: does not model `addView` throwing. In the source `isShowing` is set before the call, so a throwing `addView` would leave the flag set.
- Overlay.WarningOverlay.Hide: does not model `removeView` throwing. In the source `isShowing` is cleared before the call, so a throwing `removeView` would leave the flag cleared.
- Camera.LastOperationDecides: holds in the order in which provider listeners and stops run. In the service a start is launched asynchronously and a stop runs at once, so a listener still pending at a stop can bind afterwards; that interleaving is not modelled.
- The front-camera selector, the lifecycle owner passed to `bindToLifecycle`, the detector's speed settings and the window layout parameters are platform configuration with no logic.
- The service orchestration, the proximity sensor, the lifecycle adapter and the permission flow are not part of this model. This includes `DistanceMonitoringService.kt`, `ProximitySensorManager.kt`, `ServiceLifecycleOwner.kt` and `MainActivity.kt`, and with them the distance threshold test.
