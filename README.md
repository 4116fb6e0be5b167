# react-native-painting-scanner: the decision logic, in Dafny

This project models the decision logic of the painting scanner. It does not
model the image processing, which is left to third-party code. The scanner has
three parts, and the model covers each:

- **The iOS camera view (`IPDFCameraViewController`).**
  - It picks the biggest detected rectangle and classifies it as good,
    bad angle or too far.
  - It accumulates a detection confidence, frame by frame.
  - Its run-state flags (`isStopped`, `isCapturing`, `forceStop`,
    `borderDetectFrame`, `lastDetectionRate`) are driven by `start`, `stop`,
    the border-detection timer, the app lifecycle notifications, camera
    frames, still-image captures, camera setup and the switch between the
    front and back camera, and the settable `enableBorderDetection` and
    `cameraViewType` properties.
  - `correctPerspective` shifts the corners, and `focusAtPoint` converts a
    view point to a point of interest.
  - The pure rules are in `CameraRules`. The view's state is a record in
    `CameraModel`, with one transition function per handler and an event
    stream (`Step`/`Run`). `CameraController.CameraView` is the class with the
    Swift fields: each method is proved to move its fields exactly as the
    matching transition function does.
- **The React Native scanner screen (`ScannerScreen`).**
  - The component state is a record, and every handler is a guarded
    transition on it (`setState` merges fields).
  - The string rules of `editAgain` and `render` are modelled as written:
    - stripping the data-URI prefix, which is JavaScript's `split(',')[1]`
      and may give `undefined`;
    - the 0.8 quality fallback;
    - the iOS JPEG data-URI prefix.
  - `ScreenRules` holds the rules, and `ScannerScreen.Screen` is the
    component as a class over that record.
  - `editAgain` awaits the native module, so it is split into the part up to
    the `await` (`EditAgainStart`) and the part after the promise settles
    (`EditAgainResume`).
- **The Android bridge module (`DocumentScannerModule`).**
  - `reapplyPerspectiveCrop` is an imperative method that tracks a ghost set
    of live native buffers.
  - It is proved to settle the promise exactly once, with the outcome given
    by the reference function `CropOutcome`, which covers:
    - dispatch on a `file://` or base64 input;
    - the order of the DECODE_ERROR, INVALID_COORDINATES and PROCESS_ERROR
      checks;
    - the TL, TR, BR, BL point order;
    - the CROP_ERROR catch block.
  - It is also proved to leak buffers in exactly one case. When JPEG encoding
    throws, the catch block frees neither the processed Mat nor the
    output buffer. A Mat counts as a buffer only while it holds pixels, so
    the empty Mats that the DECODE_ERROR and PROCESS_ERROR paths never
    release are not counted.
  - `getName` is the name that the screen's `NativeModules` lookup uses:
    `Bridge` connects the two sides.

The model proves several properties of the code as written, not just what it
was meant to do:

- With the default refresh rate, `start` never schedules the
  border-detection timer (`CameraModel.DefaultStartMakesNoTimer`).
- `stop` followed by `start` at an unchanged rate leaves no timer
  (`CameraModel.StopThenStartLeavesNoTimer`). So a dormant view never scans
  for a new rectangle unless the rate changes
  (`CameraModel.DormantViewNeverRedetects`).
- The Android `file://` stripping removes every occurrence in one pass, so it
  can leave a `file://` behind (`DocumentScanner.PathMayKeepScheme`).
- Setting `cameraViewType` before the first `setupCameraView` traps on the
  missing preview (`CameraModel.ViewTypeBeforeSetupTraps`). Once a setup
  has made the preview, no later event traps or replaces it
  (`CameraModel.PreviewIsKept`).
- An image data URI without a comma reaches Android as a null string and
  fails with CROP_ERROR (`Bridge.CommalessDataUriFails`).

Black boxes, each a parameter of the model:

- `hypot`: any function that is never negative. The argmax properties hold
  for every such function.
- The rectangle detector: the rectangles it returns are inputs to the events.
- `CIPerspectiveCorrection`: recorded symbolically in `CameraModel.UIImage`.
- On Android, the codecs and the transform: the `DocumentScanner.Natives`
  record. Each returns a value or throws.

Coordinates and CGFloat/double values are mathematical reals.

## Model

| member | source | states |
|---|---|---|
| CameraRules.Biggest | ios/PaintingScanner/IPDFCameraViewController.swift:453-474 | no rectangle for an empty list; otherwise one of the candidates, and none has a larger half-perimeter (top edge plus left edge) |
| CameraRules.BiggestIndexIsEarliestMax | ios/PaintingScanner/IPDFCameraViewController.swift:456-474 | the chosen index is maximal and strictly beats every earlier index: the first of several equal candidates wins, as the strict `<` starting from `rectangles[0]` gives |
| CameraRules.BiggestRectangle | ios/PaintingScanner/IPDFCameraViewController.swift:453-474 | the loop over the candidates, with its running best value and rectangle, returns exactly the reference choice `Biggest` |
| Geometry.HalfPerimeter | ios/PaintingScanner/IPDFCameraViewController.swift:460-468 | width plus height is at least each of the two distances it sums |
| Geometry.Distance | ios/PaintingScanner/IPDFCameraViewController.swift:462 | a `hypot` distance is never negative |
| CameraRules.TypeForRectangle | ios/PaintingScanner/IPDFCameraViewController.swift:483-498 | good without a view; bad angle iff one of the four edge differences exceeds 100; too far iff none does and one of the four frame gaps exceeds 150; good otherwise (each as an if-and-only-if) |
| CameraRules.AxisAlignedIsNeverBadAngle | ios/PaintingScanner/IPDFCameraViewController.swift:486-490 | an axis-aligned rectangle is never classified bad angle |
| CameraRules.HighEnoughAfter | ios/PaintingScanner/IPDFCameraViewController.swift:516-518 | a confidence of 0.5 per frame is high enough (strictly above 1.0) exactly from the third frame on |
| CameraRules.HighEnough | ios/PaintingScanner/IPDFCameraViewController.swift:516-518 | `rectangleDetectionConfidenceHighEnough`: a confidence counts as high enough exactly when it is strictly above 1.0 |
| CameraRules.CorrectPerspective | ios/PaintingScanner/IPDFCameraViewController.swift:410-415 | both left corners move 30 right; every other coordinate is unchanged |
| CameraRules.PointOfInterest | ios/PaintingScanner/IPDFCameraViewController.swift:258-262 | x times the view height gives back the point's y; one minus y, times the width, gives back its x |
| CameraRules.PointOfInterestRoundTrip | ios/PaintingScanner/IPDFCameraViewController.swift:258-262 | mapping the point of interest back to view coordinates recovers the tapped point |
| CameraRules.PointOfInterestInUnitSquare | ios/PaintingScanner/IPDFCameraViewController.swift:258-262 | a point inside the view maps into the unit square |
| CameraRules.FocusAtPoint | ios/PaintingScanner/IPDFCameraViewController.swift:252-284 | the focus point is set iff there is a device, it supports focus point and auto focus, locking succeeds and it supports continuous auto focus; the exposure point iff the same first three hold and exposure point and continuous auto exposure are supported; both to the computed point of interest |
| CameraModel.Start | ios/PaintingScanner/IPDFCameraViewController.swift:221-239 | not stopped; `lastDetectionRate` ends equal to the refresh rate; a new timer of interval ms/100 only when the two differed before; nothing else changes |
| CameraModel.Stop | ios/PaintingScanner/IPDFCameraViewController.swift:241-246 | stopped, the timer invalidated, nothing else changed |
| CameraModel.EnableBorderDetectFrame | ios/PaintingScanner/IPDFCameraViewController.swift:248-250 | a timer tick raises the detection flag and changes nothing else |
| CameraModel.BackgroundMode | ios/PaintingScanner/IPDFCameraViewController.swift:100-102 | resigning active sets `forceStop` and changes nothing else |
| CameraModel.ForegroundMode | ios/PaintingScanner/IPDFCameraViewController.swift:104-106 | becoming active clears `forceStop` and changes nothing else |
| CameraModel.SetRefreshRate | ios/PaintingScanner/IPDFCameraViewController.swift:51 | setting the refresh rate does not touch the timer |
| CameraModel.Initial | ios/PaintingScanner/IPDFCameraViewController.swift:51-79 | a fresh view has no preview, is stopped, not force-stopped, not capturing, on the back camera, with `lastDetectionRate` 100, no timer, confidence 0, the flag down, nothing remembered, notified or delivered |
| CameraModel.TimerInterval | ios/PaintingScanner/IPDFCameraViewController.swift:225 | the timer interval is the refresh rate divided by 100 (seconds times 100 give the rate back), and a positive rate gives a positive interval |
| CameraModel.SetBorderDetection | ios/PaintingScanner/IPDFCameraViewController.swift:25 | setting `enableBorderDetection` changes that field only |
| CameraModel.SetViewType | ios/PaintingScanner/IPDFCameraViewController.swift:41-45 | setting `cameraViewType` requires a preview, since the observer (`applyCameraViewType`, lines 197-206) force-unwraps it, and then changes only whether the black-and-white filter is in use |
| CameraModel.CreateGLKView | ios/PaintingScanner/IPDFCameraViewController.swift:108-127 | the first call with a GL context makes the preview at the view's bounds; an existing preview is never replaced, and without a context nothing changes |
| CameraModel.SetupCameraView | ios/PaintingScanner/IPDFCameraViewController.swift:129-151 | the preview is created first, whether or not a camera is found; with a camera at the requested position the confidence then restarts at 0; the remembered rectangle always stays |
| CameraModel.SetUseFrontCam | ios/PaintingScanner/IPDFCameraViewController.swift:31-39 | setting the same value changes nothing; a change stops, sets up and starts the view: running again, the preview created if missing, the rectangle and flag kept, the confidence 0 when a camera is found, and no timer unless the rate changed since the last `start` |
| CameraModel.SwitchRestartsTheCount | ios/PaintingScanner/IPDFCameraViewController.swift:31-39 | after a camera switch that keeps a remembered rectangle, the k frames that follow build the confidence from 0, so it is high enough exactly from the third |
| CameraModel.DefaultStartMakesNoTimer | ios/PaintingScanner/IPDFCameraViewController.swift:51-58 | a fresh view at the default rate of 100 gets no timer from `start` |
| CameraModel.StopThenStartLeavesNoTimer | ios/PaintingScanner/IPDFCameraViewController.swift:221-246 | `stop` then `start` at an unchanged rate runs the view with no timer |
| CameraModel.RateChangeReschedules | ios/PaintingScanner/IPDFCameraViewController.swift:221-239 | after a rate change, `start` schedules a timer of the new interval |
| CameraModel.DetectBiggest | ios/PaintingScanner/IPDFCameraViewController.swift:453-481 | returns `Biggest`; with a delegate and a result, appends exactly one `didDetectRectangle` with the result's classification; otherwise nothing changes |
| CameraModel.ProcessFrame | ios/PaintingScanner/IPDFCameraViewController.swift:522-553 | a frame refused by the guard changes nothing; with border detection, a raised flag replaces the remembered rectangle by the biggest candidate and lowers the flag, and the confidence grows by 0.5 with a remembered rectangle and drops to 0 without; the black-and-white filter runs `start` |
| CameraModel.RequestCapture | ios/PaintingScanner/IPDFCameraViewController.swift:286-318 | ignored while a capture is pending; a missing output or video connection clears `isCapturing` and calls the handler once with three nils; otherwise the capture is pending |
| CameraModel.Deliver | ios/PaintingScanner/IPDFCameraViewController.swift:366-367 | `isCapturing` is cleared before the handler is called, and the call is recorded |
| CameraModel.CompleteCapture | ios/PaintingScanner/IPDFCameraViewController.swift:320-382 | clears `isCapturing` and calls the handler exactly once; three nils on error or missing data; a rectangle iff the data decodes, detection is on, confidence is high enough and a rectangle is found, with the image rectified at the shifted corners; the original JPEG otherwise; a decoded black-and-white capture restarts the view |
| CameraModel.RememberedRectangleChangesOnlyOnFlaggedFrame | ios/PaintingScanner/IPDFCameraViewController.swift:535-539 | only an accepted frame with the flag up changes the remembered rectangle, and only a live timer's tick raises the flag |
| CameraModel.RememberedFramesAccumulate | ios/PaintingScanner/IPDFCameraViewController.swift:541-552 | k accepted frames with a remembered rectangle and the flag down add 0.5 each and keep the rectangle |
| CameraModel.ThirdFrameIsFirstHighEnough | ios/PaintingScanner/IPDFCameraViewController.swift:535-552 | from confidence 0, a flagged frame that finds a rectangle and then two more frames make the confidence high enough |
| CameraModel.StepKeepsDormant | ios/PaintingScanner/IPDFCameraViewController.swift:221-250 | without a timer and with the rate in step, every event except a rate change keeps the view so and keeps its rectangle |
| CameraModel.DormantViewNeverRedetects | ios/PaintingScanner/IPDFCameraViewController.swift:221-250 | over any stream without a rate change, a dormant view stays dormant and never replaces its remembered rectangle |
| CameraModel.Step | ios/PaintingScanner/IPDFCameraViewController.swift:221-553 | one event dispatched to its handler; a tick without a live timer and a completion without a pending capture change nothing |
| CameraModel.Run | ios/PaintingScanner/IPDFCameraViewController.swift:221-553 | a stream of events applied one at a time, in order, ending at the first trap |
| CameraModel.Traps | ios/PaintingScanner/IPDFCameraViewController.swift:201 | setting `cameraViewType` on a view with no preview stops the process |
| CameraModel.StepKeepsPreview | ios/PaintingScanner/IPDFCameraViewController.swift:108-127 | no event takes an existing preview away or replaces it |
| CameraModel.PreviewIsKept | ios/PaintingScanner/IPDFCameraViewController.swift:108-127 | once a preview exists, every event of any stream is applied without a trap and the preview stays the same, so every later rectangle is classified against it (lines 484-498) and no `cameraViewType` change traps (line 201) |
| CameraModel.SetupMakesThePreview | ios/PaintingScanner/IPDFCameraViewController.swift:129-151 | a first setup whose GL context is created makes the preview at the view's bounds even when no camera is found, and the rest of any stream then runs without a trap |
| CameraModel.ViewTypeBeforeSetupTraps | ios/PaintingScanner/IPDFCameraViewController.swift:197-206 | setting `cameraViewType` on a fresh view, whose preview is nil (lines 62 and 71-79), before any setup, traps and ends the stream with the view as created |
| CameraModel.Accepts | ios/PaintingScanner/IPDFCameraViewController.swift:523 | the guard of `captureOutput`: the frame is processed only when not force-stopped, not stopped, not capturing and the sample buffer is valid |
| CameraModel.CompletionAnswers | ios/PaintingScanner/IPDFCameraViewController.swift:320-382 | a completion pays the pending call with exactly one handler call, appended after the earlier ones and made with `isCapturing` already cleared |
| CameraModel.RequestAnswers | ios/PaintingScanner/IPDFCameraViewController.swift:286-318 | a request the guard accepts owes exactly one handler call, made at once or left pending; a refused one owes none |
| CameraModel.StepAnswersCaptures | ios/PaintingScanner/IPDFCameraViewController.swift:286-383 | for every event, the calls made plus the one owed grow by one exactly on an accepted request, and earlier calls are never altered |
| CameraModel.EveryAcceptedCaptureIsAnsweredOnce | ios/PaintingScanner/IPDFCameraViewController.swift:286-383 | over any stream, every accepted capture request gets exactly one handler call or is the one still pending, each seeing `isCapturing` cleared; from idle to idle, one call per accepted request |
| CameraModel.PendingCaptureBlocks | ios/PaintingScanner/IPDFCameraViewController.swift:287 | while a capture is pending, frames and further capture requests change nothing |
| CameraController.CameraView.constructor | ios/PaintingScanner/IPDFCameraViewController.swift:51-79 | the fields start at their declared defaults: no preview, stopped, rate 100, no timer, nothing remembered |
| CameraController.CameraView.Start | ios/PaintingScanner/IPDFCameraViewController.swift:221-239 | the fields move exactly as `CameraModel.Start` says |
| CameraController.CameraView.Stop | ios/PaintingScanner/IPDFCameraViewController.swift:241-246 | the fields move exactly as `CameraModel.Stop` says |
| CameraController.CameraView.EnableBorderDetectFrame | ios/PaintingScanner/IPDFCameraViewController.swift:248-250 | the flag is raised, nothing else changes |
| CameraController.CameraView.BackgroundMode | ios/PaintingScanner/IPDFCameraViewController.swift:100-102 | `forceStop` is set, nothing else changes |
| CameraController.CameraView.ForegroundMode | ios/PaintingScanner/IPDFCameraViewController.swift:104-106 | `forceStop` is cleared, nothing else changes |
| CameraController.CameraView.SetDetectionRefreshRate | ios/PaintingScanner/IPDFCameraViewController.swift:51 | only the rate changes |
| CameraController.CameraView.SetEnableBorderDetection | ios/PaintingScanner/IPDFCameraViewController.swift:25 | the fields move exactly as `CameraModel.SetBorderDetection` says |
| CameraController.CameraView.SetCameraViewType | ios/PaintingScanner/IPDFCameraViewController.swift:41-45 | callable only once the preview exists; the fields move exactly as `CameraModel.SetViewType` says |
| CameraController.CameraView.CreateGLKView | ios/PaintingScanner/IPDFCameraViewController.swift:108-127 | the fields move exactly as `CameraModel.CreateGLKView` says |
| CameraController.CameraView.SetupCameraView | ios/PaintingScanner/IPDFCameraViewController.swift:129-151 | calls `CreateGLKView` before the device guard; the fields move exactly as `CameraModel.SetupCameraView` says |
| CameraController.CameraView.SetUseFrontCam | ios/PaintingScanner/IPDFCameraViewController.swift:31-39 | the observer calls `Stop`, `SetupCameraView` and `Start` on a change, and the fields move exactly as `CameraModel.SetUseFrontCam` says |
| CameraController.CameraView.BiggestRectangle | ios/PaintingScanner/IPDFCameraViewController.swift:453-481 | returns `Biggest` of the candidates and notifies the delegate as `CameraModel.DetectBiggest` says |
| CameraController.CameraView.CaptureOutput | ios/PaintingScanner/IPDFCameraViewController.swift:522-553 | the fields move exactly as `CameraModel.ProcessFrame` says |
| CameraController.CameraView.Deliver | ios/PaintingScanner/IPDFCameraViewController.swift:366-367 | `isCapturing` is cleared, then one handler call is recorded |
| CameraController.CameraView.CaptureImage | ios/PaintingScanner/IPDFCameraViewController.swift:286-318 | the fields move exactly as `CameraModel.RequestCapture` says |
| CameraController.CameraView.CompleteCapture | ios/PaintingScanner/IPDFCameraViewController.swift:320-382 | the fields move exactly as `CameraModel.CompleteCapture` says |
| ScreenRules.HandlePictureTaken | screens/ScannerScreen.js:38-45 | shows the result and stores the three data fields unchanged; every other field is kept |
| ScreenRules.HandleRectangleDetect | screens/ScannerScreen.js:56-58 | stores the counter and detection type and keeps every other field |
| ScreenRules.Initial | screens/ScannerScreen.js:25-35 | the constructor state: flash off, counter 0, no detection type, no images or coordinates, result hidden, not processing |
| ScreenRules.CaptureForwards | screens/ScannerScreen.js:60-64 | `capture` forwards to the scanner exactly when a scanner ref exists and the counter is positive |
| ScreenRules.CaptureDisabled | screens/ScannerScreen.js:282 | the capture button is disabled exactly when the counter is 0 |
| ScreenRules.CaptureOnlyWhenEnabled | screens/ScannerScreen.js:60-64 | a press forwards only from an enabled button; for a non-negative counter and a scanner ref, the button is enabled exactly when a press forwards |
| ScreenRules.Retake | screens/ScannerScreen.js:66-85 | hides the result, clears the images, coordinates, counter, type and processing flag, and keeps the flash setting |
| ScreenRules.RetakeRestoresInitial | screens/ScannerScreen.js:25-35 | after `retake` the state is the constructor's, except for the flash setting |
| ScreenRules.EffectiveQuality | screens/ScannerScreen.js:116 | an absent or zero quality falls back to 0.8, any other is kept; the result is never falsy |
| ScreenRules.EffectiveQualityIdempotent | screens/ScannerScreen.js:116 | applying the fallback twice is applying it once |
| Strings.FieldAfterFirst | screens/ScannerScreen.js:122-124 | `split(c)[1]`: undefined iff there is no `c`; otherwise the text right after the first `c` up to the next `c` or the end |
| ScreenRules.StripDataUriPrefix | screens/ScannerScreen.js:118-124 | an input not starting with "data:image" passes unchanged; one that does becomes the field after its first comma |
| ScreenRules.StripUndoesPrefix | screens/ScannerScreen.js:118-124 | stripping a JPEG data URI gives back its comma-free payload |
| ScreenRules.StripWithoutCommaIsUndefined | screens/ScannerScreen.js:122-124 | an image data URI without a comma becomes `undefined` |
| ScreenRules.FormatResult | screens/ScannerScreen.js:144-150 | on iOS a string starting with neither "data:" nor "file://" gets the JPEG prefix; everything else, and every Android result, passes unchanged; on iOS the result is always a URI |
| ScreenRules.FormatResultIdempotent | screens/ScannerScreen.js:144-150 | formatting a formatted result changes nothing |
| ScreenRules.ResultImageUri | screens/ScannerScreen.js:318-320 | the rendered uri is always a URI, and a URI is shown as it is |
| ScreenRules.RenderAgreesWithFormat | screens/ScannerScreen.js:144-150 | the render rule is the iOS formatting rule, so rendering an edited image adds no second prefix |
| ScreenRules.EditAgainStart | screens/ScannerScreen.js:87-139 | refused (state unchanged, nothing sent) while processing or without an image or coordinates; a missing module or method ends the attempt with the state unchanged; otherwise processing starts and the stripped image, the coordinates and the effective quality are sent |
| ScreenRules.CanEdit | screens/ScannerScreen.js:91-98 | the guard of `editAgain`: not processing, a truthy original image and present coordinates |
| ScreenRules.CropAvailable | screens/ScannerScreen.js:105-113 | the `RNPdfScannerManager` native module exists and has `reapplyPerspectiveCrop` |
| ScreenRules.EditAgainResume | screens/ScannerScreen.js:134-168 | a truthy result becomes the formatted captured image; a falsy result or a rejection changes nothing else; processing ends on every path |
| ScreenRules.EditAgainEndsIdle | screens/ScannerScreen.js:100-168 | an edit that passes the guard is processing while it waits and not processing after, keeps the image and coordinates, and on failure restores the state it started from |
| ScreenRules.EditAgainSendsTakenPicture | screens/ScannerScreen.js:38-45 | editing a freshly taken picture sends that picture's own stripped image and coordinates |
| ScreenRules.KeepScan | screens/ScannerScreen.js:171-186 | `onScanComplete` is called iff the captured image is truthy and a callback exists, with the three fields unchanged |
| ScreenRules.KeepScanReturnsTakenPicture | screens/ScannerScreen.js:171-186 | keeping a freshly taken picture hands back exactly what was taken |
| ScreenRules.RetakeBlocksKeepAndEdit | screens/ScannerScreen.js:66-98 | after `retake` there is nothing to keep and `editAgain` is refused |
| ScreenRules.GetDetectionMessage | screens/ScannerScreen.js:188-203 | "✓ Ready to capture" iff the counter is positive; otherwise type 1 gives "⚠ Adjust angle", type 2 "⚠ Move closer", anything else the default (each as an if-and-only-if) |
| ScannerScreen.Screen.constructor | screens/ScannerScreen.js:21-35 | the state starts as the constructor sets it |
| ScannerScreen.Screen.HandlePictureTaken | screens/ScannerScreen.js:38-45 | the state moves exactly as `ScreenRules.HandlePictureTaken` says |
| ScannerScreen.Screen.HandleRectangleDetect | screens/ScannerScreen.js:56-58 | the state moves exactly as `ScreenRules.HandleRectangleDetect` says |
| ScannerScreen.Screen.Capture | screens/ScannerScreen.js:60-64 | forwards iff a scanner ref exists and the counter is positive; the state is unchanged |
| ScannerScreen.Screen.Retake | screens/ScannerScreen.js:66-85 | the state moves exactly as `ScreenRules.Retake` says |
| ScannerScreen.Screen.EditAgain | screens/ScannerScreen.js:87-139 | the state and the request are exactly those of `ScreenRules.EditAgainStart` |
| ScannerScreen.Screen.ResumeEditAgain | screens/ScannerScreen.js:140-168 | the state moves exactly as `ScreenRules.EditAgainResume` says |
| ScannerScreen.Screen.KeepScan | screens/ScannerScreen.js:171-186 | the call made is exactly `ScreenRules.KeepScan` of the state, and the state is unchanged |
| Strings.RemoveAll | android/src/main/java/com/documentscanner/DocumentScannerModule.java:49 | `replace("file://", "")`, one left-to-right pass: never longer than its input |
| Strings.RemoveAllWithoutOccurrence | android/src/main/java/com/documentscanner/DocumentScannerModule.java:49 | a string without the pattern is left as it is |
| Strings.RemoveAllLeading | android/src/main/java/com/documentscanner/DocumentScannerModule.java:49 | a leading occurrence is removed and the scan carries on after it |
| DocumentScanner.LoadInput | android/src/main/java/com/documentscanner/DocumentScannerModule.java:47-57 | a `file://` input is read from the path with every `file://` removed and allocates no buffer; any other is base64-decoded, allocating a buffer iff decoding returns, and then decoded as an image |
| DocumentScanner.FileUriIsReadFromItsPath | android/src/main/java/com/documentscanner/DocumentScannerModule.java:47-51 | `file://` before a path with no further `file://` is read from exactly that path |
| DocumentScanner.PathMayKeepScheme | android/src/main/java/com/documentscanner/DocumentScannerModule.java:49 | the single pass can leave a `file://` behind: "file://fifile://le://x" becomes "file://x" |
| DocumentScanner.InnerOccurrenceRemoved | android/src/main/java/com/documentscanner/DocumentScannerModule.java:49 | the occurrence inside "fifile://le://x" is removed and the text around it closes up into "file://x" |
| DocumentScanner.ReadPoint | android/src/main/java/com/documentscanner/DocumentScannerModule.java:84-87 | a corner gives a point iff both numbers are present, and then x and y are copied unchanged |
| DocumentScanner.ReadPoints | android/src/main/java/com/documentscanner/DocumentScannerModule.java:82-87 | the point array is [topLeft, topRight, bottomRight, bottomLeft] with every x and y copied, and exists iff every corner holds both numbers |
| DocumentScanner.CaughtCropError | android/src/main/java/com/documentscanner/DocumentScannerModule.java:125 | the catch block rejects with CROP_ERROR |
| DocumentScanner.CropOutcome | android/src/main/java/com/documentscanner/DocumentScannerModule.java:39-127 | resolves only when the input decoded, all corners are present, the transform produced pixels and encoding succeeded, and then with the base64 of the JPEG of the transform result; every rejection carries one of the four codes |
| DocumentScanner.DecodeFailureComesFirst | android/src/main/java/com/documentscanner/DocumentScannerModule.java:59-65 | a null or empty decoded image gives DECODE_ERROR whatever the coordinates and quality |
| DocumentScanner.MissingCornerIsInvalid | android/src/main/java/com/documentscanner/DocumentScannerModule.java:68-80 | once the image decodes, a missing corner map gives INVALID_COORDINATES |
| DocumentScanner.TransformGetsOrderedCorners | android/src/main/java/com/documentscanner/DocumentScannerModule.java:82-107 | the transform is handed the image, the corners as TL, TR, BR, BL and the quality; an empty result gives PROCESS_ERROR, an exception CROP_ERROR, and success the base64 of its JPEG |
| DocumentScanner.EncodingFailureIsCropError | android/src/main/java/com/documentscanner/DocumentScannerModule.java:102-125 | an encoding exception is reported as CROP_ERROR with the encoder's message |
| DocumentScanner.Catch | android/src/main/java/com/documentscanner/DocumentScannerModule.java:117-126 | the original is released only when it holds pixels, the input buffer only when it exists, and the rejection is CROP_ERROR |
| DocumentScanner.ReapplyPerspectiveCrop | android/src/main/java/com/documentscanner/DocumentScannerModule.java:39-127 | settles the promise exactly once, with `CropOutcome`; allocates an input buffer only on the base64 path; leaks nothing on success or an explicit rejection, and exactly the processed Mat and the output buffer when encoding throws |
| Bridge.ToReply | android/src/main/java/com/documentscanner/DocumentScannerModule.java:107-125 | a resolution reaches the screen as a resolved value, a rejection as a rejection with the same code and message |
| DocumentScanner.GetName | android/src/main/java/com/documentscanner/DocumentScannerModule.java:27-30 | the module is registered as "RNPdfScannerManager" |
| Bridge.ScreenFindsAndroidModule | android/src/main/java/com/documentscanner/DocumentScannerModule.java:27-30 | the module's name is the name the screen looks up, so registering it makes the crop available |
| Bridge.EditedFileIsReadFromItsPath | screens/ScannerScreen.js:118-139 | a `file://` original image is sent unchanged, and Android reads it from its path without an input buffer |
| Bridge.EditedJpegIsBase64Decoded | screens/ScannerScreen.js:118-139 | a JPEG data URI is sent as its payload, which Android base64-decodes |
| Bridge.CommalessDataUriFails | screens/ScannerScreen.js:122-124 | an image data URI without a comma is sent as null, rejected with CROP_ERROR, and the screen ends where it began |
| Bridge.EditRoundTrip | screens/ScannerScreen.js:134-168 | whatever Android answers, the edit ends idle; a non-empty result becomes the formatted captured image; a rejection restores the starting state |

## Left out

- `ImageProcessor.reapplyPerspectiveTransform`, `CIDetector` and `CIPerspectiveCorrection`: third-party image processing, used as black boxes. The detector's rectangles are event inputs, the transform is a `Natives` field, and the corrected iOS image is recorded only symbolically.
- The Swift camera, GL and Core Image plumbing is not modelled because it is device and UI input/output. This covers the GL context, render buffer and Core Image context `createGLKView` makes (only the preview's frame is kept), `updateTorch`, the blur `applyCameraViewType` animates, `hideGLKView`, the `CIColorControls` filter values, `drawHighlightOverlay`, and the rotated `UIGraphics` drawing and its orientation.
- `setupCameraView` is modelled only through its effect on the view's state: the preview it creates and the confidence reset when a camera is found. The capture session, device selection, outputs and flash and focus setup are device input/output. Whether a camera at the requested position exists, the view's bounds and whether a GL context can be made are parameters, and the still-image output and connection it creates appear as the parameters of a capture request.
- Core Image decoding of the still JPEG is a flag in the reply. `UIImage(data:)` is assumed to succeed, and the initial image is recorded as the JPEG it came from.
- Timers, dispatch queues, the asynchronous still-image capture and the promise are modelled as a sequential stream of events. A timer tick arrives only while a timer is live. A capture completion arrives only while a capture is pending. Everything between two events is one atomic step.
- The `[weak self]` capture in the Swift closures is not modelled: the view is assumed to outlive its timer and capture callbacks.
- The `editAgain` await is split into two steps. The model does not capture other handlers running between them.
- React rendering, styles and the `Animated` timings are not modelled. `retake` is modelled at the moment the fade-out completes, and `handlePictureTaken` without its animation callback.
- `render` reads `capturedImage.startsWith`, which would throw on a null image. The model states the uri rule only for a present image.
- `console` logging and the error objects `editAgain` throws and immediately catches are not modelled. Only their effect on the state is.
- Android's `getMap` on a key that is not present is read as null. A `ReadableMap` whose own value is null is not modelled, because the screen only sends present coordinates.
- `getDouble` on a missing number throws one fixed message (`Natives.missingNumberMessage`). The message of a null input's exception is also a parameter.
- OpenCV's `imread`, `imdecode`, `imencode`, `release` and Android `Base64` are external codecs, modelled as `Natives` fields. `release` is modelled only through the ghost set of live buffers, released buffers are not tracked as freed twice, and `release` itself never throws.
- JPEG quality on iOS and Android is passed through, with no effect modelled. `NaN` and other floating-point special values are not modelled.
- Floating point: `CGFloat`, `double` and JavaScript numbers are mathematical reals, and `hypot` is any function that is never negative. The JavaScript `stableCounter` is an integer.
- CameraRules.PointOfInterest: requires a non-empty view, because the source would divide by zero for an empty one and produce a non-finite point.
- CameraRules.FocusAtPoint: requires a non-empty view whenever a device is present, for the same reason.
- Swift's `Int` overflow on `detectionRefreshRateInMS` is not modelled. The rate is an unbounded integer.
- CameraModel.SetViewType: requires a preview, because the `cameraViewType` observer force-unwraps it and the process traps without one. What happens after the trap is not modelled: in the event stream `CameraModel.Run` ends at the trap.
- The preview keeps the bounds it was created with. Its autoresizing under later layout changes is not modelled, so `CameraRules.TypeForRectangle` is always given the creation frame.
- DocumentScanner.ReapplyPerspectiveCrop: a Mat counts as a held buffer only while it has pixels. The empty original on the DECODE_ERROR path and the empty processed Mat on the PROCESS_ERROR path are never released, and the model does not count them as leaks. Whatever native header an empty Mat may still own is not modelled.
