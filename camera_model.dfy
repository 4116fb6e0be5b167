/** The run state of the iOS camera view (IPDFCameraViewController) as a
    value, and each handler as a step on it. Camera frames, timer ticks,
    lifecycle notifications and still-capture completions arrive one at a
    time as events. The view class in CameraController keeps the same state
    in fields; this module is its specification and holds the lemmas. */
module CameraModel {
  import opened Wrappers
  import opened Geometry
  import opened CameraRules

  type Bytes = seq<bv8>

  /** An image handed to the capture completion handler, by how it was made. */
  datatype UIImage =
    | FromJpeg(jpeg: Bytes)
      // `UIImage(data:)` of the still image's JPEG data
    | Rectified(jpeg: Bytes, corners: Quad, enhanced: bool)
      // the filtered still image put through CIPerspectiveCorrection at
      // `corners` and drawn rotated; `enhanced`: the black-and-white filter

  /** One call of the capture completion handler, with the value of
      `isCapturing` the handler would observe. */
  datatype Delivery = Delivery(
    cropped: Option<UIImage>,
    initial: Option<UIImage>,
    rectangle: Option<Quad>,
    capturingSeen: bool)

  /** One `didDetectRectangle` call on the delegate. */
  datatype Detection = Detection(rectangle: Quad, kind: RectangleType)

  datatype ViewState = ViewState(
    enableBorderDetection: bool,
    blackAndWhite: bool,               // cameraViewType == .blackAndWhite
    useFrontCam: bool,
    detectionRefreshRateInMS: int,
    forceStop: bool,
    lastDetectionRate: int,
    isStopped: bool,
    imageDetectionConfidence: real,
    timer: Option<real>,               // interval in seconds of the live border-detection timer
    borderDetectFrame: bool,
    lastRectangle: Option<Quad>,       // borderDetectLastRectangleFeature
    isCapturing: bool,
    glkFrame: Option<ViewFrame>,       // the preview view, once created
    hasDelegate: bool,
    detections: seq<Detection>,        // delegate notifications so far
    deliveries: seq<Delivery>)         // completion handler calls so far

  /** A freshly initialised view with the given configuration; the preview
      view does not exist until `setupCameraView` creates it. */
  function Initial(enableBorderDetection: bool, blackAndWhite: bool, rate: int,
                   hasDelegate: bool): (r: ViewState)
    ensures r.isStopped && !r.forceStop && !r.isCapturing && !r.useFrontCam && r.glkFrame.None?
    ensures r.lastDetectionRate == 100 && r.detectionRefreshRateInMS == rate && r.timer.None?
    ensures r.imageDetectionConfidence == 0.0 && !r.borderDetectFrame && r.lastRectangle.None?
    ensures r.detections == [] && r.deliveries == []
  {
    ViewState(enableBorderDetection, blackAndWhite, false, rate, false, 100, true, 0.0, None,
              false, None, false, None, hasDelegate, [], [])
  }

  /** The timer interval `start` computes: milliseconds divided by 100. */
  function TimerInterval(ms: int): (seconds: real)
    ensures seconds * 100.0 == ms as real
    ensures ms > 0 ==> seconds > 0.0
  {
    ms as real / 100.0
  }

  // ---------------------------------------------------------------------
  // start, stop, the timer and the lifecycle notifications

  function Start(s: ViewState): (r: ViewState)
    ensures !r.isStopped && r.lastDetectionRate == s.detectionRefreshRateInMS
    ensures s.lastDetectionRate != s.detectionRefreshRateInMS ==>
      r.timer == Some(TimerInterval(s.detectionRefreshRateInMS))
    ensures s.lastDetectionRate == s.detectionRefreshRateInMS ==> r.timer == s.timer
    ensures r == s.(isStopped := false, timer := r.timer, lastDetectionRate := r.lastDetectionRate)
  {
    s.(isStopped := false,
       timer := if s.lastDetectionRate != s.detectionRefreshRateInMS
                then Some(TimerInterval(s.detectionRefreshRateInMS)) else s.timer,
       lastDetectionRate := s.detectionRefreshRateInMS)
  }

  function Stop(s: ViewState): (r: ViewState)
    ensures r.isStopped && r.timer.None?
    ensures r == s.(isStopped := true, timer := None)
  {
    s.(isStopped := true, timer := None)
  }

  function EnableBorderDetectFrame(s: ViewState): (r: ViewState)
    ensures r.borderDetectFrame && r == s.(borderDetectFrame := true)
  {
    s.(borderDetectFrame := true)
  }

  /** willResignActive: frames are ignored from now on. */
  function BackgroundMode(s: ViewState): (r: ViewState)
    ensures r.forceStop && r == s.(forceStop := true)
  {
    s.(forceStop := true)
  }

  /** didBecomeActive: frames are processed again. */
  function ForegroundMode(s: ViewState): (r: ViewState)
    ensures !r.forceStop && r == s.(forceStop := false)
  {
    s.(forceStop := false)
  }

  /** Setting the `detectionRefreshRateInMS` property; the timer only
      follows at the next `start`. */
  function SetRefreshRate(s: ViewState, ms: int): (r: ViewState)
    ensures r.detectionRefreshRateInMS == ms && r.timer == s.timer
    ensures r == s.(detectionRefreshRateInMS := ms)
  {
    s.(detectionRefreshRateInMS := ms)
  }

  /** Setting the `enableBorderDetection` property, which has no observer. */
  function SetBorderDetection(s: ViewState, enabled: bool): (r: ViewState)
    ensures r.enableBorderDetection == enabled
    ensures r == s.(enableBorderDetection := enabled)
  {
    s.(enableBorderDetection := enabled)
  }

  /** Setting `cameraViewType`. Its observer inserts a short-lived blur
      above the preview, force-unwrapping it: a view with no preview traps,
      so the caller must have set the camera view up first. */
  function SetViewType(s: ViewState, blackAndWhite: bool): (r: ViewState)
    requires s.glkFrame.Some?
    ensures r.blackAndWhite == blackAndWhite
    ensures r == s.(blackAndWhite := blackAndWhite)
  {
    s.(blackAndWhite := blackAndWhite)
  }

  /** `createGLKView`: the first call makes the preview at the view's
      `bounds`, unless the GL context cannot be created (`contextCreated`);
      once there, the preview is never replaced. The source guards on the GL
      context, which is set exactly when the preview is. */
  function CreateGLKView(s: ViewState, bounds: ViewFrame, contextCreated: bool): (r: ViewState)
    ensures r.glkFrame.Some? <==> s.glkFrame.Some? || contextCreated
    ensures s.glkFrame.Some? ==> r.glkFrame == s.glkFrame
    ensures s.glkFrame.None? && contextCreated ==> r.glkFrame == Some(bounds)
    ensures r == s.(glkFrame := r.glkFrame)
  {
    if s.glkFrame.Some? || !contextCreated then s else s.(glkFrame := Some(bounds))
  }

  /** `setupCameraView`: the preview is created first, whether or not a
      camera is found; then, when a camera at the requested position exists
      (`deviceFound`), the detection confidence starts again from 0 while the
      remembered rectangle stays. Without one it returns there. */
  function SetupCameraView(s: ViewState, bounds: ViewFrame, contextCreated: bool,
                           deviceFound: bool): (r: ViewState)
    ensures r.glkFrame == CreateGLKView(s, bounds, contextCreated).glkFrame
    ensures deviceFound ==> r.imageDetectionConfidence == 0.0
    ensures !deviceFound ==> r.imageDetectionConfidence == s.imageDetectionConfidence
    ensures r == s.(glkFrame := r.glkFrame, imageDetectionConfidence := r.imageDetectionConfidence)
  {
    var t := CreateGLKView(s, bounds, contextCreated);
    if deviceFound then t.(imageDetectionConfidence := 0.0) else t
  }

  /** Setting `useFrontCam`: a change stops the view, sets the camera up again
      and starts it; setting the same value does nothing. */
  function SetUseFrontCam(s: ViewState, front: bool, bounds: ViewFrame, contextCreated: bool,
                          deviceFound: bool): (r: ViewState)
    ensures r.useFrontCam == front
    ensures front == s.useFrontCam ==> r == s
    ensures front != s.useFrontCam ==>
      && !r.isStopped && r.lastDetectionRate == s.detectionRefreshRateInMS
      && r.lastRectangle == s.lastRectangle && r.borderDetectFrame == s.borderDetectFrame
      && r.imageDetectionConfidence == (if deviceFound then 0.0 else s.imageDetectionConfidence)
      && r.glkFrame == CreateGLKView(s, bounds, contextCreated).glkFrame
      && (s.lastDetectionRate == s.detectionRefreshRateInMS ==> r.timer.None?)
      && (s.lastDetectionRate != s.detectionRefreshRateInMS ==>
            r.timer == Some(TimerInterval(s.detectionRefreshRateInMS)))
    ensures r.isCapturing == s.isCapturing && r.deliveries == s.deliveries && r.forceStop == s.forceStop
  {
    var t := s.(useFrontCam := front);
    if front == s.useFrontCam then t
    else Start(SetupCameraView(Stop(t), bounds, contextCreated, deviceFound))
  }

  /** With the default refresh rate of 100 on a fresh view, `start` creates
      no timer at all. */
  lemma DefaultStartMakesNoTimer(enableBorderDetection: bool, blackAndWhite: bool, hasDelegate: bool)
    ensures Start(Initial(enableBorderDetection, blackAndWhite, 100, hasDelegate)).timer.None?
  {
  }

  /** `stop` invalidates the timer and a later `start` with an unchanged
      rate does not make a new one. */
  lemma StopThenStartLeavesNoTimer(s: ViewState)
    requires s.lastDetectionRate == s.detectionRefreshRateInMS
    ensures Start(Stop(s)).timer.None? && !Start(Stop(s)).isStopped
  {
  }

  /** A rate change is picked up by the next `start`. */
  lemma RateChangeReschedules(s: ViewState, ms: int)
    requires ms != s.lastDetectionRate
    ensures Start(SetRefreshRate(s, ms)).timer == Some(TimerInterval(ms))
    ensures Start(SetRefreshRate(s, ms)).lastDetectionRate == ms
  {
  }

  // ---------------------------------------------------------------------
  // biggestRectangle with its delegate call

  /** `biggestRectangle(in:)`: the earliest largest candidate, reported to
      the delegate (with its classification) when there is one. */
  function DetectBiggest(s: ViewState, rects: seq<Quad>, hypot: Hypot): (res: (ViewState, Option<Quad>))
    ensures res.1 == Biggest(rects, hypot)
    ensures res.0 == s.(detections := res.0.detections)
    ensures res.0.detections == s.detections +
      (if s.hasDelegate && res.1.Some?
       then [Detection(res.1.value, TypeForRectangle(res.1.value, s.glkFrame))] else [])
  {
    var b := Biggest(rects, hypot);
    if s.hasDelegate && b.Some? then
      (s.(detections := s.detections + [Detection(b.value, TypeForRectangle(b.value, s.glkFrame))]), b)
    else (s, b)
  }

  // ---------------------------------------------------------------------
  // captureOutput

  /** The guard at the top of `captureOutput`: not force-stopped, not
      stopped, not capturing, and a valid sample buffer with pixels. */
  predicate Accepts(s: ViewState, valid: bool) {
    !s.forceStop && !s.isStopped && !s.isCapturing && valid
  }

  /** One camera frame. `rectangles` is what the high-accuracy detector
      finds in it (used only when the detection flag is up). The
      black-and-white filter calls `start` on every frame. */
  function ProcessFrame(s: ViewState, valid: bool, rectangles: seq<Quad>, hypot: Hypot): (r: ViewState)
    ensures !Accepts(s, valid) ==> r == s
    ensures !s.enableBorderDetection ==>
      r.imageDetectionConfidence == s.imageDetectionConfidence && r.lastRectangle == s.lastRectangle
      && r.borderDetectFrame == s.borderDetectFrame
    ensures Accepts(s, valid) && s.enableBorderDetection ==>
      && !r.borderDetectFrame
      && r.lastRectangle == (if s.borderDetectFrame then Biggest(rectangles, hypot) else s.lastRectangle)
      && r.imageDetectionConfidence ==
           (if r.lastRectangle.Some? then s.imageDetectionConfidence + 0.5 else 0.0)
    ensures r.lastRectangle != s.lastRectangle ==>
      Accepts(s, valid) && s.enableBorderDetection && s.borderDetectFrame
    ensures r.isCapturing == s.isCapturing && r.forceStop == s.forceStop && r.deliveries == s.deliveries
    ensures r.isStopped == s.isStopped && r.detectionRefreshRateInMS == s.detectionRefreshRateInMS
    ensures Accepts(s, valid) && s.blackAndWhite ==> r.lastDetectionRate == s.detectionRefreshRateInMS
    ensures r.glkFrame == s.glkFrame
  {
    if !Accepts(s, valid) then s
    else
      var s1 := if s.blackAndWhite then Start(s) else s;
      if !s1.enableBorderDetection then s1
      else
        var s2 :=
          if s1.borderDetectFrame then
            var (t, b) := DetectBiggest(s1, rectangles, hypot);
            t.(lastRectangle := b, borderDetectFrame := false)
          else s1;
        s2.(imageDetectionConfidence :=
              if s2.lastRectangle.Some? then s2.imageDetectionConfidence + 0.5 else 0.0)
  }

  // ---------------------------------------------------------------------
  // captureImageWithCompletionHandler

  /** Clear `isCapturing`, then call the completion handler. */
  function Deliver(s: ViewState, cropped: Option<UIImage>, initial: Option<UIImage>,
                   rectangle: Option<Quad>): (r: ViewState)
    ensures !r.isCapturing
    ensures r.deliveries == s.deliveries + [Delivery(cropped, initial, rectangle, false)]
    ensures r == s.(isCapturing := false, deliveries := r.deliveries)
  {
    var t := s.(isCapturing := false);
    t.(deliveries := t.deliveries + [Delivery(cropped, initial, rectangle, t.isCapturing)])
  }

  /** The synchronous part of a capture request: ignored while a capture is
      in flight; otherwise a missing still-image output or video connection
      ends it at once with three nils, and anything else leaves it pending. */
  function RequestCapture(s: ViewState, hasStillOutput: bool, hasVideoConnection: bool): (r: ViewState)
    ensures s.isCapturing ==> r == s
    ensures !s.isCapturing && hasStillOutput && hasVideoConnection ==> r == s.(isCapturing := true)
    ensures !s.isCapturing && !(hasStillOutput && hasVideoConnection) ==>
      r == s.(deliveries := s.deliveries + [Delivery(None, None, None, false)])
  {
    if s.isCapturing then s
    else
      var t := s.(isCapturing := true);
      if !hasStillOutput || !hasVideoConnection then Deliver(t, None, None, None)
      else t
  }

  /** What the asynchronous still-image capture returns: an error, no JPEG
      data, or JPEG data together with whether Core Image can read it and
      the rectangles the high-accuracy detector finds in the filtered image. */
  datatype StillReply =
    | CaptureError
    | NoImageData
    | ImageData(jpeg: Bytes, decodes: bool, rectangles: seq<Quad>)

  /** The completion of a pending capture. Every path clears `isCapturing`
      and then calls the handler exactly once. */
  function CompleteCapture(s: ViewState, reply: StillReply, hypot: Hypot): (r: ViewState)
    ensures !r.isCapturing
    ensures |r.deliveries| == |s.deliveries| + 1
    ensures r.deliveries == s.deliveries + [r.deliveries[|s.deliveries|]]
    ensures !r.deliveries[|s.deliveries|].capturingSeen
    ensures r.lastRectangle == s.lastRectangle && r.borderDetectFrame == s.borderDetectFrame
    ensures r.imageDetectionConfidence == s.imageDetectionConfidence && r.glkFrame == s.glkFrame
    ensures reply.ImageData? && reply.decodes && s.blackAndWhite ==>
      !r.isStopped && r.lastDetectionRate == s.detectionRefreshRateInMS
    ensures !(reply.ImageData? && reply.decodes && s.blackAndWhite) ==>
      r.isStopped == s.isStopped && r.timer == s.timer
    ensures !reply.ImageData? ==> r.deliveries[|s.deliveries|] == Delivery(None, None, None, false)
    ensures reply.ImageData? ==> r.deliveries[|s.deliveries|].initial == Some(FromJpeg(reply.jpeg))
    ensures r.deliveries[|s.deliveries|].rectangle.Some? <==>
      reply.ImageData? && reply.decodes && s.enableBorderDetection
      && HighEnough(s.imageDetectionConfidence) && reply.rectangles != []
    ensures r.deliveries[|s.deliveries|].rectangle.Some? ==>
      var b := Biggest(reply.rectangles, hypot).value;
      r.deliveries[|s.deliveries|].rectangle == Some(b)
      && r.deliveries[|s.deliveries|].cropped == Some(Rectified(reply.jpeg, CorrectPerspective(b), s.blackAndWhite))
    ensures reply.ImageData? && r.deliveries[|s.deliveries|].rectangle.None? ==>
      r.deliveries[|s.deliveries|].cropped == Some(FromJpeg(reply.jpeg))
  {
    match reply
    case CaptureError => Deliver(s, None, None, None)
    case NoImageData => Deliver(s, None, None, None)
    case ImageData(jpeg, decodes, rects) =>
      var initial := Some(FromJpeg(jpeg));
      if s.blackAndWhite || s.enableBorderDetection then
        if !decodes then Deliver(s, initial, initial, None)
        else
          var s1 := if s.blackAndWhite then Start(s) else s;
          if s1.enableBorderDetection && HighEnough(s1.imageDetectionConfidence) then
            var (s2, b) := DetectBiggest(s1, rects, hypot);
            if b.Some? then
              Deliver(s2, Some(Rectified(jpeg, CorrectPerspective(b.value), s.blackAndWhite)), initial, b)
            else Deliver(s2, initial, initial, None)
          else Deliver(s1, initial, initial, None)
      else Deliver(s, initial, initial, None)
  }

  // ---------------------------------------------------------------------
  // the event stream

  datatype Event =
    | Frame(valid: bool, rectangles: seq<Quad>)
    | Tick                                   // the border-detection timer fires
    | StartCall
    | StopCall
    | WillResignActive
    | DidBecomeActive
    | SetRate(ms: int)
    | CaptureRequest(hasStillOutput: bool, hasVideoConnection: bool)
    | CaptureDone(reply: StillReply)
    | SetupCall(bounds: ViewFrame, contextCreated: bool, deviceFound: bool)  // setupCameraView
    | FrontCamSet(front: bool, bounds: ViewFrame, contextCreated: bool, deviceFound: bool)
    | BorderDetectionSet(enabled: bool)
    | ViewTypeSet(blackAndWhite: bool)

  /** Setting `cameraViewType` on a view with no preview stops the process. */
  predicate Traps(s: ViewState, e: Event) {
    e.ViewTypeSet? && s.glkFrame.None?
  }

  /** One event. A tick only arrives while a timer is live, and a capture
      completion only for a pending capture. */
  function Step(s: ViewState, e: Event, hypot: Hypot): (r: ViewState)
    requires !Traps(s, e)
    ensures e.Tick? && s.timer.None? ==> r == s
    ensures e.CaptureDone? && !s.isCapturing ==> r == s
  {
    match e
    case Frame(valid, rects) => ProcessFrame(s, valid, rects, hypot)
    case Tick => if s.timer.Some? then EnableBorderDetectFrame(s) else s
    case StartCall => Start(s)
    case StopCall => Stop(s)
    case WillResignActive => BackgroundMode(s)
    case DidBecomeActive => ForegroundMode(s)
    case SetRate(ms) => SetRefreshRate(s, ms)
    case CaptureRequest(o, c) => RequestCapture(s, o, c)
    case CaptureDone(reply) => if s.isCapturing then CompleteCapture(s, reply, hypot) else s
    case SetupCall(bounds, created, found) => SetupCameraView(s, bounds, created, found)
    case FrontCamSet(front, bounds, created, found) => SetUseFrontCam(s, front, bounds, created, found)
    case BorderDetectionSet(enabled) => SetBorderDetection(s, enabled)
    case ViewTypeSet(bw) => SetViewType(s, bw)
  }

  /** The events applied in order; a trap ends the process, so the state
      is the one it trapped in and the later events never arrive. */
  function Run(s: ViewState, events: seq<Event>, hypot: Hypot): ViewState
    decreases |events|
  {
    if events == [] || Traps(s, events[0]) then s
    else Run(Step(s, events[0], hypot), events[1..], hypot)
  }

  lemma RunCons(s: ViewState, e: Event, rest: seq<Event>, hypot: Hypot)
    requires !Traps(s, e)
    ensures Run(s, [e] + rest, hypot) == Run(Step(s, e, hypot), rest, hypot)
  {
    assert ([e] + rest)[0] == e && ([e] + rest)[1..] == rest;
  }

  /** The remembered rectangle is replaced only by an accepted frame with
      border detection on and the detection flag up; the flag is raised only
      by a tick of a live timer. */
  lemma RememberedRectangleChangesOnlyOnFlaggedFrame(s: ViewState, e: Event, hypot: Hypot)
    requires !Traps(s, e)
    ensures Step(s, e, hypot).lastRectangle != s.lastRectangle ==>
      e.Frame? && Accepts(s, e.valid) && s.enableBorderDetection && s.borderDetectFrame
    ensures Step(s, e, hypot).borderDetectFrame && !s.borderDetectFrame ==> e.Tick? && s.timer.Some?
  {
    match e
    case CaptureDone(reply) =>
      if s.isCapturing { var r := CompleteCapture(s, reply, hypot); }
    case _ =>
  }

  /** `k` accepted frames that find the detection flag down. */
  function Frames(k: nat): seq<Event>
  {
    if k == 0 then [] else [Frame(true, [])] + Frames(k - 1)
  }

  /** While a rectangle stays remembered and the flag stays down, each
      accepted frame adds 0.5 to the confidence. */
  lemma {:induction false} RememberedFramesAccumulate(s: ViewState, k: nat, hypot: Hypot)
    requires !s.forceStop && !s.isStopped && !s.isCapturing
    requires s.enableBorderDetection && !s.borderDetectFrame && s.lastRectangle.Some?
    ensures var r := Run(s, Frames(k), hypot);
      && r.imageDetectionConfidence == s.imageDetectionConfidence + 0.5 * k as real
      && r.lastRectangle == s.lastRectangle
      && !r.forceStop && !r.isStopped && !r.isCapturing && !r.borderDetectFrame
    decreases k
  {
    if k > 0 {
      RunCons(s, Frame(true, []), Frames(k - 1), hypot);
      RememberedFramesAccumulate(ProcessFrame(s, true, [], hypot), k - 1, hypot);
    }
  }

  /** From a confidence of 0, a flagged frame that finds a rectangle and the
      unflagged frames after it make the confidence high enough exactly from
      the third frame of the streak on. */
  lemma {:induction false} ThirdFrameIsFirstHighEnough(s: ViewState, rects: seq<Quad>, k: nat, hypot: Hypot)
    requires !s.forceStop && !s.isStopped && !s.isCapturing && s.enableBorderDetection
    requires s.borderDetectFrame && rects != [] && s.imageDetectionConfidence == 0.0
    ensures HighEnough(Run(s, [Frame(true, rects)] + Frames(k), hypot).imageDetectionConfidence)
            <==> 1 + k >= 3
  {
    RunCons(s, Frame(true, rects), Frames(k), hypot);
    var s1 := ProcessFrame(s, true, rects, hypot);
    RememberedFramesAccumulate(s1, k, hypot);
    HighEnoughAfter(1 + k);
  }

  /** No live timer, the rate in step with the last `start`, the flag down. */
  predicate Dormant(s: ViewState) {
    s.timer.None? && s.lastDetectionRate == s.detectionRefreshRateInMS && !s.borderDetectFrame
  }

  /** One event other than a rate change keeps a view dormant and its
      remembered rectangle as it was. */
  lemma StepKeepsDormant(s: ViewState, e: Event, hypot: Hypot)
    requires Dormant(s) && !e.SetRate? && !Traps(s, e)
    ensures Dormant(Step(s, e, hypot)) && Step(s, e, hypot).lastRectangle == s.lastRectangle
  {
    match e
    case CaptureDone(reply) =>
      if s.isCapturing { var r := CompleteCapture(s, reply, hypot); }
    case Frame(valid, rects) =>
      var r := ProcessFrame(s, valid, rects, hypot);
    case _ =>
  }

  /** A dormant view stays dormant and never re-detects unless the refresh
      rate is changed: stop, start, ticks, frames and captures all leave the
      remembered rectangle as it is. */
  lemma {:induction false} DormantViewNeverRedetects(s: ViewState, events: seq<Event>, hypot: Hypot)
    requires Dormant(s)
    requires forall i :: 0 <= i < |events| ==> !events[i].SetRate?
    ensures Dormant(Run(s, events, hypot))
    ensures Run(s, events, hypot).lastRectangle == s.lastRectangle
    decreases |events|
  {
    if events != [] && !Traps(s, events[0]) {
      StepKeepsDormant(s, events[0], hypot);
      DormantViewNeverRedetects(Step(s, events[0], hypot), events[1..], hypot);
    }
  }

  /** A capture request that the guard lets through. */
  predicate AcceptsCapture(s: ViewState, e: Event) {
    e.CaptureRequest? && !s.isCapturing
  }

  /** Handler calls made so far, plus the one a pending capture owes. */
  function CallsMadeOrOwed(s: ViewState): nat {
    |s.deliveries| + if s.isCapturing then 1 else 0
  }

  /** How many capture requests of a stream get through the guard. */
  function AcceptedCaptures(s: ViewState, events: seq<Event>, hypot: Hypot): nat
    decreases |events|
  {
    if events == [] || Traps(s, events[0]) then 0
    else (if AcceptsCapture(s, events[0]) then 1 else 0)
         + AcceptedCaptures(Step(s, events[0], hypot), events[1..], hypot)
  }

  /** From `s` to `r` the earlier calls stay as they were, the calls made or
      owed grow by one exactly when `accepted`, and every new call sees
      `isCapturing` already cleared. */
  predicate Answers(s: ViewState, r: ViewState, accepted: bool) {
    && s.deliveries <= r.deliveries
    && CallsMadeOrOwed(r) == CallsMadeOrOwed(s) + (if accepted then 1 else 0)
    && forall i :: |s.deliveries| <= i < |r.deliveries| ==> !r.deliveries[i].capturingSeen
  }

  lemma UntouchedAnswers(s: ViewState, r: ViewState)
    requires r.deliveries == s.deliveries && r.isCapturing == s.isCapturing
    ensures Answers(s, r, false)
  {
  }

  /** A completion pays the pending call with exactly one handler call. */
  lemma CompletionAnswers(s: ViewState, reply: StillReply, hypot: Hypot)
    requires s.isCapturing
    ensures Answers(s, CompleteCapture(s, reply, hypot), false)
  {
    var r := CompleteCapture(s, reply, hypot);
    assert s.deliveries <= r.deliveries;
  }

  /** An accepted request owes one call, whether it is made at once or left
      pending; a refused one owes nothing. */
  lemma RequestAnswers(s: ViewState, hasStillOutput: bool, hasVideoConnection: bool)
    ensures Answers(s, RequestCapture(s, hasStillOutput, hasVideoConnection), !s.isCapturing)
  {
    var r := RequestCapture(s, hasStillOutput, hasVideoConnection);
    if !s.isCapturing && !(hasStillOutput && hasVideoConnection) {
      assert r.deliveries == s.deliveries + [Delivery(None, None, None, false)];
      assert s.deliveries <= r.deliveries;
    }
  }

  /** One event: an accepted capture request owes exactly one handler call,
      made at once or left pending; no other event adds or settles a call
      except the completion that pays a pending one. */
  lemma StepAnswersCaptures(s: ViewState, e: Event, hypot: Hypot)
    requires !Traps(s, e)
    ensures Answers(s, Step(s, e, hypot), AcceptsCapture(s, e))
  {
    match e
    case CaptureDone(reply) =>
      if s.isCapturing {
        CompletionAnswers(s, reply, hypot);
      } else {
        UntouchedAnswers(s, s);
      }
    case CaptureRequest(o, c) =>
      RequestAnswers(s, o, c);
    case Frame(valid, rects) =>
      UntouchedAnswers(s, ProcessFrame(s, valid, rects, hypot));
    case FrontCamSet(front, bounds, created, found) =>
      UntouchedAnswers(s, SetUseFrontCam(s, front, bounds, created, found));
    case Tick => UntouchedAnswers(s, Step(s, e, hypot));
    case StartCall => UntouchedAnswers(s, Step(s, e, hypot));
    case StopCall => UntouchedAnswers(s, Step(s, e, hypot));
    case WillResignActive => UntouchedAnswers(s, Step(s, e, hypot));
    case DidBecomeActive => UntouchedAnswers(s, Step(s, e, hypot));
    case SetRate(ms) => UntouchedAnswers(s, Step(s, e, hypot));
    case SetupCall(bounds, created, found) => UntouchedAnswers(s, Step(s, e, hypot));
    case BorderDetectionSet(enabled) => UntouchedAnswers(s, Step(s, e, hypot));
    case ViewTypeSet(bw) => UntouchedAnswers(s, Step(s, e, hypot));
  }

  /** Over any stream, every capture request the guard accepts is answered
      by exactly one handler call (or is the one still pending), each call
      seeing `isCapturing` cleared; from idle back to idle, the handler is
      called exactly once per accepted request. */
  lemma {:induction false} EveryAcceptedCaptureIsAnsweredOnce(s: ViewState, events: seq<Event>, hypot: Hypot)
    ensures var r := Run(s, events, hypot);
      && s.deliveries <= r.deliveries
      && CallsMadeOrOwed(r) == CallsMadeOrOwed(s) + AcceptedCaptures(s, events, hypot)
      && (forall i :: |s.deliveries| <= i < |r.deliveries| ==> !r.deliveries[i].capturingSeen)
      && (!s.isCapturing && !r.isCapturing ==>
            |r.deliveries| == |s.deliveries| + AcceptedCaptures(s, events, hypot))
    decreases |events|
  {
    if events != [] && !Traps(s, events[0]) {
      var t := Step(s, events[0], hypot);
      StepAnswersCaptures(s, events[0], hypot);
      EveryAcceptedCaptureIsAnsweredOnce(t, events[1..], hypot);
      var r := Run(t, events[1..], hypot);
      forall i | |s.deliveries| <= i < |r.deliveries| ensures !r.deliveries[i].capturingSeen {
        if i < |t.deliveries| {
          assert r.deliveries[i] == t.deliveries[i];
        }
      }
    }
  }

  /** A camera switch keeps the remembered rectangle but clears the
      confidence, so the count toward a rectified capture starts over: the
      third frame after the switch is the first high enough. */
  lemma {:induction false} SwitchRestartsTheCount(s: ViewState, front: bool, bounds: ViewFrame,
                                                 created: bool, k: nat, hypot: Hypot)
    requires front != s.useFrontCam
    requires !s.forceStop && !s.isCapturing && s.enableBorderDetection
    requires !s.borderDetectFrame && s.lastRectangle.Some?
    ensures var r := Run(s, [FrontCamSet(front, bounds, created, true)] + Frames(k), hypot);
      && r.lastRectangle == s.lastRectangle
      && r.imageDetectionConfidence == 0.5 * k as real
      && (HighEnough(r.imageDetectionConfidence) <==> k >= 3)
  {
    RunCons(s, FrontCamSet(front, bounds, created, true), Frames(k), hypot);
    var s1 := SetUseFrontCam(s, front, bounds, created, true);
    RememberedFramesAccumulate(s1, k, hypot);
    HighEnoughAfter(k);
  }

  /** Every event of the stream is applied: none of them traps. */
  predicate AllApplied(s: ViewState, events: seq<Event>, hypot: Hypot)
    decreases |events|
  {
    events == [] || (!Traps(s, events[0]) && AllApplied(Step(s, events[0], hypot), events[1..], hypot))
  }

  lemma FrameKeepsPreview(s: ViewState, valid: bool, rects: seq<Quad>, hypot: Hypot)
    ensures ProcessFrame(s, valid, rects, hypot).glkFrame == s.glkFrame
  {
  }

  lemma CompletionKeepsPreview(s: ViewState, reply: StillReply, hypot: Hypot)
    ensures CompleteCapture(s, reply, hypot).glkFrame == s.glkFrame
  {
  }

  /** No event takes an existing preview away or replaces it. */
  lemma StepKeepsPreview(s: ViewState, e: Event, hypot: Hypot)
    requires s.glkFrame.Some? && !Traps(s, e)
    ensures Step(s, e, hypot).glkFrame == s.glkFrame
  {
    match e
    case Frame(valid, rects) => FrameKeepsPreview(s, valid, rects, hypot);
    case CaptureDone(reply) => CompletionKeepsPreview(s, reply, hypot);
    case _ =>
  }

  /** Once the preview exists it stays the same for the rest of any stream:
      every later rectangle is classified against it, and no later
      `cameraViewType` change traps. */
  lemma {:induction false} PreviewIsKept(s: ViewState, events: seq<Event>, hypot: Hypot)
    requires s.glkFrame.Some?
    ensures AllApplied(s, events, hypot)
    ensures Run(s, events, hypot).glkFrame == s.glkFrame
    decreases |events|
  {
    if events != [] {
      StepKeepsPreview(s, events[0], hypot);
      PreviewIsKept(Step(s, events[0], hypot), events[1..], hypot);
    }
  }

  /** A first `setupCameraView` whose GL context is created makes the
      preview at the view's bounds even when no camera is found, and from
      then on the whole stream is applied with that preview. */
  lemma SetupMakesThePreview(s: ViewState, bounds: ViewFrame, deviceFound: bool,
                             events: seq<Event>, hypot: Hypot)
    requires s.glkFrame.None?
    ensures var r := Run(s, [SetupCall(bounds, true, deviceFound)] + events, hypot);
      && AllApplied(s, [SetupCall(bounds, true, deviceFound)] + events, hypot)
      && r.glkFrame == Some(bounds)
  {
    var e := SetupCall(bounds, true, deviceFound);
    RunCons(s, e, events, hypot);
    var t := SetupCameraView(s, bounds, true, deviceFound);
    PreviewIsKept(t, events, hypot);
    assert ([e] + events)[0] == e && ([e] + events)[1..] == events;
  }

  /** Setting `cameraViewType` on a fresh view, before any setup, traps:
      the stream ends there with the view as it was created. */
  lemma ViewTypeBeforeSetupTraps(enableBorderDetection: bool, blackAndWhite: bool, rate: int,
                                 hasDelegate: bool, bw: bool, rest: seq<Event>, hypot: Hypot)
    ensures var s := Initial(enableBorderDetection, blackAndWhite, rate, hasDelegate);
      && Traps(s, ViewTypeSet(bw))
      && !AllApplied(s, [ViewTypeSet(bw)] + rest, hypot)
      && Run(s, [ViewTypeSet(bw)] + rest, hypot) == s
  {
    assert ([ViewTypeSet(bw)] + rest)[0] == ViewTypeSet(bw);
  }

  /** While a capture is pending, frames and capture requests change
      nothing at all. */
  lemma PendingCaptureBlocks(s: ViewState, e: Event, hypot: Hypot)
    requires s.isCapturing
    requires e.Frame? || e.CaptureRequest?
    ensures Step(s, e, hypot) == s
  {
  }
}
