/** The iOS camera view as an object: the Swift properties are fields and
    each handler updates them in place. Every method is specified by the
    matching step of CameraModel on the snapshot `State()`. */
module CameraController {
  import opened Wrappers
  import opened Geometry
  import opened CameraRules
  import opened CameraModel

  class CameraView {
    var enableBorderDetection: bool
    var blackAndWhite: bool
    var useFrontCam: bool
    var detectionRefreshRateInMS: int
    var forceStop: bool
    var lastDetectionRate: int
    var isStopped: bool
    var imageDetectionConfidence: real
    var borderDetectTimeKeeper: Option<real>
    var borderDetectFrame: bool
    var borderDetectLastRectangleFeature: Option<Quad>
    var isCapturing: bool
    var glkFrame: Option<ViewFrame>
    var hasDelegate: bool
    var detections: seq<Detection>
    var deliveries: seq<Delivery>
    const hypot: Hypot

    /** The fields as a CameraModel state. */
    function State(): ViewState
      reads this
    {
      ViewState(enableBorderDetection, blackAndWhite, useFrontCam, detectionRefreshRateInMS, forceStop,
                lastDetectionRate, isStopped, imageDetectionConfidence, borderDetectTimeKeeper,
                borderDetectFrame, borderDetectLastRectangleFeature, isCapturing, glkFrame,
                hasDelegate, detections, deliveries)
    }

    /** `init(frame:)` with the property defaults: stopped, no timer, a
        refresh rate of 100 ms both set and last applied, and no preview. */
    constructor (enableBorderDetection: bool, blackAndWhite: bool, hasDelegate: bool, hypot: Hypot)
      ensures State() == Initial(enableBorderDetection, blackAndWhite, 100, hasDelegate)
      ensures this.hypot == hypot
    {
      this.enableBorderDetection := enableBorderDetection;
      this.blackAndWhite := blackAndWhite;
      useFrontCam := false;
      detectionRefreshRateInMS := 100;
      forceStop := false;
      lastDetectionRate := 100;
      isStopped := true;
      imageDetectionConfidence := 0.0;
      borderDetectTimeKeeper := None;
      borderDetectFrame := false;
      borderDetectLastRectangleFeature := None;
      isCapturing := false;
      glkFrame := None;
      this.hasDelegate := hasDelegate;
      detections := [];
      deliveries := [];
      this.hypot := hypot;
    }

    method Start()
      modifies this
      ensures State() == CameraModel.Start(old(State()))
    {
      isStopped := false;
      if lastDetectionRate != detectionRefreshRateInMS {
        borderDetectTimeKeeper := Some(TimerInterval(detectionRefreshRateInMS));
      }
      lastDetectionRate := detectionRefreshRateInMS;
    }

    method Stop()
      modifies this
      ensures State() == CameraModel.Stop(old(State()))
    {
      isStopped := true;
      borderDetectTimeKeeper := None;
    }

    method EnableBorderDetectFrame()
      modifies this
      ensures State() == CameraModel.EnableBorderDetectFrame(old(State()))
    {
      borderDetectFrame := true;
    }

    method BackgroundMode()
      modifies this
      ensures State() == CameraModel.BackgroundMode(old(State()))
    {
      forceStop := true;
    }

    method ForegroundMode()
      modifies this
      ensures State() == CameraModel.ForegroundMode(old(State()))
    {
      forceStop := false;
    }

    method SetDetectionRefreshRate(ms: int)
      modifies this
      ensures State() == SetRefreshRate(old(State()), ms)
    {
      detectionRefreshRateInMS := ms;
    }

    method SetEnableBorderDetection(enabled: bool)
      modifies this
      ensures State() == SetBorderDetection(old(State()), enabled)
    {
      enableBorderDetection := enabled;
    }

    method SetCameraViewType(blackAndWhite: bool)
      requires glkFrame.Some?
      modifies this
      ensures State() == SetViewType(old(State()), blackAndWhite)
    {
      this.blackAndWhite := blackAndWhite;
    }

    /** `createGLKView`; `contextCreated` says whether a GL context could be
        made. */
    method CreateGLKView(bounds: ViewFrame, contextCreated: bool)
      modifies this
      ensures State() == CameraModel.CreateGLKView(old(State()), bounds, contextCreated)
    {
      if glkFrame.Some? {
        return;
      }
      if !contextCreated {
        return;
      }
      glkFrame := Some(bounds);
    }

    /** `setupCameraView`; `deviceFound` says whether a camera at the
        requested position exists. */
    method SetupCameraView(bounds: ViewFrame, contextCreated: bool, deviceFound: bool)
      modifies this
      ensures State() == CameraModel.SetupCameraView(old(State()), bounds, contextCreated, deviceFound)
    {
      CreateGLKView(bounds, contextCreated);
      if !deviceFound {
        return;
      }
      imageDetectionConfidence := 0.0;
    }

    /** The `useFrontCam` property and its observer. */
    method SetUseFrontCam(front: bool, bounds: ViewFrame, contextCreated: bool, deviceFound: bool)
      modifies this
      ensures State() == CameraModel.SetUseFrontCam(old(State()), front, bounds, contextCreated, deviceFound)
    {
      var oldValue := useFrontCam;
      useFrontCam := front;
      if useFrontCam != oldValue {
        Stop();
        SetupCameraView(bounds, contextCreated, deviceFound);
        Start();
      }
    }

    /** `biggestRectangle(in:)`: the search loop, then the delegate call. */
    method BiggestRectangle(rectangles: seq<Quad>) returns (biggest: Option<Quad>)
      modifies this
      ensures biggest == Biggest(rectangles, hypot)
      ensures State() == CameraModel.DetectBiggest(old(State()), rectangles, hypot).0
    {
      biggest := CameraRules.BiggestRectangle(rectangles, hypot);
      if hasDelegate && biggest.Some? {
        detections := detections + [Detection(biggest.value, TypeForRectangle(biggest.value, glkFrame))];
      }
    }

    /** `captureOutput(_:didOutput:from:)` for one frame. */
    method CaptureOutput(valid: bool, rectangles: seq<Quad>)
      modifies this
      ensures State() == ProcessFrame(old(State()), valid, rectangles, hypot)
    {
      if forceStop || isStopped || isCapturing || !valid {
        return;
      }
      if blackAndWhite {
        Start();  // filteredImageUsingEnhanceFilter starts the view again
      }
      if enableBorderDetection {
        if borderDetectFrame {
          borderDetectLastRectangleFeature := BiggestRectangle(rectangles);
          borderDetectFrame := false;
        }
        if borderDetectLastRectangleFeature.Some? {
          imageDetectionConfidence := imageDetectionConfidence + 0.5;
        } else {
          imageDetectionConfidence := 0.0;
        }
      }
    }

    /** Clear the flag, then call the completion handler. */
    method Deliver(cropped: Option<UIImage>, initial: Option<UIImage>, rectangle: Option<Quad>)
      modifies this
      ensures State() == CameraModel.Deliver(old(State()), cropped, initial, rectangle)
    {
      isCapturing := false;
      deliveries := deliveries + [Delivery(cropped, initial, rectangle, isCapturing)];
    }

    /** The synchronous part of `captureImageWithCompletionHandler`. */
    method CaptureImage(hasStillOutput: bool, hasVideoConnection: bool)
      modifies this
      ensures State() == RequestCapture(old(State()), hasStillOutput, hasVideoConnection)
    {
      if isCapturing {
        return;
      }
      isCapturing := true;
      if !hasStillOutput || !hasVideoConnection {
        Deliver(None, None, None);
      }
    }

    /** The still-image completion block of `captureImageWithCompletionHandler`. */
    method CompleteCapture(reply: StillReply)
      modifies this
      ensures State() == CameraModel.CompleteCapture(old(State()), reply, hypot)
    {
      if !reply.ImageData? {
        Deliver(None, None, None);
        return;
      }
      var initial := Some(FromJpeg(reply.jpeg));
      if !(blackAndWhite || enableBorderDetection) {
        Deliver(initial, initial, None);
        return;
      }
      if !reply.decodes {
        Deliver(initial, initial, None);
        return;
      }
      if blackAndWhite {
        Start();
      }
      if enableBorderDetection && HighEnough(imageDetectionConfidence) {
        var rectangle := BiggestRectangle(reply.rectangles);
        if rectangle.Some? {
          Deliver(Some(Rectified(reply.jpeg, CorrectPerspective(rectangle.value), blackAndWhite)),
                  initial, rectangle);
          return;
        }
      }
      Deliver(initial, initial, None);
    }
  }
}
