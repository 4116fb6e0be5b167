/** The React scanner screen as a component object: `state` is
    `this.state`, and each handler replaces it as its `setState` calls do.
    Every handler is specified by the matching transition of ScreenRules. */
module ScannerScreen {
  import opened Wrappers
  import opened Strings
  import opened Geometry
  import opened ScreenRules

  class Screen {
    var state: ScreenState

    constructor ()
      ensures state == Initial()
    {
      state := ScreenState(false, 0, None, None, None, None, false, false);
    }

    method HandlePictureTaken(data: PictureData)
      modifies this
      ensures state == ScreenRules.HandlePictureTaken(old(state), data)
    {
      state := state.(capturedImage := data.croppedImage, originalImage := data.initialImage,
                      rectangleCoordinates := data.rectangleCoordinates, showResult := true);
    }

    method HandleRectangleDetect(stableCounter: int, lastDetectionType: Option<int>)
      modifies this
      ensures state == ScreenRules.HandleRectangleDetect(old(state), stableCounter, lastDetectionType)
    {
      state := state.(stableCounter := stableCounter, lastDetectionType := lastDetectionType);
    }

    /** `capture`: whether it calls the scanner's `capture`. */
    method Capture(hasScannerRef: bool) returns (forwarded: bool)
      ensures forwarded == ScreenRules.CaptureForwards(state, hasScannerRef)
    {
      forwarded := false;
      if hasScannerRef && state.stableCounter > 0 {
        forwarded := true;
      }
    }

    method Retake()
      modifies this
      ensures state == ScreenRules.Retake(old(state))
    {
      state := state.(showResult := false, capturedImage := None, originalImage := None,
                      rectangleCoordinates := None, stableCounter := 0, lastDetectionType := None,
                      isProcessing := false);
    }

    /** `editAgain` up to its `await`. */
    method EditAgain(env: EditEnv) returns (request: Option<CropRequest>)
      modifies this
      ensures (state, request) == EditAgainStart(old(state), env)
    {
      if state.isProcessing || !Truthy(state.originalImage) || state.rectangleCoordinates.None? {
        return None;
      }
      state := state.(isProcessing := true);
      if ManagerName !in env.nativeModules || !env.nativeModules[ManagerName] {
        state := state.(isProcessing := false);  // the catch block
        return None;
      }
      var quality := EffectiveQuality(env.qualityProp);
      var original := state.originalImage.value;
      var imageInput := Some(original);
      if StartsWith(original, DataImage) {
        imageInput := FieldAfterFirst(original, ',');
      }
      request := Some(CropRequest(imageInput, state.rectangleCoordinates.value, quality));
    }

    /** The rest of `editAgain` once the native promise settles. */
    method ResumeEditAgain(reply: NativeReply, ios: bool)
      modifies this
      ensures state == EditAgainResume(old(state), reply, ios)
    {
      if !(reply.Resolved? && Truthy(reply.value)) {
        state := state.(isProcessing := false);  // thrown for a falsy result, or rejected
        return;
      }
      var croppedImage := reply.value.value;
      var formattedImage := croppedImage;
      if ios && !StartsWith(croppedImage, "data:") && !StartsWith(croppedImage, "file://") {
        formattedImage := JpegBase64Prefix + croppedImage;
      }
      state := state.(capturedImage := Some(formattedImage), isProcessing := false);
    }

    method KeepScan(hasOnScanComplete: bool) returns (completed: Option<PictureData>)
      ensures completed == ScreenRules.KeepScan(state, hasOnScanComplete)
    {
      if !Truthy(state.capturedImage) {
        return None;
      }
      completed := None;
      if hasOnScanComplete {
        completed := Some(PictureData(state.capturedImage, state.originalImage, state.rectangleCoordinates));
      }
    }
  }
}
