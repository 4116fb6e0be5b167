/** The React scanner screen's logic: its component state as a record, each
    handler as a guarded transition on that record (`setState` merges
    fields), and the string rules it applies to images. */
module ScreenRules {
  import opened Wrappers
  import opened Strings
  import opened Geometry

  /** JavaScript truthiness of a string-or-null value: null and "" are falsy. */
  predicate Truthy(v: Option<string>) {
    v.Some? && v.value != ""
  }

  datatype ScreenState = ScreenState(
    flashEnabled: bool,
    stableCounter: int,
    lastDetectionType: Option<int>,
    capturedImage: Option<string>,
    originalImage: Option<string>,
    rectangleCoordinates: Option<CornerMaps>,
    showResult: bool,
    isProcessing: bool)

  /** The state the constructor sets up. */
  function Initial(): ScreenState {
    ScreenState(false, 0, None, None, None, None, false, false)
  }

  /** What `onPictureTaken` delivers, and what `onScanComplete` receives. */
  datatype PictureData = PictureData(
    croppedImage: Option<string>,
    initialImage: Option<string>,
    rectangleCoordinates: Option<CornerMaps>)

  // ---------------------------------------------------------------------
  // handlePictureTaken, handleRectangleDetect, capture, retake

  function HandlePictureTaken(s: ScreenState, data: PictureData): (r: ScreenState)
    ensures r.showResult
    ensures r.capturedImage == data.croppedImage && r.originalImage == data.initialImage
    ensures r.rectangleCoordinates == data.rectangleCoordinates
    ensures r.flashEnabled == s.flashEnabled && r.stableCounter == s.stableCounter
    ensures r.lastDetectionType == s.lastDetectionType && r.isProcessing == s.isProcessing
  {
    s.(capturedImage := data.croppedImage, originalImage := data.initialImage,
       rectangleCoordinates := data.rectangleCoordinates, showResult := true)
  }

  function HandleRectangleDetect(s: ScreenState, stableCounter: int, lastDetectionType: Option<int>): (r: ScreenState)
    ensures r.stableCounter == stableCounter && r.lastDetectionType == lastDetectionType
    ensures r.(stableCounter := s.stableCounter, lastDetectionType := s.lastDetectionType) == s
  {
    s.(stableCounter := stableCounter, lastDetectionType := lastDetectionType)
  }

  /** Whether `capture` forwards to the scanner's own `capture`. */
  function CaptureForwards(s: ScreenState, hasScannerRef: bool): bool {
    hasScannerRef && s.stableCounter > 0
  }

  /** The capture button's `disabled` property. */
  function CaptureDisabled(s: ScreenState): bool {
    s.stableCounter == 0
  }

  /** A press that forwards comes from an enabled button, and for a counter
      that is never negative the button is enabled exactly when a press
      would forward (given a scanner reference). */
  lemma CaptureOnlyWhenEnabled(s: ScreenState, hasScannerRef: bool)
    ensures CaptureForwards(s, hasScannerRef) ==> !CaptureDisabled(s)
    ensures hasScannerRef && s.stableCounter >= 0 ==>
      (CaptureForwards(s, hasScannerRef) <==> !CaptureDisabled(s))
  {
  }

  /** `retake`, once the overlay has faded out. */
  function Retake(s: ScreenState): (r: ScreenState)
    ensures !r.showResult && !r.isProcessing && r.stableCounter == 0
    ensures r.capturedImage.None? && r.originalImage.None? && r.rectangleCoordinates.None?
    ensures r.lastDetectionType.None? && r.flashEnabled == s.flashEnabled
  {
    s.(showResult := false, capturedImage := None, originalImage := None,
       rectangleCoordinates := None, stableCounter := 0, lastDetectionType := None,
       isProcessing := false)
  }

  /** `retake` returns the screen to its initial state, except for the
      flash setting. */
  lemma RetakeRestoresInitial(s: ScreenState)
    ensures Retake(s) == Initial().(flashEnabled := s.flashEnabled)
  {
  }

  // ---------------------------------------------------------------------
  // the string rules of editAgain and render

  const DataImage: string := "data:image"
  const JpegBase64Prefix: string := "data:image/jpeg;base64,"

  /** `this.scannerRef?.props?.quality || 0.8`: absent or 0 falls back to 0.8. */
  function EffectiveQuality(quality: Option<real>): (q: real)
    ensures quality.Some? && quality.value != 0.0 ==> q == quality.value
    ensures quality.None? || quality.value == 0.0 ==> q == 0.8
    ensures q != 0.0
  {
    if quality.Some? && quality.value != 0.0 then quality.value else 0.8
  }

  /** Applying the fallback to its own result changes nothing. */
  lemma EffectiveQualityIdempotent(quality: Option<real>)
    ensures EffectiveQuality(Some(EffectiveQuality(quality))) == EffectiveQuality(quality)
  {
  }

  /** The image input sent for re-cropping: a data URI is cut down to
      `split(',')[1]` (undefined, here None, when it has no comma); anything
      else, file paths included, passes unchanged. */
  function StripDataUriPrefix(input: string): (r: Option<string>)
    ensures !StartsWith(input, DataImage) ==> r == Some(input)
    ensures StartsWith(input, DataImage) ==> r == FieldAfterFirst(input, ',')
  {
    if StartsWith(input, DataImage) then FieldAfterFirst(input, ',') else Some(input)
  }

  /** Stripping undoes the JPEG base64 prefix: the payload comes back. */
  lemma StripUndoesPrefix(payload: string)
    requires ',' !in payload
    ensures StripDataUriPrefix(JpegBase64Prefix + payload) == Some(payload)
  {
    var s := JpegBase64Prefix + payload;
    assert s[..|DataImage|] == DataImage;
    assert IndexOf(s, ',') == Some(|JpegBase64Prefix| - 1) by {
      assert s[|JpegBase64Prefix| - 1] == ',';
      assert ',' !in s[..|JpegBase64Prefix| - 1];
    }
    assert s[|JpegBase64Prefix|..] == payload;
  }

  /** A data URI without a comma gives `undefined`. */
  lemma StripWithoutCommaIsUndefined(input: string)
    requires StartsWith(input, DataImage) && ',' !in input
    ensures StripDataUriPrefix(input).None?
  {
  }

  predicate IsUri(v: string) {
    StartsWith(v, "data:") || StartsWith(v, "file://")
  }

  lemma PrefixedIsUri(payload: string)
    ensures IsUri(JpegBase64Prefix + payload)
  {
    assert (JpegBase64Prefix + payload)[..5] == "data:";
  }

  /** How `editAgain` formats the re-cropped image: on iOS a bare base64
      string gets the JPEG data-URI prefix; data URIs, file URIs and every
      result on Android pass unchanged. */
  function FormatResult(cropped: string, ios: bool): (r: string)
    ensures ios && !IsUri(cropped) ==> r == JpegBase64Prefix + cropped
    ensures !ios || IsUri(cropped) ==> r == cropped
    ensures ios ==> IsUri(r)
  {
    if ios && !IsUri(cropped) then
      PrefixedIsUri(cropped);
      JpegBase64Prefix + cropped
    else cropped
  }

  lemma FormatResultIdempotent(cropped: string, ios: bool)
    ensures FormatResult(FormatResult(cropped, ios), ios) == FormatResult(cropped, ios)
  {
  }

  /** The `uri` the result image is rendered from. */
  function ResultImageUri(captured: string): (uri: string)
    ensures IsUri(uri)
    ensures IsUri(captured) ==> uri == captured
  {
    if IsUri(captured) then captured
    else
      PrefixedIsUri(captured);
      JpegBase64Prefix + captured
  }

  /** The render rule is the iOS formatting rule, so rendering an image that
      `editAgain` already formatted adds nothing more. */
  lemma RenderAgreesWithFormat(captured: string)
    ensures ResultImageUri(captured) == FormatResult(captured, true)
    ensures ResultImageUri(FormatResult(captured, true)) == FormatResult(captured, true)
  {
  }

  // ---------------------------------------------------------------------
  // editAgain

  /** The arguments of `reapplyPerspectiveCrop`. */
  datatype CropRequest = CropRequest(imageInput: Option<string>, coordinates: CornerMaps, quality: real)

  /** The JavaScript environment `editAgain` consults: the native modules by
      name (with whether each has `reapplyPerspectiveCrop`) and the scanner's
      `quality` property. */
  datatype EditEnv = EditEnv(nativeModules: map<string, bool>, qualityProp: Option<real>)

  const ManagerName: string := "RNPdfScannerManager"

  predicate CropAvailable(env: EditEnv) {
    ManagerName in env.nativeModules && env.nativeModules[ManagerName]
  }

  /** The guard of `editAgain`. */
  predicate CanEdit(s: ScreenState) {
    !s.isProcessing && Truthy(s.originalImage) && s.rectangleCoordinates.Some?
  }

  /** `editAgain` up to the native call it awaits: the new state, and the
      request sent (None when nothing is sent). */
  function EditAgainStart(s: ScreenState, env: EditEnv): (res: (ScreenState, Option<CropRequest>))
    ensures !CanEdit(s) ==> res == (s, None)
    ensures CanEdit(s) && !CropAvailable(env) ==> res == (s, None)
    ensures CanEdit(s) && CropAvailable(env) ==>
      && res.0 == s.(isProcessing := true)
      && res.1 == Some(CropRequest(StripDataUriPrefix(s.originalImage.value),
                                   s.rectangleCoordinates.value, EffectiveQuality(env.qualityProp)))
  {
    if !CanEdit(s) then (s, None)
    else
      var busy := s.(isProcessing := true);
      if !CropAvailable(env) then (busy.(isProcessing := false), None)
      else
        (busy, Some(CropRequest(StripDataUriPrefix(s.originalImage.value),
                                s.rectangleCoordinates.value, EffectiveQuality(env.qualityProp))))
  }

  /** How the awaited `reapplyPerspectiveCrop` promise settles. */
  datatype NativeReply = Resolved(value: Option<string>) | Rejected(code: string, message: string)

  /** The rest of `editAgain` once the promise settles: a truthy result
      becomes the captured image; a falsy result or a rejection is caught.
      Either way processing ends. */
  function EditAgainResume(s: ScreenState, reply: NativeReply, ios: bool): (r: ScreenState)
    ensures !r.isProcessing
    ensures reply.Resolved? && Truthy(reply.value) ==>
      r == s.(capturedImage := Some(FormatResult(reply.value.value, ios)), isProcessing := false)
    ensures !(reply.Resolved? && Truthy(reply.value)) ==> r == s.(isProcessing := false)
  {
    if reply.Resolved? && Truthy(reply.value) then
      s.(capturedImage := Some(FormatResult(reply.value.value, ios)), isProcessing := false)
    else s.(isProcessing := false)
  }

  /** An edit that gets through its guard ends with `isProcessing` false
      again, and with the captured image formatted from the reply when it
      succeeds. */
  lemma EditAgainEndsIdle(s: ScreenState, env: EditEnv, reply: NativeReply, ios: bool)
    requires CanEdit(s) && CropAvailable(env)
    ensures EditAgainStart(s, env).0.isProcessing
    ensures var r := EditAgainResume(EditAgainStart(s, env).0, reply, ios);
      && !r.isProcessing
      && r.originalImage == s.originalImage && r.rectangleCoordinates == s.rectangleCoordinates
      && (reply.Resolved? && Truthy(reply.value) ==> r.capturedImage == Some(FormatResult(reply.value.value, ios)))
      && (!(reply.Resolved? && Truthy(reply.value)) ==> r == s)
  {
  }

  /** After a picture is taken, editing it sends the picture's own original
      image (its data-URI prefix stripped) and coordinates. */
  lemma EditAgainSendsTakenPicture(s: ScreenState, data: PictureData, env: EditEnv)
    requires !s.isProcessing && Truthy(data.initialImage) && data.rectangleCoordinates.Some?
    requires CropAvailable(env)
    ensures EditAgainStart(HandlePictureTaken(s, data), env).1 ==
      Some(CropRequest(StripDataUriPrefix(data.initialImage.value), data.rectangleCoordinates.value,
                       EffectiveQuality(env.qualityProp)))
  {
  }

  // ---------------------------------------------------------------------
  // keepScan and getDetectionMessage

  /** `keepScan`: what `onScanComplete` is called with, if it is called. */
  function KeepScan(s: ScreenState, hasOnScanComplete: bool): (r: Option<PictureData>)
    ensures r.Some? <==> Truthy(s.capturedImage) && hasOnScanComplete
    ensures r.Some? ==> r.value == PictureData(s.capturedImage, s.originalImage, s.rectangleCoordinates)
  {
    if !Truthy(s.capturedImage) then None
    else if hasOnScanComplete then Some(PictureData(s.capturedImage, s.originalImage, s.rectangleCoordinates))
    else None
  }

  /** Keeping a freshly taken picture hands back exactly what was taken. */
  lemma KeepScanReturnsTakenPicture(s: ScreenState, data: PictureData)
    requires Truthy(data.croppedImage)
    ensures KeepScan(HandlePictureTaken(s, data), true) == Some(data)
  {
  }

  /** After `retake` there is nothing to keep and nothing to edit. */
  lemma RetakeBlocksKeepAndEdit(s: ScreenState, env: EditEnv, hasOnScanComplete: bool)
    ensures KeepScan(Retake(s), hasOnScanComplete).None?
    ensures EditAgainStart(Retake(s), env) == (Retake(s), None)
  {
  }

  const ReadyMessage: string := "✓ Ready to capture"
  const AdjustAngleMessage: string := "⚠ Adjust angle"
  const MoveCloserMessage: string := "⚠ Move closer"
  const PositionMessage: string := "Position document in frame"

  function GetDetectionMessage(s: ScreenState): (m: string)
    ensures m == ReadyMessage <==> s.stableCounter > 0
    ensures m == AdjustAngleMessage <==> s.stableCounter <= 0 && s.lastDetectionType == Some(1)
    ensures m == MoveCloserMessage <==> s.stableCounter <= 0 && s.lastDetectionType == Some(2)
    ensures m == PositionMessage <==>
      s.stableCounter <= 0 && s.lastDetectionType != Some(1) && s.lastDetectionType != Some(2)
  {
    if s.stableCounter > 0 then ReadyMessage
    else
      match s.lastDetectionType
      case Some(1) => AdjustAngleMessage
      case Some(2) => MoveCloserMessage
      case _ => PositionMessage
  }
}
