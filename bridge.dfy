/** How the screen's `editAgain` and the Android module meet: the module
    name the screen looks up, the image string it sends, and what the
    module makes of it. */
module Bridge {
  import opened Wrappers
  import opened Strings
  import opened ScreenRules
  import opened DocumentScanner

  /** What the awaited promise hands back to the screen. */
  function ToReply(s: Settlement): (r: NativeReply)
    ensures r.Resolved? <==> s.Resolve?
    ensures s.Resolve? ==> r == Resolved(Some(s.value))
    ensures s.Reject? ==> r == Rejected(s.code, s.message)
  {
    match s
    case Resolve(v) => Resolved(Some(v))
    case Reject(code, message) => Rejected(code, message)
  }

  /** The Android module is registered under the very name the screen
      looks up, so a registry holding it makes the crop available. */
  lemma ScreenFindsAndroidModule(env: EditEnv)
    requires GetName() in env.nativeModules && env.nativeModules[GetName()]
    ensures GetName() == ManagerName
    ensures CropAvailable(env)
  {
  }

  /** A `file://` original image is sent unchanged and the module reads the
      file at its path, without allocating an input buffer. */
  lemma EditedFileIsReadFromItsPath(s: ScreenState, env: EditEnv, path: string, natives: Natives)
    requires CanEdit(s) && CropAvailable(env)
    requires s.originalImage == Some(FileScheme + path)
    requires !Contains(path, FileScheme)
    ensures var request := EditAgainStart(s, env).1.value;
      && request.imageInput == Some(FileScheme + path)
      && LoadInput(request.imageInput.value, natives) == Loaded(natives.imread(path), false)
      && !InputBufferAllocated(request.imageInput, natives)
  {
    var image := FileScheme + path;
    assert !StartsWith(image, DataImage) by {
      if |DataImage| <= |image| {
        assert image[0] != DataImage[0];
      }
    }
    FileUriIsReadFromItsPath(path, natives);
  }

  /** A JPEG data URI loses its prefix and the module base64-decodes the
      payload. */
  lemma EditedJpegIsBase64Decoded(s: ScreenState, env: EditEnv, payload: string, natives: Natives)
    requires CanEdit(s) && CropAvailable(env)
    requires s.originalImage == Some(JpegBase64Prefix + payload)
    requires ',' !in payload && !StartsWith(payload, FileScheme)
    ensures var request := EditAgainStart(s, env).1.value;
      && request.imageInput == Some(payload)
      && LoadInput(payload, natives).bufferAllocated == natives.base64Decode(payload).Returned?
  {
    StripUndoesPrefix(payload);
  }

  /** An image data URI without a comma is sent as `undefined`, which the
      module receives as a null string: the promise is rejected with
      CROP_ERROR, and the screen ends where it began. */
  lemma CommalessDataUriFails(s: ScreenState, env: EditEnv, natives: Natives, ios: bool)
    requires CanEdit(s) && CropAvailable(env)
    requires StartsWith(s.originalImage.value, DataImage) && ',' !in s.originalImage.value
    ensures var request := EditAgainStart(s, env).1.value;
      && request.imageInput.None?
      && CropOutcome(request.imageInput, request.coordinates, request.quality, natives)
           == CaughtCropError(natives.nullPointerMessage)
    ensures var request := EditAgainStart(s, env).1.value;
      var reply := ToReply(CropOutcome(request.imageInput, request.coordinates, request.quality, natives));
      EditAgainResume(EditAgainStart(s, env).0, reply, ios) == s
  {
    StripWithoutCommaIsUndefined(s.originalImage.value);
  }

  /** Whatever the module answers, a settled edit leaves the screen idle; a
      successful crop with non-empty data becomes the captured image. */
  lemma EditRoundTrip(s: ScreenState, env: EditEnv, natives: Natives, ios: bool)
    requires CanEdit(s) && CropAvailable(env)
    ensures var request := EditAgainStart(s, env).1.value;
      var outcome := CropOutcome(request.imageInput, request.coordinates, request.quality, natives);
      var r := EditAgainResume(EditAgainStart(s, env).0, ToReply(outcome), ios);
      && !r.isProcessing
      && (outcome.Resolve? && outcome.value != "" ==>
            r == s.(capturedImage := Some(FormatResult(outcome.value, ios))))
      && (outcome.Reject? ==> r == s)
  {
  }
}
