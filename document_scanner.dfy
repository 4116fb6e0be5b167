/** The Android bridge module's `reapplyPerspectiveCrop`: read the image
    (a `file://` path or base64 data), check it decoded, read the four
    corners, hand them to the perspective transform in the order TL, TR,
    BR, BL, and settle the promise with base64 JPEG data or one of four
    error codes, releasing native buffers on the way out. The codecs and the
    transform are black boxes supplied in `Natives`. */
module DocumentScanner {
  import opened Wrappers
  import opened Strings
  import opened Geometry

  type Bytes = seq<bv8>

  /** A decoded pixel grid, left abstract beyond its size. */
  datatype Image = Image(rows: nat, cols: nat, pixels: Bytes)

  /** What an OpenCV call hands back where Java holds a `Mat`: null, an
      empty Mat, or a Mat holding pixels. */
  datatype MatValue = NullMat | EmptyMat | Pixels(image: Image)

  /** A call into code outside the model: it returns, or throws an
      exception with the given message. */
  datatype Call<T> = Returned(value: T) | Threw(message: string)

  /** The foreign services the method calls. `imencodeJpeg` is
      `Imgcodecs.imencode(".jpg", …)` followed by `toArray()`. */
  datatype Natives = Natives(
    imread: string -> Call<MatValue>,
    base64Decode: string -> Call<Bytes>,
    imdecode: Bytes -> Call<MatValue>,
    reapplyPerspectiveTransform: (Image, seq<Point>, real) -> Call<MatValue>,
    imencodeJpeg: Image -> Call<Bytes>,
    base64EncodeNoWrap: Bytes -> string,
    nullPointerMessage: string,        // message of the exception for a null input string
    missingNumberMessage: string)      // message of the exception `getDouble` throws

  /** The native buffers the method may hold. A Mat is held only while it
      has pixel data: the empty Mats left unreleased on the DECODE_ERROR
      path (an empty decoded original) and on the PROCESS_ERROR path (an
      empty processed result) own no pixel buffer, so they are not leaks. */
  datatype Resource = InputBuffer | OriginalMat | ProcessedMat | OutputBuffer

  /** How the promise is settled. */
  datatype Settlement = Resolve(value: string) | Reject(code: string, message: string)

  const DecodeError: string := "DECODE_ERROR"
  const InvalidCoordinates: string := "INVALID_COORDINATES"
  const ProcessError: string := "PROCESS_ERROR"
  const CropError: string := "CROP_ERROR"
  const FileScheme: string := "file://"

  /** The name the module is registered under. */
  function GetName(): string {
    "RNPdfScannerManager"
  }

  /** The rejection of the catch block. */
  function CaughtCropError(message: string): (s: Settlement)
    ensures s.Reject? && s.code == CropError
  {
    Reject(CropError, "Failed to reapply perspective crop: " + message)
  }

  // ---------------------------------------------------------------------
  // the specification

  /** How the input is read: what the decoder returns, and whether an input
      byte buffer was allocated. */
  datatype Loaded = Loaded(mat: Call<MatValue>, bufferAllocated: bool)

  function LoadInput(input: string, natives: Natives): (l: Loaded)
    ensures StartsWith(input, FileScheme) ==>
      l == Loaded(natives.imread(RemoveAll(input, FileScheme)), false)
    ensures !StartsWith(input, FileScheme) ==>
      l.bufferAllocated == natives.base64Decode(input).Returned?
    ensures !StartsWith(input, FileScheme) && natives.base64Decode(input).Returned? ==>
      l.mat == natives.imdecode(natives.base64Decode(input).value)
  {
    if StartsWith(input, FileScheme) then
      Loaded(natives.imread(RemoveAll(input, FileScheme)), false)
    else
      match natives.base64Decode(input)
      case Threw(m) => Loaded(Threw(m), false)
      case Returned(bytes) => Loaded(natives.imdecode(bytes), true)
  }

  /** A `file://` URI whose path holds no further `file://` is read from
      that path. */
  lemma FileUriIsReadFromItsPath(path: string, natives: Natives)
    requires !Contains(path, FileScheme)
    ensures LoadInput(FileScheme + path, natives) == Loaded(natives.imread(path), false)
  {
    assert (FileScheme + path)[..|FileScheme|] == FileScheme;
    RemoveAllLeading(FileScheme, path);
    RemoveAllWithoutOccurrence(path, FileScheme);
  }

  /** `String.replace` makes one pass, so the path it leaves may still
      start with `file://`. */
  lemma PathMayKeepScheme()
    ensures RemoveAll("file://fifile://le://x", FileScheme) == "file://x"
  {
    var t := "fifile://le://x";
    assert FileScheme + t == "file://fifile://le://x";
    RemoveAllLeading(FileScheme, t);
    InnerOccurrenceRemoved();
  }

  lemma InnerOccurrenceRemoved()
    ensures RemoveAll("fifile://le://x", FileScheme) == "file://x"
  {
    var t := "fifile://le://x";
    var u := t[1..];
    var w := "le://x";
    assert t[..7] != FileScheme by { assert t[2] != FileScheme[2]; }
    assert u[..7] != FileScheme by { assert u[0] != FileScheme[0]; }
    assert u[1..] == FileScheme + w;
    assert RemoveAll(w, FileScheme) == w;
    RemoveAllLeading(FileScheme, w);
    assert RemoveAll(u, FileScheme) == [u[0]] + w;
    assert RemoveAll(t, FileScheme) == [t[0]] + [u[0]] + w;
  }

  /** One corner as a point: `getDouble("x")`, then `getDouble("y")`. */
  function ReadPoint(m: PointMap, natives: Natives): (r: Call<Point>)
    ensures r.Returned? <==> m.x.Some? && m.y.Some?
    ensures r.Returned? ==> r.value == Point(m.x.value, m.y.value)
  {
    if m.x.None? || m.y.None? then Threw(natives.missingNumberMessage)
    else Returned(Point(m.x.value, m.y.value))
  }

  predicate AllCornersPresent(c: CornerMaps) {
    c.topLeft.Some? && c.topRight.Some? && c.bottomLeft.Some? && c.bottomRight.Some?
  }

  /** The point array for the transform, filled in the order top-left,
      top-right, bottom-right, bottom-left. */
  function ReadPoints(c: CornerMaps, natives: Natives): (r: Call<seq<Point>>)
    requires AllCornersPresent(c)
    ensures r.Returned? <==>
      ReadPoint(c.topLeft.value, natives).Returned? && ReadPoint(c.topRight.value, natives).Returned?
      && ReadPoint(c.bottomRight.value, natives).Returned? && ReadPoint(c.bottomLeft.value, natives).Returned?
    ensures r.Returned? ==> r.value == [
      Point(c.topLeft.value.x.value, c.topLeft.value.y.value),
      Point(c.topRight.value.x.value, c.topRight.value.y.value),
      Point(c.bottomRight.value.x.value, c.bottomRight.value.y.value),
      Point(c.bottomLeft.value.x.value, c.bottomLeft.value.y.value)]
  {
    match ReadPoint(c.topLeft.value, natives)
    case Threw(m) => Threw(m)
    case Returned(tl) =>
      match ReadPoint(c.topRight.value, natives)
      case Threw(m) => Threw(m)
      case Returned(tr) =>
        match ReadPoint(c.bottomRight.value, natives)
        case Threw(m) => Threw(m)
        case Returned(br) =>
          match ReadPoint(c.bottomLeft.value, natives)
          case Threw(m) => Threw(m)
          case Returned(bl) => Returned([tl, tr, br, bl])
  }

  /** Reference definition of how `reapplyPerspectiveCrop` settles its
      promise. `input` None is a null string. */
  function CropOutcome(input: Option<string>, c: CornerMaps, quality: real, natives: Natives): (r: Settlement)
    ensures r.Resolve? ==>
      && input.Some?
      && var l := LoadInput(input.value, natives);
      && l.mat.Returned? && l.mat.value.Pixels? && AllCornersPresent(c) && ReadPoints(c, natives).Returned?
      && var p := natives.reapplyPerspectiveTransform(l.mat.value.image, ReadPoints(c, natives).value, quality);
      && p.Returned? && p.value.Pixels? && natives.imencodeJpeg(p.value.image).Returned?
      && r.value == natives.base64EncodeNoWrap(natives.imencodeJpeg(p.value.image).value)
    ensures r.Reject? ==> r.code in {DecodeError, InvalidCoordinates, ProcessError, CropError}
  {
    match input
    case None => CaughtCropError(natives.nullPointerMessage)
    case Some(s) =>
      match LoadInput(s, natives).mat
      case Threw(m) => CaughtCropError(m)
      case Returned(original) =>
        if !original.Pixels? then Reject(DecodeError, "Failed to decode image")
        else if !AllCornersPresent(c) then Reject(InvalidCoordinates, "Missing coordinate data")
        else
          match ReadPoints(c, natives)
          case Threw(m) => CaughtCropError(m)
          case Returned(points) =>
            match natives.reapplyPerspectiveTransform(original.image, points, quality)
            case Threw(m) => CaughtCropError(m)
            case Returned(processed) =>
              if !processed.Pixels? then Reject(ProcessError, "Failed to process image")
              else
                match natives.imencodeJpeg(processed.image)
                case Threw(m) => CaughtCropError(m)
                case Returned(bytes) => Resolve(natives.base64EncodeNoWrap(bytes))
  }

  /** A null or empty decoded image is rejected with DECODE_ERROR before any
      coordinate is looked at: neither the corners nor the quality matter. */
  lemma DecodeFailureComesFirst(input: string, c1: CornerMaps, c2: CornerMaps, q1: real, q2: real, natives: Natives)
    requires LoadInput(input, natives).mat.Returned? && !LoadInput(input, natives).mat.value.Pixels?
    ensures CropOutcome(Some(input), c1, q1, natives) == CropOutcome(Some(input), c2, q2, natives)
    ensures CropOutcome(Some(input), c1, q1, natives) == Reject(DecodeError, "Failed to decode image")
  {
  }

  /** A missing corner map, once the image has decoded, is rejected with
      INVALID_COORDINATES whatever the transform would have done. */
  lemma MissingCornerIsInvalid(input: string, c: CornerMaps, quality: real, natives: Natives)
    requires LoadInput(input, natives).mat.Returned? && LoadInput(input, natives).mat.value.Pixels?
    requires !AllCornersPresent(c)
    ensures CropOutcome(Some(input), c, quality, natives) == Reject(InvalidCoordinates, "Missing coordinate data")
  {
  }

  /** The transform is handed the decoded image, the corners as TL, TR, BR,
      BL, and the caller's quality; a null or empty result is PROCESS_ERROR. */
  lemma TransformGetsOrderedCorners(input: string, c: CornerMaps, quality: real, natives: Natives,
                                    tl: Point, tr: Point, br: Point, bl: Point)
    requires LoadInput(input, natives).mat.Returned? && LoadInput(input, natives).mat.value.Pixels?
    requires c.topLeft == Some(PointMap(Some(tl.x), Some(tl.y)))
    requires c.topRight == Some(PointMap(Some(tr.x), Some(tr.y)))
    requires c.bottomRight == Some(PointMap(Some(br.x), Some(br.y)))
    requires c.bottomLeft == Some(PointMap(Some(bl.x), Some(bl.y)))
    ensures var p := natives.reapplyPerspectiveTransform(LoadInput(input, natives).mat.value.image,
                                                         [tl, tr, br, bl], quality);
      && (p.Returned? && !p.value.Pixels? ==>
            CropOutcome(Some(input), c, quality, natives) == Reject(ProcessError, "Failed to process image"))
      && (p.Threw? ==> CropOutcome(Some(input), c, quality, natives) == CaughtCropError(p.message))
      && (p.Returned? && p.value.Pixels? && natives.imencodeJpeg(p.value.image).Returned? ==>
            CropOutcome(Some(input), c, quality, natives)
              == Resolve(natives.base64EncodeNoWrap(natives.imencodeJpeg(p.value.image).value)))
  {
    assert ReadPoints(c, natives) == Returned([tl, tr, br, bl]);
  }

  // ---------------------------------------------------------------------
  // the method

  /** Whether `matOfByteInput` is allocated: only on the base64 path, once
      the bytes have decoded. */
  predicate InputBufferAllocated(input: Option<string>, natives: Natives) {
    input.Some? && LoadInput(input.value, natives).bufferAllocated
  }

  /** Whether the exception comes from encoding the processed image, the one
      point at which the processed Mat and the output buffer exist and the
      catch block does not release them. */
  predicate EncodingThrows(input: Option<string>, c: CornerMaps, quality: real, natives: Natives) {
    && input.Some?
    && var l := LoadInput(input.value, natives);
    && l.mat.Returned? && l.mat.value.Pixels? && AllCornersPresent(c) && ReadPoints(c, natives).Returned?
    && var p := natives.reapplyPerspectiveTransform(l.mat.value.image, ReadPoints(c, natives).value, quality);
    && p.Returned? && p.value.Pixels? && natives.imencodeJpeg(p.value.image).Threw?
  }

  /** An encoding failure is reported as CROP_ERROR carrying the
      encoder's message. */
  lemma EncodingFailureIsCropError(input: Option<string>, c: CornerMaps, quality: real, natives: Natives)
    requires EncodingThrows(input, c, quality, natives)
    ensures var l := LoadInput(input.value, natives);
      var p := natives.reapplyPerspectiveTransform(l.mat.value.image, ReadPoints(c, natives).value, quality);
      CropOutcome(input, c, quality, natives) == CaughtCropError(natives.imencodeJpeg(p.value.image).message)
  {
  }

  /** The catch block: release the original Mat if it holds pixels and the
      input buffer if there is one, then reject with CROP_ERROR. */
  method Catch(message: string, originalMat: MatValue, hasInputBuffer: bool, ghost live: set<Resource>)
    returns (settlement: Settlement, ghost liveAfter: set<Resource>)
    ensures settlement == CaughtCropError(message)
    ensures liveAfter == live - (if originalMat.Pixels? then {OriginalMat} else {})
                              - (if hasInputBuffer then {InputBuffer} else {})
  {
    liveAfter := live;
    if originalMat.Pixels? {
      liveAfter := liveAfter - {OriginalMat};  // originalMat.release()
    }
    if hasInputBuffer {
      liveAfter := liveAfter - {InputBuffer};  // matOfByteInput.release()
    }
    settlement := CaughtCropError(message);
  }

  /** `reapplyPerspectiveCrop`. `settlements` lists every `resolve` and
      `reject` call on the promise; `leaked` is the set of native buffers
      still held when it returns. */
  method ReapplyPerspectiveCrop(imageInput: Option<string>, coordinates: CornerMaps, quality: real, natives: Natives)
    returns (settlements: seq<Settlement>, ghost leaked: set<Resource>, ghost inputAllocated: bool)
    ensures settlements == [CropOutcome(imageInput, coordinates, quality, natives)]
    ensures inputAllocated == InputBufferAllocated(imageInput, natives)
    ensures imageInput.Some? && StartsWith(imageInput.value, FileScheme) ==> !inputAllocated
    ensures settlements[0].Resolve? || settlements[0].code != CropError ==> leaked == {}
    ensures leaked == if EncodingThrows(imageInput, coordinates, quality, natives)
                      then {ProcessedMat, OutputBuffer} else {}
  {
    ghost var live: set<Resource> := {};
    var originalMat := NullMat;
    var hasInputBuffer := false;
    inputAllocated := false;
    var settlement;

    if imageInput.None? {
      settlement, leaked := Catch(natives.nullPointerMessage, originalMat, hasInputBuffer, live);
      return [settlement], leaked, inputAllocated;
    }
    var input := imageInput.value;
    if StartsWith(input, FileScheme) {
      var filePath := RemoveAll(input, FileScheme);
      var read := natives.imread(filePath);
      if read.Threw? {
        settlement, leaked := Catch(read.message, originalMat, hasInputBuffer, live);
        return [settlement], leaked, inputAllocated;
      }
      originalMat := read.value;
    } else {
      var decodedBytes := natives.base64Decode(input);
      if decodedBytes.Threw? {
        settlement, leaked := Catch(decodedBytes.message, originalMat, hasInputBuffer, live);
        return [settlement], leaked, inputAllocated;
      }
      hasInputBuffer := true;
      inputAllocated := true;
      live := live + {InputBuffer};
      var decoded := natives.imdecode(decodedBytes.value);
      if decoded.Threw? {
        settlement, leaked := Catch(decoded.message, originalMat, hasInputBuffer, live);
        return [settlement], leaked, inputAllocated;
      }
      originalMat := decoded.value;
    }
    if originalMat.Pixels? {
      live := live + {OriginalMat};
    }

    if !originalMat.Pixels? {
      if hasInputBuffer {
        live := live - {InputBuffer};
      }
      return [Reject(DecodeError, "Failed to decode image")], live, inputAllocated;
    }

    if !AllCornersPresent(coordinates) {
      live := live - {OriginalMat};
      if hasInputBuffer {
        live := live - {InputBuffer};
      }
      return [Reject(InvalidCoordinates, "Missing coordinate data")], live, inputAllocated;
    }

    var points := ReadPoints(coordinates, natives);
    if points.Threw? {
      settlement, leaked := Catch(points.message, originalMat, hasInputBuffer, live);
      return [settlement], leaked, inputAllocated;
    }

    var processed := natives.reapplyPerspectiveTransform(originalMat.image, points.value, quality);
    if processed.Threw? {
      settlement, leaked := Catch(processed.message, originalMat, hasInputBuffer, live);
      return [settlement], leaked, inputAllocated;
    }
    var processedMat := processed.value;
    if !processedMat.Pixels? {
      live := live - {OriginalMat};
      if hasInputBuffer {
        live := live - {InputBuffer};
      }
      return [Reject(ProcessError, "Failed to process image")], live, inputAllocated;
    }
    live := live + {ProcessedMat};

    live := live + {OutputBuffer};  // new MatOfByte()
    var encoded := natives.imencodeJpeg(processedMat.image);
    if encoded.Threw? {
      settlement, leaked := Catch(encoded.message, originalMat, hasInputBuffer, live);
      return [settlement], leaked, inputAllocated;
    }
    var base64Result := natives.base64EncodeNoWrap(encoded.value);
    settlements := [Resolve(base64Result)];

    live := live - {OriginalMat, ProcessedMat, OutputBuffer};
    if hasInputBuffer {
      live := live - {InputBuffer};
    }
    leaked := live;
  }
}
