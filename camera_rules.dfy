/** The decision rules of the iOS camera view that do not depend on its
    run state: which detected rectangle is the biggest, how a rectangle is
    classified, when the detection confidence suffices, how the corners are
    adjusted before perspective correction, and where a tap focuses. */
module CameraRules {
  import opened Wrappers
  import opened Geometry

  // ---------------------------------------------------------------------
  // biggestRectangle

  /** Reference definition: the index of the first rectangle whose half
      perimeter is largest among `rects`. */
  function BiggestIndex(rects: seq<Quad>, hypot: Hypot): (k: nat)
    requires |rects| > 0
    ensures k < |rects|
    decreases |rects|
  {
    if |rects| == 1 then 0
    else
      var k := BiggestIndex(rects[..|rects| - 1], hypot);
      if HalfPerimeter(rects[k], hypot) < HalfPerimeter(rects[|rects| - 1], hypot) then |rects| - 1 else k
  }

  /** `BiggestIndex` picks a maximum, and no earlier rectangle is as big. */
  lemma {:induction false} BiggestIndexIsEarliestMax(rects: seq<Quad>, hypot: Hypot)
    requires |rects| > 0
    ensures forall j :: 0 <= j < |rects| ==>
      HalfPerimeter(rects[j], hypot) <= HalfPerimeter(rects[BiggestIndex(rects, hypot)], hypot)
    ensures forall j :: 0 <= j < BiggestIndex(rects, hypot) ==>
      HalfPerimeter(rects[j], hypot) < HalfPerimeter(rects[BiggestIndex(rects, hypot)], hypot)
    decreases |rects|
  {
    if |rects| > 1 {
      var init := rects[..|rects| - 1];
      BiggestIndexIsEarliestMax(init, hypot);
      assert forall j :: 0 <= j < |init| ==> init[j] == rects[j];
    }
  }

  /** The rectangle `biggestRectangle(in:)` returns: nil for no candidates,
      otherwise the earliest among the largest. */
  function Biggest(rects: seq<Quad>, hypot: Hypot): (r: Option<Quad>)
    ensures r.None? <==> rects == []
    ensures r.Some? ==> r.value in rects
    ensures r.Some? ==> forall q :: q in rects ==> HalfPerimeter(q, hypot) <= HalfPerimeter(r.value, hypot)
  {
    if rects == [] then None
    else
      BiggestIndexIsEarliestMax(rects, hypot);
      Some(rects[BiggestIndex(rects, hypot)])
  }

  /** The search loop of `biggestRectangle(in:)`: starts from the first
      candidate with a best value of 0 and replaces it only on a strictly
      larger half perimeter. */
  method BiggestRectangle(rectangles: seq<Quad>, hypot: Hypot) returns (biggest: Option<Quad>)
    ensures biggest == Biggest(rectangles, hypot)
  {
    if |rectangles| == 0 {
      return None;
    }
    var halfPerimeterValue := 0.0;
    var best := rectangles[0];
    ghost var k := 0;
    for i := 0 to |rectangles|
      invariant k < |rectangles| && best == rectangles[k]
      invariant i == 0 ==> k == 0 && halfPerimeterValue == 0.0
      invariant i > 0 ==> k == BiggestIndex(rectangles[..i], hypot)
      invariant i > 0 ==> halfPerimeterValue == HalfPerimeter(best, hypot)
    {
      var current := HalfPerimeter(rectangles[i], hypot);
      assert rectangles[..i + 1][..i] == rectangles[..i];
      assert i > 0 ==> rectangles[..i + 1][k] == rectangles[k];
      if halfPerimeterValue < current {
        halfPerimeterValue := current;
        best := rectangles[i];
        k := i;
      }
    }
    assert rectangles[..|rectangles|] == rectangles;
    biggest := Some(best);
  }

  // ---------------------------------------------------------------------
  // typeForRectangle

  datatype RectangleType = Good | BadAngle | TooFar

  /** The frame of the preview view: its origin's y and its height. */
  datatype ViewFrame = ViewFrame(originY: real, height: real)

  /** Some pair of corners that should line up differs by more than 100
      points: top edge (y), right edge (x), left edge (x), bottom edge (y). */
  predicate Skewed(q: Quad) {
    || Abs(q.topRight.y - q.topLeft.y) > 100.0
    || Abs(q.topRight.x - q.bottomRight.x) > 100.0
    || Abs(q.topLeft.x - q.bottomLeft.x) > 100.0
    || Abs(q.bottomLeft.y - q.bottomRight.y) > 100.0
  }

  /** Some corner is more than 150 points from the frame edge it is
      measured against: top corners against the bottom of the frame,
      bottom corners against its origin. */
  predicate FarFromEdges(q: Quad, f: ViewFrame) {
    || (f.originY + f.height) - q.topLeft.y > 150.0
    || (f.originY + f.height) - q.topRight.y > 150.0
    || f.originY - q.bottomLeft.y > 150.0
    || f.originY - q.bottomRight.y > 150.0
  }

  /** `typeForRectangle`: without a preview view every rectangle is good; a
      bad angle wins over being too far. */
  function TypeForRectangle(q: Quad, glkFrame: Option<ViewFrame>): (t: RectangleType)
    ensures glkFrame.None? ==> t == Good
    ensures t == BadAngle <==> glkFrame.Some? && Skewed(q)
    ensures t == TooFar <==> glkFrame.Some? && !Skewed(q) && FarFromEdges(q, glkFrame.value)
    ensures t == Good <==> glkFrame.None? || (!Skewed(q) && !FarFromEdges(q, glkFrame.value))
  {
    match glkFrame
    case None => Good
    case Some(f) =>
      if Skewed(q) then BadAngle
      else if FarFromEdges(q, f) then TooFar
      else Good
  }

  /** A rectangle whose edges are exactly horizontal and vertical never has a
      bad angle. */
  lemma AxisAlignedIsNeverBadAngle(q: Quad, glkFrame: Option<ViewFrame>)
    requires q.topLeft.y == q.topRight.y && q.bottomLeft.y == q.bottomRight.y
    requires q.topLeft.x == q.bottomLeft.x && q.topRight.x == q.bottomRight.x
    ensures TypeForRectangle(q, glkFrame) != BadAngle
  {
  }

  // ---------------------------------------------------------------------
  // rectangleDetectionConfidenceHighEnough

  /** Confidence is high enough when it strictly exceeds 1.0. */
  predicate HighEnough(confidence: real) {
    confidence > 1.0
  }

  /** Confidence grows by 0.5 per frame: after `frames` such frames from 0 it
      suffices exactly when there have been at least three. */
  lemma HighEnoughAfter(frames: nat)
    ensures HighEnough(0.5 * frames as real) <==> frames >= 3
  {
  }

  // ---------------------------------------------------------------------
  // correctPerspective

  /** The corners handed to CIPerspectiveCorrection: both left corners move
      30 points right, nothing else changes. */
  function CorrectPerspective(q: Quad): (r: Quad)
    ensures r.topLeft == Point(q.topLeft.x + 30.0, q.topLeft.y)
    ensures r.bottomLeft == Point(q.bottomLeft.x + 30.0, q.bottomLeft.y)
    ensures r.topRight == q.topRight && r.bottomRight == q.bottomRight
  {
    Quad(Point(q.topLeft.x + 30.0, q.topLeft.y), q.topRight,
         Point(q.bottomLeft.x + 30.0, q.bottomLeft.y), q.bottomRight)
  }

  // ---------------------------------------------------------------------
  // focusAtPoint

  datatype Size = Size(width: real, height: real)

  predicate NonEmpty(size: Size) {
    size.width > 0.0 && size.height > 0.0
  }

  /** A tap in view coordinates as the device's point of interest: the view
      is portrait and the sensor landscape, so x comes from y / height and y
      from 1 - x / width. */
  function PointOfInterest(p: Point, size: Size): (poi: Point)
    requires NonEmpty(size)
    ensures poi.x * size.height == p.y
    ensures (1.0 - poi.y) * size.width == p.x
  {
    Point(p.y / size.height, 1.0 - p.x / size.width)
  }

  /** The inverse mapping, from a point of interest back to the view. */
  function ViewPoint(poi: Point, size: Size): Point {
    Point((1.0 - poi.y) * size.width, poi.x * size.height)
  }

  lemma PointOfInterestRoundTrip(p: Point, size: Size)
    requires NonEmpty(size)
    ensures ViewPoint(PointOfInterest(p, size), size) == p
  {
  }

  /** A tap inside the view gives a point of interest in the unit square. */
  lemma PointOfInterestInUnitSquare(p: Point, size: Size)
    requires NonEmpty(size)
    requires 0.0 <= p.x <= size.width && 0.0 <= p.y <= size.height
    ensures var poi := PointOfInterest(p, size);
      0.0 <= poi.x <= 1.0 && 0.0 <= poi.y <= 1.0
  {
    var poi := PointOfInterest(p, size);
    assert poi.x * size.height == p.y;
    assert (1.0 - poi.y) * size.width == p.x;
  }

  /** What the capture device reports it supports, and whether
      `lockForConfiguration` throws. */
  datatype FocusDevice = FocusDevice(
    focusPointSupported: bool,
    autoFocusSupported: bool,
    continuousAutoFocusSupported: bool,
    exposurePointSupported: bool,
    continuousAutoExposureSupported: bool,
    lockFails: bool)

  /** The points `focusAtPoint` writes to the device (None: left as it was).
      On every path the completion handler is then called once. */
  datatype FocusSettings = FocusSettings(focusPoint: Option<Point>, exposurePoint: Option<Point>)

  function FocusAtPoint(p: Point, size: Size, device: Option<FocusDevice>): (r: FocusSettings)
    requires device.Some? ==> NonEmpty(size)
    ensures r.focusPoint.Some? <==>
      device.Some? && device.value.focusPointSupported && device.value.autoFocusSupported
      && !device.value.lockFails && device.value.continuousAutoFocusSupported
    ensures r.exposurePoint.Some? <==>
      device.Some? && device.value.focusPointSupported && device.value.autoFocusSupported
      && !device.value.lockFails && device.value.exposurePointSupported
      && device.value.continuousAutoExposureSupported
    ensures r.focusPoint.Some? ==> r.focusPoint.value == PointOfInterest(p, size)
    ensures r.exposurePoint.Some? ==> r.exposurePoint.value == PointOfInterest(p, size)
  {
    match device
    case None => FocusSettings(None, None)
    case Some(d) =>
      var poi := PointOfInterest(p, size);
      if d.focusPointSupported && d.autoFocusSupported && !d.lockFails then
        FocusSettings(
          if d.continuousAutoFocusSupported then Some(poi) else None,
          if d.exposurePointSupported && d.continuousAutoExposureSupported then Some(poi) else None)
      else FocusSettings(None, None)
  }
}
