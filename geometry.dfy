/** Points and quadrilaterals as the camera view and the bridge exchange
    them. Coordinates (CGFloat, double) are mathematical reals. */
module Geometry {
  import opened Wrappers

  datatype Point = Point(x: real, y: real)

  /** A detected rectangle feature: four named corners. */
  datatype Quad = Quad(topLeft: Point, topRight: Point, bottomLeft: Point, bottomRight: Point)

  /** `hypot(dx, dy)`, the length of a vector, left uninterpreted except that
      it is never negative. */
  type Hypot = f: (real, real) -> real | forall dx, dy :: f(dx, dy) >= 0.0
    witness (dx: real, dy: real) => 0.0

  function Abs(r: real): (a: real)
    ensures a >= 0.0 && (a == r || a == -r)
  {
    if r < 0.0 then -r else r
  }

  /** The distance between two points, measured with `hypot`. */
  function Distance(p: Point, q: Point, hypot: Hypot): (d: real)
    ensures d >= 0.0
  {
    hypot(p.x - q.x, p.y - q.y)
  }

  /** The size score of a rectangle feature: the length of its top edge
      plus the length of its left edge. */
  function HalfPerimeter(q: Quad, hypot: Hypot): (v: real)
    ensures v >= Distance(q.topLeft, q.topRight, hypot)
    ensures v >= Distance(q.topLeft, q.bottomLeft, hypot)
  {
    Distance(q.topLeft, q.topRight, hypot) + Distance(q.topLeft, q.bottomLeft, hypot)
  }

  /** One corner of the `rectangleCoordinates` object as the Java bridge
      reads it: `getDouble("x")` and `getDouble("y")` either return a number
      or throw (missing key, or a value that is not a number). */
  datatype PointMap = PointMap(x: Option<real>, y: Option<real>)

  /** The `rectangleCoordinates` object: each `getMap` returns a corner or
      null. */
  datatype CornerMaps = CornerMaps(
    topLeft: Option<PointMap>,
    topRight: Option<PointMap>,
    bottomLeft: Option<PointMap>,
    bottomRight: Option<PointMap>)
}
