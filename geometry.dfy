/** Points and rectangles in CSS pixels. Coordinates are exact reals in place
    of the browser's double-precision numbers. */
module Geometry {

  /** A point: client coordinates of an event, or surface-local coordinates. */
  datatype Point = Point(x: real, y: real)

  /** A bounding client rectangle, as `getBoundingClientRect` reports it. */
  datatype Rect = Rect(left: real, top: real, width: real, height: real)

  /** `Math.min` on two numbers: the smaller of them. */
  function Min(a: real, b: real): (r: real)
    ensures r <= a && r <= b
    ensures r == a || r == b
  {
    if a <= b then a else b
  }

  /** `Math.max` on two numbers: the larger of them. */
  function Max(a: real, b: real): (r: real)
    ensures r >= a && r >= b
    ensures r == a || r == b
  {
    if a >= b then a else b
  }

  function Abs(a: real): real { if a < 0.0 then -a else a }
}
