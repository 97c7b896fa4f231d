/** Signed 64-bit coordinates, overflow-checked arithmetic and normalised rectangles. */
module Geometry {
  import opened Wrappers

  const INT64_MIN: int := -0x8000_0000_0000_0000
  const INT64_MAX: int := 0x7FFF_FFFF_FFFF_FFFF

  predicate Representable(x: int) {
    INT64_MIN <= x <= INT64_MAX
  }

  type Coordinate = x: int | INT64_MIN <= x <= INT64_MAX
  type Distance = x: int | INT64_MIN <= x <= INT64_MAX

  // The range of the native 32-bit coordinates that adapters widen.
  predicate IsNative(x: int) {
    -0x8000_0000 <= x <= 0x7FFF_FFFF
  }

  // Every `as` below is an obligation that the intermediate value itself fits
  // in 64 bits, so that the guards are evaluated without overflow.
  function CheckedDifference(minuend: Coordinate, subtrahend: Coordinate): (r: Option<Distance>)
    ensures r.Some? <==> Representable(minuend - subtrahend)
    ensures r.Some? ==> r.value == minuend - subtrahend
  {
    if (subtrahend > 0 && minuend < (INT64_MIN + subtrahend) as Distance) ||
       (subtrahend < 0 && minuend > (INT64_MAX + subtrahend) as Distance)
    then None
    else Some(minuend - subtrahend)
  }

  function CheckedAdd(value: Coordinate, delta: Distance): (r: Option<Coordinate>)
    ensures r.Some? <==> Representable(value + delta)
    ensures r.Some? ==> r.value == value + delta
  {
    if (delta > 0 && value > (INT64_MAX - delta) as Coordinate) ||
       (delta < 0 && value < (INT64_MIN - delta) as Coordinate)
    then None
    else Some(value + delta)
  }

  predicate MagnitudeWithin(value: Distance, tolerance: Distance) {
    tolerance >= 0 && (-tolerance) as Distance <= value <= tolerance
  }

  // A difference that does not fit in 64 bits lies outside every tolerance, so
  // the checked comparison agrees with the one over unbounded integers.
  predicate DifferenceWithin(first: Coordinate, second: Coordinate, tolerance: Distance)
    ensures DifferenceWithin(first, second, tolerance) <==>
            first as int - second as int <= tolerance as int && second as int - first as int <= tolerance as int
  {
    var difference := CheckedDifference(first, second);
    difference.Some? && MagnitudeWithin(difference.value, tolerance)
  }

  datatype Edge = Left | Top | Right | Bottom

  datatype RectBounds = RectBounds(left: Coordinate, top: Coordinate, right: Coordinate, bottom: Coordinate)

  type Rect = r: RectBounds | r.left <= r.right && r.top <= r.bottom
    witness RectBounds(0, 0, 0, 0)

  function Min(a: int, b: int): int {
    if a < b then a else b
  }

  function Max(a: int, b: int): int {
    if a < b then b else a
  }

  // The constructor of the source's rectangle: corners in any order.
  function Normalized(firstX: Coordinate, firstY: Coordinate,
                      secondX: Coordinate, secondY: Coordinate): (r: Rect)
  {
    RectBounds(Min(firstX, secondX), Min(firstY, secondY), Max(firstX, secondX), Max(firstY, secondY))
  }

  const ZERO_RECT: Rect := RectBounds(0, 0, 0, 0)

  predicate IsNativeRect(r: Rect) {
    IsNative(r.left) && IsNative(r.top) && IsNative(r.right) && IsNative(r.bottom)
  }

  predicate ExtentsFit(r: Rect) {
    Representable(r.right - r.left) && Representable(r.bottom - r.top)
  }
}
