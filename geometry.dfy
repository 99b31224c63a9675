/** Sensor-space and pixel-space geometry used by one frame of the laser
    touch pipeline: the screen rectangle, its containment test, the clamped
    linear mapping of openFrameworks' ofMap, and float-to-int truncation. */
module Geometry {

  /** A scan coordinate as the sensor driver delivers it (an ofVec2f, mm). */
  datatype Vec2 = Vec2(x: real, y: real)

  /** A touch in sensor space, truncated to whole millimetres. */
  datatype MmPoint = MmPoint(x: int, y: int)

  /** A touch in pixel space. */
  datatype PxPoint = PxPoint(x: real, y: real)

  function Min(a: real, b: real): real { if a <= b then a else b }
  function Max(a: real, b: real): real { if a <= b then b else a }

  /** An axis-aligned rectangle stored as ofRectangle stores it: a corner
      and a (possibly negative) size; the edges are the min and max of the
      two corners. */
  datatype Rect = Rect(x: real, y: real, width: real, height: real) {
    function Left(): real { Min(x, x + width) }
    function Right(): real { Max(x, x + width) }
    function Top(): real { Min(y, y + height) }
    function Bottom(): real { Max(y, y + height) }
    function CenterX(): real { x + width / 2.0 }
    function CenterY(): real { y + height / 2.0 }
  }

  /** ofRectangle::setFromCenter: the rectangle of size w x h centred at (cx, cy). */
  function FromCenter(cx: real, cy: real, w: real, h: real): Rect
  {
    Rect(cx - w / 2.0, cy - h / 2.0, w, h)
  }

  /** The screen area of one frame: mmW x mmH millimetres, centred on the
      sensor's axis and starting distToScreen millimetres in front of it. */
  function ScreenArea(mmW: int, mmH: int, distToScreen: int): (r: Rect)
    requires 0 <= mmW && 0 <= mmH
    ensures r.Left() == -(mmW as real) / 2.0 && r.Right() == (mmW as real) / 2.0
    ensures r.Top() == distToScreen as real
    ensures r.Bottom() == (distToScreen + mmH) as real
    ensures r.CenterX() == 0.0 && r.CenterY() == (mmH as real) / 2.0 + distToScreen as real
    ensures r.Right() - r.Left() == mmW as real && r.Bottom() - r.Top() == mmH as real
  {
    FromCenter(0.0, (mmH as real) * 0.5 + distToScreen as real, mmW as real, mmH as real)
  }

  /** Which edge convention ofRectangle::inside uses; the library code is
      not part of this model, so both are kept. */
  datatype Edge = Strict | Inclusive

  /** ofRectangle::inside under the given edge convention; whichever it is,
      an accepted point lies in the closed rectangle. */
  predicate Inside(r: Rect, edge: Edge, px: real, py: real)
    ensures Inside(r, edge, px, py) ==> r.Left() <= px <= r.Right() && r.Top() <= py <= r.Bottom()
  {
    match edge
    case Strict => r.Left() < px < r.Right() && r.Top() < py < r.Bottom()
    case Inclusive => r.Left() <= px <= r.Right() && r.Top() <= py <= r.Bottom()
  }

  /** Whatever the edge convention, a point it accepts lies in the closed
      rectangle, and a point strictly inside is accepted. */
  lemma InsideBetweenConventions(r: Rect, edge: Edge, px: real, py: real)
    ensures Inside(r, edge, px, py) ==> Inside(r, Inclusive, px, py)
    ensures Inside(r, Strict, px, py) ==> Inside(r, edge, px, py)
  {
  }

  /** Linear interpolation of value from [inMin, inMax] onto [outMin, outMax]. */
  function Lerp(value: real, inMin: real, inMax: real, outMin: real, outMax: real): real
    requires inMin != inMax
  {
    (value - inMin) / (inMax - inMin) * (outMax - outMin) + outMin
  }

  /** ofMap with clamp = true: a degenerate input range maps to outMin;
      otherwise the linear interpolation, clamped to the output range. */
  function OfMap(value: real, inMin: real, inMax: real, outMin: real, outMax: real): (r: real)
    ensures Min(outMin, outMax) <= r <= Max(outMin, outMax)
  {
    if inMin == inMax then outMin
    else
      var v := Lerp(value, inMin, inMax, outMin, outMax);
      if outMax < outMin then
        (if v < outMax then outMax else if v > outMin then outMin else v)
      else
        (if v > outMax then outMax else if v < outMin then outMin else v)
  }

  /** The interpolation is monotone non-decreasing for an increasing input
      range and a non-decreasing output range. */
  lemma LerpMonotone(v1: real, v2: real, inMin: real, inMax: real, outMin: real, outMax: real)
    requires inMin < inMax && outMin <= outMax && v1 <= v2
    ensures Lerp(v1, inMin, inMax, outMin, outMax) <= Lerp(v2, inMin, inMax, outMin, outMax)
  {
    var d, k := inMax - inMin, outMax - outMin;
    var t1, t2 := (v1 - inMin) / d, (v2 - inMin) / d;
    assert t2 - t1 == (v2 - v1) / d;
    assert t2 - t1 >= 0.0;
    assert t2 * k - t1 * k == (t2 - t1) * k;
  }

  lemma OfMapMonotone(v1: real, v2: real, inMin: real, inMax: real, outMin: real, outMax: real)
    requires inMin < inMax && outMin <= outMax && v1 <= v2
    ensures OfMap(v1, inMin, inMax, outMin, outMax) <= OfMap(v2, inMin, inMax, outMin, outMax)
  {
    LerpMonotone(v1, v2, inMin, inMax, outMin, outMax);
  }

  /** The ends of the input range map to the ends of the output range. */
  lemma LerpEndpoints(inMin: real, inMax: real, outMin: real, outMax: real)
    requires inMin != inMax
    ensures Lerp(inMin, inMin, inMax, outMin, outMax) == outMin
    ensures Lerp(inMax, inMin, inMax, outMin, outMax) == outMax
  {
    assert (inMax - inMin) / (inMax - inMin) == 1.0;
  }

  lemma OfMapEndpoints(inMin: real, inMax: real, outMin: real, outMax: real)
    requires inMin != inMax
    ensures OfMap(inMin, inMin, inMax, outMin, outMax) == outMin
    ensures OfMap(inMax, inMin, inMax, outMin, outMax) == outMax
  {
    LerpEndpoints(inMin, inMax, outMin, outMax);
  }

  /** Inside the input range clamping never acts: the result is the plain
      interpolation. */
  lemma OfMapInRange(value: real, inMin: real, inMax: real, outMin: real, outMax: real)
    requires inMin < inMax && inMin <= value <= inMax && outMin <= outMax
    ensures OfMap(value, inMin, inMax, outMin, outMax) == Lerp(value, inMin, inMax, outMin, outMax)
  {
    LerpMonotone(inMin, value, inMin, inMax, outMin, outMax);
    LerpMonotone(value, inMax, inMin, inMax, outMin, outMax);
    LerpEndpoints(inMin, inMax, outMin, outMax);
  }

  /** The C++ conversion from a float to int: truncation toward zero. */
  function TruncToInt(r: real): (n: int)
    ensures 0.0 <= r ==> 0 <= n && n as real <= r < n as real + 1.0
    ensures r < 0.0 ==> n <= 0 && n as real - 1.0 < r <= n as real
  {
    if 0.0 <= r then r.Floor else -((-r).Floor)
  }
}
