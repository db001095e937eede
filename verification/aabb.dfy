/** Axis-aligned bounding boxes (src/AABB.c). Coordinates are screen-style:
    y grows downwards, so `top` is the smaller y and `bottom` the larger. */
module Aabb {

  datatype Box = Box(bottom: real, left: real, right: real, top: real)

  /** The shape a box is meant to have; the test itself does not check it. */
  predicate WellFormed(b: Box)
  {
    b.left <= b.right && b.top <= b.bottom
  }

  /** AreIntersecting: a box is separated from another only by a strictly
      positive gap on some axis, so boxes that merely touch intersect. */
  function AreIntersecting(a: Box, b: Box): (r: bool)
    ensures r <==> b.left <= a.right && a.left <= b.right && b.top <= a.bottom && a.top <= b.bottom
  {
    var gapAx := b.left - a.right;
    var gapAy := b.top - a.bottom;
    var gapBx := a.left - b.right;
    var gapBy := a.top - b.bottom;
    if gapAx > 0.0 || gapAy > 0.0 then false
    else if gapBx > 0.0 || gapBy > 0.0 then false
    else true
  }

  ghost predicate ContainsPoint(b: Box, x: real, y: real)
  {
    b.left <= x <= b.right && b.top <= y <= b.bottom
  }

  /** Independent reading of "intersecting": the closed boxes share a point. */
  ghost predicate SharePoint(a: Box, b: Box)
  {
    exists x: real, y: real :: ContainsPoint(a, x, y) && ContainsPoint(b, x, y)
  }

  function Max(x: real, y: real): real
  {
    if x < y then y else x
  }

  /** For well-formed boxes the test reports exactly whether the two closed
      rectangles have a point in common. */
  lemma IntersectingIffSharePoint(a: Box, b: Box)
    requires WellFormed(a) && WellFormed(b)
    ensures AreIntersecting(a, b) <==> SharePoint(a, b)
  {
    if AreIntersecting(a, b) {
      var x, y := Max(a.left, b.left), Max(a.top, b.top);
      assert ContainsPoint(a, x, y) && ContainsPoint(b, x, y);
    }
  }

  lemma Symmetric(a: Box, b: Box)
    ensures AreIntersecting(a, b) == AreIntersecting(b, a)
  {
  }

  /** A box shares every point with itself. */
  lemma WellFormedIntersectsItself(a: Box)
    requires WellFormed(a)
    ensures AreIntersecting(a, a)
  {
  }

  /** Boxes that only share a vertical edge are reported as intersecting. */
  lemma TouchingEdgeIntersects(a: Box, b: Box)
    requires WellFormed(a) && WellFormed(b)
    requires b.left == a.right
    requires b.top <= a.bottom && a.top <= b.bottom
    ensures AreIntersecting(a, b)
  {
  }

  /** A positive gap to the right of or below `a` separates the boxes. */
  lemma GapAfterSeparates(a: Box, b: Box)
    requires b.left > a.right || b.top > a.bottom
    ensures !AreIntersecting(a, b)
  {
  }

  /** A positive gap to the left of or above `a` separates the boxes. */
  lemma GapBeforeSeparates(a: Box, b: Box)
    requires a.left > b.right || a.top > b.bottom
    ensures !AreIntersecting(a, b)
  {
  }
}
