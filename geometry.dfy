/**
 * The pure geometry of src/main/java/intersections/IntersectionReporter.java:
 * the overlap test `overlapPresent` and the intersection `findIntersection`.
 * A box covers the closed region [x, x + deltaX] x [y, y + deltaY]; its area
 * is made of the unit cells [px, px + 1] x [py, py + 1] with
 * x <= px < x + deltaX and y <= py < y + deltaY.
 */
module Geometry {
  import opened Common
  import opened Rectangles

  function Right(b: Box): int { b.x + b.deltaX }
  function Top(b: Box): int { b.y + b.deltaY }

  function Max(a: int, b: int): int { if a < b then b else a }
  function Min(a: int, b: int): int { if a < b then a else b }

  /** The point (px, py) lies in the closed region of `b`, boundary included. */
  predicate Covers(b: Box, px: int, py: int) {
    b.x <= px <= Right(b) && b.y <= py <= Top(b)
  }

  /** The unit cell with lower-left corner (px, py) lies inside `b`. */
  predicate HasCell(b: Box, px: int, py: int) {
    b.x <= px < Right(b) && b.y <= py < Top(b)
  }

  /** `overlapPresent`: false when one box lies strictly left of, right of, above or below the other. */
  predicate OverlapPresent(a: Box, b: Box) {
    !(a.x > Right(b) || Right(a) < b.x || Top(a) < b.y || a.y > Top(b))
  }

  /**
   * `findIntersection`: the box between the larger left and bottom edges and
   * the smaller right and top edges; a width or height <= 0 throws. The new
   * rectangle is seeded with both ids when both arguments are initial
   * rectangles, and otherwise has an empty list.
   */
  function FindIntersection(a: Box, b: Box): (r: Result<Box, Error>)
    requires WellFormed(a) && WellFormed(b)
    ensures r.Err? ==> r.error == NegativeOverlap
    ensures r.Ok? ==> WellFormed(r.value) && r.value.id == 0
    ensures r.Ok? ==> r.value.contributors ==
                      Some(if a.contributors.None? && b.contributors.None? then [a.id, b.id] else [])
  {
    var x5 := Max(a.x, b.x);
    var y5 := Max(a.y, b.y);
    var x6 := Min(Right(a), Right(b));
    var y6 := Min(Top(a), Top(b));
    var deltaX := x6 - x5;
    var deltaY := y6 - y5;
    if deltaX <= 0 || deltaY <= 0 then Err(NegativeOverlap)
    else
      var seed := if a.contributors.None? && b.contributors.None? then [a.id, b.id] else [];
      Ok(Box(deltaX, deltaY, x5, y5, 0, Some(seed)))
  }

  /** The overlap test holds exactly when the two closed regions share a point. */
  lemma OverlapIffCommonPoint(a: Box, b: Box)
    requires WellFormed(a) && WellFormed(b)
    ensures OverlapPresent(a, b) <==> exists px, py :: Covers(a, px, py) && Covers(b, px, py)
  {
    if OverlapPresent(a, b) {
      var px, py := Max(a.x, b.x), Max(a.y, b.y);
      assert Covers(a, px, py) && Covers(b, px, py);
    }
  }

  /** The overlap test does not depend on the order of its arguments. */
  lemma OverlapSymmetric(a: Box, b: Box)
    requires WellFormed(a) && WellFormed(b)
    ensures OverlapPresent(a, b) == OverlapPresent(b, a)
  {
    OverlapIffCommonPoint(a, b);
    OverlapIffCommonPoint(b, a);
  }

  /**
   * A successful intersection covers exactly the unit cells the two boxes
   * have in common, so it lies inside both of them.
   */
  lemma IntersectionCells(a: Box, b: Box, px: int, py: int)
    requires WellFormed(a) && WellFormed(b)
    requires FindIntersection(a, b).Ok?
    ensures HasCell(FindIntersection(a, b).value, px, py) <==> HasCell(a, px, py) && HasCell(b, px, py)
  {
  }

  /** The intersection lies inside both arguments. */
  lemma IntersectionInside(a: Box, b: Box)
    requires WellFormed(a) && WellFormed(b)
    requires FindIntersection(a, b).Ok?
    ensures var r := FindIntersection(a, b).value;
            a.x <= r.x && Right(r) <= Right(a) && a.y <= r.y && Top(r) <= Top(a) &&
            b.x <= r.x && Right(r) <= Right(b) && b.y <= r.y && Top(r) <= Top(b)
  {
  }

  /** The intersection fails exactly when the boxes share no unit cell: no positive area. */
  lemma IntersectionFailsIffNoCommonCell(a: Box, b: Box)
    requires WellFormed(a) && WellFormed(b)
    ensures FindIntersection(a, b).Err? <==> !exists px, py :: HasCell(a, px, py) && HasCell(b, px, py)
  {
    if FindIntersection(a, b).Ok? {
      var px, py := Max(a.x, b.x), Max(a.y, b.y);
      assert HasCell(a, px, py) && HasCell(b, px, py);
    }
  }

  /** Every positive-area intersection passes the overlap test first. */
  lemma IntersectionImpliesOverlap(a: Box, b: Box)
    requires WellFormed(a) && WellFormed(b)
    requires FindIntersection(a, b).Ok?
    ensures OverlapPresent(a, b)
  {
  }

  /**
   * Boxes that only share an edge pass the overlap test, and their
   * intersection then throws: the overlap test alone does not exclude a
   * zero-area intersection.
   */
  lemma EdgeTouchingOverlapsButFails(a: Box, b: Box)
    requires WellFormed(a) && WellFormed(b)
    requires Right(a) == b.x && b.y < Top(a) && a.y < Top(b)
    ensures OverlapPresent(a, b)
    ensures FindIntersection(a, b) == Err(NegativeOverlap)
  {
  }
}
