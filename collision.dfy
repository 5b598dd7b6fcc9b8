/**
 * The axis-aligned box overlap test `isColliding` of engine.js, over integer
 * coordinates. A box covers the half-open ranges [x, x + width) and
 * [y, y + height).
 */
module Collision {

  datatype Box = Box(x: int, y: int, width: int, height: int)

  /** engine.js `isColliding(a, b)`: four strict comparisons, nothing else. */
  predicate IsColliding(a: Box, b: Box)
    ensures IsColliding(a, b) ==> a.width + b.width > 0 && a.height + b.height > 0
  {
    a.x < b.x + b.width &&
    a.x + a.width > b.x &&
    a.y < b.y + b.height &&
    a.y + a.height > b.y
  }

  function Max(a: int, b: int): int { if a <= b then b else a }

  /** A box with no area: it covers no unit cell. */
  predicate Empty(b: Box) { b.width <= 0 || b.height <= 0 }

  /** The unit cell with lower corner (px, py) lies inside `b`. */
  ghost predicate Covers(b: Box, px: int, py: int) {
    b.x <= px < b.x + b.width && b.y <= py < b.y + b.height
  }

  /** Reference meaning of "the boxes overlap": some unit cell lies in both. */
  ghost predicate ShareCell(a: Box, b: Box) {
    exists px, py :: Covers(a, px, py) && Covers(b, px, py)
  }

  /**
   * The comparison test agrees with the area meaning on boxes that have area,
   * and a shared cell always makes the test succeed.
   */
  lemma CollidingIffShareCell(a: Box, b: Box)
    ensures ShareCell(a, b) <==> IsColliding(a, b) && !Empty(a) && !Empty(b)
  {
    if IsColliding(a, b) && !Empty(a) && !Empty(b) {
      var px, py := Max(a.x, b.x), Max(a.y, b.y);
      assert Covers(a, px, py) && Covers(b, px, py);
    }
  }

  lemma CollidingSymmetric(a: Box, b: Box)
    ensures IsColliding(a, b) <==> IsColliding(b, a)
  {
  }

  /** Boxes that only share an edge, on either axis and on either side, do not collide. */
  lemma TouchingEdgesDoNotCollide(a: Box, b: Box)
    requires a.x + a.width == b.x || b.x + b.width == a.x ||
             a.y + a.height == b.y || b.y + b.height == a.y
    ensures !IsColliding(a, b)
  {
  }

  /** The 10-wide boxes at x = 0 and x = 10 touch at x = 10 and do not collide. */
  lemma AdjacentSquaresDoNotCollide()
    ensures !IsColliding(Box(0, 0, 10, 10), Box(10, 0, 10, 10))
    ensures IsColliding(Box(0, 0, 10, 10), Box(9, 0, 10, 10))
  {
  }

  /**
   * The strict comparisons do not exclude boxes without area: a zero-sized box
   * strictly inside another one collides with it, though they share no cell.
   */
  lemma ZeroSizedBoxInsideCollides()
    ensures IsColliding(Box(5, 5, 0, 0), Box(0, 0, 10, 10))
    ensures !ShareCell(Box(5, 5, 0, 0), Box(0, 0, 10, 10))
  {
    CollidingIffShareCell(Box(5, 5, 0, 0), Box(0, 0, 10, 10));
  }
}
