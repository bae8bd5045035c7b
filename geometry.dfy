/** Axis-aligned bounding boxes and the overlap test the game uses for collisions. */
module Geometry {

  /** A rectangle on the canvas: (x, y) is its top-left corner and y grows downward. */
  datatype Rect = Rect(x: real, y: real, w: real, h: real)

  /** The strict AABB test of `isColliding(a, b)`: the projections overlap on both axes. */
  predicate IsColliding(a: Rect, b: Rect)
    ensures IsColliding(a, b) ==> a.w + b.w > 0.0 && a.h + b.h > 0.0
  {
    a.x < b.x + b.w &&
    a.x + a.w > b.x &&
    a.y < b.y + b.h &&
    a.y + a.h > b.y
  }

  function Min(a: real, b: real): real { if a <= b then a else b }

  function Max(a: real, b: real): real { if a <= b then b else a }

  /** Length of the common part of [lo1, lo1 + len1] and [lo2, lo2 + len2] (negative when they are apart). */
  function Overlap(lo1: real, len1: real, lo2: real, len2: real): real
  {
    Min(lo1 + len1, lo2 + len2) - Max(lo1, lo2)
  }

  predicate HasPositiveSize(r: Rect) { r.w > 0.0 && r.h > 0.0 }

  /** The point (px, py) lies strictly inside r. */
  predicate Inside(px: real, py: real, r: Rect)
  {
    r.x < px < r.x + r.w && r.y < py < r.y + r.h
  }

  /** The order of the arguments does not matter. */
  lemma CollidingSymmetric(a: Rect, b: Rect)
    ensures IsColliding(a, b) <==> IsColliding(b, a)
  {
  }

  /** Rectangles that only share an edge (zero overlap on one axis) do not collide. */
  lemma EdgeContactIsNoCollision(a: Rect, b: Rect)
    requires a.x + a.w == b.x || b.x + b.w == a.x || a.y + a.h == b.y || b.y + b.h == a.y
    ensures !IsColliding(a, b)
  {
  }

  /** For rectangles of positive size, colliding means a positive overlap on both axes. */
  lemma CollidingIffPositiveOverlap(a: Rect, b: Rect)
    requires HasPositiveSize(a) && HasPositiveSize(b)
    ensures IsColliding(a, b) <==> Overlap(a.x, a.w, b.x, b.w) > 0.0 && Overlap(a.y, a.h, b.y, b.h) > 0.0
  {
  }

  /** For rectangles of positive size, colliding means sharing an interior point. */
  lemma CollidingIffCommonPoint(a: Rect, b: Rect)
    requires HasPositiveSize(a) && HasPositiveSize(b)
    ensures IsColliding(a, b) <==> exists px, py :: Inside(px, py, a) && Inside(px, py, b)
  {
    if IsColliding(a, b) {
      var px := (Max(a.x, b.x) + Min(a.x + a.w, b.x + b.w)) / 2.0;
      var py := (Max(a.y, b.y) + Min(a.y + a.h, b.y + b.h)) / 2.0;
      assert Inside(px, py, a) && Inside(px, py, b);
    }
  }
}
