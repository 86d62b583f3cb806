/** Arena geometry: the fixed 800 x 600 canvas, axis-aligned boxes, the
    strict overlap test used for every collision, and the clamp that keeps
    the player on the canvas. */
module Geometry {
  const ArenaWidth: real := 800.0
  const ArenaHeight: real := 600.0

  /** An axis-aligned box; y grows downwards, as on the canvas. */
  datatype Rect = Rect(x: real, y: real, width: real, height: real)

  /** The canvas itself. */
  const Canvas: Rect := Rect(0.0, 0.0, ArenaWidth, ArenaHeight)

  function Larger(a: real, b: real): real { if a < b then b else a }
  function Smaller(a: real, b: real): real { if a < b then a else b }

  /** The collision test of the game. The first box is the bullet (or the
      player), the second the enemy (or the obstacle). All four comparisons
      are strict, so boxes that only share an edge do not collide. For boxes
      of positive size the test holds exactly when the intersection of the
      two boxes has positive width and positive height. */
  predicate Overlaps(a: Rect, b: Rect): (r: bool)
    ensures 0.0 < a.width && 0.0 < a.height && 0.0 < b.width && 0.0 < b.height ==>
              (r <==> Smaller(a.x + a.width, b.x + b.width) > Larger(a.x, b.x) &&
                      Smaller(a.y + a.height, b.y + b.height) > Larger(a.y, b.y))
  {
    a.x < b.x + b.width && a.x + a.width > b.x &&
    a.y < b.y + b.height && a.y + a.height > b.y
  }

  /** The point (px, py) lies strictly inside r. */
  predicate Inside(r: Rect, px: real, py: real)
  {
    r.x < px < r.x + r.width && r.y < py < r.y + r.height
  }

  /** For boxes of positive size the four-inequality test means exactly that
      the two boxes have an interior point in common; in particular boxes
      that touch only along an edge or at a corner never overlap. */
  lemma OverlapsIffCommonInterior(a: Rect, b: Rect)
    requires a.width > 0.0 && a.height > 0.0 && b.width > 0.0 && b.height > 0.0
    ensures Overlaps(a, b) <==> exists px, py :: Inside(a, px, py) && Inside(b, px, py)
  {
    if Overlaps(a, b) {
      var px := (Larger(a.x, b.x) + Smaller(a.x + a.width, b.x + b.width)) / 2.0;
      var py := (Larger(a.y, b.y) + Smaller(a.y + a.height, b.y + b.height)) / 2.0;
      assert Inside(a, px, py) && Inside(b, px, py);
    }
  }

  function Distance(a: real, b: real): real { if a < b then b - a else a - b }

  /** The position nearest to v inside [lo, hi]. */
  function Clamp(v: real, lo: real, hi: real): (r: real)
    requires lo <= hi
    ensures lo <= r <= hi
    ensures forall z :: lo <= z <= hi ==> Distance(r, v) <= Distance(z, v)
  {
    if v < lo then lo else if v > hi then hi else v
  }
}
