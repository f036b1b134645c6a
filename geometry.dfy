/** Screen size and the integer rectangles pygame keeps for every sprite. */
module Geometry {

  /** The window is WIDTH x HEIGHT pixels. */
  const Width: int := 1000
  const Height: int := 700

  /** An integer rectangle as pygame stores it: the top-left corner and the size. */
  datatype Rect = Rect(left: int, top: int, w: nat, h: nat) {
    function Right(): int { left + w }
    function Bottom(): int { top + h }
    function CenterX(): int { left + w / 2 }
    function CenterY(): int { top + h / 2 }

    /** The pixel (x, y) lies inside the rectangle: columns left .. right - 1, rows top .. bottom - 1. */
    predicate Covers(x: int, y: int) { left <= x < Right() && top <= y < Bottom() }

    /** The rectangle with one more pixel on every side. */
    function Grown(): Rect { Rect(left - 1, top - 1, w + 2, h + 2) }
  }

  /** The visible area as a rectangle. */
  const Screen: Rect := Rect(0, 0, Width as nat, Height as nat)

  function Max(a: int, b: int): int { if a < b then b else a }

  /** `surface.get_rect(center = (cx, cy))`: a w x h rectangle whose centre is (cx, cy). */
  function CenteredRect(cx: int, cy: int, w: nat, h: nat): (r: Rect)
    ensures r.CenterX() == cx && r.CenterY() == cy
    ensures r.w == w && r.h == h
  {
    Rect(cx - w / 2, cy - h / 2, w, h)
  }

  /**
   * pygame's `colliderect`: the two rectangles share interior area.
   * Rectangles that only touch along an edge or at a corner do not collide.
   */
  predicate Collides(a: Rect, b: Rect)
  {
    a.left < b.Right() && b.left < a.Right() && a.top < b.Bottom() && b.top < a.Bottom()
  }

  /**
   * For rectangles of positive size, colliding is sharing a pixel; so two
   * rectangles that only touch along an edge or at a corner never collide.
   */
  lemma CollidesIffSharedPixel(a: Rect, b: Rect)
    requires a.w > 0 && a.h > 0 && b.w > 0 && b.h > 0
    ensures Collides(a, b) <==> exists x, y :: a.Covers(x, y) && b.Covers(x, y)
  {
    if Collides(a, b) {
      var x, y := Max(a.left, b.left), Max(a.top, b.top);
      assert a.Covers(x, y) && b.Covers(x, y);
    }
  }

  /**
   * The kill test of a star or hazard: the rectangle lies wholly outside the screen.
   */
  predicate OffScreen(r: Rect)
  {
    r.Right() < 0 || r.left > Width || r.Bottom() < 0 || r.top > Height
  }

  /**
   * A rectangle is kept exactly when, grown by one pixel on every side, it
   * overlaps the screen: it overlaps the screen or touches its border. In
   * particular every rectangle that overlaps the screen is kept.
   */
  lemma KeptIffTouchingScreen(r: Rect)
    ensures !OffScreen(r) <==> Collides(r.Grown(), Screen)
    ensures Collides(r, Screen) ==> !OffScreen(r)
  {
  }
}
