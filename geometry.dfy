/** Integer geometry used by the sprites: pygame's `Rect` as an immutable value.
    pygame keeps a rectangle as x, y, width and height; its derived attributes
    (centre, midtop) halve the size with C integer division, which truncates
    toward zero, so that rounding is written out here. */
module Geometry {

  datatype Point = Point(x: int, y: int)

  datatype Size = Size(w: int, h: int)

  /** C's `n / 2`: truncates toward zero (Dafny's `/` is Euclidean). */
  function Half(n: int): (h: int)
    ensures n >= 0 ==> 0 <= n - 2 * h <= 1
    ensures n < 0 ==> -1 <= n - 2 * h <= 0
  {
    if n >= 0 then n / 2 else -((-n) / 2)
  }

  function Min(a: int, b: int): int { if a <= b then a else b }

  function Max(a: int, b: int): int { if a <= b then b else a }

  datatype Rect = Rect(x: int, y: int, w: int, h: int) {

    function Left(): int { x }
    function Right(): int { x + w }
    function Top(): int { y }
    function Bottom(): int { y + h }
    function Center(): Point { Point(x + Half(w), y + Half(h)) }
    function MidTop(): Point { Point(x + Half(w), y) }
    function Dims(): Size { Size(w, h) }

    /** `rect.move(dx, dy)` and `rect.move_ip(dx, dy)`: a translation. */
    function Move(dx: int, dy: int): (r: Rect)
      ensures r.Dims() == Dims()
      ensures r.Center() == Point(Center().x + dx, Center().y + dy)
    {
      Rect(x + dx, y + dy, w, h)
    }

    /** `rect.inflate(dw, dh)`: grows the size by (dw, dh), keeping the
        centre up to the rounding of C's `/ 2`. */
    function Inflate(dw: int, dh: int): (r: Rect)
      ensures r.Dims() == Size(w + dw, h + dh)
    {
      Rect(x - Half(dw), y - Half(dh), w + dw, h + dh)
    }

    /** `rect.midtop = p`: keeps the size, moves so the middle of the top
        edge is at p. */
    function WithMidTop(p: Point): (r: Rect)
      ensures r.Dims() == Dims() && r.MidTop() == p
    {
      Rect(p.x - Half(w), p.y, w, h)
    }

    /** `rect.contains(inner)`, as pygame computes it: inner lies within
        this rectangle, and this rectangle extends strictly past inner's
        top-left corner. */
    predicate Contains(inner: Rect)
      ensures Contains(inner) ==> 0 < w && inner.w <= w && 0 < h && inner.h <= h
    {
      && x <= inner.x && y <= inner.y
      && x + w >= inner.x + inner.w && y + h >= inner.y + inner.h
      && x + w > inner.x && y + h > inner.y
    }

    /** `rect.colliderect(other)`, as pygame 2 computes it: a rectangle of
        zero width or height collides with nothing; otherwise the two
        normalised (non-negative size) rectangles must overlap in an area,
        edges that only touch do not count. */
    predicate CollidesWith(other: Rect)
      ensures w == 0 || h == 0 || other.w == 0 || other.h == 0 ==> !CollidesWith(other)
      ensures w > 0 && h > 0 && other.w > 0 && other.h > 0 ==>
                (CollidesWith(other) <==>
                   && x < other.x + other.w && other.x < x + w
                   && y < other.y + other.h && other.y < y + h)
    {
      && w != 0 && h != 0 && other.w != 0 && other.h != 0
      && Min(x, x + w) < Max(other.x, other.x + other.w)
      && Min(y, y + h) < Max(other.y, other.y + other.h)
      && Max(x, x + w) > Min(other.x, other.x + other.w)
      && Max(y, y + h) > Min(other.y, other.y + other.h)
    }
  }

  /** `surface.get_rect(center = c)`: a rectangle of the given size whose
      centre is c. */
  function CenteredAt(size: Size, c: Point): (r: Rect)
    ensures r.Dims() == size && r.Center() == c
  {
    Rect(c.x - Half(size.w), c.y - Half(size.h), size.w, size.h)
  }

  /** Re-centring a rectangle on its own centre at its own size gives it back:
      a rotation that does not change the bounding box leaves the rect where
      it was. */
  lemma CenteredAtOwnCenter(r: Rect)
    ensures CenteredAt(r.Dims(), r.Center()) == r
  {
  }

  /** The fist's hitbox, `inflate(-5, -5)`, lies inside the rectangle it was
      shrunk from whenever that rectangle is at least 5 by 5. */
  lemma HitboxInside(r: Rect)
    requires r.w >= 5 && r.h >= 5
    ensures r.Contains(r.Inflate(-5, -5))
  {
  }

  /** A hit with the shrunk hitbox is also a hit with the full rectangle. */
  lemma HitboxHitIsRectHit(r: Rect, target: Rect)
    requires r.w >= 5 && r.h >= 5
    requires r.Inflate(-5, -5).CollidesWith(target)
    ensures r.CollidesWith(target)
  {
  }

  /** Shrinking by 5 moves the centre by at most one unit toward the
      top-left: the hitbox is symmetric about the centre up to rounding. */
  lemma HitboxCenter(r: Rect)
    requires r.w >= 5 && r.h >= 5
    ensures var c := r.Inflate(-5, -5).Center();
            r.Center().x - 1 <= c.x <= r.Center().x && r.Center().y - 1 <= c.y <= r.Center().y
  {
  }

  /** `inflate` keeps the rectangle centred, up to the rounding of C's `/ 2`:
      each coordinate of the centre moves by at most one. */
  lemma InflateKeepsCenter(r: Rect, dw: int, dh: int)
    requires r.w >= 0 && r.h >= 0 && r.w + dw >= 0 && r.h + dh >= 0
    ensures var c := r.Inflate(dw, dh).Center();
            && r.Center().x - 1 <= c.x <= r.Center().x + 1
            && r.Center().y - 1 <= c.y <= r.Center().y + 1
  {
  }

  /** Collision is symmetric. */
  lemma CollidesSymmetric(a: Rect, b: Rect)
    ensures a.CollidesWith(b) <==> b.CollidesWith(a)
  {
  }
}
