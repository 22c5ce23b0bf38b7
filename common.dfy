/** Values shared by the map-resolution layer and the environment: optional values,
    integer points and rectangles, and the arithmetic of Java's truncating casts. */
module Common {

  /** A Java reference that may be null. */
  datatype Option<+T> = None | Some(value: T)

  /** A point in world (pixel) or grid coordinates. */
  datatype Point = Point(x: int, y: int)

  /** An axis-aligned rectangle: its top-left corner and its extent. */
  datatype Rect = Rect(x: int, y: int, width: int, height: int)

  /** `p` moved by `offset`. */
  function Translate(p: Point, offset: Point): Point
  {
    Point(offset.x + p.x, offset.y + p.y)
  }

  /** A rectangle without area, as `RectangularShape.isEmpty` decides it. */
  predicate IsEmpty(r: Rect)
  {
    r.width <= 0 || r.height <= 0
  }

  /** `p` lies in the half-open area `[x, x + width) x [y, y + height)` of `r`. */
  predicate Contains(r: Rect, p: Point)
  {
    r.x <= p.x < r.x + r.width && r.y <= p.y < r.y + r.height
  }

  /** `r.intersects(q)` of `Rectangle2D`: false when either rectangle is empty,
      otherwise whether the two open interiors overlap. */
  predicate Intersects(r: Rect, q: Rect)
    ensures Intersects(r, q) ==>
      var corner := Point(if r.x < q.x then q.x else r.x, if r.y < q.y then q.y else r.y);
      Contains(r, corner) && Contains(q, corner)
  {
    && !IsEmpty(r)
    && q.width > 0 && q.height > 0
    && q.x + q.width > r.x && q.y + q.height > r.y
    && q.x < r.x + r.width && q.y < r.y + r.height
  }

  /** On integer rectangles the intersection test is exactly "some grid point lies in both". */
  lemma IntersectsIffCommonPoint(r: Rect, q: Rect)
    ensures Intersects(r, q) <==> exists p :: Contains(r, p) && Contains(q, p)
  {
    if Intersects(r, q) {
      var p := Point(if r.x < q.x then q.x else r.x, if r.y < q.y then q.y else r.y);
      assert Contains(r, p) && Contains(q, p);
    }
  }

  /** The intersection test does not depend on which rectangle receives the call. */
  lemma IntersectsSymmetric(r: Rect, q: Rect)
    ensures Intersects(r, q) == Intersects(q, r)
  {
  }

  /** `(int) (a / (double) b)` for a positive divisor: the quotient rounded toward zero,
      which differs from Dafny's Euclidean `/` when `a` is negative. */
  function TruncDiv(a: int, b: int): (q: int)
    requires b > 0
    ensures a >= 0 ==> 0 <= a - q * b < b
    ensures a < 0 ==> -b < a - q * b <= 0
    ensures (a >= 0) == (q >= 0) || (a < 0 && q == 0)
  {
    if a >= 0 then a / b else -((-a) / b)
  }
}
