/** What `findCombatEntities` selects from the registered combat entities: those that
    satisfy the caller's condition and whose hit box meets the query shape.  A rectangle is
    tested directly; any other shape is tested against its bounding box first and then by
    the exact shape test, which is a parameter here. */
module SpatialQuery {
  import opened Common

  /** A query shape: a rectangle, or any other shape, known by its integer bounding box
      and its outline. */
  datatype Shape = RectShape(rect: Rect) | OtherShape(bounds: Rect, outline: seq<Point>)

  /** `shape.getBounds()`. */
  function Bounds(shape: Shape): Rect
  {
    match shape
    case RectShape(r) => r
    case OtherShape(b, _) => b
  }

  /** Whether the query keeps entity `e`: the condition first, then the rectangle test, or
      the bounding-box broad phase followed by the exact narrow phase. */
  predicate Hits<E>(e: E, shape: Shape, condition: E -> bool, hitBox: E -> Rect, shapeIntersects: (Rect, Shape) -> bool)
  {
    && condition(e)
    && match shape
       case RectShape(r) => Intersects(hitBox(e), r)
       case OtherShape(b, _) => Intersects(hitBox(e), b) && shapeIntersects(hitBox(e), shape)
  }

  /** The entities of `candidates`, in their order, that the query keeps. */
  function Query<E>(candidates: seq<E>, shape: Shape, condition: E -> bool, hitBox: E -> Rect,
                    shapeIntersects: (Rect, Shape) -> bool): (found: seq<E>)
    ensures |found| <= |candidates|
  {
    if |candidates| == 0 then []
    else
      var init, last := candidates[..|candidates| - 1], candidates[|candidates| - 1];
      Query(init, shape, condition, hitBox, shapeIntersects)
        + (if Hits(last, shape, condition, hitBox, shapeIntersects) then [last] else [])
  }

  /** The same query without the broad phase: condition and exact shape test only. */
  function NarrowQuery<E>(candidates: seq<E>, shape: Shape, condition: E -> bool, hitBox: E -> Rect,
                          shapeIntersects: (Rect, Shape) -> bool): seq<E>
  {
    if |candidates| == 0 then []
    else
      var init, last := candidates[..|candidates| - 1], candidates[|candidates| - 1];
      NarrowQuery(init, shape, condition, hitBox, shapeIntersects)
        + (if condition(last) && shapeIntersects(hitBox(last), shape) then [last] else [])
  }

  /** Querying two runs of candidates is querying each, results in candidate order. */
  lemma {:induction false} QueryAppend<E>(a: seq<E>, b: seq<E>, shape: Shape, condition: E -> bool,
                                          hitBox: E -> Rect, shapeIntersects: (Rect, Shape) -> bool)
    ensures Query(a + b, shape, condition, hitBox, shapeIntersects)
         == Query(a, shape, condition, hitBox, shapeIntersects) + Query(b, shape, condition, hitBox, shapeIntersects)
    decreases |b|
  {
    if |b| == 0 {
      assert a + b == a;
    } else {
      var b' := b[..|b| - 1];
      assert (a + b)[..|a + b| - 1] == a + b';
      assert (a + b)[|a + b| - 1] == b[|b| - 1];
      QueryAppend(a, b', shape, condition, hitBox, shapeIntersects);
    }
  }

  /** An entity is found exactly when it is a candidate the query keeps. */
  lemma {:induction false} QueryMembers<E>(candidates: seq<E>, shape: Shape, condition: E -> bool,
                                               hitBox: E -> Rect, shapeIntersects: (Rect, Shape) -> bool)
    ensures forall e :: (e in Query(candidates, shape, condition, hitBox, shapeIntersects)
                         <==> e in candidates && Hits(e, shape, condition, hitBox, shapeIntersects))
  {
    if |candidates| > 0 {
      var init := candidates[..|candidates| - 1];
      QueryMembers(init, shape, condition, hitBox, shapeIntersects);
      assert candidates == init + [candidates[|candidates| - 1]];
    }
  }

  /** Every entity found by a query with a shape other than a rectangle has a hit box that
      meets the shape's bounding box and satisfies the exact test. */
  lemma FoundMeetBounds<E>(candidates: seq<E>, bounds: Rect, outline: seq<Point>, condition: E -> bool,
                               hitBox: E -> Rect, shapeIntersects: (Rect, Shape) -> bool)
    ensures forall e :: (e in Query(candidates, OtherShape(bounds, outline), condition, hitBox, shapeIntersects)
                         ==> condition(e) && Intersects(hitBox(e), bounds)
                             && shapeIntersects(hitBox(e), OtherShape(bounds, outline)))
  {
    QueryMembers(candidates, OtherShape(bounds, outline), condition, hitBox, shapeIntersects);
  }

  /** When the exact shape test only succeeds for hit boxes that meet the shape's bounding
      box, the broad phase removes nothing the narrow phase would keep: the query equals
      the query without it. */
  lemma {:induction false} BroadPhaseOnlyPrunes<E>(candidates: seq<E>, shape: Shape, condition: E -> bool,
                                                   hitBox: E -> Rect, shapeIntersects: (Rect, Shape) -> bool)
    requires shape.OtherShape?
    requires forall e :: shapeIntersects(hitBox(e), shape) ==> Intersects(hitBox(e), Bounds(shape))
    ensures Query(candidates, shape, condition, hitBox, shapeIntersects)
         == NarrowQuery(candidates, shape, condition, hitBox, shapeIntersects)
  {
    if |candidates| > 0 {
      BroadPhaseOnlyPrunes(candidates[..|candidates| - 1], shape, condition, hitBox, shapeIntersects);
    }
  }

  /** Whatever the exact test does, the query finds a subsequence of what the query without
      broad phase finds. */
  lemma {:induction false} QueryWithinNarrow<E>(candidates: seq<E>, shape: Shape, condition: E -> bool,
                                                    hitBox: E -> Rect, shapeIntersects: (Rect, Shape) -> bool)
    requires shape.OtherShape?
    ensures forall e :: (e in Query(candidates, shape, condition, hitBox, shapeIntersects)
                         ==> e in NarrowQuery(candidates, shape, condition, hitBox, shapeIntersects))
  {
    if |candidates| > 0 {
      QueryWithinNarrow(candidates[..|candidates| - 1], shape, condition, hitBox, shapeIntersects);
    }
  }

  /** A shape that is exactly its bounding rectangle, queried through the general path,
      finds what the rectangle path finds. */
  lemma {:induction false} RectanglePathAgrees<E>(candidates: seq<E>, bounds: Rect, outline: seq<Point>,
                                                  condition: E -> bool, hitBox: E -> Rect,
                                                  shapeIntersects: (Rect, Shape) -> bool)
    requires forall e :: shapeIntersects(hitBox(e), OtherShape(bounds, outline)) == Intersects(hitBox(e), bounds)
    ensures Query(candidates, OtherShape(bounds, outline), condition, hitBox, shapeIntersects)
         == Query(candidates, RectShape(bounds), condition, hitBox, shapeIntersects)
  {
    if |candidates| > 0 {
      RectanglePathAgrees(candidates[..|candidates| - 1], bounds, outline, condition, hitBox, shapeIntersects);
    }
  }
}
