// The drawing vocabulary of the two crop-box layers: a path made of closed
// rectangle sub-paths, the fill rules Core Animation offers, and the colours
// the layers use.
module Shapes {
  import opened Geometry

  datatype Color = Clear | Black | LightGray

  datatype FillRule = NonZero | EvenOdd

  /** A path built only from `UIBezierPath(rect:)` / `CGPath(rect:)` pieces,
      in the order they were appended. */
  datatype Path = Path(rects: seq<Rect>)

  /** How many of the rectangles contain `p`. */
  function Cover(rects: seq<Rect>, p: Point): (n: nat)
    ensures n <= |rects|
  {
    if rects == [] then 0
    else (if Contains(rects[0], p) then 1 else 0) + Cover(rects[1..], p)
  }

  /** Whether a point is painted when `path` is filled with `rule`. Every
      rectangle sub-path runs in the same direction, so the non-zero rule
      paints whatever one of them covers and the even-odd rule paints what an
      odd number of them cover. */
  predicate Filled(path: Path, rule: FillRule, p: Point) {
    match rule
    case NonZero => Cover(path.rects, p) > 0
    case EvenOdd => Cover(path.rects, p) % 2 == 1
  }

  /** A rectangle that does not stick out of `outer`. */
  predicate Inside(inner: Rect, outer: Rect) {
    MinX(outer) <= MinX(inner) && MaxX(inner) <= MaxX(outer) &&
    MinY(outer) <= MinY(inner) && MaxY(inner) <= MaxY(outer)
  }

  /** A two-rectangle path filled even-odd paints exactly the points covered
      by one rectangle and not the other; with the non-zero rule the second
      rectangle would not cut anything out. */
  lemma {:induction false} EvenOddCutout(outer: Rect, hole: Rect, p: Point)
    ensures Filled(Path([outer, hole]), EvenOdd, p) <==> (Contains(outer, p) != Contains(hole, p))
    ensures Inside(hole, outer) ==>
              (Filled(Path([outer, hole]), EvenOdd, p) <==> Contains(outer, p) && !Contains(hole, p))
    ensures Inside(hole, outer) ==>
              (Filled(Path([outer, hole]), NonZero, p) <==> Contains(outer, p))
  {
    var rs := [outer, hole];
    assert rs[1..] == [hole];
    assert rs[1..][1..] == [];
    assert Cover(rs, p) == (if Contains(outer, p) then 1 else 0) + (if Contains(hole, p) then 1 else 0);
  }
}
