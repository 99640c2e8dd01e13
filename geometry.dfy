// Core Graphics value types used by the editor: points, sizes, rectangles,
// edge insets and affine transforms, with the two extensions the library adds
// (componentwise point arithmetic and the corner views of an inset value).
// Every CGFloat is an exact real.
module Geometry {
  import opened Wrappers

  datatype Point = Point(x: real, y: real)
  datatype Size = Size(width: real, height: real)
  datatype Rect = Rect(origin: Point, size: Size)
  datatype Insets = Insets(top: real, left: real, bottom: real, right: real)

  const Zero: Point := Point(0.0, 0.0)
  const ZeroSize: Size := Size(0.0, 0.0)

  function Min(a: real, b: real): real { if a <= b then a else b }
  function Max(a: real, b: real): real { if a >= b then a else b }

  // ---------------------------------------------------------------------
  // CGPoint + and - (componentwise)

  function Plus(p: Point, q: Point): Point {
    Point(p.x + q.x, p.y + q.y)
  }

  function Minus(p: Point, q: Point): Point {
    Point(p.x - q.x, p.y - q.y)
  }

  /** Adding a point and then subtracting it again gives back the start. */
  lemma PlusMinusCancel(p: Point, q: Point)
    ensures Minus(Plus(p, q), q) == p
  {
  }

  // ---------------------------------------------------------------------
  // CGRect geometry. Core Graphics standardises a rectangle before asking for
  // its edges, so a negative size counts from the other side.

  function MinX(r: Rect): real { Min(r.origin.x, r.origin.x + r.size.width) }
  function MaxX(r: Rect): real { Max(r.origin.x, r.origin.x + r.size.width) }
  function MinY(r: Rect): real { Min(r.origin.y, r.origin.y + r.size.height) }
  function MaxY(r: Rect): real { Max(r.origin.y, r.origin.y + r.size.height) }

  function Width(r: Rect): (w: real)
    ensures w >= 0.0
    ensures r.size.width >= 0.0 ==> w == r.size.width
    ensures r.size.width < 0.0 ==> w == -r.size.width
  {
    MaxX(r) - MinX(r)
  }

  function Height(r: Rect): (h: real)
    ensures h >= 0.0
    ensures r.size.height >= 0.0 ==> h == r.size.height
    ensures r.size.height < 0.0 ==> h == -r.size.height
  {
    MaxY(r) - MinY(r)
  }

  /** CGRect.contains(_:): the minimum edges belong to the rectangle, the maximum edges do not. */
  predicate Contains(r: Rect, p: Point) {
    MinX(r) <= p.x < MaxX(r) && MinY(r) <= p.y < MaxY(r)
  }

  /** CGRect.insetBy(dx:dy:): the standardised rectangle moved in by dx and dy
      on every side; CGRect.null (None) once a dimension would become negative. */
  function InsetBy(r: Rect, dx: real, dy: real): (o: Option<Rect>)
    ensures o.Some? <==> Width(r) - 2.0 * dx >= 0.0 && Height(r) - 2.0 * dy >= 0.0
    ensures o.Some? ==> MinX(o.value) == MinX(r) + dx && MaxX(o.value) == MaxX(r) - dx
    ensures o.Some? ==> MinY(o.value) == MinY(r) + dy && MaxY(o.value) == MaxY(r) - dy
  {
    var w := Width(r) - 2.0 * dx;
    var h := Height(r) - 2.0 * dy;
    if w < 0.0 || h < 0.0 then None
    else Some(Rect(Point(MinX(r) + dx, MinY(r) + dy), Size(w, h)))
  }

  /** The null rectangle contains no point. */
  predicate ContainsOpt(r: Option<Rect>, p: Point) {
    r.Some? && Contains(r.value, p)
  }

  /** The rectangle spanned by two corners, `CGRect(origin: a, size: b - a)`. */
  function Spanning(topLeft: Point, bottomRight: Point): Rect {
    Rect(topLeft, Size(bottomRight.x - topLeft.x, bottomRight.y - topLeft.y))
  }

  /** The two layers' round trip: origin and (maxX, maxY) of a rectangle of
      non-negative size span that same rectangle again. */
  lemma SpanningCorners(r: Rect)
    requires r.size.width >= 0.0 && r.size.height >= 0.0
    ensures Spanning(r.origin, Point(MaxX(r), MaxY(r))) == r
  {
  }

  // ---------------------------------------------------------------------
  // UIEdgeInsets+Extensions

  /** The `topLeft` getter: (left, top). */
  function TopLeft(i: Insets): Point {
    Point(i.left, i.top)
  }

  /** The `topLeft` setter: writes left and top and nothing else. */
  function WithTopLeft(i: Insets, p: Point): (r: Insets)
    ensures r.left == p.x && r.top == p.y
    ensures r.right == i.right && r.bottom == i.bottom
  {
    i.(left := p.x, top := p.y)
  }

  /** The `bottomRight` getter: the raw (right, bottom) insets, not a point of any rectangle. */
  function BottomRight(i: Insets): Point {
    Point(i.right, i.bottom)
  }

  /** The `bottomRight` setter: writes right and bottom and nothing else. */
  function WithBottomRight(i: Insets, p: Point): (r: Insets)
    ensures r.right == p.x && r.bottom == p.y
    ensures r.left == i.left && r.top == i.top
  {
    i.(right := p.x, bottom := p.y)
  }

  /** `bottomRight(in:)`: the bottom-right corner the insets leave inside `rect`. */
  function BottomRightIn(i: Insets, rect: Rect): (p: Point)
    ensures p.x + i.right == Width(rect) && p.y + i.bottom == Height(rect)
  {
    Point(Width(rect) - i.right, Height(rect) - i.bottom)
  }

  /** Reading a corner back after setting it gives the value that was set. */
  lemma CornerGetAfterSet(i: Insets, p: Point)
    ensures TopLeft(WithTopLeft(i, p)) == p
    ensures BottomRight(WithBottomRight(i, p)) == p
    ensures BottomRight(WithTopLeft(i, p)) == BottomRight(i)
    ensures TopLeft(WithBottomRight(i, p)) == TopLeft(i)
  {
  }

  /** The round trip the editor relies on: storing the corner `p` of a W x H
      rectangle as the insets (W - p.x, H - p.y) and asking for
      `bottomRight(in:)` of that rectangle gives `p` back. */
  lemma BottomRightRoundTrip(i: Insets, rect: Rect, p: Point)
    ensures BottomRightIn(WithBottomRight(i, Point(Width(rect) - p.x, Height(rect) - p.y)), rect) == p
  {
  }

  // ---------------------------------------------------------------------
  // CGAffineTransform. A point maps to (a x + c y + tx, b x + d y + ty).

  datatype Affine = Affine(a: real, b: real, c: real, d: real, tx: real, ty: real)

  const Identity: Affine := Affine(1.0, 0.0, 0.0, 1.0, 0.0, 0.0)

  function Apply(t: Affine, p: Point): Point {
    Point(t.a * p.x + t.c * p.y + t.tx, t.b * p.x + t.d * p.y + t.ty)
  }

  /** `t1.concatenating(t2)`: first t1, then t2. */
  function Concat(t1: Affine, t2: Affine): Affine {
    Affine(t1.a * t2.a + t1.b * t2.c, t1.a * t2.b + t1.b * t2.d,
           t1.c * t2.a + t1.d * t2.c, t1.c * t2.b + t1.d * t2.d,
           t1.tx * t2.a + t1.ty * t2.c + t2.tx, t1.tx * t2.b + t1.ty * t2.d + t2.ty)
  }

  function Translation(x: real, y: real): Affine { Affine(1.0, 0.0, 0.0, 1.0, x, y) }
  function Scaling(sx: real, sy: real): Affine { Affine(sx, 0.0, 0.0, sy, 0.0, 0.0) }

  /** Cosine and sine of a whole number of quarter turns, exactly. */
  function QuarterCos(q: int): real {
    var m := q % 4;
    if m == 0 then 1.0 else if m == 2 then -1.0 else 0.0
  }

  function QuarterSin(q: int): real {
    var m := q % 4;
    if m == 1 then 1.0 else if m == 3 then -1.0 else 0.0
  }

  /** `CGAffineTransform(rotationAngle:)` for an angle of q quarter turns. */
  function QuarterRotation(q: int): Affine {
    Affine(QuarterCos(q), QuarterSin(q), -QuarterSin(q), QuarterCos(q), 0.0, 0.0)
  }

  /** `t.translatedBy(x:y:)`: translate first, then t. */
  function TranslatedBy(t: Affine, x: real, y: real): Affine { Concat(Translation(x, y), t) }

  /** `t.rotated(by:)` for q quarter turns: rotate first, then t. */
  function RotatedBy(t: Affine, q: int): Affine { Concat(QuarterRotation(q), t) }

  /** `t.scaledBy(x:y:)`: scale first, then t. */
  function ScaledBy(t: Affine, sx: real, sy: real): Affine { Concat(Scaling(sx, sy), t) }

  function Determinant(t: Affine): real { t.a * t.d - t.b * t.c }

  /** One coordinate of a point mapped twice, regrouped by x, y and the constant. */
  lemma Regroup(a1: real, b1: real, c1: real, d1: real, tx1: real, ty1: real,
                a2: real, c2: real, tx2: real, x: real, y: real)
    ensures a2 * (a1 * x + c1 * y + tx1) + c2 * (b1 * x + d1 * y + ty1) + tx2
         == (a1 * a2 + b1 * c2) * x + (c1 * a2 + d1 * c2) * y + (tx1 * a2 + ty1 * c2 + tx2)
  {
    assert a2 * (a1 * x + c1 * y + tx1) == a1 * a2 * x + c1 * a2 * y + tx1 * a2;
    assert c2 * (b1 * x + d1 * y + ty1) == b1 * c2 * x + d1 * c2 * y + ty1 * c2;
    assert (a1 * a2 + b1 * c2) * x == a1 * a2 * x + b1 * c2 * x;
    assert (c1 * a2 + d1 * c2) * y == c1 * a2 * y + d1 * c2 * y;
  }

  /** Concatenation is composition of the point maps, in order. */
  lemma ConcatApplies(t1: Affine, t2: Affine, p: Point)
    ensures Apply(Concat(t1, t2), p) == Apply(t2, Apply(t1, p))
  {
    var q := Apply(t1, p);
    var c := Concat(t1, t2);
    assert Apply(t2, q).x == c.a * p.x + c.c * p.y + c.tx by {
      Regroup(t1.a, t1.b, t1.c, t1.d, t1.tx, t1.ty, t2.a, t2.c, t2.tx, p.x, p.y);
    }
    assert Apply(t2, q).y == c.b * p.x + c.d * p.y + c.ty by {
      Regroup(t1.a, t1.b, t1.c, t1.d, t1.tx, t1.ty, t2.b, t2.d, t2.ty, p.x, p.y);
    }
  }

  /** `translatedBy`, `rotated(by:)` and `scaledBy` act in the transform's own
      coordinates: a point is translated, turned or scaled first, and only
      then mapped by the transform built so far. */
  lemma TranslatedByActsFirst(t: Affine, p: Point, x: real, y: real)
    ensures Apply(TranslatedBy(t, x, y), p) == Apply(t, Point(p.x + x, p.y + y))
  {
    ConcatApplies(Translation(x, y), t, p);
  }

  lemma RotatedByActsFirst(t: Affine, p: Point, q: int)
    ensures Apply(RotatedBy(t, q), p) ==
              Apply(t, Point(QuarterCos(q) * p.x - QuarterSin(q) * p.y, QuarterSin(q) * p.x + QuarterCos(q) * p.y))
  {
    ConcatApplies(QuarterRotation(q), t, p);
  }

  lemma ScaledByActsFirst(t: Affine, p: Point, sx: real, sy: real)
    ensures Apply(ScaledBy(t, sx, sy), p) == Apply(t, Point(sx * p.x, sy * p.y))
  {
    ConcatApplies(Scaling(sx, sy), t, p);
    assert Apply(Scaling(sx, sy), p) == Point(sx * p.x, sy * p.y);
  }
}
