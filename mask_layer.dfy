// MaskLayer: the shape layer that masks the dimming view of the crop editor.
// Its two corner fields re-run `update()` whenever they are set (`didSet`),
// and `update()` rebuilds the path from the layer's bounds and the box.
module MaskLayers {
  import opened Geometry
  import opened Shapes

  /** The bounds of a layer whose frame is `frame`: same size, origin zero. */
  function BoundsOf(frame: Rect): Rect {
    Rect(Zero, Size(Width(frame), Height(frame)))
  }

  /** The path `update()` builds: the whole bounds, then the crop box. */
  function CutoutPath(bounds: Rect, topLeft: Point, bottomRight: Point): Path {
    Path([bounds, Spanning(topLeft, bottomRight)])
  }

  /** Filled even-odd, the cutout path paints the bounds except the crop box,
      so the dimming view shows everywhere but inside the box. */
  lemma MaskDimsOutsideBox(frame: Rect, topLeft: Point, bottomRight: Point, p: Point)
    requires Inside(Spanning(topLeft, bottomRight), BoundsOf(frame))
    ensures (Filled(CutoutPath(BoundsOf(frame), topLeft, bottomRight), EvenOdd, p) <==>
             Contains(BoundsOf(frame), p) && !Contains(Spanning(topLeft, bottomRight), p))
  {
    EvenOddCutout(BoundsOf(frame), Spanning(topLeft, bottomRight), p);
  }

  class MaskLayer {
    const frame: Rect
    const backgroundColor: Color
    const fillColor: Color
    const fillRule: FillRule
    var topLeft: Point
    var bottomRight: Point
    var path: Path

    /** The path always describes the current corners. */
    ghost predicate Valid()
      reads this
    {
      path == CutoutPath(BoundsOf(frame), topLeft, bottomRight)
    }

    constructor (frame: Rect, initialMask: Rect)
      ensures this.frame == frame
      ensures topLeft == initialMask.origin
      ensures bottomRight == Point(MaxX(initialMask), MaxY(initialMask))
      ensures backgroundColor == Clear && fillColor == Black && fillRule == EvenOdd
      ensures Valid()
    {
      topLeft := initialMask.origin;
      bottomRight := Point(MaxX(initialMask), MaxY(initialMask));
      this.frame := frame;
      backgroundColor, fillColor, fillRule := Clear, Black, EvenOdd;
      path := Path([]);
      new;
      Update();
    }

    method SetTopLeft(p: Point)
      modifies this`topLeft, this`path
      ensures topLeft == p && bottomRight == old(bottomRight)
      ensures Valid()
    {
      topLeft := p;
      Update();
    }

    method SetBottomRight(p: Point)
      modifies this`bottomRight, this`path
      ensures bottomRight == p && topLeft == old(topLeft)
      ensures Valid()
    {
      bottomRight := p;
      Update();
    }

    method Update()
      modifies this`path
      ensures Valid()
    {
      path := CutoutPath(BoundsOf(frame), topLeft, bottomRight);
    }
  }
}
