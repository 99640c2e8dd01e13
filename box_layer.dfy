// BoxLayer: the shape layer that strokes the outline of the crop box. Like
// MaskLayer, setting a corner re-runs `update()`, which rebuilds the path.
module BoxLayers {
  import opened Geometry
  import opened Shapes

  /** The path `update()` builds: the crop box alone. */
  function OutlinePath(topLeft: Point, bottomRight: Point): Path {
    Path([Spanning(topLeft, bottomRight)])
  }

  class BoxLayer {
    const frame: Rect
    const backgroundColor: Color
    const strokeColor: Color
    const fillColor: Color
    const lineWidth: real
    var topLeft: Point
    var bottomRight: Point
    var path: Path

    /** The path always describes the current corners. */
    ghost predicate Valid()
      reads this
    {
      path == OutlinePath(topLeft, bottomRight)
    }

    constructor (frame: Rect, initialMask: Rect)
      ensures this.frame == frame
      ensures topLeft == initialMask.origin
      ensures bottomRight == Point(MaxX(initialMask), MaxY(initialMask))
      ensures backgroundColor == Clear && strokeColor == LightGray
      ensures fillColor == Clear && lineWidth == 1.0
      ensures Valid()
      ensures initialMask.size.width >= 0.0 && initialMask.size.height >= 0.0 ==>
                path == Path([initialMask])
    {
      topLeft := initialMask.origin;
      bottomRight := Point(MaxX(initialMask), MaxY(initialMask));
      this.frame := frame;
      backgroundColor, strokeColor, fillColor, lineWidth := Clear, LightGray, Clear, 1.0;
      path := Path([]);
      new;
      Update();
    }

    method SetTopLeft(p: Point)
      modifies this`topLeft, this`path
      ensures topLeft == p && bottomRight == old(bottomRight)
      ensures Valid()
    {
      topLeft := p;
      Update();
    }

    method SetBottomRight(p: Point)
      modifies this`bottomRight, this`path
      ensures bottomRight == p && topLeft == old(topLeft)
      ensures Valid()
    {
      bottomRight := p;
      Update();
    }

    method Update()
      modifies this`path
      ensures Valid()
    {
      path := OutlinePath(topLeft, bottomRight);
    }
  }
}
