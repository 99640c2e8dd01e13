// EditingOverlayView: the crop editor shown over a captured photo. Its state
// is the crop box, kept as insets from the view's edges, the drag in progress
// and the accumulated rotation; a pan gesture moves one corner of the box at
// a time, and the confirm button crops the photo to the box.
module Editor {
  import opened Wrappers
  import opened Geometry
  import opened MaskLayers
  import opened BoxLayers
  import opened Images
  import PickerErrors
  import opened Bindings

  const Diameter: real := 35.0
  const MinBoxSize: real := 100.0
  const InitialInsets: Insets := Insets(90.0, 40.0, 40.0, 40.0)

  /** The corner being dragged and where the finger sits relative to it. */
  datatype Move = TopLeftMove(offset: Size) | BottomRightMove(offset: Size)

  /** UIGestureRecognizer.State (`recognized` is `ended`). */
  datatype GestureState = Possible | Began | Changed | Ended | Cancelled | Failed

  // ---------------------------------------------------------------------
  // The pan gesture, as functions of the state before the event.

  /** The touch area around a corner: a zero rectangle there, outset by two diameters. */
  function HitZone(corner: Point): Option<Rect> {
    InsetBy(Rect(corner, ZeroSize), Diameter * -2.0, Diameter * -2.0)
  }

  /** The `.began` branch: the top-left zone is tried first; a touch in
      neither zone leaves `move` as it was. */
  function BeganMove(insets: Insets, frame: Rect, location: Point, current: Option<Move>): Option<Move> {
    if ContainsOpt(HitZone(TopLeft(insets)), location) then
      Some(TopLeftMove(Size(location.x - insets.left, location.y - insets.top)))
    else
      var bottomRight := BottomRightIn(insets, frame);
      if ContainsOpt(HitZone(bottomRight), location) then
        Some(BottomRightMove(Size(location.x - bottomRight.x, location.y - bottomRight.y)))
      else current
  }

  /** Where a top-left drag puts the corner: following the finger, but at
      least the minimum box size short of the bottom-right corner and never
      above or left of the view. */
  function DraggedTopLeft(insets: Insets, frame: Rect, location: Point, offset: Size): Point {
    var bottomRight := BottomRightIn(insets, frame);
    Point(Max(Min(location.x - offset.width, bottomRight.x - MinBoxSize), 0.0),
          Max(Min(location.y - offset.height, bottomRight.y - MinBoxSize), 0.0))
  }

  /** Where a bottom-right drag puts the corner: following the finger, but at
      least the minimum box size past the top-left corner and never beyond
      the view. */
  function DraggedBottomRight(insets: Insets, frame: Rect, location: Point, offset: Size): Point {
    Point(Min(Max(location.x - offset.width, insets.left + MinBoxSize), Width(frame)),
          Min(Max(location.y - offset.height, insets.top + MinBoxSize), Height(frame)))
  }

  /** The insets after a `.changed` event of an active move. */
  function ChangedInsets(insets: Insets, frame: Rect, location: Point, move: Move): Insets {
    match move
    case TopLeftMove(offset) =>
      WithTopLeft(insets, DraggedTopLeft(insets, frame, location, offset))
    case BottomRightMove(offset) =>
      var p := DraggedBottomRight(insets, frame, location, offset);
      WithBottomRight(insets, Point(Width(frame) - p.x, Height(frame) - p.y))
  }

  /** `boxInsets` after one call of `dragged(_:)`. */
  function NextInsets(insets: Insets, move: Option<Move>, frame: Rect, state: GestureState, location: Point): Insets {
    if state == Changed && move.Some? then ChangedInsets(insets, frame, location, move.value) else insets
  }

  /** `move` after one call of `dragged(_:)`. */
  function NextMove(insets: Insets, move: Option<Move>, frame: Rect, state: GestureState, location: Point): Option<Move> {
    match state
    case Began => BeganMove(insets, frame, location, move)
    case Changed => move
    case _ => None
  }

  /** The crop box the editor promises to keep: every inset non-negative, so
      the box stays inside the view, and the box at least the minimum size
      in both directions. */
  predicate BoxOk(insets: Insets, frame: Rect) {
    insets.top >= 0.0 && insets.left >= 0.0 && insets.bottom >= 0.0 && insets.right >= 0.0 &&
    Width(frame) - insets.left - insets.right >= MinBoxSize &&
    Height(frame) - insets.top - insets.bottom >= MinBoxSize
  }

  /** A touch hits a corner's zone exactly when it is less than two diameters
      away in each direction (the near edges count, the far ones do not). */
  lemma HitZoneContains(corner: Point, p: Point)
    ensures ContainsOpt(HitZone(corner), p) <==>
              corner.x - 70.0 <= p.x < corner.x + 70.0 && corner.y - 70.0 <= p.y < corner.y + 70.0
  {
  }

  /** The hit test: a touch in both zones drags the top-left corner; the
      offset recorded is the touch less the corner; a touch in neither zone
      starts no drag (and keeps whatever move was recorded). */
  lemma BeganHitTest(insets: Insets, frame: Rect, location: Point, current: Option<Move>)
    ensures var tl := TopLeft(insets);
            var br := BottomRightIn(insets, frame);
            var m := BeganMove(insets, frame, location, current);
            (ContainsOpt(HitZone(tl), location) ==> m == Some(TopLeftMove(Size(location.x - tl.x, location.y - tl.y)))) &&
            (!ContainsOpt(HitZone(tl), location) && ContainsOpt(HitZone(br), location) ==>
               m == Some(BottomRightMove(Size(location.x - br.x, location.y - br.y)))) &&
            (!ContainsOpt(HitZone(tl), location) && !ContainsOpt(HitZone(br), location) ==> m == current)
  {
  }

  /** A top-left drag keeps the corner in [0, bottomRight - 100] on each axis
      whenever that range is not empty, and follows the finger exactly inside it. */
  lemma TopLeftClamp(insets: Insets, frame: Rect, location: Point, offset: Size)
    ensures var br := BottomRightIn(insets, frame);
            var p := DraggedTopLeft(insets, frame, location, offset);
            var want := Point(location.x - offset.width, location.y - offset.height);
            (br.x - MinBoxSize >= 0.0 ==> 0.0 <= p.x <= br.x - MinBoxSize) &&
            (br.y - MinBoxSize >= 0.0 ==> 0.0 <= p.y <= br.y - MinBoxSize) &&
            (0.0 <= want.x <= br.x - MinBoxSize ==> p.x == want.x) &&
            (0.0 <= want.y <= br.y - MinBoxSize ==> p.y == want.y)
  {
  }

  /** A bottom-right drag keeps the corner in [topLeft + 100, frame size] on
      each axis whenever that range is not empty, and follows the finger
      exactly inside it. */
  lemma BottomRightClamp(insets: Insets, frame: Rect, location: Point, offset: Size)
    ensures var p := DraggedBottomRight(insets, frame, location, offset);
            var want := Point(location.x - offset.width, location.y - offset.height);
            (insets.left + MinBoxSize <= Width(frame) ==> insets.left + MinBoxSize <= p.x <= Width(frame)) &&
            (insets.top + MinBoxSize <= Height(frame) ==> insets.top + MinBoxSize <= p.y <= Height(frame)) &&
            (insets.left + MinBoxSize <= want.x <= Width(frame) ==> p.x == want.x) &&
            (insets.top + MinBoxSize <= want.y <= Height(frame) ==> p.y == want.y)
  {
  }

  /** A top-left drag changes only left and top; a bottom-right drag changes
      only right and bottom, storing the corner as its distance from the far
      edges, so that `bottomRight(in:)` reads that corner back. */
  lemma DragTouchesOneCorner(insets: Insets, frame: Rect, location: Point, move: Move)
    ensures var r := ChangedInsets(insets, frame, location, move);
            (move.TopLeftMove? ==>
               TopLeft(r) == DraggedTopLeft(insets, frame, location, move.offset) &&
               r.right == insets.right && r.bottom == insets.bottom) &&
            (move.BottomRightMove? ==>
               BottomRightIn(r, frame) == DraggedBottomRight(insets, frame, location, move.offset) &&
               r.left == insets.left && r.top == insets.top)
  {
    if move.BottomRightMove? {
      var p := DraggedBottomRight(insets, frame, location, move.offset);
      BottomRightRoundTrip(insets, frame, p);
    }
  }

  /** The box invariant: every pan event keeps a box that is inside the view
      and at least 100 x 100 points. */
  lemma DragPreservesBox(insets: Insets, move: Option<Move>, frame: Rect, state: GestureState, location: Point)
    requires BoxOk(insets, frame)
    ensures BoxOk(NextInsets(insets, move, frame, state, location), frame)
  {
    if state == Changed && move.Some? {
      var m := move.value;
      TopLeftClamp(insets, frame, location, m.offset);
      BottomRightClamp(insets, frame, location, m.offset);
    }
  }

  /** The offset `.began` records makes a `.changed` event at the same place
      leave the box exactly where it was, for either corner: the corner does
      not jump under the finger. */
  lemma StillDragKeepsBox(insets: Insets, frame: Rect, location: Point)
    requires BoxOk(insets, frame)
    ensures var m := BeganMove(insets, frame, location, None);
            NextInsets(insets, m, frame, Changed, location) == insets
  {
    var m := BeganMove(insets, frame, location, None);
    if m.Some? && m.value.BottomRightMove? {
      var br := BottomRightIn(insets, frame);
      assert DraggedBottomRight(insets, frame, location, m.value.offset) == br;
    }
  }

  /** The initial insets give a valid box exactly on views of at least 180 x 230 points. */
  lemma InitialBoxOk(frame: Rect)
    ensures BoxOk(InitialInsets, frame) <==> Width(frame) >= 180.0 && Height(frame) >= 230.0
  {
  }

  /** Only `.began` can start a drag; a `.changed` event without one, or any
      other event, leaves the box where it is, and every state other than
      began and changed ends the drag. */
  lemma IdleEventsKeepBox(insets: Insets, move: Option<Move>, frame: Rect, state: GestureState, location: Point)
    ensures state != Changed || move.None? ==> NextInsets(insets, move, frame, state, location) == insets
    ensures state != Began && state != Changed ==> NextMove(insets, move, frame, state, location).None?
    ensures state == Changed ==> NextMove(insets, move, frame, state, location) == move
  {
  }

  // ---------------------------------------------------------------------
  // processImage and the rotation gesture

  /** The insets in image points: each one divided by the ratio of the view's
      height to the image's. */
  function ImageInsets(insets: Insets, ratio: real): Insets
    requires ratio != 0.0
  {
    Insets(insets.top / ratio, insets.left / ratio, insets.bottom / ratio, insets.right / ratio)
  }

  /** `processImage(_:)`. A zero view or image height makes the ratio
      degenerate; the image then comes back as it was. */
  function ProcessImage(img: Image, insets: Insets, frame: Rect, backend: Backend): (r: Image)
    ensures Height(frame) == 0.0 || img.size.height == 0.0 || img.bitmap.None? || !backend.croppingMade ==> r == img
    ensures Height(frame) != 0.0 && img.size.height != 0.0 && img.bitmap.Some? && backend.croppingMade ==>
              r.scale == img.scale && r.orientation == img.orientation && r.bitmap.Some? &&
              r.bitmap.value.pixels ==
                Clipped(img.bitmap.value.pixels, CropRect(img.size, ImageInsets(insets, Height(frame) / img.size.height)))
  {
    if Height(frame) == 0.0 || img.size.height == 0.0 then img
    else Cropped(img, ImageInsets(insets, Height(frame) / img.size.height), backend)
  }

  /** For an image shown at the view's aspect ratio, the rectangle cropped out
      of it is the on-screen box scaled by the ratio: same corners once
      multiplied back, and inside the image whenever the box is valid. */
  lemma CropMatchesBox(size: Size, insets: Insets, frame: Rect)
    requires size.height > 0.0 && Height(frame) > 0.0
    requires size.width * (Height(frame) / size.height) == Width(frame)
    ensures var ratio := Height(frame) / size.height;
            var c := CropRect(size, ImageInsets(insets, ratio));
            c.origin.x * ratio == insets.left && c.origin.y * ratio == insets.top &&
            c.size.width * ratio == Width(frame) - insets.left - insets.right &&
            c.size.height * ratio == Height(frame) - insets.top - insets.bottom
    ensures BoxOk(insets, frame) ==>
              var ratio := Height(frame) / size.height;
              var c := CropRect(size, ImageInsets(insets, ratio));
              0.0 <= c.origin.x && 0.0 <= c.origin.y &&
              c.size.width * ratio >= MinBoxSize && c.size.height * ratio >= MinBoxSize &&
              c.origin.x + c.size.width <= size.width && c.origin.y + c.size.height <= size.height
  {
    var ratio := Height(frame) / size.height;
    DivideThenMultiply(Height(frame), size.height);
    DividePositive(Height(frame), size.height);
    CropScalesBack(size, insets, ratio, Width(frame), Height(frame));
  }

  /** The crop rectangle for insets divided by a positive ratio, multiplied
      back by it; with non-negative insets it lies inside the image. */
  lemma CropScalesBack(size: Size, insets: Insets, ratio: real, w: real, h: real)
    requires ratio > 0.0 && size.width * ratio == w && size.height * ratio == h
    ensures var c := CropRect(size, ImageInsets(insets, ratio));
            c.origin.x * ratio == insets.left && c.origin.y * ratio == insets.top &&
            c.size.width * ratio == w - insets.left - insets.right &&
            c.size.height * ratio == h - insets.top - insets.bottom
    ensures insets.top >= 0.0 && insets.left >= 0.0 && insets.bottom >= 0.0 && insets.right >= 0.0 ==>
              var c := CropRect(size, ImageInsets(insets, ratio));
              0.0 <= c.origin.x && 0.0 <= c.origin.y &&
              c.origin.x + c.size.width <= size.width && c.origin.y + c.size.height <= size.height
  {
    ScaleBackSide(size.width, insets.left, insets.right, ratio, w);
    ScaleBackSide(size.height, insets.top, insets.bottom, ratio, h);
    if insets.top >= 0.0 && insets.left >= 0.0 && insets.bottom >= 0.0 && insets.right >= 0.0 {
      DivideNonNegative(insets.left, ratio);
      DivideNonNegative(insets.right, ratio);
      DivideNonNegative(insets.top, ratio);
      DivideNonNegative(insets.bottom, ratio);
    }
  }

  /** One side of the crop, multiplied back by the ratio: the near inset and
      the extent left between the two insets come back in view points. */
  lemma ScaleBackSide(extent: real, near: real, far: real, ratio: real, screen: real)
    requires ratio != 0.0 && extent * ratio == screen
    ensures (near / ratio) * ratio == near
    ensures (extent - near / ratio - far / ratio) * ratio == screen - near - far
  {
    DivideThenMultiply(near, ratio);
    DivideThenMultiply(far, ratio);
    Distribute(extent, near / ratio, far / ratio, ratio);
  }

  lemma DividePositive(a: real, b: real)
    requires a > 0.0 && b > 0.0
    ensures a / b > 0.0
  {
  }

  lemma DivideThenMultiply(a: real, b: real)
    requires b != 0.0
    ensures (a / b) * b == a && b * (a / b) == a
  {
  }

  lemma Distribute(a: real, b: real, c: real, r: real)
    ensures (a - b - c) * r == a * r - b * r - c * r
  {
  }

  lemma DivideNonNegative(a: real, b: real)
    requires a >= 0.0 && b > 0.0
    ensures a / b >= 0.0
  {
  }

  /** `self.rotation` after one call of `rotate(_:)`: only the end of a
      gesture (any state but began and changed) adds its rotation. */
  function NextRotation(rotation: real, state: GestureState, r: real): real {
    if state == Began || state == Changed then rotation else rotation + r
  }

  /** The rotation after a whole gesture: it began, changed any number of
      times, and ended with rotation r. */
  function AfterGesture(rotation: real, changes: seq<real>, r: real): real {
    NextRotation(ThroughChanges(NextRotation(rotation, Began, 0.0), changes), Ended, r)
  }

  function ThroughChanges(rotation: real, changes: seq<real>): real {
    if changes == [] then rotation else ThroughChanges(NextRotation(rotation, Changed, changes[0]), changes[1..])
  }

  /** The accumulated rotation grows by each finished gesture's rotation,
      however many changes the gesture went through. */
  lemma {:induction false} GestureAddsItsRotation(rotation: real, changes: seq<real>, r: real)
    ensures AfterGesture(rotation, changes, r) == rotation + r
  {
    ChangesKeepRotation(rotation, changes);
  }

  lemma {:induction false} ChangesKeepRotation(rotation: real, changes: seq<real>)
    ensures ThroughChanges(rotation, changes) == rotation
  {
    if changes != [] {
      ChangesKeepRotation(rotation, changes[1..]);
    }
  }

  // ---------------------------------------------------------------------
  // The view

  class EditingOverlay<T> {
    const frame: Rect
    const bindings: ImageBindings<T>
    const correctedImage: Image
    const maskLayer: MaskLayer
    const boxLayer: BoxLayer
    var boxInsets: Insets
    var move: Option<Move>
    var rotation: real
    /** The angle of `imageView.transform`, a rotation. */
    var imageAngle: real
    var topLeftCenter: Point
    var bottomRightCenter: Point

    /** Layers, handles and insets all describe the same two corners. */
    ghost predicate Coherent()
      reads this, maskLayer, boxLayer
    {
      maskLayer.Valid() && boxLayer.Valid() && maskLayer.frame == frame && boxLayer.frame == frame &&
      maskLayer.topLeft == TopLeft(boxInsets) && boxLayer.topLeft == TopLeft(boxInsets) &&
      topLeftCenter == TopLeft(boxInsets) &&
      maskLayer.bottomRight == BottomRightIn(boxInsets, frame) &&
      boxLayer.bottomRight == BottomRightIn(boxInsets, frame) &&
      bottomRightCenter == BottomRightIn(boxInsets, frame)
    }

    /** `init(frame:item:initialImage:retake:done:)`: the photo goes through
        `withCorrectedRotation(desiredAspect: .portrait)`, both layers start at
        the initial box, the handles sit on its corners. */
    constructor (frame: Rect, bindings: ImageBindings<T>, initialImage: Image, backend: Backend)
      ensures this.frame == frame && this.bindings == bindings
      ensures correctedImage == CorrectedRotation(initialImage, Some(Portrait), backend)
      ensures boxInsets == InitialInsets && move.None? && rotation == 0.0 && imageAngle == 0.0
      ensures Width(frame) >= 80.0 && Height(frame) >= 130.0 ==> Coherent()
      ensures Width(frame) >= 180.0 && Height(frame) >= 230.0 ==> Coherent() && BoxOk(boxInsets, frame)
    {
      this.frame := frame;
      this.bindings := bindings;
      var corrected := WithCorrectedRotation(initialImage, Some(Portrait), backend);
      correctedImage := corrected;
      var insets := InitialInsets;
      var boxSize := Size(Width(frame) - insets.left - insets.right, Height(frame) - insets.top - insets.bottom);
      maskLayer := new MaskLayer(frame, Rect(TopLeft(insets), boxSize));
      boxLayer := new BoxLayer(frame, Rect(TopLeft(insets), boxSize));
      topLeftCenter := TopLeft(insets);
      bottomRightCenter := BottomRightIn(insets, frame);
      boxInsets := insets;
      move := None;
      rotation := 0.0;
      imageAngle := 0.0;
    }

    /** `dragged(_:)`, for a pan event in `state` at `location`. */
    method Dragged(state: GestureState, location: Point)
      modifies this`boxInsets, this`move, this`topLeftCenter, this`bottomRightCenter
      modifies maskLayer`topLeft, maskLayer`bottomRight, maskLayer`path
      modifies boxLayer`topLeft, boxLayer`bottomRight, boxLayer`path
      ensures boxInsets == NextInsets(old(boxInsets), old(move), frame, state, location)
      ensures move == NextMove(old(boxInsets), old(move), frame, state, location)
      ensures old(Coherent()) ==> Coherent()
      ensures old(BoxOk(boxInsets, frame)) ==> BoxOk(boxInsets, frame)
      ensures state == Changed && old(move).Some? && old(move).value.TopLeftMove? ==>
                maskLayer.topLeft == TopLeft(boxInsets) && boxLayer.topLeft == TopLeft(boxInsets) &&
                topLeftCenter == TopLeft(boxInsets) && maskLayer.Valid() && boxLayer.Valid()
      ensures state == Changed && old(move).Some? && old(move).value.BottomRightMove? ==>
                maskLayer.bottomRight == BottomRightIn(boxInsets, frame) &&
                boxLayer.bottomRight == BottomRightIn(boxInsets, frame) &&
                bottomRightCenter == BottomRightIn(boxInsets, frame) && maskLayer.Valid() && boxLayer.Valid()
      ensures state != Changed || old(move).None? ==>
                unchanged(maskLayer, boxLayer) && topLeftCenter == old(topLeftCenter) &&
                bottomRightCenter == old(bottomRightCenter)
    {
      if BoxOk(boxInsets, frame) {
        DragPreservesBox(boxInsets, move, frame, state, location);
      }
      match state {
        case Began =>
          move := BeganMove(boxInsets, frame, location, move);
        case Changed =>
          if move.None? {
            return;
          }
          match move.value {
            case TopLeftMove(offset) =>
              var topLeft := DraggedTopLeft(boxInsets, frame, location, offset);
              maskLayer.SetTopLeft(topLeft);
              boxLayer.SetTopLeft(topLeft);
              topLeftCenter := topLeft;
              boxInsets := WithTopLeft(boxInsets, topLeft);
            case BottomRightMove(offset) =>
              var bottomRight := DraggedBottomRight(boxInsets, frame, location, offset);
              maskLayer.SetBottomRight(bottomRight);
              boxLayer.SetBottomRight(bottomRight);
              bottomRightCenter := bottomRight;
              BottomRightRoundTrip(boxInsets, frame, bottomRight);
              boxInsets := WithBottomRight(boxInsets, Point(Width(frame) - bottomRight.x, Height(frame) - bottomRight.y));
          }
        case _ =>
          move := None;
      }
    }

    /** `rotate(_:)`: a change shows the gesture's rotation on top of the
        accumulated one; the end of the gesture adds it to the accumulation. */
    method Rotate(state: GestureState, r: real)
      modifies this`rotation, this`imageAngle
      ensures rotation == NextRotation(old(rotation), state, r)
      ensures state == Changed ==> imageAngle == r + old(rotation)
      ensures state != Changed ==> imageAngle == old(imageAngle)
    {
      match state {
        case Began =>
        case Changed =>
          imageAngle := r + rotation;
        case _ =>
          rotation := rotation + r;
      }
    }

    /** The close button: the flow ends cancelled. */
    method Close()
      modifies bindings
      ensures bindings.selectedImage == Some(Failure(PickerErrors.Cancelled))
      ensures bindings.item.None?
    {
      bindings.selectedImage := Some(Failure(PickerErrors.Cancelled));
      bindings.item := None;
    }

    /** The confirm button. With the view gone, the outcome is noSelf and the
        item stays; otherwise the photo cropped to the box and the item cleared. */
    method Confirm(alive: bool, backend: Backend)
      modifies bindings
      ensures !alive ==> bindings.selectedImage == Some(Failure(PickerErrors.NoSelf)) &&
                         bindings.item == old(bindings.item)
      ensures alive ==> bindings.selectedImage == Some(Success(ProcessImage(correctedImage, boxInsets, frame, backend))) &&
                        bindings.item.None?
    {
      if !alive {
        bindings.selectedImage := Some(Failure(PickerErrors.NoSelf));
        return;
      }
      var croppedImage := ProcessImage(correctedImage, boxInsets, frame, backend);
      bindings.selectedImage := Some(Success(croppedImage));
      bindings.item := None;
    }
  }
}
