// UIImage+Extensions: the decisions and the arithmetic around the image
// operations the editor uses (orientation correction, quarter-turn rotation,
// scaling, cropping). The pixel work itself happens in Core Graphics, Core
// Image and UIKit; here a bitmap's content is a symbolic record of how it was
// produced, and whether each foreign call succeeds is an input (`Backend`).
module Images {
  import opened Wrappers
  import opened Geometry

  /** UIImage.Orientation, whose raw values run 0 (up) to 7 (rightMirrored). */
  datatype Orientation = Up | Down | Left | Right | UpMirrored | DownMirrored | LeftMirrored | RightMirrored

  /** CGImagePropertyOrientation, whose raw values run 1 (up) to 8 (left). */
  datatype CGOrientation = CGUp | CGUpMirrored | CGDown | CGDownMirrored | CGLeftMirrored | CGRight | CGRightMirrored | CGLeft

  datatype Aspect = Portrait | Landscape

  type Scale = s: real | s > 0.0 witness 1.0

  /** Where a bitmap's pixels came from. */
  datatype Pixels =
    | Captured(id: nat)                                               // delivered by the camera or the library
    | Blank                                                           // an image with no bitmap behind it
    | Redrawn(source: Pixels, transform: Affine, drawRect: Rect)      // drawn into a CGContext
    | Turned(source: Pixels, orientation: CGOrientation, quarterTurns: int)  // Core Image orient + rotate
    | Resampled(source: Pixels, size: Size)                           // drawn into a UIGraphics context
    | Clipped(source: Pixels, rect: Rect)                             // CGImage.cropping(to:)

  /** A CGImage: its pixels, its pixel dimensions and whether it has a colour space. */
  datatype Bitmap = Bitmap(pixels: Pixels, width: real, height: real, hasColorSpace: bool)

  /** A UIImage: an optional CGImage, its size in points, its scale and its orientation. */
  datatype Image = Image(bitmap: Option<Bitmap>, size: Size, scale: Scale, orientation: Orientation)

  /** Which of the foreign calls succeed: `CGContext(...)`, `context.makeImage()`,
      Core Image's `CIImage(image:)` and `createCGImage`, `UIGraphicsGetImageFromCurrentImageContext()`
      and `cgImage.cropping(to:)`. */
  datatype Backend = Backend(contextCreated: bool, contextImageMade: bool, ciRendered: bool,
                             graphicsImageMade: bool, croppingMade: bool)

  predicate IsSideways(o: Orientation) {
    o == Left || o == Right || o == LeftMirrored || o == RightMirrored
  }

  predicate IsMirrored(o: Orientation) {
    o == UpMirrored || o == DownMirrored || o == LeftMirrored || o == RightMirrored
  }

  predicate IsSidewaysCG(c: CGOrientation) {
    c == CGLeftMirrored || c == CGRight || c == CGRightMirrored || c == CGLeft
  }

  function UIRawValue(o: Orientation): int {
    match o
    case Up => 0
    case Down => 1
    case Left => 2
    case Right => 3
    case UpMirrored => 4
    case DownMirrored => 5
    case LeftMirrored => 6
    case RightMirrored => 7
  }

  /** `CGImagePropertyOrientation(rawValue:)`: nil outside 1...8. */
  function CGFromRaw(raw: int): (c: Option<CGOrientation>)
    ensures c.Some? <==> 1 <= raw <= 8
  {
    if raw == 1 then Some(CGUp)
    else if raw == 2 then Some(CGUpMirrored)
    else if raw == 3 then Some(CGDown)
    else if raw == 4 then Some(CGDownMirrored)
    else if raw == 5 then Some(CGLeftMirrored)
    else if raw == 6 then Some(CGRight)
    else if raw == 7 then Some(CGRightMirrored)
    else if raw == 8 then Some(CGLeft)
    else None
  }

  /** The property orientation that means the same as a UIKit orientation. */
  function MatchingCG(o: Orientation): CGOrientation {
    match o
    case Up => CGUp
    case Down => CGDown
    case Left => CGLeft
    case Right => CGRight
    case UpMirrored => CGUpMirrored
    case DownMirrored => CGDownMirrored
    case LeftMirrored => CGLeftMirrored
    case RightMirrored => CGRightMirrored
  }

  /** The size in points of a CGImage shown at a scale and an orientation:
      the pixel size over the scale, with the sides swapped when sideways. */
  function PointSize(b: Bitmap, scale: Scale, o: Orientation): Size {
    if IsSideways(o) then Size(b.height / scale, b.width / scale) else Size(b.width / scale, b.height / scale)
  }

  /** An image whose size in points is the one its bitmap gives. */
  predicate SizedByBitmap(img: Image) {
    img.bitmap.Some? && img.size == PointSize(img.bitmap.value, img.scale, img.orientation)
  }

  /** `UIImage(cgImage:scale:orientation:)`: the size in points is the pixel
      size over the scale, with the sides swapped for a sideways orientation. */
  function FromBitmap(b: Bitmap, scale: Scale, o: Orientation): (img: Image)
    ensures img.bitmap == Some(b) && img.scale == scale && img.orientation == o
    ensures img.size == PointSize(b, scale, o) && SizedByBitmap(img)
    ensures !IsSideways(o) ==> img.size == Size(b.width / scale, b.height / scale)
    ensures IsSideways(o) ==> img.size == Size(b.height / scale, b.width / scale)
  {
    var w := b.width / scale;
    var h := b.height / scale;
    Image(Some(b), if IsSideways(o) then Size(h, w) else Size(w, h), scale, o)
  }

  function PixelsOf(img: Image): Pixels {
    if img.bitmap.Some? then img.bitmap.value.pixels else Blank
  }

  /** Swift's `Int(_:)` on a CGFloat: truncation toward zero, so the result
      is within one of the input and never further from zero. */
  function Trunc(x: real): (t: int)
    ensures x >= 0.0 ==> 0 <= t && t as real <= x < t as real + 1.0
    ensures x < 0.0 ==> t <= 0 && t as real - 1.0 < x <= t as real
  {
    if x >= 0.0 then x.Floor else -((-x).Floor)
  }

  /** Dividing by a positive scale keeps the order of two lengths. */
  lemma DivisionKeepsOrder(a: real, b: real, s: Scale)
    ensures a / s > b / s <==> a > b
  {
    assert a == (a / s) * s;
    assert b == (b / s) * s;
  }

  /** For an image sized by its bitmap and not sideways, points and pixels
      agree on which side is the longer. */
  lemma BitmapAspect(img: Image)
    ensures SizedByBitmap(img) && !IsSideways(img.orientation) ==>
              (img.size.width > img.size.height <==> img.bitmap.value.width > img.bitmap.value.height) &&
              (img.size.width < img.size.height <==> img.bitmap.value.width < img.bitmap.value.height)
  {
    if SizedByBitmap(img) && !IsSideways(img.orientation) {
      var b := img.bitmap.value;
      DivisionKeepsOrder(b.width, b.height, img.scale);
      DivisionKeepsOrder(b.height, b.width, img.scale);
    }
  }

  // ---------------------------------------------------------------------
  // rotated(by:) and rotatedIfNecessary

  /** The aspect check of `rotatedIfNecessary`: an aspect was asked for and the
      image has the other one. A square image never needs turning. */
  predicate NeedsRotation(img: Image, desired: Option<Aspect>) {
    (desired == Some(Portrait) && img.size.width > img.size.height) ||
    (desired == Some(Landscape) && img.size.width < img.size.height)
  }

  /** The body of `rotated(by:)` once the orientation conversion has been done
      (None when `CGImagePropertyOrientation(rawValue:)` gave nil). Core Image
      orients the CGImage's pixels, turns them by `q` quarter turns and renders
      the extent into a new CGImage, wrapped at scale 1 and orientation up.
      Orienting to a sideways orientation swaps the sides once, an odd number
      of quarter turns swaps them again. */
  function RotatedWith(img: Image, converted: Option<CGOrientation>, q: int, backend: Backend): (r: Image)
    ensures converted.None? || img.bitmap.None? || !backend.ciRendered ==> r == img
    ensures converted.Some? && img.bitmap.Some? && backend.ciRendered ==>
              var b := img.bitmap.value;
              r.orientation == Up && r.scale == 1.0 && SizedByBitmap(r) &&
              r.bitmap.value.pixels == Turned(b.pixels, converted.value, q) &&
              r.size == (if IsSidewaysCG(converted.value) != (q % 2 == 1) then Size(b.height, b.width)
                         else Size(b.width, b.height))
  {
    match converted
    case None => img
    case Some(c) =>
      if img.bitmap.None? || !backend.ciRendered then img
      else
        var b := img.bitmap.value;
        var (ow, oh) := if IsSidewaysCG(c) then (b.height, b.width) else (b.width, b.height);
        var (ew, eh) := if q % 2 == 1 then (oh, ow) else (ow, oh);
        FromBitmap(Bitmap(Turned(b.pixels, c, q), ew, eh, true), 1.0, Up)
  }

  /** `rotated(by:)` as written: the UIKit raw value is handed to
      `CGImagePropertyOrientation(rawValue:)`, whose numbering is different.
      An up image (raw value 0) has no property orientation and comes back as
      it was; only rightMirrored (7) is read with its own meaning. */
  function RotatedAsWritten(img: Image, q: int, backend: Backend): (r: Image)
    ensures img.orientation == Up ==> r == img
    ensures img.orientation == RightMirrored ==> r == Rotated(img, q, backend)
  {
    RotatedWith(img, CGFromRaw(UIRawValue(img.orientation)), q, backend)
  }

  /** `rotated(by:)` with the orientation converted by meaning: with a bitmap
      and Core Image working, the upright pixels turned by q quarter turns. */
  function Rotated(img: Image, q: int, backend: Backend): (r: Image)
    ensures img.bitmap.None? || !backend.ciRendered ==> r == img
    ensures img.bitmap.Some? && backend.ciRendered ==>
              var b := img.bitmap.value;
              r.orientation == Up && r.scale == 1.0 && SizedByBitmap(r) &&
              r.bitmap.value.pixels == Turned(b.pixels, MatchingCG(img.orientation), q) &&
              r.size == (if IsSideways(img.orientation) != (q % 2 == 1) then Size(b.height, b.width)
                         else Size(b.width, b.height))
  {
    assert IsSidewaysCG(MatchingCG(img.orientation)) <==> IsSideways(img.orientation);
    RotatedWith(img, Some(MatchingCG(img.orientation)), q, backend)
  }

  /** `rotatedIfNecessary` as written (turns by pi/2, one quarter turn): it
      never changes an up image, whatever the aspect. */
  function RotatedIfNecessaryAsWritten(img: Image, desired: Option<Aspect>, backend: Backend): (r: Image)
    ensures !NeedsRotation(img, desired) || img.orientation == Up ==> r == img
  {
    if NeedsRotation(img, desired) then RotatedAsWritten(img, 1, backend) else img
  }

  /** `rotatedIfNecessary` over the corrected conversion. An image that has
      the desired aspect comes back as it was; an up image of the wrong aspect,
      sized by its bitmap, comes back up with its sides swapped, in the
      desired aspect. */
  function RotatedIfNecessary(img: Image, desired: Option<Aspect>, backend: Backend): (r: Image)
    ensures !NeedsRotation(img, desired) ==> r == img
    ensures NeedsRotation(img, desired) ==> r == Rotated(img, 1, backend)
    ensures NeedsRotation(img, desired) && (img.bitmap.None? || !backend.ciRendered) ==> r == img
    ensures NeedsRotation(img, desired) && img.orientation == Up && SizedByBitmap(img) && backend.ciRendered ==>
              r.orientation == Up && SizedByBitmap(r) &&
              r.size == Size(img.bitmap.value.height, img.bitmap.value.width) &&
              !NeedsRotation(r, desired) &&
              (desired == Some(Portrait) ==> r.size.height > r.size.width) &&
              (desired == Some(Landscape) ==> r.size.width > r.size.height)
  {
    BitmapAspect(img);
    if NeedsRotation(img, desired) then Rotated(img, 1, backend) else img
  }

  /** As written, the up orientation (raw value 0) has no property orientation,
      so `rotated(by:)` hands back every up image untouched, and with it
      `rotatedIfNecessary`, whatever the aspect. */
  lemma AsWrittenNeverRotatesUp(img: Image, desired: Option<Aspect>, backend: Backend)
    requires img.orientation == Up
    ensures CGFromRaw(UIRawValue(Up)) == None
    ensures RotatedAsWritten(img, 1, backend) == img
    ensures RotatedIfNecessaryAsWritten(img, desired, backend) == img
  {
  }

  /** Only rightMirrored survives the as-written conversion with its meaning. */
  lemma AsWrittenConversionMisreads(o: Orientation)
    ensures CGFromRaw(UIRawValue(o)) == Some(MatchingCG(o)) <==> o == RightMirrored
  {
  }

  /** A concrete photo: 400 x 300 points, up, asked to be portrait. As written
      it stays landscape; with the corrected conversion it becomes 300 x 400. */
  lemma LandscapePhotoStaysLandscape(backend: Backend)
    requires backend.ciRendered
    ensures var img := Image(Some(Bitmap(Captured(0), 400.0, 300.0, true)), Size(400.0, 300.0), 1.0, Up);
            RotatedIfNecessaryAsWritten(img, Some(Portrait), backend).size == Size(400.0, 300.0) &&
            RotatedIfNecessary(img, Some(Portrait), backend).size == Size(300.0, 400.0)
  {
    var img := Image(Some(Bitmap(Captured(0), 400.0, 300.0, true)), Size(400.0, 300.0), 1.0, Up);
    assert SizedByBitmap(img);
  }

  // ---------------------------------------------------------------------
  // withCorrectedRotation

  /** The transform that undoes each orientation, in closed form: the point
      (x, y) of the drawn rectangle lands on the canvas at
        down: (w - x, h - y)       downMirrored: (x, h - y)
        left: (w - y, x)           leftMirrored: (w - y, h - x)
        right: (y, h - x)          rightMirrored: (y, x)
        up: (x, y)                 upMirrored: (w - x, y)              */
  function Reorientation(o: Orientation, w: real, h: real): Affine {
    match o
    case Up => Identity
    case Down => Affine(-1.0, 0.0, 0.0, -1.0, w, h)
    case Left => Affine(0.0, 1.0, -1.0, 0.0, w, 0.0)
    case Right => Affine(0.0, -1.0, 1.0, 0.0, 0.0, h)
    case UpMirrored => Affine(-1.0, 0.0, 0.0, 1.0, w, 0.0)
    case DownMirrored => Affine(1.0, 0.0, 0.0, -1.0, 0.0, h)
    case LeftMirrored => Affine(0.0, -1.0, -1.0, 0.0, w, h)
    case RightMirrored => Affine(0.0, 1.0, 1.0, 0.0, 0.0, 0.0)
  }

  /** The rectangle the CGImage is drawn into: h x w for the sideways orientations. */
  function DrawRect(o: Orientation, w: real, h: real): Rect {
    if IsSideways(o) then Rect(Zero, Size(h, w)) else Rect(Zero, Size(w, h))
  }

  predicate WithinClosed(r: Rect, p: Point) {
    MinX(r) <= p.x <= MaxX(r) && MinY(r) <= p.y <= MaxY(r)
  }

  /** Every point of the drawn rectangle lands on the w x h canvas, so no
      part of the picture is drawn outside the new image. */
  lemma ReorientationFillsCanvas(o: Orientation, w: real, h: real, p: Point)
    requires w >= 0.0 && h >= 0.0
    requires WithinClosed(DrawRect(o, w, h), p)
    ensures WithinClosed(Rect(Zero, Size(w, h)), Apply(Reorientation(o, w, h), p))
  {
  }

  /** The correction is a rigid motion: a turn for the plain orientations, a
      reflection (determinant -1) for the mirrored ones. */
  lemma ReorientationIsRigid(o: Orientation, w: real, h: real)
    ensures Determinant(Reorientation(o, w, h)) == if IsMirrored(o) then -1.0 else 1.0
  {
  }

  /** The image `withCorrectedRotation` draws before the aspect check: the
      CGImage redrawn upright into a context of Int(width) x Int(height)
      pixels with the source's colour space, wrapped at scale 1, up. */
  function Upright(img: Image): (r: Image)
    requires img.bitmap.Some?
    ensures var w := img.size.width;
            var h := img.size.height;
            var b := img.bitmap.value;
            r.orientation == Up && r.scale == 1.0 && SizedByBitmap(r) &&
            r.bitmap.value.pixels == Redrawn(b.pixels, Reorientation(img.orientation, w, h), DrawRect(img.orientation, w, h)) &&
            r.bitmap.value.width == Trunc(w) as real && r.bitmap.value.height == Trunc(h) as real &&
            r.bitmap.value.hasColorSpace == b.hasColorSpace &&
            r.size == Size(Trunc(w) as real, Trunc(h) as real)
  {
    var w := img.size.width;
    var h := img.size.height;
    var b := img.bitmap.value;
    FromBitmap(Bitmap(Redrawn(b.pixels, Reorientation(img.orientation, w, h), DrawRect(img.orientation, w, h)),
                      Trunc(w) as real, Trunc(h) as real, b.hasColorSpace), 1.0, Up)
  }

  predicate Drawable(img: Image) {
    img.bitmap.Some? && img.bitmap.value.hasColorSpace
  }

  /** The redraw succeeds: a CGImage with a colour space, a context, and the
      context's image. */
  predicate Redrawable(img: Image, backend: Backend) {
    Drawable(img) && backend.contextCreated && backend.contextImageMade
  }

  /** What `withCorrectedRotation(desiredAspect:)` gives back for an image, as
      written. The aspect step only ever sees up images, which `rotated(by:)`
      returns untouched, so the desired aspect never matters: an up image
      comes back as it was, any other is redrawn upright when it can be and
      comes back as it was when it cannot. */
  function CorrectedRotation(img: Image, desired: Option<Aspect>, backend: Backend): (r: Image)
    ensures img.orientation == Up ==> r == img
    ensures img.orientation != Up && !Redrawable(img, backend) ==> r == img
    ensures img.orientation != Up && Redrawable(img, backend) ==> r == Upright(img)
    ensures r == img || r.orientation == Up
  {
    if img.orientation == Up then RotatedIfNecessaryAsWritten(img, desired, backend)
    else if !Redrawable(img, backend) then img
    else RotatedIfNecessaryAsWritten(Upright(img), desired, backend)
  }

  /** `withCorrectedRotation(desiredAspect:)` over the corrected conversion:
      whenever the redraw (if one is needed) and Core Image work, the result
      is up and has the desired aspect. */
  function CorrectedRotationIntended(img: Image, desired: Option<Aspect>, backend: Backend): (r: Image)
    ensures img.orientation != Up && !Redrawable(img, backend) ==> r == img
    ensures backend.ciRendered &&
            (if img.orientation == Up then SizedByBitmap(img) else Redrawable(img, backend)) ==>
              r.orientation == Up && !NeedsRotation(r, desired)
  {
    if img.orientation == Up then RotatedIfNecessary(img, desired, backend)
    else if !Redrawable(img, backend) then img
    else RotatedIfNecessary(Upright(img), desired, backend)
  }

  /** The same 400 x 300 photo, oriented right this time, through the whole of
      `withCorrectedRotation(desiredAspect: .portrait)`: as written it is
      redrawn upright and nothing more; as intended it ends up portrait. */
  lemma SidewaysPhotoIsOnlyRedrawn(backend: Backend)
    requires Redrawable(Image(Some(Bitmap(Captured(0), 300.0, 400.0, true)), Size(400.0, 300.0), 1.0, Right), backend)
    requires backend.ciRendered
    ensures var img := Image(Some(Bitmap(Captured(0), 300.0, 400.0, true)), Size(400.0, 300.0), 1.0, Right);
            CorrectedRotation(img, Some(Portrait), backend).size == Size(400.0, 300.0) &&
            CorrectedRotationIntended(img, Some(Portrait), backend).size == Size(300.0, 400.0)
  {
    var img := Image(Some(Bitmap(Captured(0), 300.0, 400.0, true)), Size(400.0, 300.0), 1.0, Right);
    var u := Upright(img);
    assert u.size == Size(400.0, 300.0);
    assert NeedsRotation(u, Some(Portrait));
  }

  /** The two switches of `withCorrectedRotation` that build `transform`
      step by step; the result is the closed-form correction. */
  method CorrectionTransform(o: Orientation, width: real, height: real) returns (transform: Affine)
    ensures transform == Reorientation(o, width, height)
  {
    transform := Identity;
    match o {
      case Down | DownMirrored =>
        transform := TranslatedBy(transform, width, height);
        transform := RotatedBy(transform, 2);
      case Left | LeftMirrored =>
        transform := TranslatedBy(transform, width, 0.0);
        transform := RotatedBy(transform, 1);
      case Right | RightMirrored =>
        transform := TranslatedBy(transform, 0.0, height);
        transform := RotatedBy(transform, -1);
      case _ =>
    }
    assert o == Down || o == DownMirrored ==> transform == Affine(-1.0, 0.0, 0.0, -1.0, width, height);
    assert o == Left || o == LeftMirrored ==> transform == Affine(0.0, 1.0, -1.0, 0.0, width, 0.0);
    assert o == Right || o == RightMirrored ==> transform == Affine(0.0, -1.0, 1.0, 0.0, 0.0, height);

    match o {
      case UpMirrored | DownMirrored =>
        transform := TranslatedBy(transform, width, 0.0);
        transform := ScaledBy(transform, -1.0, 1.0);
      case LeftMirrored | RightMirrored =>
        transform := TranslatedBy(transform, height, 0.0);
        transform := ScaledBy(transform, -1.0, 1.0);
      case _ =>
    }
  }

  /** An up image goes straight to the aspect check; any other needs a bitmap
      with a colour space, a context and the context's image, and without one
      of them the input comes back unchanged, aspect check skipped. */
  method WithCorrectedRotation(img: Image, desired: Option<Aspect>, backend: Backend) returns (r: Image)
    ensures r == CorrectedRotation(img, desired, backend)
    ensures img.orientation == Up || !Redrawable(img, backend) ==> r == img
    ensures img.orientation != Up && Redrawable(img, backend) ==>
              r.orientation == Up && r.scale == 1.0 &&
              r.bitmap.value.pixels == Redrawn(img.bitmap.value.pixels,
                                               Reorientation(img.orientation, img.size.width, img.size.height),
                                               DrawRect(img.orientation, img.size.width, img.size.height))
  {
    if img.orientation == Up {
      return RotatedIfNecessaryAsWritten(img, desired, backend);
    }
    var width := img.size.width;
    var height := img.size.height;
    var transform := CorrectionTransform(img.orientation, width, height);

    if !Drawable(img) {
      return img;
    }
    var cgImage := img.bitmap.value;
    if !backend.contextCreated {
      return img;
    }
    var drawRect := if IsSideways(img.orientation) then Rect(Zero, Size(height, width))
                    else Rect(Zero, Size(width, height));
    if !backend.contextImageMade {
      return img;
    }
    var made := Bitmap(Redrawn(cgImage.pixels, transform, drawRect), Trunc(width) as real, Trunc(height) as real,
                       cgImage.hasColorSpace);
    var correctedImage := FromBitmap(made, 1.0, Up);
    r := RotatedIfNecessaryAsWritten(correctedImage, desired, backend);
  }

  // ---------------------------------------------------------------------
  // scaled(to:) and cropped(with:)

  /** The target size of `scaled(to:)`. */
  function ScaledSize(size: Size, s: real): Size {
    Size(size.width * s, size.height * s)
  }

  /** `scaled(to:)`: drawn into a context of the scaled size at the image's
      scale; when UIKit gives no image back, the input. */
  function Scaled(img: Image, s: real, backend: Backend): (r: Image)
    ensures !backend.graphicsImageMade ==> r == img
    ensures backend.graphicsImageMade ==>
              r.size == Size(img.size.width * s, img.size.height * s) && r.scale == img.scale && r.orientation == Up
  {
    var target := ScaledSize(img.size, s);
    if backend.graphicsImageMade then
      Image(Some(Bitmap(Resampled(PixelsOf(img), target), target.width * img.scale, target.height * img.scale, true)),
            target, img.scale, Up)
    else img
  }

  /** The rectangle `cropped(with:)` cuts: the image's size less the insets. */
  function CropRect(size: Size, insets: Insets): Rect {
    Rect(Point(insets.left, insets.top),
         Size(size.width - insets.left - insets.right, size.height - insets.top - insets.bottom))
  }

  /** The crop rectangle's far corner is `bottomRight(in:)` of the image's own
      rectangle, and zero insets keep the whole image. */
  lemma CropRectCorners(size: Size, insets: Insets)
    requires size.width >= 0.0 && size.height >= 0.0
    requires insets.left + insets.right <= size.width && insets.top + insets.bottom <= size.height
    ensures var c := CropRect(size, insets);
            Point(MinX(c), MinY(c)) == TopLeft(insets) &&
            Point(MaxX(c), MaxY(c)) == BottomRightIn(insets, Rect(Zero, size))
    ensures CropRect(size, Insets(0.0, 0.0, 0.0, 0.0)) == Rect(Zero, size)
  {
  }

  /** `cropped(with:)`: without a CGImage, or when cropping gives nothing, the
      input; otherwise the cropped CGImage at the input's scale and orientation.
      The size of the cropped bitmap is not modelled. */
  function Cropped(img: Image, insets: Insets, backend: Backend): (r: Image)
    ensures img.bitmap.None? || !backend.croppingMade ==> r == img
    ensures img.bitmap.Some? && backend.croppingMade ==>
              r.scale == img.scale && r.orientation == img.orientation &&
              r.bitmap.Some? && r.bitmap.value.pixels == Clipped(img.bitmap.value.pixels, CropRect(img.size, insets))
  {
    if img.bitmap.None? then img
    else
      var rect := CropRect(img.size, insets);
      if !backend.croppingMade then img
      else
        var b := img.bitmap.value;
        FromBitmap(Bitmap(Clipped(b.pixels, rect), Width(rect), Height(rect), b.hasColorSpace), img.scale, img.orientation)
  }
}
