// Camera: the UIImagePickerController wrapper. For the camera source it
// stretches the 4:3 preview over the whole screen, installs the custom
// overlay, starts with the flash off and hides the system controls; a taken
// photo is handed to the crop editor.
module CameraPicker {
  import opened Wrappers
  import opened Geometry
  import opened Flash
  import opened Images
  import opened Bindings
  import opened Editor

  datatype SourceType = PhotoLibrary | CameraSource | SavedPhotosAlbum

  const CameraAspectRatio: real := 4.0 / 3.0

  /** The preview's height at the screen's width. */
  function CameraHeight(screen: Size): real {
    screen.width * CameraAspectRatio
  }

  function ViewfinderScale(screen: Size): real
    requires screen.width > 0.0
  {
    screen.height / CameraHeight(screen)
  }

  function ViewfinderOffset(screen: Size): real {
    (screen.height - CameraHeight(screen)) / 2.0
  }

  /** `scaleTransform.concatenating(translateTransform)`. */
  function ViewfinderTransform(screen: Size): Affine
    requires screen.width > 0.0
  {
    Concat(Scaling(1.0, ViewfinderScale(screen)), Translation(0.0, ViewfinderOffset(screen)))
  }

  /** The preview transform scales heights by screen height over preview
      height, then moves down by half the difference; widths are untouched. */
  lemma ViewfinderMapsPoints(screen: Size, p: Point)
    requires screen.width > 0.0
    ensures Apply(ViewfinderTransform(screen), p) ==
              Point(p.x, p.y * ViewfinderScale(screen) + ViewfinderOffset(screen))
  {
    ConcatApplies(Scaling(1.0, ViewfinderScale(screen)), Translation(0.0, ViewfinderOffset(screen)), p);
  }

  /** Scaled, the preview is exactly as tall as the screen; a screen taller
      than the preview gets a downward offset and an enlarging scale. */
  lemma ViewfinderFillsScreen(screen: Size)
    requires screen.width > 0.0
    ensures ViewfinderScale(screen) * CameraHeight(screen) == screen.height
    ensures CameraHeight(screen) == screen.width * 4.0 / 3.0
    ensures screen.height > CameraHeight(screen) ==> ViewfinderOffset(screen) > 0.0 && ViewfinderScale(screen) > 1.0
  {
    var h := CameraHeight(screen);
    assert h > 0.0;
    assert (screen.height / h) * h == screen.height;
    if screen.height > h {
      var q := screen.height / h;
      if q <= 1.0 {
        assert false;
      }
    }
  }

  class Camera<T> {
    const bindings: ImageBindings<T>
    const sourceType: SourceType
    var cameraViewTransform: Affine
    var hasOverlay: bool
    var flashMode: FlashMode
    var showsCameraControls: bool
    /** The crop editor on top of the camera overlay, once a photo was taken. */
    var editor: Option<EditingOverlay<T>>
    /** How many times the overlay's capture button asked for a picture. */
    var pictureRequests: nat

    /** `init(item:sourceType:selectedImage:)` with the main screen's size.
        The picker's own defaults stand for any other source. */
    constructor (bindings: ImageBindings<T>, sourceType: SourceType, screen: Size)
      requires sourceType == CameraSource ==> screen.width > 0.0
      ensures this.bindings == bindings && this.sourceType == sourceType
      ensures editor.None? && pictureRequests == 0
      ensures sourceType == CameraSource ==>
                cameraViewTransform == ViewfinderTransform(screen) && hasOverlay &&
                flashMode == Off && !showsCameraControls
      ensures sourceType != CameraSource ==>
                cameraViewTransform == Identity && !hasOverlay && flashMode == Auto && showsCameraControls
    {
      this.bindings := bindings;
      this.sourceType := sourceType;
      cameraViewTransform := Identity;
      hasOverlay := false;
      flashMode := Auto;
      showsCameraControls := true;
      editor := None;
      pictureRequests := 0;
      new;
      if sourceType == CameraSource {
        var cameraHeight := screen.width * CameraAspectRatio;
        var scale := screen.height / cameraHeight;
        var offset := (screen.height - cameraHeight) / 2.0;
        var scaleTransform := Scaling(1.0, scale);
        var translateTransform := Translation(0.0, offset);
        cameraViewTransform := Concat(scaleTransform, translateTransform);
        hasOverlay := true;
        flashMode := Off;
        showsCameraControls := false;
      }
    }

    /** The overlay's flash button: cycle the picker's mode and report it, or
      report off once the camera is gone. */
    method CycleFlash(alive: bool) returns (shown: FlashMode)
      modifies this`flashMode
      ensures alive ==> flashMode == Cycle(old(flashMode)) && shown == flashMode
      ensures !alive ==> flashMode == old(flashMode) && shown == Off
    {
      if alive {
        flashMode := Cycle(flashMode);
        shown := flashMode;
      } else {
        shown := Off;
      }
    }

    /** The overlay's capture button: `takePicture()`. */
    method Capture()
      modifies this`pictureRequests
      ensures pictureRequests == old(pictureRequests) + 1
    {
      pictureRequests := pictureRequests + 1;
    }

    /** `editImage(_:)`: a new crop editor over the picker's view, writing to
        the same bindings; nothing is reported yet. */
    method EditImage(image: Image, viewFrame: Rect, backend: Backend)
      modifies this`editor
      ensures editor.Some? && fresh(editor.value)
      ensures editor.value.bindings == bindings && editor.value.frame == viewFrame
      ensures editor.value.correctedImage == CorrectedRotation(image, Some(Portrait), backend)
      ensures editor.value.boxInsets == InitialInsets && editor.value.move.None?
    {
      var editingOverlay := new EditingOverlay(viewFrame, bindings, image, backend);
      editor := Some(editingOverlay);
    }

    /** The editor's retake button: the editor goes away and the camera shows again. */
    method Retake()
      modifies this`editor
      ensures editor.None?
    {
      editor := None;
    }
  }

  /** The camera starts with the flash off, showing the off symbol, and the
      flash button walks through auto, on and off before showing off again. */
  lemma FlashButtonSequence()
    ensures SystemImage(Off) == InitialFlashIcon
    ensures Cycle(Off) == Auto && Cycle(Auto) == On && Cycle(On) == Off
    ensures SystemImage(Cycle(Cycle(Cycle(Off)))) == InitialFlashIcon
  {
    CycleHasPeriodThree(Off);
  }
}
