// ImagePicker: the camera / photo-library picker view and its coordinator,
// the UIImagePickerController delegate that writes the outcome to the
// `selectedImage` and `item` bindings.
module ImagePickers {
  import opened Wrappers
  import opened Geometry
  import opened Images
  import opened PickerErrors
  import opened Bindings
  import opened CameraPicker

  class Coordinator<T> {
    const bindings: ImageBindings<T>
    const camera: Camera<T>

    /** `ImagePicker.init(item:sourceType:selectedImage:)` and `makeCoordinator()`. */
    constructor (bindings: ImageBindings<T>, sourceType: SourceType, screen: Size)
      requires sourceType == CameraSource ==> screen.width > 0.0
      ensures this.bindings == bindings && camera.bindings == bindings && camera.sourceType == sourceType
      ensures fresh(camera) && camera.editor.None?
    {
      this.bindings := bindings;
      camera := new Camera(bindings, sourceType, screen);
    }

    /** `imagePickerController(_:didFinishPickingMediaWithInfo:)` with the
        info's original image, if it holds one. */
    method DidFinishPickingMedia(originalImage: Option<Image>, viewFrame: Rect, backend: Backend)
      modifies bindings, camera`editor
      ensures originalImage.None? ==>
                bindings.selectedImage == Some(Failure(NoImage)) && bindings.item == old(bindings.item) &&
                camera.editor == old(camera.editor)
      ensures originalImage.Some? && camera.sourceType != CameraSource ==>
                bindings.selectedImage == Some(Success(originalImage.value)) && bindings.item.None? &&
                camera.editor == old(camera.editor)
      ensures originalImage.Some? && camera.sourceType == CameraSource ==>
                unchanged(bindings) && camera.editor.Some? && fresh(camera.editor.value) &&
                camera.editor.value.correctedImage == CorrectedRotation(originalImage.value, Some(Portrait), backend)
    {
      if originalImage.None? {
        bindings.selectedImage := Some(Failure(NoImage));
        return;
      }
      if camera.sourceType != CameraSource {
        bindings.selectedImage := Some(Success(originalImage.value));
        bindings.item := None;
        return;
      }
      camera.EditImage(originalImage.value, viewFrame, backend);
    }

    /** `imagePickerControllerDidCancel(_:)`. */
    method DidCancel()
      modifies bindings
      ensures bindings.selectedImage == Some(Failure(Cancelled)) && bindings.item.None?
    {
      bindings.selectedImage := Some(Failure(Cancelled));
      bindings.item := None;
    }
  }
}
