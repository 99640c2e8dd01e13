// The SwiftUI bindings the camera flow writes its outcome to: the selected
// image (or the error that ended the flow) and the item whose presence keeps
// the picker on screen.
module Bindings {
  import opened Wrappers
  import opened Images
  import opened PickerErrors

  class ImageBindings<T> {
    var selectedImage: Option<Result<Image, ImagePickerError>>
    var item: Option<T>

    constructor (selectedImage: Option<Result<Image, ImagePickerError>>, item: Option<T>)
      ensures this.selectedImage == selectedImage && this.item == item
    {
      this.selectedImage := selectedImage;
      this.item := item;
    }
  }
}
