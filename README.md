# ImagePicker, modelled in Dafny

ImagePicker is a SwiftUI package with two pickers.

- `ImagePicker` wraps `UIImagePickerController`. For the camera source it stretches the 4:3 preview over the screen. It installs its own overlay, with a flash button that cycles auto, on and off, and a capture button. Each photo taken opens a crop editor (`EditingOverlayView`). Its state is a crop box kept as insets from the view's edges. A pan gesture moves the box's top-left or bottom-right corner, never closer than 100 points to the other corner. Two shape layers (`MaskLayer`, `BoxLayer`) redraw the darkened surround and the outline after every corner change. The confirm button crops the upright photo to the box; the close button reports `cancelled`.
- `PHImagePicker` wraps `PHPickerViewController`. It checks photo-library authorisation, fetches the picked assets, and requests one image or more per asset (a degraded preview and the full image). `PHFetchResultProcessor` keeps one image per request identifier, preferring the full-quality one, and reports `selection`, `partialSuccess` (when some request failed) or `cancelled` (nothing picked). `PHImage.search(from:to:completion:)` runs the same processing over the assets created in a date range. `PHImage` and its `Metadata` are `Codable`.

The model follows the package's structure, one module per source file or group:

| module | file | models |
|---|---|---|
| `Geometry` | geometry.dfy | CGPoint `+`/`-`, CGRect (standardised min/max, `contains`, `insetBy`), the `UIEdgeInsets` corner accessors, CGAffineTransform |
| `Shapes` | shapes.dfy | a path as a list of rectangles, and its fill under the even-odd and non-zero rules |
| `MaskLayers`, `BoxLayers` | mask_layer.dfy, box_layer.dfy | the two layers as classes whose corner setters rebuild the path |
| `Images` | images.dfy | the `UIImage` extensions: orientation correction, quarter-turn rotation, scaling, cropping |
| `PickerErrors`, `Flash` | picker_errors.dfy, flash.dfy | `ImagePickerError` and the flash-mode extension |
| `Bindings` | bindings.dfy | the `selectedImage` / `item` bindings as a mutable object |
| `Editor` | editor.dfy | `EditingOverlayView`: the drag step functions, the box invariant, the crop, and the view as a class |
| `CameraPicker`, `ImagePickers` | camera.dfy, image_picker.dfy | `Camera` and the `ImagePicker` coordinator |
| `PHImages` | ph_image.dfy | `PHImage` / `Metadata` coding over a keyed container |
| `FetchProcessing` | fetch_processor.dfy | `PHFetchResultProcessor.process` |
| `LibraryPicker`, `LibrarySearch` | library_picker.dfy, library_search.dfy | `PHImagePicker` with its coordinator, and `PHImage.search` |

The model stands in for the outside world as follows.

- Real numbers stand for `CGFloat` and `Double`.
- A bitmap's pixels are a symbolic record of how they were produced (captured, redrawn, turned, resampled, clipped).
- Each foreign call that can fail (`CGContext(...)`, `makeImage()`, Core Image rendering, `UIGraphicsGetImageFromCurrentImageContext()`, `cropping(to:)`) is a flag of a `Backend` value.
- Whether a `[weak self]` closure still has its object is a boolean parameter `alive`.
- The photo library is a list of assets, or a map from local identifier to asset. Each asset lists the deliveries the image manager makes for it, in order.
- The authorisation status is a parameter.
- A client closure is an opaque token.
- Localisation is a function parameter.

## Model

| member | source | states |
|---|---|---|
| Geometry.PlusMinusCancel | Sources/ImagePicker/Extensions/CGPoint+Extensions.swift:13-19 | adding a point and then subtracting it gives back the original point |
| Geometry.InsetBy | Sources/ImagePicker/Overlays/EditingOverlayView.swift:122 | the inset rectangle exists exactly when its standardised size stays non-negative; each edge moves inwards by dx or dy (a negative inset grows the rectangle) |
| Geometry.WithTopLeft | Sources/ImagePicker/Extensions/UIEdgeInsets+Extensions.swift:17-20 | the `topLeft` setter sets left and top to the point and leaves right and bottom alone |
| Geometry.WithBottomRight | Sources/ImagePicker/Extensions/UIEdgeInsets+Extensions.swift:27-30 | the `bottomRight` setter sets right and bottom to the point and leaves left and top alone |
| Geometry.BottomRightIn | Sources/ImagePicker/Extensions/UIEdgeInsets+Extensions.swift:33-35 | the corner lies `right` short of the rectangle's width and `bottom` short of its height |
| Geometry.CornerGetAfterSet | Sources/ImagePicker/Extensions/UIEdgeInsets+Extensions.swift:13-31 | each corner's getter reads back what its setter wrote, and setting one corner does not change the other |
| Geometry.BottomRightRoundTrip | Sources/ImagePicker/Overlays/EditingOverlayView.swift:168 | storing a bottom-right corner as its distances from the far edges and reading it with `bottomRight(in:)` gives back the corner |
| Geometry.ConcatApplies | Sources/ImagePicker/Camera.swift:40 | `concatenating` applies the receiver first and then the argument |
| Geometry.TranslatedByActsFirst | Sources/ImagePicker/Extensions/UIImage+Extensions.swift:42-67 | `translatedBy(x:y:)` shifts a point by (x, y) before the transform built so far maps it |
| Geometry.RotatedByActsFirst | Sources/ImagePicker/Extensions/UIImage+Extensions.swift:43-53 | `rotated(by:)` of a whole number of quarter turns turns a point by that angle before the transform built so far maps it |
| Geometry.ScaledByActsFirst | Sources/ImagePicker/Extensions/UIImage+Extensions.swift:63-68 | `scaledBy(x:y:)` scales a point by (sx, sy) before the transform built so far maps it |
| Geometry.SpanningCorners | Sources/ImagePicker/Overlays/MaskLayer.swift:25-55 | the rectangle spanned by a rectangle's origin and its maximum corner is that rectangle again, when its size is non-negative |
| Shapes.EvenOddCutout | Sources/ImagePicker/Overlays/MaskLayer.swift:36-52 | under even-odd, a two-rectangle path fills the points in exactly one of the rectangles; when the hole lies inside the outer rectangle, even-odd fills the outer one less the hole and non-zero fills all of the outer one |
| MaskLayers.MaskDimsOutsideBox | Sources/ImagePicker/Overlays/MaskLayer.swift:45-55 | the mask is opaque exactly on the layer's bounds outside the crop box, so the dimming covers all of the view except the box |
| MaskLayers.MaskLayer.constructor | Sources/ImagePicker/Overlays/MaskLayer.swift:25-39 | the corners are the initial rectangle's origin and maximum corner; the colours are clear and black with the even-odd rule; the path already describes the corners |
| MaskLayers.MaskLayer.SetTopLeft | Sources/ImagePicker/Overlays/MaskLayer.swift:13-17 | the corner takes the new value, the other corner stays, and the path is rebuilt to match |
| MaskLayers.MaskLayer.SetBottomRight | Sources/ImagePicker/Overlays/MaskLayer.swift:18-22 | the corner takes the new value, the other corner stays, and the path is rebuilt to match |
| MaskLayers.MaskLayer.Update | Sources/ImagePicker/Overlays/MaskLayer.swift:45-55 | the path becomes the layer's bounds followed by the rectangle spanned by the corners |
| BoxLayers.BoxLayer.constructor | Sources/ImagePicker/Overlays/BoxLayer.swift:25-40 | the corners are the initial rectangle's corners; the colours are clear, light grey and clear with a line width of 1; for a rectangle of non-negative size the path is that rectangle |
| BoxLayers.BoxLayer.SetTopLeft | Sources/ImagePicker/Overlays/BoxLayer.swift:13-17 | the corner takes the new value, the other corner stays, and the outline is rebuilt |
| BoxLayers.BoxLayer.SetBottomRight | Sources/ImagePicker/Overlays/BoxLayer.swift:18-22 | the corner takes the new value, the other corner stays, and the outline is rebuilt |
| BoxLayers.BoxLayer.Update | Sources/ImagePicker/Overlays/BoxLayer.swift:46-49 | the path becomes the rectangle spanned by the corners |
| Images.CGFromRaw | Sources/ImagePicker/Extensions/UIImage+Extensions.swift:105 | `CGImagePropertyOrientation(rawValue:)` is defined exactly on 1 to 8 |
| Images.FromBitmap | Sources/ImagePicker/Extensions/UIImage+Extensions.swift:98 | wrapping a CGImage keeps the bitmap, the scale and the orientation asked for; the size in points is the pixel size over the scale, with the sides swapped for the sideways orientations |
| Images.RotatedWith | Sources/ImagePicker/Extensions/UIImage+Extensions.swift:103-120 | `rotated(by:)` after the orientation conversion: with no property orientation, no CGImage or no Core Image render the input comes back; otherwise an up image at scale 1 whose pixels are the oriented CGImage turned by the angle, with the pixel sides swapped exactly when one of the orientation and the odd quarter turn is sideways |
| Images.RotatedAsWritten | Sources/ImagePicker/Extensions/UIImage+Extensions.swift:103-107 | as written, an up image comes back unchanged, and rightMirrored is the one orientation converted with its own meaning |
| Images.Rotated | Sources/ImagePicker/Extensions/UIImage+Extensions.swift:103-120 | with the conversion done by meaning: no CGImage or no render gives the input back; otherwise an up image at scale 1, sized by its pixels, with the upright pixels turned and the sides swapped as the orientation and the turn require |
| Images.RotatedIfNecessaryAsWritten | Sources/ImagePicker/Extensions/UIImage+Extensions.swift:20-29 | as written, an image with the desired aspect, and every up image, comes back unchanged |
| Images.RotatedIfNecessary | Sources/ImagePicker/Extensions/UIImage+Extensions.swift:20-29 | with the conversion done by meaning: an image that already has the desired aspect (or has no aspect asked for) comes back as it was; without a CGImage or a render the wrong-aspect image comes back too; an up image of the wrong aspect, sized by its pixels, comes back up with its sides swapped and in the desired aspect |
| Images.AsWrittenNeverRotatesUp | Sources/ImagePicker/Extensions/UIImage+Extensions.swift:103-107 | as written, an up image's raw value 0 has no property orientation, so `rotated(by:)` and `rotatedIfNecessary` give every up image back untouched |
| Images.AsWrittenConversionMisreads | Sources/ImagePicker/Extensions/UIImage+Extensions.swift:105 | as written, the raw-value conversion gives the orientation of the same meaning for rightMirrored only |
| Images.LandscapePhotoStaysLandscape | Sources/ImagePicker/Extensions/UIImage+Extensions.swift:20-33 | a 400 x 300 up photo asked to be portrait stays 400 x 300 as written, and becomes 300 x 400 when corrected |
| Images.ReorientationFillsCanvas | Sources/ImagePicker/Extensions/UIImage+Extensions.swift:40-92 | the correction transform maps every point of the rectangle the CGImage is drawn in (h x w for sideways orientations) onto the w x h canvas |
| Images.ReorientationIsRigid | Sources/ImagePicker/Extensions/UIImage+Extensions.swift:40-73 | the correction is a rotation (determinant 1) for the plain orientations and a reflection (determinant -1) for the mirrored ones |
| Images.Upright | Sources/ImagePicker/Extensions/UIImage+Extensions.swift:75-98 | the redrawn image is oriented up at scale 1, with the CGImage drawn through the correction transform into the drawing rectangle, a canvas of Int(width) x Int(height) pixels with the source's colour space, and that canvas as its size in points |
| Images.Trunc | Sources/ImagePicker/Extensions/UIImage+Extensions.swift:78 | `Int(_:)` truncates toward zero: the result is at most one away from the input and never further from zero |
| Images.CorrectedRotation | Sources/ImagePicker/Extensions/UIImage+Extensions.swift:18-101 | as written: an up image comes back unchanged, a non-up image that cannot be redrawn comes back unchanged, and any other comes back as the upright redraw and is never turned |
| Images.CorrectedRotationIntended | Sources/ImagePicker/Extensions/UIImage+Extensions.swift:18-101 | with the conversion done by meaning: a non-up image that cannot be redrawn comes back unchanged; whenever the redraw (if needed) and Core Image work, the result is up and has the desired aspect |
| Images.SidewaysPhotoIsOnlyRedrawn | Sources/ImagePicker/Extensions/UIImage+Extensions.swift:31-100 | a 400 x 300 point photo oriented right and asked to be portrait stays 400 x 300 as written, and becomes 300 x 400 with the conversion done by meaning |
| Images.CorrectionTransform | Sources/ImagePicker/Extensions/UIImage+Extensions.swift:35-73 | the two switches build, step by step, the closed-form correction for each orientation |
| Images.WithCorrectedRotation | Sources/ImagePicker/Extensions/UIImage+Extensions.swift:18-101 | the method returns `CorrectedRotation`: an up image, or one whose CGImage, colour space, context or context image is missing, comes back as it was; otherwise an up image at scale 1 holding the CGImage redrawn through the correction transform |
| Images.Scaled | Sources/ImagePicker/Extensions/UIImage+Extensions.swift:122-134 | when UIKit gives an image back it has the size times the factor, the same scale, and is up; otherwise the input comes back |
| Images.CropRectCorners | Sources/ImagePicker/Extensions/UIImage+Extensions.swift:142 | the crop rectangle runs from the insets' top-left to `bottomRight(in:)` of the image's rectangle, and zero insets keep the whole image |
| Images.Cropped | Sources/ImagePicker/Extensions/UIImage+Extensions.swift:136-149 | without a CGImage or a cropped bitmap the input comes back; otherwise the bitmap clipped to the crop rectangle, at the input's scale and orientation |
| PickerErrors.LocalizedKey | Sources/ImagePicker/ImagePickerError.swift:16-18 | the key is the prefix `ImagePickerError_` followed by the case's raw value |
| PickerErrors.LocalizedKeysDistinct | Sources/ImagePicker/ImagePickerError.swift:11-18 | different errors have different localisation keys |
| PickerErrors.ErrorDescription | Sources/ImagePicker/ImagePickerError.swift:20-27 | there is no description exactly for `cancelled`; the others give their key localised |
| Flash.CycleHasPeriodThree | Sources/ImagePicker/Extensions/UIImagePickerController+Extensions.swift:13-19 | cycling three times returns to the start; the known modes go through all of auto, on and off; an unknown mode stays put |
| Flash.IconsTellModesApart | Sources/ImagePicker/Extensions/UIImagePickerController+Extensions.swift:22-29 | the known modes have three different symbols, and off's symbol is the one the flash button starts with |
| Bindings.ImageBindings.constructor | Sources/ImagePicker/ImagePicker.swift:12-13 | the two bindings start with the given values |
| Editor.HitZoneContains | Sources/ImagePicker/Overlays/EditingOverlayView.swift:122-124 | a touch hits a corner's zone exactly when it is within 70 points of it on each axis, counting the near edges and not the far ones |
| Editor.BeganHitTest | Sources/ImagePicker/Overlays/EditingOverlayView.swift:120-136 | a touch begins a top-left drag when it hits the top-left zone (which is checked first); else a bottom-right drag when it hits that zone; the offset is the touch less the corner; a touch in neither zone keeps the recorded move |
| Editor.TopLeftClamp | Sources/ImagePicker/Overlays/EditingOverlayView.swift:147-151 | a dragged top-left corner stays between 0 and 100 points short of the bottom-right corner on each axis, and follows the finger exactly inside that range |
| Editor.BottomRightClamp | Sources/ImagePicker/Overlays/EditingOverlayView.swift:160-163 | a dragged bottom-right corner stays between 100 points past the top-left corner and the view's size on each axis, and follows the finger exactly inside that range |
| Editor.DragTouchesOneCorner | Sources/ImagePicker/Overlays/EditingOverlayView.swift:145-168 | a top-left drag changes only left and top; a bottom-right drag changes only right and bottom, and `bottomRight(in:)` then reads the dragged corner back |
| Editor.DragPreservesBox | Sources/ImagePicker/Overlays/EditingOverlayView.swift:115-178 | every pan event keeps the crop box inside the view (all insets non-negative) and at least 100 x 100 points |
| Editor.InitialBoxOk | Sources/ImagePicker/Overlays/EditingOverlayView.swift:14-15 | the initial insets (90, 40, 40, 40) give a valid box exactly on views of at least 180 x 230 points |
| Editor.IdleEventsKeepBox | Sources/ImagePicker/Overlays/EditingOverlayView.swift:138-142 | a change without a drag, and every non-change event, leaves the box alone; every state other than began and changed ends the drag |
| Editor.StillDragKeepsBox | Sources/ImagePicker/Overlays/EditingOverlayView.swift:122-163 | a drag that begins and changes at the same touch leaves the box where it is: the offset (touch less corner) puts the corner back in place and the clamps keep it there |
| Editor.CropMatchesBox | Sources/ImagePicker/Overlays/EditingOverlayView.swift:199-212 | for an image at the view's aspect, the rectangle cropped is the on-screen box divided by the height ratio, and lies inside the image when the box is valid |
| Editor.ProcessImage | Sources/ImagePicker/Overlays/EditingOverlayView.swift:199-212 | a degenerate ratio, no CGImage or a failed `cropping(to:)` gives the image back; otherwise the pixels are clipped to the box's insets divided by the view-to-image height ratio, at the image's scale and orientation |
| Editor.GestureAddsItsRotation | Sources/ImagePicker/Overlays/EditingOverlayView.swift:181-196 | a whole rotation gesture (began, any number of changes, ended) adds exactly its final rotation to the accumulated one |
| Editor.ChangesKeepRotation | Sources/ImagePicker/Overlays/EditingOverlayView.swift:188-192 | change events never alter the accumulated rotation |
| Editor.EditingOverlay.constructor | Sources/ImagePicker/Overlays/EditingOverlayView.swift:32-66 | the photo goes through `withCorrectedRotation(desiredAspect: .portrait)` as written (redrawn upright, never turned); the box starts at the initial insets with no drag, no accumulated rotation and the image view untransformed; layers and handles agree with the box on views of at least 80 x 130 points, and the box is valid on views of at least 180 x 230 points |
| Editor.EditingOverlay.Dragged | Sources/ImagePicker/Overlays/EditingOverlayView.swift:115-178 | the insets and the move become the step functions' values; the layers, handles and insets keep agreeing; a valid box stays valid; an idle event leaves the layers unchanged |
| Editor.EditingOverlay.Rotate | Sources/ImagePicker/Overlays/EditingOverlayView.swift:181-196 | a change shows the gesture's rotation plus the accumulated one; the other states leave the shown angle, and every state but began and changed adds the rotation to the accumulation |
| Editor.EditingOverlay.Close | Sources/ImagePicker/Overlays/EditingOverlayView.swift:81-84 | the outcome becomes `cancelled` and the item is cleared |
| Editor.EditingOverlay.Confirm | Sources/ImagePicker/Overlays/EditingOverlayView.swift:90-104 | with the view gone the outcome is `noSelf` and the item stays; otherwise the editor's photo processed to the box, and the item is cleared |
| CameraPicker.ViewfinderMapsPoints | Sources/ImagePicker/Camera.swift:33-42 | the preview transform keeps x, and maps y to y times the scale plus the offset |
| CameraPicker.ViewfinderFillsScreen | Sources/ImagePicker/Camera.swift:33-36 | the scaled preview is exactly as tall as the screen; a screen taller than 4:3 gets a downward offset and an enlarging scale |
| CameraPicker.Camera.constructor | Sources/ImagePicker/Camera.swift:19-55 | for the camera: the viewfinder transform, the overlay, the flash off and the system controls hidden; for other sources the picker's defaults |
| CameraPicker.Camera.CycleFlash | Sources/ImagePicker/Camera.swift:45-47 | with the camera alive, the mode advances one step and is shown; otherwise nothing changes and off is shown |
| CameraPicker.Camera.Capture | Sources/ImagePicker/Camera.swift:48-50 | one more picture is requested |
| CameraPicker.Camera.EditImage | Sources/ImagePicker/Camera.swift:61-82 | a new editor on the same bindings and the picker's frame, over the photo as `withCorrectedRotation(desiredAspect: .portrait)` gives it as written, with the initial box |
| CameraPicker.Camera.Retake | Sources/ImagePicker/Camera.swift:65-71 | the editor goes away |
| CameraPicker.FlashButtonSequence | Sources/ImagePicker/Overlays/CameraOverlayView.swift:30-32 | the flash button starts on off's symbol, and three presses walk through auto, on and off, back to off's symbol |
| ImagePickers.Coordinator.constructor | Sources/ImagePicker/ImagePicker.swift:18-22 | the picker's camera is built on the same bindings and source type, with no editor yet |
| ImagePickers.Coordinator.DidFinishPickingMedia | Sources/ImagePicker/ImagePicker.swift:47-60 | no original image gives `noImage` and keeps the item; a non-camera source reports the image and clears the item; the camera opens the editor on the photo as `withCorrectedRotation` gives it as written, and leaves the bindings alone |
| ImagePickers.Coordinator.DidCancel | Sources/ImagePicker/ImagePicker.swift:62-65 | the outcome becomes `cancelled` and the item is cleared |
| PHImages.MetadataEqualsIsEquality | Sources/ImagePicker/PHImage.swift:32-34 | the hand-written `==` on metadata holds exactly when location and creation date are equal |
| PHImages.EncodeMetadata | Sources/ImagePicker/PHImage.swift:54-60 | the creation-date key is present exactly when there is a date, the coordinate keys exactly when there is a location, and no other key is written |
| PHImages.Encode | Sources/ImagePicker/PHImage.swift:54-60 | the three `encodeIfPresent` calls build that container, and decoding it gives back the metadata |
| PHImages.DecodeIfPresent | Sources/ImagePicker/PHImage.swift:45-47 | an absent key or a null decodes to nil, a number decodes to its value, and any other value is a type mismatch on that key |
| PHImages.DecodeMetadata | Sources/ImagePicker/PHImage.swift:42-52 | a bad date is reported as a type mismatch on the date key; any failure is a type mismatch on one of the three keys; a success carries the decoded date, a location only when both coordinate keys hold those numbers, and no location when either key is absent |
| PHImages.MetadataRoundTrip | Sources/ImagePicker/PHImage.swift:42-60 | decoding the encoding of any metadata gives back the same metadata |
| PHImages.EmptyMetadataEncodesNothing | Sources/ImagePicker/PHImage.swift:30 | `Metadata.empty` encodes to an empty container, and an empty container decodes to it |
| PHImages.OneCoordinateGivesNoLocation | Sources/ImagePicker/PHImage.swift:46-51 | a container with only one of latitude and longitude decodes to no location, keeping the date |
| PHImages.EncodePHImage | Sources/ImagePicker/PHImage.swift:89-94 | the image container holds exactly the image-data and metadata keys, with the metadata encoded as above |
| PHImages.DecodePHImage | Sources/ImagePicker/PHImage.swift:78-87 | a missing image-data key is reported as not found, and data that is no image as a type mismatch |
| PHImages.PHImageRoundTrip | Sources/ImagePicker/PHImage.swift:78-94 | when the PNG data decodes to an image, decoding the encoding gives that image with the original metadata |
| PHImages.MissingPNGDoesNotDecode | Sources/ImagePicker/PHImage.swift:78-94 | an image without PNG data encodes a nil that decodes as value-not-found |
| FetchProcessing.CollectOne | Sources/ImagePicker/Helpers/PHFetchResultProcessor.swift:44-48 | a delivery adds one entry exactly when it has an info dictionary with an integer request id and an image; the entry is degraded exactly when the degraded key holds 1 |
| FetchProcessing.ErrorOf | Sources/ImagePicker/Helpers/PHFetchResultProcessor.swift:44-51 | an unidentified delivery sets no error and adds no entry; an identified one sets the error exactly when it adds no entry; a missing error text becomes "Unknown error" |
| FetchProcessing.HandleDelivery | Sources/ImagePicker/Helpers/PHFetchResultProcessor.swift:43-53 | the result handler appends the delivery's entry and replaces the error with the delivery's own, if it has one |
| FetchProcessing.RequestImage | Sources/ImagePicker/Helpers/PHFetchResultProcessor.swift:35-54 | one asset's requests leave the entries and the error as they are after all the deliveries so far and that asset's |
| FetchProcessing.EventsComeFromTheirAsset | Sources/ImagePicker/Helpers/PHFetchResultProcessor.swift:35-47 | every delivery of the batch carries the location and creation date of the asset it was requested for |
| FetchProcessing.AppendEvent | Sources/ImagePicker/Helpers/PHFetchResultProcessor.swift:43-53 | one more delivery appends its entry to the results and, if it failed, replaces the error |
| FetchProcessing.AppendAsset | Sources/ImagePicker/Helpers/PHFetchResultProcessor.swift:35-37 | the deliveries of one more asset follow those of the assets before it |
| FetchProcessing.UnidentifiedIgnored | Sources/ImagePicker/Helpers/PHFetchResultProcessor.swift:44 | a delivery without an info dictionary or request id changes neither results nor error |
| FetchProcessing.LastErrorWins | Sources/ImagePicker/Helpers/PHFetchResultProcessor.swift:49-50 | there is an error exactly when some delivery failed, and it is the last failure's message |
| FetchProcessing.CollectedEntries | Sources/ImagePicker/Helpers/PHFetchResultProcessor.swift:43-53 | every collected entry comes from one delivery, and every delivery with an image is collected |
| FetchProcessing.FirstFull | Sources/ImagePicker/Helpers/PHFetchResultProcessor.swift:59 | the first full-quality entry for an id: an entry of the list with that id, not degraded, with no full-quality entry for the id before it; there is none exactly when the list has no full-quality entry for it |
| FetchProcessing.FirstWith | Sources/ImagePicker/Helpers/PHFetchResultProcessor.swift:56-68 | the first entry with an id: none exactly when no entry has the id, and otherwise the entry at the id's first position, the one kept for a degraded id with no full-quality version |
| FetchProcessing.FirstIndex | Sources/ImagePicker/Helpers/PHFetchResultProcessor.swift:57 | the position where an id first appears: inside the list, holding the id, with no earlier entry holding it |
| FetchProcessing.KeepBest | Sources/ImagePicker/Helpers/PHFetchResultProcessor.swift:56-68 | the `reduce(into:)` loop computes the deduplicated list |
| FetchProcessing.ReduceMatchesReference | Sources/ImagePicker/Helpers/PHFetchResultProcessor.swift:56-68 | after any prefix, the reduction lists the ids in order of first appearance, each with its chosen entry |
| FetchProcessing.DedupUniqueIds | Sources/ImagePicker/Helpers/PHFetchResultProcessor.swift:57 | the kept images have pairwise different request ids |
| FetchProcessing.DedupKeepsEveryId | Sources/ImagePicker/Helpers/PHFetchResultProcessor.swift:56-68 | an id is kept exactly when some delivered image has it |
| FetchProcessing.DedupFirstAppearanceOrder | Sources/ImagePicker/Helpers/PHFetchResultProcessor.swift:56-68 | kept images appear in the order their ids first appeared |
| FetchProcessing.DedupPrefersFullQuality | Sources/ImagePicker/Helpers/PHFetchResultProcessor.swift:58-66 | every kept image was delivered; when an id has a full-quality image, the first one is kept |
| FetchProcessing.OutcomeClassification | Sources/ImagePicker/Helpers/PHFetchResultProcessor.swift:70-74 | the outcome is a selection or a partial success, and a partial success exactly when some delivery failed, carrying the last error |
| FetchProcessing.Process | Sources/ImagePicker/Helpers/PHFetchResultProcessor.swift:21-75 | no assets report `cancelled` only; otherwise `processing` and then the outcome over all the assets' deliveries |
| LibraryPicker.CanAccessPhotosExactly | Sources/ImagePicker/PHImagePicker.swift:138-147 | only authorised and limited give access; every other status, including unknown future ones, does not |
| LibraryPicker.NewPicker | Sources/ImagePicker/PHImagePicker.swift:24-34 | a new picker has a selection limit of 5, the screen size as target size and no authorisation handler |
| LibraryPicker.WithSelectionLimit | Sources/ImagePicker/PHImagePicker.swift:116-120 | the copy has the new limit and the other settings unchanged |
| LibraryPicker.WithTargetSize | Sources/ImagePicker/PHImagePicker.swift:122-126 | the copy has the new target size and the other settings unchanged |
| LibraryPicker.WithAuthorizationResponse | Sources/ImagePicker/PHImagePicker.swift:128-132 | the copy has the new handler and the other settings unchanged |
| LibraryPicker.BuildersCommute | Sources/ImagePicker/PHImagePicker.swift:116-132 | the builders commute with each other, and a later call of the same builder overrides an earlier one |
| LibraryPicker.LibraryBindings.constructor | Sources/ImagePicker/PHImagePicker.swift:21-22 | the two bindings start with the given values |
| LibraryPicker.Identifiers | Sources/ImagePicker/PHImagePicker.swift:96 | the identifiers are exactly those the results carry, no more of them than results |
| LibraryPicker.FetchAssets | Sources/ImagePicker/PHImagePicker.swift:97 | at most one asset per identifier, none when the library knows none of them, and exactly the assets the library holds for the identifiers |
| LibraryPicker.NothingPickedIsCancelled | Sources/ImagePicker/PHImagePicker.swift:94-99 | results that carry no identifier the library knows fetch no assets |
| LibraryPicker.Coordinator.constructor | Sources/ImagePicker/PHImagePicker.swift:55-86 | a not-determined status waits for the answer with nothing reported; any other is reported to the handler at once, and the picker is dismissed without access; the configuration takes the selection limit |
| LibraryPicker.Coordinator.CheckAccess | Sources/ImagePicker/PHImagePicker.swift:67-72 | the status goes to the handler if there is one, and the picker is dismissed unless the status gives access |
| LibraryPicker.Coordinator.AuthorizationAnswered | Sources/ImagePicker/PHImagePicker.swift:59-66 | the answer ends the wait and is checked like a known status |
| LibraryPicker.Coordinator.Receive | Sources/ImagePicker/PHImagePicker.swift:99-107 | every result but `processing` is stored and dismisses the picker, while the coordinator is alive |
| LibraryPicker.Coordinator.DidFinishPicking | Sources/ImagePicker/PHImagePicker.swift:94-109 | the picker is dismissed holding `cancelled` when no asset was fetched and the processed outcome otherwise; nothing changes once the coordinator is gone |
| LibrarySearch.Decide | Sources/ImagePicker/PHImage+Search.swift:18-25 | the search runs exactly when the status gives access, and traps exactly on a status unknown to the code |
| LibrarySearch.Matching | Sources/ImagePicker/PHImage+Search.swift:32-38 | an asset is fetched exactly when it is in the library and has a creation date between the two dates inclusive |
| LibrarySearch.Completion | Sources/ImagePicker/PHImage+Search.swift:44-53 | `processing` is not reported; both successes report their images, dropping the partial error; `cancelled` reports cancelled |
| LibrarySearch.Search | Sources/ImagePicker/PHImage+Search.swift:14-56 | an unknown status traps; no access completes once with access denied; access completes exactly once, with cancelled when nothing matched and the processed images otherwise |

## Left out

- UIKit layout, views that only wrap others, animations, button placement (`Overlays.swift`, `UIView+Extensions.swift`, `pinEdgesToSuperView`, the `layoutIfNeeded` animation) and the camera overlay's view tree beyond its two buttons: none of them has behaviour to state.
- The `appeared` closure of `PHImagePicker`, `makeUIViewController` and `updateUIViewController`: they hand objects to SwiftUI and compute nothing.
- The `DispatchQueue` hops in `search` and the asynchronous authorisation request: the model runs each callback in order, so the ordering across threads is not modelled.
- `Metadata.data` (JSON encoding of the metadata) and the synthesized `Equatable` of `PHImage`: the model codes into a keyed container rather than JSON bytes, and illustrates equality on metadata only.
- Pixel content: what Core Graphics, Core Image and UIKit draw is a symbolic record, and each foreign call's success is an input.
- Floating-point rounding, infinities and NaN: sizes are real numbers. `Editor.ProcessImage` therefore returns its input when the view or the image has zero height, where the source divides by zero.
- Editor.CropMatchesBox: requires the image to have the view's aspect. The source divides the horizontal insets by the height ratio too, so for any other aspect the crop does not match the on-screen box.
- The order in which `PHAsset.fetchAssets` returns assets: modelled as identifier order, or as library order for the date search.
- `PHImageErrorKey`'s value in the info dictionary is an `NSError`, so `as? String` is nil in practice and the error text falls back to "Unknown error". The model takes the text as part of each delivery's info.
- The rotation gesture is never registered: its recogniser lines are commented out. `rotate(_:)` is modelled anyway, and `imageView.transform` is modelled as its rotation angle only.
- CameraPicker.Camera.constructor: requires a positive screen width for the camera source, because the source divides by the preview height; a zero-width screen is not modelled.
- CameraPicker.Camera.EditImage: only the latest editor overlay is tracked, and the retake animation is left out; the source stacks overlays as subviews.
- `rotated(by:)` is modelled for whole quarter turns only, because the package only ever passes pi/2; Core Image's turn by any other angle, and the extent it then renders, are not modelled.
- The localisation table (`Localizing.swift`): `localized` is a function parameter.

## Findings

| source | as written | input that shows it | evidently intended | confidence | as-written member | corrected member |
|---|---|---|---|---|---|---|
| Sources/ImagePicker/Extensions/UIImage+Extensions.swift:105 | `rotated(by:)` passes `UIImage.Orientation.rawValue` (up = 0 ... rightMirrored = 7) to `CGImagePropertyOrientation(rawValue:)`, whose numbering runs up = 1 ... left = 8. For `.up`, raw value 0 gives nil and the image comes back unrotated; only rightMirrored maps to the orientation of the same meaning | a 400 x 300 point photo oriented up, with `desiredAspect: .portrait`: `rotatedIfNecessary` returns it at 400 x 300, still landscape. Because `withCorrectedRotation` only hands up images to `rotatedIfNecessary`, no photo is ever turned: the same photo oriented right is redrawn upright at 400 x 300 | convert by meaning (up to up, down to down, ...), so the photo is turned to 300 x 400 | not executed | Images.CorrectedRotation (Images.RotatedIfNecessaryAsWritten, Images.RotatedAsWritten, Images.AsWrittenNeverRotatesUp, Images.LandscapePhotoStaysLandscape, Images.SidewaysPhotoIsOnlyRedrawn) | Images.CorrectedRotationIntended (Images.RotatedIfNecessary, Images.Rotated) |

The editor, the camera and the `ImagePicker` coordinator use `Images.CorrectedRotation`, as the program does. `Images.CorrectedRotationIntended` is the same function with the conversion done by meaning, and its contract states that it delivers the desired aspect.
