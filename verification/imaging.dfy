/** The image-upload path of the main view: data URLs, the face-crop rectangle,
    and what happens to an uploaded picture once faces have been detected in it. */
module Imaging {
  import opened Wrappers
  import opened Text

  // ---------------------------------------------------------------------------
  // Data URLs
  // ---------------------------------------------------------------------------

  /** A picture held by the form: its data URL, the base64 payload taken from
      that URL (absent when the URL has no comma, as JavaScript's `undefined`),
      and its MIME type. */
  datatype ImageState = ImageState(url: string, data: Option<string>, mimeType: string)

  /** `data:<mime>;base64,<payload>` */
  function BuildDataUrl(mimeType: string, payload: string): (url: string)
    ensures |url| == |"data:"| + |mimeType| + |";base64,"| + |payload|
    ensures IsSuffix(payload, url)
  {
    "data:" + mimeType + ";base64," + payload
  }

  /** `url.split(',')[1]`: the text between the first and the second comma (or
      the end), and nothing when there is no comma at all. */
  function ExtractPayload(url: string): (payload: Option<string>)
    ensures payload.Some? <==> ',' in url
    ensures payload.Some? ==> ',' !in payload.value
  {
    var parts := Split(url, ',');
    SplitCount(url, ',');
    if |parts| >= 2 then Some(parts[1]) else None
  }

  /** The picture the form keeps for a data URL produced by a file reader or a canvas. */
  function ImageFromDataUrl(url: string, mimeType: string): ImageState {
    ImageState(url, ExtractPayload(url), mimeType)
  }

  /** Extracting from a built data URL recovers the payload exactly when the
      payload has no comma (the MIME type must not have one either). */
  lemma DataUrlRoundTrip(mimeType: string, payload: string)
    requires ',' !in mimeType
    ensures ExtractPayload(BuildDataUrl(mimeType, payload)) == Some(payload) <==> ',' !in payload
  {
    var head := "data:" + mimeType + ";base64";
    assert ',' !in head;
    assert BuildDataUrl(mimeType, payload) == head + [','] + payload;
    SplitAppend(head, payload, ',');
    SplitWithoutSeparator(head, ',');
    if ',' in payload {
      SplitWithSeparator(payload, ',');
    } else {
      SplitWithoutSeparator(payload, ',');
    }
  }

  // ---------------------------------------------------------------------------
  // The face-crop rectangle
  // ---------------------------------------------------------------------------

  /** A face bounding box as the detector reports it, in image pixels. */
  datatype Box = Box(x: real, y: real, width: real, height: real)

  /** The rectangle of the source image that is copied into the cropped picture. */
  datatype CropRect = CropRect(x: real, y: real, width: real, height: real)

  /** The padding used when a face is cropped: half the face size on each side. */
  const DefaultPadding: real := 0.5

  function Max(a: real, b: real): real { if a >= b then a else b }
  function Min(a: real, b: real): real { if a <= b then a else b }

  /** One axis of the crop: the face starts at `pos` and spans `size`; the
      padded span starts `size * padding` earlier, clamped at 0, keeps its full
      padded length, and is then cut at the image edge `limit`. Returns the
      start and the length of the copied span. */
  function CropSpan(pos: real, size: real, limit: real, padding: real): (span: (real, real))
    ensures span.0 >= 0.0
    ensures span.0 + span.1 <= limit
    ensures span.1 <= size * (1.0 + 2.0 * padding)
    ensures span.1 == size * (1.0 + 2.0 * padding) <==> span.0 + size * (1.0 + 2.0 * padding) <= limit
    ensures pos - size * padding >= 0.0 ==> span.0 == pos - size * padding
    ensures pos - size * padding < 0.0 ==> span.0 == 0.0 && span.1 == Min(size * (1.0 + 2.0 * padding), limit)
    ensures 0.0 <= pos <= limit && size >= 0.0 && padding >= 0.0 ==> span.1 >= 0.0
    ensures 0.0 <= pos && size >= 0.0 && padding >= 0.0 && pos + size <= limit ==>
              span.0 <= pos && pos + size <= span.0 + span.1
  {
    var pad := size * padding;
    var start := Max(0.0, pos - pad);
    var padded := size + pad * 2.0;
    (start, Min(padded, limit - start))
  }

  /** The arithmetic of `cropImageToFace`: the padded face box, moved inside the
      image at the top-left and cut at the bottom-right. */
  function CropToFace(imageWidth: real, imageHeight: real, box: Box, padding: real): (r: CropRect)
    ensures r.x >= 0.0 && r.y >= 0.0
    ensures r.x + r.width <= imageWidth && r.y + r.height <= imageHeight
    ensures r.width <= box.width * (1.0 + 2.0 * padding)
    ensures r.height <= box.height * (1.0 + 2.0 * padding)
  {
    var (x, w) := CropSpan(box.x, box.width, imageWidth, padding);
    var (y, h) := CropSpan(box.y, box.height, imageHeight, padding);
    CropRect(x, y, w, h)
  }

  /** A face box lying inside the image. */
  predicate BoxInImage(imageWidth: real, imageHeight: real, box: Box) {
    && 0.0 <= box.x <= imageWidth && 0.0 <= box.y <= imageHeight
    && box.width >= 0.0 && box.height >= 0.0
  }

  /** For a face box inside the image and non-negative padding, the crop is a
      genuine rectangle inside the image that contains the whole face (when the
      face itself fits), is as large as the padded box wherever that fits, and
      is not narrowed when its left or top edge is clamped to 0. */
  lemma CropStaysInImage(imageWidth: real, imageHeight: real, box: Box, padding: real)
    requires BoxInImage(imageWidth, imageHeight, box) && padding >= 0.0
    ensures var r := CropToFace(imageWidth, imageHeight, box, padding);
      && 0.0 <= r.x && 0.0 <= r.width && r.x + r.width <= imageWidth
      && 0.0 <= r.y && 0.0 <= r.height && r.y + r.height <= imageHeight
      && (r.width == box.width * (1.0 + 2.0 * padding) <==> r.x + box.width * (1.0 + 2.0 * padding) <= imageWidth)
      && (r.height == box.height * (1.0 + 2.0 * padding) <==> r.y + box.height * (1.0 + 2.0 * padding) <= imageHeight)
      && (box.x < box.width * padding ==> r.x == 0.0 && r.width == Min(box.width * (1.0 + 2.0 * padding), imageWidth))
      && (box.y < box.height * padding ==> r.y == 0.0 && r.height == Min(box.height * (1.0 + 2.0 * padding), imageHeight))
      && (box.x + box.width <= imageWidth ==> r.x <= box.x && box.x + box.width <= r.x + r.width)
      && (box.y + box.height <= imageHeight ==> r.y <= box.y && box.y + box.height <= r.y + r.height)
  {
  }

  // ---------------------------------------------------------------------------
  // Uploading a picture
  // ---------------------------------------------------------------------------

  /** The two pictures of the form. */
  datatype Slot = UserSlot | TheirSlot

  function SlotLabel(slot: Slot): string {
    match slot
    case UserSlot => "Your Picture"
    case TheirSlot => "Their Picture"
  }

  /** A picture with several faces waiting for the user to pick one. */
  datatype FaceSelection = FaceSelection(image: ImageState, faces: seq<Box>, target: Slot, slotName: string)

  /** The part of the main view's state the upload path touches. */
  datatype UploadForm = UploadForm(
    userImage: Option<ImageState>,
    theirImage: Option<ImageState>,
    error: Option<string>,
    selection: Option<FaceSelection>)
  {
    function Get(slot: Slot): Option<ImageState> {
      match slot
      case UserSlot => userImage
      case TheirSlot => theirImage
    }

    /** The form after the slot's setter has been called with `image`. */
    function Set(slot: Slot, image: ImageState): (f: UploadForm)
      ensures f.Get(slot) == Some(image)
      ensures forall other :: other != slot ==> f.Get(other) == Get(other)
      ensures f.error == error && f.selection == selection
    {
      match slot
      case UserSlot => this.(userImage := Some(image))
      case TheirSlot => this.(theirImage := Some(image))
    }
  }

  function NoFaceMessage(slotName: string): string {
    "No face was detected in the image for \"" + slotName
      + "\". Please upload a clearer, front-facing photo."
  }

  const LoadFailedMessage := "Could not load the selected image file."

  /** What the browser reports for a picked file: no face-detection support, a
      file that does not load as an image, a detector that throws, or the face
      boxes found. */
  datatype Detection = NoDetector | LoadFailed | DetectorFailed | Detected(faces: seq<Box>)

  /** What to do with a picture once its faces are known. */
  datatype FaceAction =
    | KeepOriginal(error: string)
    | CropTo(rect: CropRect)
    | AskToChoose(selection: FaceSelection)

  /** The face-count rule of the upload handler: no face keeps the picture with
      an error, exactly one face crops to it, more than one asks the user. */
  function DecideOnFaces(faces: seq<Box>, original: ImageState, slot: Slot,
                         imageWidth: real, imageHeight: real): (a: FaceAction)
    ensures a.KeepOriginal? <==> |faces| == 0
    ensures a.CropTo? <==> |faces| == 1
    ensures a.AskToChoose? <==> |faces| > 1
    ensures a.KeepOriginal? ==> a.error == NoFaceMessage(SlotLabel(slot))
    ensures a.CropTo? ==> a.rect == CropToFace(imageWidth, imageHeight, faces[0], DefaultPadding)
    ensures a.AskToChoose? ==>
              a.selection == FaceSelection(original, faces, slot, SlotLabel(slot))
  {
    if |faces| == 0 then
      KeepOriginal(NoFaceMessage(SlotLabel(slot)))
    else if |faces| > 1 then
      AskToChoose(FaceSelection(original, faces, slot, SlotLabel(slot)))
    else
      CropTo(CropToFace(imageWidth, imageHeight, faces[0], DefaultPadding))
  }

  /** The upload handler for one slot. `fileUrl` is the data URL the file reader
      produces for the file, `mimeType` the file's type, and `croppedUrl` the
      data URL the canvas produces for the crop (only used when exactly one
      face is found). Besides the new form, the result names the rectangle the
      canvas is asked to crop to, if any. */
  function HandleFileSelect(form: UploadForm, slot: Slot, detection: Detection,
                            fileUrl: string, mimeType: string,
                            imageWidth: real, imageHeight: real,
                            croppedUrl: string): (r: (UploadForm, Option<CropRect>))
    ensures forall other :: other != slot ==> r.0.Get(other) == form.Get(other)
    ensures detection.Detected? && |detection.faces| == 1 ==>
              r.1 == Some(CropToFace(imageWidth, imageHeight, detection.faces[0], DefaultPadding))
    ensures !(detection.Detected? && |detection.faces| == 1) ==> r.1.None?
    ensures detection.NoDetector? || detection.DetectorFailed? ==>
              r.0 == form.(error := None).Set(slot, ImageFromDataUrl(fileUrl, mimeType))
    ensures detection.LoadFailed? ==>
              r.0 == form.(error := Some(LoadFailedMessage))
    ensures detection.Detected? && |detection.faces| == 0 ==>
              r.0.error == Some(NoFaceMessage(SlotLabel(slot)))
              && r.0.Get(slot) == Some(ImageFromDataUrl(fileUrl, mimeType))
              && r.0.selection == form.selection
    ensures detection.Detected? && |detection.faces| == 1 ==>
              r.0.error == None && r.0.Get(slot) == Some(ImageFromDataUrl(croppedUrl, mimeType))
              && r.0.selection == form.selection
    ensures detection.Detected? && |detection.faces| > 1 ==>
              r.0.error == None && r.0.Get(slot) == form.Get(slot)
              && r.0.selection == Some(FaceSelection(ImageFromDataUrl(fileUrl, mimeType),
                                                     detection.faces, slot, SlotLabel(slot)))
  {
    var cleared := form.(error := None);
    match detection
    case NoDetector => (cleared.Set(slot, ImageFromDataUrl(fileUrl, mimeType)), None)
    case DetectorFailed => (cleared.Set(slot, ImageFromDataUrl(fileUrl, mimeType)), None)
    case LoadFailed => (form.(error := Some(LoadFailedMessage)), None)
    case Detected(faces) =>
      var original := ImageFromDataUrl(fileUrl, mimeType);
      match DecideOnFaces(faces, original, slot, imageWidth, imageHeight)
      case KeepOriginal(message) => (cleared.(error := Some(message)).Set(slot, original), None)
      case CropTo(rect) => (cleared.Set(slot, ImageFromDataUrl(croppedUrl, mimeType)), Some(rect))
      case AskToChoose(selection) => (cleared.(selection := Some(selection)), None)
  }

  /** The user picks a face: the pending picture is cropped to that box with
      the original picture's MIME type, stored in its slot, and the selection
      closes. Without a pending selection nothing happens. */
  function SelectFace(form: UploadForm, box: Box, imageWidth: real, imageHeight: real,
                      croppedUrl: string): (r: (UploadForm, Option<CropRect>))
    ensures form.selection.None? ==> r == (form, None)
    ensures form.selection.Some? ==>
              var sel := form.selection.value;
              && r.0.selection.None?
              && r.0.Get(sel.target) == Some(ImageFromDataUrl(croppedUrl, sel.image.mimeType))
              && (forall other :: other != sel.target ==> r.0.Get(other) == form.Get(other))
              && r.0.error == form.error
              && r.1 == Some(CropToFace(imageWidth, imageHeight, box, DefaultPadding))
  {
    match form.selection
    case None => (form, None)
    case Some(sel) =>
      var stored := form.Set(sel.target, ImageFromDataUrl(croppedUrl, sel.image.mimeType));
      (stored.(selection := None), Some(CropToFace(imageWidth, imageHeight, box, DefaultPadding)))
  }

  /** The user dismisses the face chooser: the pictures stay as they were. */
  function CancelSelection(form: UploadForm): (f: UploadForm)
    ensures f.selection.None?
    ensures f.userImage == form.userImage && f.theirImage == form.theirImage
    ensures f.error == form.error
  {
    form.(selection := None)
  }

  /** A picture with several faces leaves both pictures unchanged until the
      user picks one of its faces, which then fills the slot the picture was
      uploaded to. */
  lemma ChoosingAFaceFillsTheSlot(form: UploadForm, slot: Slot, faces: seq<Box>,
                                  fileUrl: string, mimeType: string,
                                  w: real, h: real, unusedCrop: string,
                                  k: nat, croppedUrl: string)
    requires |faces| > 1 && k < |faces|
    ensures var pending := HandleFileSelect(form, slot, Detected(faces), fileUrl, mimeType, w, h, unusedCrop).0;
            && pending.userImage == form.userImage && pending.theirImage == form.theirImage
            && var (done, rect) := SelectFace(pending, faces[k], w, h, croppedUrl);
               && done.Get(slot) == Some(ImageFromDataUrl(croppedUrl, mimeType))
               && done.selection.None?
               && rect == Some(CropToFace(w, h, faces[k], DefaultPadding))
  {
  }
}
