# Near Me Again, modelled in Dafny

Near Me Again is a web application. A user uploads two portraits, "Your Picture"
and "Their Picture", and describes a scene. The application asks a generative
model to compose both people into one picture, or into a short "living
photograph" video. The result can be adjusted with a small set of filters and
saved as a *memory*. A gallery then lists, favourites and deletes the saved
memories.

This project models the parts of the application that decide things, as pure
Dafny functions over immutable datatypes, and proves what those parts promise.

- **Imaging** (`imaging.dfy`): the upload path of the main view.
  - Building a `data:` URL and reading its base64 payload back.
  - The face-crop rectangle, in exact real arithmetic.
  - The face-count rule: no face keeps the picture and shows an error, one
    face crops to it, several faces open the face chooser.
  - Choosing a face, or cancelling the chooser.
- **EditFilter** (`edit_filter.dfy`): the CSS filter the edit panel builds, as
  the ordered list of filter functions.
- **Generation** (`generation.dfy`): the flow around one generation.
  - The submit guard, and when each generate button is enabled.
  - The loading messages that rotate while a video is made.
  - Appending a prompt suggestion.
  - The ordered classification of a failure into a user-facing message.
  - The one-minute block that follows a quota failure, and only a quota
    failure.
- **Storage** (`storage.dfy`): the storage service.
  - The object path of an upload.
  - The result shape of `uploadFile`.
  - `getStoragePathFromUrl`.
- **Gallery** (`gallery.dfy`): the memory gallery.
  - Loading the memories, with its fallbacks.
  - The favourite toggle, as a map over the list.
  - Deletion, as a filter over the list.
  - In both cases the list changes only once the backend reports success.
  - The count label and the prompt preview.
- **Records** (`records.dfy`): the `Memory` row and its edit settings, and
  `Response`. A `Response` is the outcome of one backend call: data, an error
  with a message, or an exception.
- **Text** (`text.dfy`): the JavaScript string operations the code relies on.
  - `trim`, with the ECMAScript whitespace set.
  - `includes`.
  - `split` and `join` on a one-character separator, with JavaScript's edge
    cases: `split` always yields at least one piece.
  - The decimal rendering of a count.
- **Wrappers** (`wrappers.dfy`): `Option`.

Values the browser or a remote service supplies are parameters of the model:

- the file reader's data URL;
- the canvas's data URL for a crop;
- the face detector's boxes;
- backend responses;
- the user's answer to the deletion prompt.

## Model

| member | source | states |
|---|---|---|
| Imaging.BuildDataUrl | src/App.tsx:345-349 | the generated picture's URL is `data:<mime>;base64,<payload>`; its length is the sum of its parts and the payload ends it |
| Imaging.ExtractPayload | src/App.tsx:205 | `url.split(',')[1]` is defined exactly when the URL has a comma, and the payload never contains one |
| Imaging.DataUrlRoundTrip | src/App.tsx:82-84 | for a MIME type without a comma, reading the payload back from a built data URL gives it back exactly when the payload has no comma |
| Imaging.CropSpan | src/App.tsx:68-75 | one axis of the crop starts at `max(0, pos - pad)` and is `min(size + 2 pad, limit - start)` long; it never leaves the image and never exceeds the padded size, and it equals the padded size exactly when that fits |
| Imaging.CropToFace | src/App.tsx:57-85 | the crop rectangle lies inside the image and is at most the padded face size on each axis |
| Imaging.CropStaysInImage | src/App.tsx:68-75 | for a face box inside the image the crop has non-negative size, contains the face, starts at the padded corner unless that is negative, and is clamped to the image otherwise |
| Imaging.UploadForm.Set | src/App.tsx:199-265 | the slot's setter stores the picture in that slot and leaves the other slot, the error and the chooser alone |
| Imaging.DecideOnFaces | src/App.tsx:228-244 | no face keeps the picture with the "No face was detected" message, exactly one face crops with padding 0.5, more than one opens the chooser; each holds exactly when its face count does |
| Imaging.HandleFileSelect | src/App.tsx:199-265 | without a face detector, or when detection throws, the file's picture is stored; a file that does not load only sets the load error; no face stores the picture with the no-face error; exactly one face stores the canvas's crop, and the rectangle asked for is faces[0] at padding 0.5; several faces open the chooser and leave the slot; no other case crops; the other slot never changes |
| Imaging.SelectFace | src/App.tsx:279-291 | picking a face stores the crop, with the original MIME type, in the slot the picture came from and closes the chooser; with no chooser open nothing happens |
| Imaging.CancelSelection | src/App.tsx:293-295 | cancelling closes the chooser and keeps both pictures and the error |
| Imaging.ChoosingAFaceFillsTheSlot | src/App.tsx:235-242 | a picture with several faces changes neither picture until a face is picked; picking face k then fills the original slot with the crop of face k |
| EditFilter.FilterTokens | src/App.tsx:478-488 | the filter has the warmth tint if there is one, the chosen filter's functions, and `brightness(<b>%)` last; its length counts exactly those parts, and vintage contributes its four functions in order |
| EditFilter.FilterTokensReflectSettings | src/App.tsx:478-488 | the warmth tint leads exactly when sepia is chosen or warmth is positive; grayscale appears exactly for grayscale; the vintage contrast appears exactly for vintage; no other percentage brightness precedes the last one |
| EditFilter.DefaultEditsAreNeutral | src/App.tsx:297-304 | the settings every result starts from give only `brightness(100%)` |
| Generation.FirstMatch | src/App.tsx:432-441 | the first rule with an occurring needle: every earlier rule has none |
| Generation.Classify | src/App.tsx:432-441 | a failure text containing "quota" or "RESOURCE_EXHAUSTED" is a quota failure, whatever else it contains |
| Generation.ClassifyFollowsRules | src/App.tsx:432-441 | the handler's chain of tests is the first match in the ordered rule table, and `Unexpected` when no rule matches |
| Generation.QuotaSurvivesWrapping | src/App.tsx:432-434 | a quota failure stays a quota failure whatever text surrounds it |
| Generation.Tick | src/App.tsx:379-384 | each interval callback shows one of the messages and advances the counter by one |
| Generation.TicksShowMessage | src/App.tsx:378-384 | after k callbacks the screen shows message k modulo the list's length and the counter is k + 1 |
| Generation.EveryMessageWithinSixTicks | src/App.tsx:22-29 | every video loading message appears within any six consecutive callbacks |
| Generation.AppendSuggestion | src/App.tsx:572 | the new prompt has no outer whitespace; after a blank prompt it is the trimmed suggestion; after any other prompt, a non-empty suggestion without outer whitespace is appended to the trimmed prompt after one space |
| Generation.SuggestionsAreTrimmed | src/App.tsx:16-20 | every canned suggestion is non-empty and has no outer whitespace |
| Generation.AppendCannedSuggestion | src/App.tsx:569-575 | a canned suggestion becomes the whole prompt when the prompt is blank and is otherwise appended after one space |
| Generation.Submit | src/App.tsx:306-355 | a failed guard only sets the missing-input message; otherwise loading starts with the output type's first message and the error, result, edits and save status are reset |
| Generation.Finish | src/App.tsx:345-461 | loading stops in every case; a picture's result holds its data URL as the original too; a video's result holds its object URL; a failure shows its class's message and blocks the service exactly if it was already blocked or the failure is a quota failure |
| Generation.CooldownExpired | src/App.tsx:449-452 | the cooldown only unblocks the service and clears the error |
| Generation.BlockDisablesGeneration | src/App.tsx:642 | while the service is blocked neither generate button is enabled |
| Generation.QuotaFailureBlocks | src/App.tsx:443-453 | a quota failure blocks the service, disables both generate buttons and shows the capacity message |
| Generation.CooldownReenables | src/App.tsx:449-452 | once the cooldown fires after a generation, regenerate is enabled, and the main button is enabled exactly when the guard passes |
| Generation.EnabledSubmitPassesGuard | src/App.tsx:710 | an enabled main button always passes the guard |
| Generation.BlankPromptPassesGuard | src/App.tsx:308 | every non-empty whitespace-only prompt passes the guard and starts loading, although it trims to the empty string: the guard does not trim |
| Generation.ImageResultKeepsPayload | src/App.tsx:346-348 | the payload of a generated picture can be read back from the result's URL when neither it nor its MIME type has a comma |
| Storage.UploadObjectPath | src/storageService.ts:10 | the object path is the user id, '/', and the file name; its '/'-segments are the user id's followed by the file name's |
| Storage.UploadFile | src/storageService.ts:3-33 | exactly one of URL and error is present; success gives the public URL, a reported error its message, an exception "Failed to upload file" |
| Storage.FindIndex | src/storageService.ts:95 | `findIndex` gives the first position holding the target, and -1 exactly when it is absent |
| Storage.StoragePathFromUrl | src/storageService.ts:91-105 | nothing exactly when the URL does not parse or its pathname has no "object" segment; otherwise a suffix of the pathname, and "" when fewer than two segments follow "object" |
| Storage.StoragePathFromSegments | src/storageService.ts:94-100 | the result joins the segments after the one that follows the first "object" |
| Storage.StoragePathAfterFirstObject | src/storageService.ts:94-100 | for `<prefix>/object/<segment>/<rest>`, with no "object" segment in the prefix, the result is `<rest>` |
| Storage.StoragePathOfPublicUrl | src/storageService.ts:91-105 | the path read back from a public object URL is `<bucket>/<object path>`: the bucket segment is kept |
| Gallery.ToggleFavorite | src/MemoryGallery.tsx:53-55 | the list keeps its length, every memory with the id has `is_favorite` set to the negation of the current value, and the rest are unchanged |
| Gallery.DeleteMemory | src/MemoryGallery.tsx:71 | no remaining memory has the id, every other memory is kept in order, nothing is added, and the length drops by the number of memories with the id |
| Gallery.AbsentIdChangesNothing | src/MemoryGallery.tsx:53-71 | a toggle or deletion of an id no memory has leaves the list unchanged |
| Gallery.ToggleBack | src/MemoryGallery.tsx:53-55 | toggling back with the new value restores the list |
| Gallery.DeleteAfterToggle | src/MemoryGallery.tsx:44-76 | deleting a memory makes an earlier toggle of it irrelevant |
| Gallery.LoadMemories | src/MemoryGallery.tsx:21-42 | loading always stops; signed out nothing else changes; a success replaces the list (null gives the empty list); a failure keeps the list and shows "Failed to load your memories" |
| Gallery.FirstLoad | src/MemoryGallery.tsx:12-42 | from the initial empty, loading gallery: signed out gives no memories and no error; a success shows exactly the returned memories (none for null); a failure shows no memories and the load error |
| Gallery.ReloadIsIdempotent | src/MemoryGallery.tsx:21-42 | loading a second time with the same answer leaves the gallery as the first load left it |
| Gallery.ApplyToggle | src/MemoryGallery.tsx:44-59 | the list is toggled only when the backend reports success; otherwise nothing changes |
| Gallery.ApplyDelete | src/MemoryGallery.tsx:61-76 | nothing happens unless the user confirms; the entry leaves the list only on backend success; a failure alerts "Failed to delete memory" and keeps the list |
| Gallery.CountLabelStartsWithCount | src/MemoryGallery.tsx:83 | the label starts with the count in decimal |
| Gallery.CountLabelNoun | src/MemoryGallery.tsx:83 | the label ends in "memory" exactly for a count of one and in "memories" otherwise |
| Gallery.PromptPreview | src/MemoryGallery.tsx:124 | a prompt of at most 80 characters is shown whole; a longer one shows its first 80 characters and "..." |
| Text.Trim | src/App.tsx:572 | `trim` leaves no whitespace at either end and removes only whitespace from the ends of the input |
| Text.TrimIdempotent | src/App.tsx:572 | trimming twice is trimming once |
| Text.TrimEmptyIffBlank | src/App.tsx:572 | a string trims to "" exactly when it is all whitespace |
| Text.Contains | src/App.tsx:432-441 | `includes` holds exactly when the needle occurs at some position |
| Text.Split | src/storageService.ts:94 | `split` gives at least one piece, no piece holds the separator, and joining the pieces gives the input back |
| Text.SplitCount | src/App.tsx:205 | the text splits into more than one piece exactly when it holds the separator |
| Text.SplitAppend | src/storageService.ts:94 | splitting `a + sep + b` gives the pieces of `a` followed by the pieces of `b` |
| Text.SplitJoin | src/storageService.ts:94-100 | splitting a join of separator-free pieces gives the pieces back |
| Text.JoinTailIsSuffix | src/storageService.ts:100 | joining a tail of the pieces gives a suffix of joining them all |
| Text.NatToString | src/MemoryGallery.tsx:83 | a count renders as decimal digits without a leading zero whose value is the count |

## Left out

- Rendering, React state hooks and the modals' layout: the model keeps the state each handler writes, not how it is drawn.
- The generative-model calls, the video polling loop and the video download: a generation is reduced to its `Outcome` (a picture's MIME type and data, a video's object URL, or a failure's text).
- Timers: the 6-second loading interval and the 60-second cooldown are events (`Tick`, `CooldownExpired`); clearing an earlier timer is not modelled.
- Canvas drawing, `FileReader`, `Image` loading and `FaceDetector`: they become parameters (the data URLs produced, the boxes found, whether the image loaded).
- Imaging.CropToFace: the canvas's rounding of the crop size to whole pixels is not modelled, and neither is floating point: the crop is computed in exact real arithmetic.
- Imaging.CropToFace: when the canvas has no 2D context the source never resolves its promise. The model always produces a crop.
- `new URL(...)`: a URL is given as its parsed pathname or as a parse failure (`ParsedUrl`).
- Storage.StoragePathOfPublicUrl: the public URL itself is built by the storage client library, which is not part of this model. Its pathname is taken to be `<root>/object/public/<bucket>/<path>`, where the root has no "object" segment.
- Storage.UploadFile: the upload and `getPublicUrl` calls are collapsed into one `Response` carrying the public URL.
- The text overlay and its font-size formula (`src/App.tsx:492-500`), and the rendered CSS number format of the filter arguments.
- `handleSaveMemory`, `handleDownload`, `dataUrlToBlob`, `memoryService`, `AuthModal` and the backend client's configuration: they are outside the modelled core.
- Turning a thrown non-`Error` value into text (`JSON.stringify`, `String`): the failure's text is given.
- Strings are sequences of Unicode scalar values; JavaScript's UTF-16 code units differ for characters outside the Basic Multilingual Plane, which affects the 80-character preview cut.
- Gallery.LoadMemories: the ordering by creation date is the backend's; the model takes the list as returned.
- Gallery.ApplyDelete: the confirmation dialog is a parameter (`confirmed`).
- Imaging.HandleFileSelect: the handler is one atomic step. In the source the error is cleared at once, but the picture or the no-face error is stored later, in the image's `onload` and the reader's `onloadend` callbacks, so a second upload could interleave with the first; those interleavings are not represented.
- Imaging.HandleFileSelect: a `FileReader` failure is not modelled. There `reader.result` is null, `split` throws inside the callback and nothing is stored; the model always stores a picture once the file is read.
