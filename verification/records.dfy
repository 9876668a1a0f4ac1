/** The records the application and the backend exchange: the saved `Memory`
    row with its edit settings, and the three ways a backend call can end. */
module Records {

  datatype OutputType = ImageOutput | VideoOutput

  /** The colour filters offered in the edit panel. */
  datatype FilterKind = NoFilter | Sepia | Grayscale | Vintage

  /** The edit panel's settings; a saved memory keeps a copy of them.
      `brightness` is a percentage (the slider runs 50..150) and `warmth` a
      sepia strength in hundredths (the slider runs 0..100). */
  datatype EditSettings = EditSettings(
    filter: FilterKind,
    brightness: int,
    warmth: int,
    textOverlay: string)

  /** The settings a fresh result starts from: no filter, unchanged brightness,
      no warmth and no caption. */
  const DefaultEdits := EditSettings(NoFilter, 100, 0, "")

  /** One row of the `memories` table. Timestamps are kept as the strings the
      backend returns. */
  datatype Memory = Memory(
    id: string,
    userId: string,
    title: string,
    prompt: string,
    outputType: OutputType,
    outputUrl: string,
    thumbnailUrl: string,
    userImageUrl: string,
    theirImageUrl: string,
    isFavorite: bool,
    editSettings: EditSettings,
    createdAt: string,
    updatedAt: string)

  /** How a backend call ends: it returns data, it returns an error object with
      a message, or the client library throws. */
  datatype Response<+T> = Ok(data: T) | Err(message: string) | Threw
}
