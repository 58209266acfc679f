/** The value types shared by the wizard and the upload slot (types.ts). */
module Types {

  /** A value that may be absent: JavaScript's `null` / `undefined`. */
  datatype Option<+T> = None | Some(value: T)

  /** The four steps of the wizard, in the order the enum declares them. */
  datatype AppStep = ProductUpload | ModelUpload | Generating | Result

  /**
   * An uploaded image. `base64` is declared a string, but the upload slot
   * fills it with the second comma-separated field of the data URL, which
   * is `undefined` when the URL holds no comma; the model makes that
   * absence explicit.
   */
  datatype ImageState = ImageState(base64: Option<string>, mimeType: string, previewUrl: string)
}
