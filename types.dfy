/**
 * The value types shared by the service layer and the app component
 * (types.ts), plus the optional-value and thrown-error shapes that the
 * TypeScript code expresses with `null`, `undefined` and `throw`.
 */
module Types {

  /** `T | null` (or an optional property) in the TypeScript code. */
  datatype Option<+T> = None | Some(value: T)

  /**
   * A thrown JavaScript error. Only its `message` is ever inspected; an
   * error without a message is modelled by the empty string, which every
   * use in the code (`includes`, `||` defaulting) treats the same way.
   */
  datatype Exception = Exception(message: string)

  /** The outcome of an awaited call: a value, or the error it threw. */
  datatype Result<+T> = Ok(value: T) | Err(error: Exception)

  /** An uploaded image: its data URL, its MIME type and an object-URL preview. */
  datatype ImageState = ImageState(base64: string, mimeType: string, previewUrl: string)

  /** One editing idea returned by the suggestion flow. */
  datatype PromptSuggestion = PromptSuggestion(title: string, prompt: string, category: string)

  /** The UI status enum. */
  datatype AppStatus = Idle | Uploading | Suggesting | Editing | Success | Error
}
