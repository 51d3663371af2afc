/**
 * The state and event handlers of the App component (App.tsx:7-89): six
 * pieces of React state, each handler a guarded series of setter calls.
 *
 * Each handler is modelled as running to completion: the outcome of the
 * service call it awaits (or of the file read) is a parameter, and the
 * intermediate statuses it passes through (Suggesting, Editing) are set in
 * the body but are not visible between events.
 */
module AppComponent {
  import opened Types

  const ReadErrorMessage: string := "Could not read the uploaded file."
  const EmptyResultMessage: string := "Gemini returned an empty result. Try clarifying your prompt."
  const DefaultEditErrorMessage: string := "An unexpected error occurred during image generation."

  /** The selected file, of which the handlers read only its MIME type. */
  datatype SelectedFile = SelectedFile(mimeType: string)

  /** `if (result)` on editImage's result: a non-null, non-empty string. */
  predicate EditProducedImage(result: Result<Option<string>>)
  {
    result.Ok? && result.value.Some? && result.value.value != ""
  }

  /**
   * The message handleEdit shows after a failed edit: the thrown error's
   * message, the empty-result message when editImage gave nothing, and the
   * default message when the error carried none. It is never empty.
   */
  function EditErrorMessage(result: Result<Option<string>>): (msg: string)
    ensures msg != ""
    ensures result.Err? && result.error.message != "" ==> msg == result.error.message
    ensures result.Err? && result.error.message == "" ==> msg == DefaultEditErrorMessage
    ensures result.Ok? ==> msg == EmptyResultMessage
  {
    var thrown := if result.Err? then result.error else Exception(EmptyResultMessage);
    if thrown.message != "" then thrown.message else DefaultEditErrorMessage
  }

  class App {
    var status: AppStatus
    var originalImage: Option<ImageState>
    var editedImage: Option<string>
    var prompt: string
    var suggestions: seq<PromptSuggestion>
    var errorMessage: Option<string>

    /**
     * What holds between events:
     *  - no request is in flight (every handler runs to completion here);
     *  - a success shows an edited image and no error;
     *  - an error status always comes with a non-empty message;
     *  - while a file is being read, no edit, suggestion or error is shown;
     *  - an edited image exists only alongside an original image.
     */
    ghost predicate Valid()
      reads this
    {
      && status != Suggesting && status != Editing
      && (status == Success ==> editedImage.Some? && errorMessage.None?)
      && (status == Error ==> errorMessage.Some? && errorMessage.value != "")
      && (status == Uploading ==> editedImage.None? && suggestions == [] && errorMessage.None?)
      && (editedImage.Some? ==> originalImage.Some?)
    }

    /** The values given to useState at App.tsx:8-13. */
    ghost predicate IsInitial()
      reads this
    {
      && status == Idle
      && originalImage == None
      && editedImage == None
      && prompt == ""
      && suggestions == []
      && errorMessage == None
    }

    constructor ()
      ensures Valid() && IsInitial()
    {
      status := Idle;
      originalImage := None;
      editedImage := None;
      prompt := "";
      suggestions := [];
      errorMessage := None;
    }

    /**
     * fetchSuggestionsForImage, given what getPromptSuggestions returned or
     * threw for the image: always back to Idle; a list replaces the
     * suggestions, an error leaves them as they were.
     */
    method FetchSuggestionsForImage(fetched: Result<seq<PromptSuggestion>>)
      requires Valid()
      modifies this
      ensures Valid()
      ensures status == Idle
      ensures suggestions == if fetched.Ok? then fetched.value else old(suggestions)
      ensures originalImage == old(originalImage) && editedImage == old(editedImage)
      ensures prompt == old(prompt) && errorMessage == old(errorMessage)
    {
      status := Suggesting;
      match fetched {
        case Ok(list) =>
          suggestions := list;
          status := Idle;
        case Err(_) =>
          status := Idle;
      }
    }

    /**
     * handleFileChange: without a file nothing happens; with one, the view
     * enters Uploading and forgets the previous edit, error and suggestions.
     * The read itself completes later through ReaderLoad or ReaderError.
     */
    method HandleFileChange(file: Option<SelectedFile>)
      requires Valid()
      modifies this
      ensures Valid()
      ensures file.None? ==> unchanged(this)
      ensures file.Some? ==>
                && status == Uploading && errorMessage == None
                && editedImage == None && suggestions == []
      ensures prompt == old(prompt) && originalImage == old(originalImage)
    {
      if file.None? {
        return;
      }
      status := Uploading;
      errorMessage := None;
      editedImage := None;
      suggestions := [];
    }

    /**
     * reader.onload: the read data URL becomes the original image, then
     * suggestions are fetched for it (`fetched` is their outcome).
     */
    method ReaderLoad(file: SelectedFile, dataUrl: string, previewUrl: string,
                      fetched: Result<seq<PromptSuggestion>>)
      requires Valid()
      modifies this
      ensures Valid()
      ensures originalImage == Some(ImageState(dataUrl, file.mimeType, previewUrl))
      ensures status == Idle
      ensures suggestions == if fetched.Ok? then fetched.value else old(suggestions)
      ensures editedImage == old(editedImage) && prompt == old(prompt)
      ensures errorMessage == old(errorMessage)
    {
      originalImage := Some(ImageState(dataUrl, file.mimeType, previewUrl));
      FetchSuggestionsForImage(fetched);
    }

    /** reader.onerror: report the failed read. */
    method ReaderError()
      requires Valid()
      modifies this
      ensures Valid()
      ensures status == Error && errorMessage == Some(ReadErrorMessage)
      ensures originalImage == old(originalImage) && editedImage == old(editedImage)
      ensures prompt == old(prompt) && suggestions == old(suggestions)
    {
      errorMessage := Some(ReadErrorMessage);
      status := Error;
    }

    /**
     * handleEdit, given what editImage returned or threw: a no-op without an
     * original image or with an empty prompt; otherwise Success with the
     * new image, or Error with the message of the (possibly synthesised)
     * error, the previous edited image kept.
     */
    method HandleEdit(result: Result<Option<string>>)
      requires Valid()
      modifies this
      ensures Valid()
      ensures old(originalImage.None? || prompt == "") ==> unchanged(this)
      ensures old(originalImage.Some? && prompt != "") ==>
                && originalImage == old(originalImage) && prompt == old(prompt)
                && suggestions == old(suggestions)
                && (EditProducedImage(result) ==>
                      status == Success && editedImage == result.value && errorMessage == None)
                && (!EditProducedImage(result) ==>
                      && status == Error && editedImage == old(editedImage)
                      && errorMessage == Some(EditErrorMessage(result)))
    {
      if originalImage.None? || prompt == "" {
        return;
      }
      status := Editing;
      errorMessage := None;

      // The error that reaches the catch block, if any.
      var caught: Option<Exception> := None;
      match result {
        case Ok(Some(url)) =>
          if url != "" {
            editedImage := Some(url);
            status := Success;
          } else {
            caught := Some(Exception(EmptyResultMessage));
          }
        case Ok(None) =>
          caught := Some(Exception(EmptyResultMessage));
        case Err(e) =>
          caught := Some(e);
      }
      if caught.Some? {
        var msg := if caught.value.message != "" then caught.value.message else DefaultEditErrorMessage;
        errorMessage := Some(msg);
        status := Error;
      }
    }

    /** applySuggestion: only the prompt changes. */
    method ApplySuggestion(suggestedPrompt: string)
      requires Valid()
      modifies this
      ensures Valid()
      ensures prompt == suggestedPrompt
      ensures status == old(status) && originalImage == old(originalImage)
      ensures editedImage == old(editedImage) && suggestions == old(suggestions)
      ensures errorMessage == old(errorMessage)
    {
      prompt := suggestedPrompt;
    }

    /** reset: back to the initial state. */
    method Reset()
      requires Valid()
      modifies this
      ensures Valid() && IsInitial()
    {
      originalImage := None;
      editedImage := None;
      prompt := "";
      suggestions := [];
      status := Idle;
      errorMessage := None;
    }
  }

  /** An upload, a suggestion applied and a successful edit, followed by reset. */
  method UploadEditResetSession(list: seq<PromptSuggestion>, url: string)
    requires |list| > 0 && list[0].prompt != "" && url != ""
  {
    var app := new App();
    app.HandleFileChange(Some(SelectedFile("image/jpeg")));
    assert app.status == Uploading;
    app.ReaderLoad(SelectedFile("image/jpeg"), "data:image/jpeg;base64,QUJD", "blob:preview", Ok(list));
    assert app.status == Idle && app.suggestions == list;
    app.ApplySuggestion(list[0].prompt);
    app.HandleEdit(Ok(Some(url)));
    assert app.status == Success && app.editedImage == Some(url);
    app.HandleEdit(Err(Exception("")));
    assert app.status == Error && app.errorMessage == Some(DefaultEditErrorMessage);
    assert app.editedImage == Some(url);
    app.Reset();
    assert app.IsInitial();
  }
}
