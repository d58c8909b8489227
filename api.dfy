/** The upload check of the HTTP `analyze_audio` handler. */
module Api {
  import opened Wrappers

  /** An HTTP error response: status code and detail text. */
  datatype HttpError = HttpError(statusCode: int, detail: string)

  /** The content types the handler accepts, compared exactly. */
  const ACCEPTED_CONTENT_TYPES: seq<string> := ["audio/mpeg", "audio/wav"]

  /**
   * The first step of `analyze_audio`: an upload whose content type is not one
   * of the accepted ones (including a missing content type) is rejected with
   * status 400 before anything is written.
   */
  function CheckContentType(contentType: Option<string>): (r: Outcome<HttpError>)
    ensures r.Pass? <==> contentType == Some("audio/mpeg") || contentType == Some("audio/wav")
    ensures r.Fail? ==> r.error.statusCode == 400
  {
    if contentType.Some? && contentType.value in ACCEPTED_CONTENT_TYPES then Pass
    else Fail(HttpError(400, "Invalid file type. Only mp3 or wav allowed."))
  }

  /** The comparison is exact: other spellings of the same formats are refused. */
  lemma ContentTypeIsExact()
    ensures CheckContentType(Some("audio/MPEG")).Fail?
    ensures CheckContentType(Some("audio/mp3")).Fail?
    ensures CheckContentType(Some("audio/x-wav")).Fail?
    ensures CheckContentType(None).Fail?
  {
  }
}
