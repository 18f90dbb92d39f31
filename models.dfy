/** The request and response records of the transcription API, with the field constraints the
    validation library enforces on them. */
module TranscriptionModels {
  import opened Wrappers

  /** Body of a successful `/api/transcribe`. */
  datatype TranscriptionResponse = TranscriptionResponse(success: bool, transcript: string, filename: string)

  /** Body of `/api/cleanup`: the transcript is required and must be at least one character long. */
  datatype CleanupRequest = CleanupRequest(transcript: string)

  /** Body of a successful `/api/cleanup` and `/api/transcribe-and-cleanup`. */
  datatype CleanupResponse = CleanupResponse(success: bool, originalTranscript: string, cleanedTranscript: string)

  /** The error record: `success` defaults to false and `detail` to nothing. */
  datatype ErrorResponse = ErrorResponse(success: bool, error: string, detail: Option<string>)

  /** Why a `CleanupRequest` is refused. */
  datatype ValidationIssue = MissingField | StringTooShort

  /** Building a `CleanupRequest` from the `transcript` field of a body, if there is one. */
  function ValidateCleanupRequest(transcript: Option<string>): (r: Result<CleanupRequest, ValidationIssue>)
    ensures r.Success? <==> transcript.Some? && |transcript.value| >= 1
    ensures r.Success? ==> r.value.transcript == transcript.value
    ensures transcript.None? ==> r == Failure(MissingField)
    ensures transcript == Some("") ==> r == Failure(StringTooShort)
  {
    match transcript
    case None => Failure(MissingField)
    case Some(t) => if |t| < 1 then Failure(StringTooShort) else Success(CleanupRequest(t))
  }

  /** `ErrorResponse(error=...)` with the declared defaults for the fields left out. */
  function NewErrorResponse(error: string, success: bool := false, detail: Option<string> := None)
    : ErrorResponse
  {
    ErrorResponse(success, error, detail)
  }

  /** An error record built from its message alone reports failure and carries no detail. */
  lemma ErrorResponseDefaults(error: string)
    ensures NewErrorResponse(error) == ErrorResponse(false, error, None)
    ensures !NewErrorResponse(error).success && NewErrorResponse(error).detail.None?
  {
  }
}
