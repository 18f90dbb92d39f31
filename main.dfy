/** The transcription API's own logic: the upload extension check, how each endpoint turns errors into
    HTTP statuses, and the combined transcribe-then-clean-up endpoint. Whisper, the temporary file and the
    Ollama call are outcomes passed in. */
module TranscriptionApi {
  import opened Wrappers
  import opened Strings
  import opened TranscriptionModels
  import opened OllamaCleanup

  /** `s.rfind(c)`: the last position of `c` in `s`, or -1. */
  function LastIndexOf(s: string, c: char): (r: int)
    ensures -1 <= r < |s|
    ensures r >= 0 ==> s[r] == c
    ensures forall k :: r < k < |s| ==> s[k] != c
  {
    if s == [] then -1
    else if s[|s| - 1] == c then |s| - 1
    else LastIndexOf(s[..|s| - 1], c)
  }

  /** `PurePosixPath(path).name`: the last component once empty and "." components are dropped. */
  function FinalComponent(path: string): (name: string)
    ensures forall k :: 0 <= k < |name| ==> name[k] != '/'
    ensures name != "."
    decreases |path|
  {
    var i := LastIndexOf(path, '/');
    var segment := path[i + 1..];
    if segment != "" && segment != "." then segment
    else if i < 0 then ""
    else FinalComponent(path[..i])
  }

  /** A dot followed by at least one character, none of them a dot. */
  predicate IsExtension(ext: string) {
    |ext| >= 2 && ext[0] == '.' && forall k :: 1 <= k < |ext| ==> ext[k] != '.'
  }

  /** `PurePosixPath.suffix` of a name: from its last dot, unless that dot is its first or last character. */
  function Suffix(name: string): (r: string)
    ensures r == [] || (IsExtension(r) && |r| < |name| && r == name[|name| - |r|..])
  {
    var i := LastIndexOf(name, '.');
    if 0 < i < |name| - 1 then name[i..] else ""
  }

  /** A non-empty stem followed by an extension has exactly that extension as its suffix. */
  lemma SuffixOfStemAndExtension(stem: string, ext: string)
    requires stem != [] && IsExtension(ext)
    ensures Suffix(stem + ext) == ext
  {
    var name := stem + ext;
    var i := LastIndexOf(name, '.');
    assert name[|stem|] == '.';
    assert i == |stem|;
    assert name[i..] == ext;
  }

  const AllowedExtensions: seq<string> := [".mp3", ".wav", ".m4a", ".ogg", ".flac", ".mp4", ".webm"]

  /** The extension check of `/api/transcribe`: the lower-cased suffix of the file name is allowed. */
  predicate IsAllowedUpload(filename: string) {
    Lower(Suffix(FinalComponent(filename))) in AllowedExtensions
  }

  /** Every allowed entry is an extension. */
  lemma AllowedAreExtensions(e: string)
    requires e in AllowedExtensions
    ensures IsExtension(e)
  {
  }

  /** Lower-casing keeps dots where they are and creates no new ones. */
  lemma LowerKeepsExtensionShape(ext: string)
    ensures IsExtension(Lower(ext)) <==> IsExtension(ext)
  {
    assert forall k :: 0 <= k < |ext| ==> (Lower(ext)[k] == '.' <==> ext[k] == '.');
  }

  /** Some tail of the name that starts after its first character is an extension allowed once lower-cased. */
  predicate EndsWithAllowedExtension(name: string) {
    exists k :: 0 < k < |name| && IsExtension(name[k..]) && Lower(name[k..]) in AllowedExtensions
  }

  /** A file is accepted exactly when its final component is a non-empty stem followed by an extension whose
      lower-case form is allowed. */
  lemma AcceptedIffAllowedExtension(filename: string)
    ensures IsAllowedUpload(filename) <==> EndsWithAllowedExtension(FinalComponent(filename))
  {
    var name := FinalComponent(filename);
    if IsAllowedUpload(filename) {
      AcceptedHasAllowedExtension(name);
    }
    if EndsWithAllowedExtension(name) {
      AllowedExtensionAccepted(name);
    }
  }

  lemma AcceptedHasAllowedExtension(name: string)
    requires Lower(Suffix(name)) in AllowedExtensions
    ensures EndsWithAllowedExtension(name)
  {
    var ext := Suffix(name);
    AllowedAreExtensions(Lower(ext));
    LowerKeepsExtensionShape(ext);
    var k := |name| - |ext|;
    assert name[k..] == ext;
  }

  lemma AllowedExtensionAccepted(name: string)
    requires EndsWithAllowedExtension(name)
    ensures Lower(Suffix(name)) in AllowedExtensions
  {
    var k :| 0 < k < |name| && IsExtension(name[k..]) && Lower(name[k..]) in AllowedExtensions;
    assert name == name[..k] + name[k..];
    SuffixOfStemAndExtension(name[..k], name[k..]);
  }

  /** A plain file name is its own final component. */
  lemma PlainNameIsFinalComponent(name: string)
    requires name != "" && name != "."
    requires forall k :: 0 <= k < |name| ==> name[k] != '/'
    ensures FinalComponent(name) == name
  {
    assert LastIndexOf(name, '/') == -1;
    assert name[0..] == name;
  }

  /** The directories in front of a plain file name do not matter. */
  lemma DirectoryIgnored(dir: string, name: string)
    requires name != "" && name != "."
    requires forall k :: 0 <= k < |name| ==> name[k] != '/'
    ensures FinalComponent(dir + "/" + name) == name
  {
    var path := dir + "/" + name;
    var i := LastIndexOf(path, '/');
    assert path[|dir|] == '/';
    assert i == |dir|;
    assert path[i + 1..] == name;
  }

  /** `rfind` of the dot is the position after which no dot follows. */
  lemma LastDotAt(name: string, i: int)
    requires -1 <= i < |name| && (i >= 0 ==> name[i] == '.')
    requires forall k :: i < k < |name| ==> name[k] != '.'
    ensures LastIndexOf(name, '.') == i
  {
  }

  /** A plain name made of a non-empty stem and an extension allowed once lower-cased is accepted. */
  lemma StemAndExtensionAccepted(stem: string, ext: string)
    requires stem != [] && IsExtension(ext) && Lower(ext) in AllowedExtensions
    requires forall k :: 0 <= k < |stem + ext| ==> (stem + ext)[k] != '/'
    ensures IsAllowedUpload(stem + ext)
  {
    PlainNameIsFinalComponent(stem + ext);
    SuffixOfStemAndExtension(stem, ext);
  }

  /** Only the last suffix counts, and its case does not. */
  lemma UpperCaseDoubleSuffixAccepted(name: string)
    requires name == "a.tar.MP3"
    ensures IsAllowedUpload(name)
  {
    var stem, ext := "a.tar", ".MP3";
    assert name == stem + ext;
    assert Lower(ext)[1] == 'm' && Lower(ext)[2] == 'p';
    assert Lower(ext) == ".mp3";
    StemAndExtensionAccepted(stem, ext);
  }

  /** The directory part of an upload name is ignored. */
  lemma NameInDirectoryAccepted(path: string)
    requires path == "recordings/talk.wav"
    ensures IsAllowedUpload(path)
  {
    var dir, stem, ext := "recordings", "talk", ".wav";
    assert path == dir + "/" + (stem + ext);
    assert Lower(ext) == ext;
    DirectoryIgnored(dir, stem + ext);
    SuffixOfStemAndExtension(stem, ext);
  }

  /** A plain name whose last dot is its first or its last character, or that has no dot, is refused. */
  lemma NoSuffixRefused(name: string, i: int)
    requires name != "" && name != "."
    requires forall k :: 0 <= k < |name| ==> name[k] != '/'
    requires -1 <= i < |name| && (i >= 0 ==> name[i] == '.')
    requires forall k :: i < k < |name| ==> name[k] != '.'
    requires !(0 < i < |name| - 1)
    ensures !IsAllowedUpload(name)
  {
    PlainNameIsFinalComponent(name);
    LastDotAt(name, i);
    assert Lower("") == "";
  }

  /** A name without a dot has no suffix and is refused. */
  lemma NameWithoutDotRefused(name: string)
    requires name == "noext"
    ensures !IsAllowedUpload(name)
  {
    assert name[0] != '.' && name[1] != '.' && name[2] != '.' && name[3] != '.' && name[4] != '.';
    NoSuffixRefused(name, -1);
  }

  /** A dot file has no suffix: its only dot is its first character. */
  lemma DotFileRefused(name: string)
    requires name == ".mp3"
    ensures !IsAllowedUpload(name)
  {
    NoSuffixRefused(name, 0);
  }

  /** A name ending in a dot has no suffix, whatever precedes that dot. */
  lemma TrailingDotRefused(name: string)
    requires name == "song.mp3."
    ensures !IsAllowedUpload(name)
  {
    NoSuffixRefused(name, 8);
  }

  /** An HTTP error: status code and detail. */
  datatype HttpError = HttpError(statusCode: int, detail: string)

  /** The text of an HTTP exception, `"<status>: <detail>"`, which is what a catch-all sees as its message. */
  function HttpErrorText(e: HttpError): string {
    IntToString(e.statusCode) + ": " + e.detail
  }

  const UnsupportedFormatDetail := "Unsupported file format. Allowed formats: " + Join(", ", AllowedExtensions)
  const TranscriptionFailurePrefix := "Transcription failed: "
  const EmptyTranscriptDetail := "Transcript cannot be empty"
  const CleanupFailurePrefix := "Cleanup failed: "
  const ProcessFailurePrefix := "Process failed: "

  /** Joining seven parts puts the separator between each neighbouring pair. */
  lemma JoinSeven(sep: string, a: string, b: string, c: string, d: string, e: string, f: string, g: string)
    ensures Join(sep, [a, b, c, d, e, f, g]) == a + sep + b + sep + c + sep + d + sep + e + sep + f + sep + g
  {
    JoinCons(sep, f, [g]);
    JoinCons(sep, e, [f, g]);
    assert [e] + [f, g] == [e, f, g];
    JoinCons(sep, d, [e, f, g]);
    assert [d] + [e, f, g] == [d, e, f, g];
    JoinCons(sep, c, [d, e, f, g]);
    assert [c] + [d, e, f, g] == [c, d, e, f, g];
    JoinCons(sep, b, [c, d, e, f, g]);
    assert [b] + [c, d, e, f, g] == [b, c, d, e, f, g];
    JoinCons(sep, a, [b, c, d, e, f, g]);
    assert [a] + [b, c, d, e, f, g] == [a, b, c, d, e, f, g];
  }

  /** The refusal text lists the seven allowed extensions in order, separated by ", ". */
  lemma UnsupportedFormatDetailText()
    ensures UnsupportedFormatDetail
            == "Unsupported file format. Allowed formats: "
               + (".mp3" + ", " + ".wav" + ", " + ".m4a" + ", " + ".ogg" + ", " + ".flac" + ", " + ".mp4" + ", " + ".webm")
  {
    JoinSeven(", ", ".mp3", ".wav", ".m4a", ".ogg", ".flac", ".mp4", ".webm");
  }

  /** The two status codes the handlers raise print as "400: " and "500: " before their detail. */
  lemma HttpErrorTextOfStatus(detail: string)
    ensures HttpErrorText(HttpError(400, detail)) == "400: " + detail
    ensures HttpErrorText(HttpError(500, detail)) == "500: " + detail
  {
  }

  /** Stands for the validation library's report on a transcript shorter than one character. */
  const TooShortTranscriptReport := "1 validation error for CleanupRequest"

  /** `transcribe_audio`: Whisper's text, stripped, or the wrapped exception message. */
  function TranscribeAudio(whisper: Result<string, string>): (r: Result<string, string>)
    ensures r.Success? <==> whisper.Success?
    ensures r.Success? ==> r.value == Strip(whisper.value) && Trimmed(r.value)
    ensures r.Failure? ==> r.error == "Failed to transcribe audio: " + whisper.error
  {
    match whisper
    case Success(text) => StripShape(text); Success(Strip(text))
    case Failure(message) => Failure("Failed to transcribe audio: " + message)
  }

  /** `transcribe`. `audio` is what saving the upload and `transcribe_audio` gave: the transcript or the
      exception message. Every error leaves through the catch-all, so even the bad-extension 400 becomes 500. */
  function Transcribe(filename: string, audio: Result<string, string>): (r: Result<TranscriptionResponse, HttpError>)
    ensures r.Failure? ==> r.error.statusCode == 500
    ensures !IsAllowedUpload(filename)
            ==> r == Failure(HttpError(500, TranscriptionFailurePrefix
                                             + HttpErrorText(HttpError(400, UnsupportedFormatDetail))))
    ensures IsAllowedUpload(filename) && audio.Failure?
            ==> r == Failure(HttpError(500, TranscriptionFailurePrefix + audio.error))
    ensures IsAllowedUpload(filename) && audio.Success?
            ==> r == Success(TranscriptionResponse(true, audio.value, filename))
  {
    if !IsAllowedUpload(filename) then
      Failure(HttpError(500, TranscriptionFailurePrefix + HttpErrorText(HttpError(400, UnsupportedFormatDetail))))
    else match audio
      case Failure(message) => Failure(HttpError(500, TranscriptionFailurePrefix + message))
      case Success(transcript) => Success(TranscriptionResponse(true, transcript, filename))
  }

  /** `cleanup`: a blank transcript is refused (again as 500, through the catch-all); otherwise the clean-up
      result is returned beside the transcript exactly as it was sent. */
  function Cleanup(request: CleanupRequest, config: OllamaConfig, post: GenerateRequest -> HttpOutcome)
    : (r: Result<CleanupResponse, HttpError>)
    ensures r.Failure? ==> r.error.statusCode == 500
    ensures AllSpace(request.transcript)
            ==> r == Failure(HttpError(500, CleanupFailurePrefix
                                             + HttpErrorText(HttpError(400, EmptyTranscriptDetail))))
    ensures !AllSpace(request.transcript) && CleanupTranscript(config, request.transcript, post).Failure?
            ==> r == Failure(HttpError(500, CleanupFailurePrefix
                                             + CleanupTranscript(config, request.transcript, post).error))
    ensures !AllSpace(request.transcript) && CleanupTranscript(config, request.transcript, post).Success?
            ==> r == Success(CleanupResponse(true, request.transcript,
                                             CleanupTranscript(config, request.transcript, post).value))
    ensures r.Success? ==>
              && !AllSpace(request.transcript)
              && r.value == CleanupResponse(true, request.transcript,
                                            CleanupTranscript(config, request.transcript, post).value)
              && r.value.cleanedTranscript != [] && Trimmed(r.value.cleanedTranscript)
  {
    StripShape(request.transcript);
    if Strip(request.transcript) == [] then
      Failure(HttpError(500, CleanupFailurePrefix + HttpErrorText(HttpError(400, EmptyTranscriptDetail))))
    else match CleanupTranscript(config, request.transcript, post)
      case Failure(message) => Failure(HttpError(500, CleanupFailurePrefix + message))
      case Success(cleaned) =>
        CleanedTextIsFinal(config, request.transcript, post);
        Success(CleanupResponse(true, request.transcript, cleaned))
  }

  /** `transcribe_and_cleanup`: HTTP errors of either step pass through unchanged; a transcript the request
      record refuses becomes a 500 "Process failed" error. */
  function TranscribeAndCleanup(filename: string, audio: Result<string, string>, config: OllamaConfig,
                                post: GenerateRequest -> HttpOutcome)
    : (r: Result<CleanupResponse, HttpError>)
    ensures r.Failure? ==> r.error.statusCode == 500
    ensures Transcribe(filename, audio).Failure? ==> r == Failure(Transcribe(filename, audio).error)
    ensures Transcribe(filename, audio).Success? && audio.value == []
            ==> r == Failure(HttpError(500, ProcessFailurePrefix + TooShortTranscriptReport))
    ensures Transcribe(filename, audio).Success? && audio.value != []
            ==> r == Cleanup(CleanupRequest(audio.value), config, post)
  {
    match Transcribe(filename, audio)
    case Failure(e) => Failure(e)
    case Success(transcription) =>
      if !transcription.success then Failure(HttpError(500, "Transcription failed"))
      else match ValidateCleanupRequest(Some(transcription.transcript))
        case Failure(_) => Failure(HttpError(500, ProcessFailurePrefix + TooShortTranscriptReport))
        case Success(request) => Cleanup(request, config, post)
  }

  /** A whitespace-only transcript passes the request record's length constraint but the endpoint refuses it. */
  lemma BlankTranscriptAdmittedThenRefused(transcript: string, config: OllamaConfig,
                                           post: GenerateRequest -> HttpOutcome)
    requires transcript != [] && AllSpace(transcript)
    ensures ValidateCleanupRequest(Some(transcript)) == Success(CleanupRequest(transcript))
    ensures Cleanup(CleanupRequest(transcript), config, post).Failure?
  {
  }

  /** A silent recording (Whisper's text is all white space) is stripped to the empty transcript, which the
      request record refuses: the combined endpoint fails with "Process failed" and never calls Ollama. */
  lemma SilentRecordingNeverReachesOllama(filename: string, text: string, config: OllamaConfig,
                                          post1: GenerateRequest -> HttpOutcome,
                                          post2: GenerateRequest -> HttpOutcome)
    requires IsAllowedUpload(filename) && AllSpace(text)
    ensures TranscribeAndCleanup(filename, TranscribeAudio(Success(text)), config, post1)
         == Failure(HttpError(500, ProcessFailurePrefix + TooShortTranscriptReport))
    ensures TranscribeAndCleanup(filename, TranscribeAudio(Success(text)), config, post1)
         == TranscribeAndCleanup(filename, TranscribeAudio(Success(text)), config, post2)
  {
    StripShape(text);
  }

  /** On success the combined endpoint returns the clean-up of Whisper's stripped text, with that text as the
      original transcript. */
  lemma CombinedIsCleanupOfTranscript(filename: string, whisper: Result<string, string>, config: OllamaConfig,
                                      post: GenerateRequest -> HttpOutcome)
    requires TranscribeAndCleanup(filename, TranscribeAudio(whisper), config, post).Success?
    ensures whisper.Success? && IsAllowedUpload(filename)
    ensures var r := TranscribeAndCleanup(filename, TranscribeAudio(whisper), config, post).value;
      && r.originalTranscript == Strip(whisper.value)
      && Success(r.cleanedTranscript) == CleanupTranscript(config, Strip(whisper.value), post)
  {
  }
}
