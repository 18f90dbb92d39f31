/** Transcript clean-up through a local Ollama server: the configuration, the prompt, the generate
    request, and how the server's answer or the transport failure becomes a result or an error message.
    The HTTP call is a function parameter from the request sent to what came back. */
module OllamaCleanup {
  import opened Wrappers
  import opened Strings

  const DefaultOllamaHost := "http://ollama:11434"
  const DefaultOllamaModel := "llama3"
  const RequestTimeoutSeconds := 300

  /** Where the server is and which model it runs. */
  datatype OllamaConfig = OllamaConfig(host: string, model: string)

  /** `os.getenv(name, default)`: a set variable wins, even when it is empty. */
  function ConfigFromEnvironment(hostVariable: Option<string>, modelVariable: Option<string>): (c: OllamaConfig)
    ensures hostVariable.Some? ==> c.host == hostVariable.value
    ensures hostVariable.None? ==> c.host == DefaultOllamaHost
    ensures modelVariable.Some? ==> c.model == modelVariable.value
    ensures modelVariable.None? ==> c.model == DefaultOllamaModel
  {
    OllamaConfig(if hostVariable.Some? then hostVariable.value else DefaultOllamaHost,
                 if modelVariable.Some? then modelVariable.value else DefaultOllamaModel)
  }

  /** The label in front of the transcript. */
  const OpeningLabel := "Original Transcript:\n"

  /** The fixed instructions, then the label in front of the transcript. */
  const PromptHeader := PromptInstructions + OpeningLabel

  /** The editing instructions. */
  const PromptInstructions := "You are a transcript editor. Clean up the following transcript by:\n"
    + "1. Removing filler words (um, uh, like, you know, etc.)\n"
    + "2. Fixing grammar and punctuation\n"
    + "3. Organizing the text into proper paragraphs\n"
    + "4. Maintaining the original meaning and tone\n"
    + "5. Making it more readable while keeping all important information\n"
    + "\n"
    + "Do not add any commentary or explanations. Only return the cleaned transcript.\n"
    + "\n"

  /** The label after the transcript. */
  const PromptFooter := "\n\nCleaned Transcript:"

  /** The prompt: the instructions, the transcript verbatim, then the closing label. */
  function BuildPrompt(transcript: string): (p: string)
    ensures |p| == |PromptHeader| + |transcript| + |PromptFooter|
    ensures p[..|PromptHeader|] == PromptHeader
    ensures p[|PromptHeader|..|p| - |PromptFooter|] == transcript
    ensures p[|p| - |PromptFooter|..] == PromptFooter
  {
    var p := PromptHeader + transcript + PromptFooter;
    assert p[|PromptHeader|..|p| - |PromptFooter|] == transcript;
    p
  }

  /** Reads the transcript back out of a prompt, when the prompt has the expected frame. */
  function ExtractTranscript(p: string): (r: Option<string>)
  {
    if |p| >= |PromptHeader| + |PromptFooter| && p[..|PromptHeader|] == PromptHeader
       && p[|p| - |PromptFooter|..] == PromptFooter
    then Some(p[|PromptHeader|..|p| - |PromptFooter|])
    else None
  }

  /** The transcript can be recovered from the prompt, so two transcripts never share a prompt. */
  lemma PromptRoundTrip(transcript: string, other: string)
    ensures ExtractTranscript(BuildPrompt(transcript)) == Some(transcript)
    ensures BuildPrompt(transcript) == BuildPrompt(other) ==> transcript == other
  {
    var p := BuildPrompt(transcript);
    assert ExtractTranscript(p) == Some(transcript);
    if BuildPrompt(other) == p {
      assert ExtractTranscript(BuildPrompt(other)) == Some(other);
    }
  }

  /** The transcript appears in the prompt between "Original Transcript:\n" and "\n\nCleaned Transcript:". */
  lemma TranscriptBetweenLabels(transcript: string)
    ensures OpeningLabel == "Original Transcript:\n" && PromptFooter == "\n\nCleaned Transcript:"
    ensures Contains(BuildPrompt(transcript), OpeningLabel + transcript + PromptFooter)
  {
    var needle := OpeningLabel + transcript + PromptFooter;
    Regroup(PromptInstructions, OpeningLabel, transcript, PromptFooter, "");
    assert PromptFooter + "" == PromptFooter;
    assert PromptInstructions + needle + "" == PromptInstructions + needle;
    ContainsSuffix(PromptInstructions, needle);
  }

  /** The body of the generate call, with the address it goes to. Sampling options are not modelled. */
  datatype GenerateRequest = GenerateRequest(url: string, model: string, prompt: string, stream: bool,
                                             timeoutSeconds: nat)

  /** The request the clean-up sends for a transcript. */
  function MakeGenerateRequest(config: OllamaConfig, transcript: string): (r: GenerateRequest)
    ensures r.url == config.host + "/api/generate"
    ensures r.model == config.model && !r.stream && r.timeoutSeconds == RequestTimeoutSeconds
    ensures ExtractTranscript(r.prompt) == Some(transcript)
  {
    PromptRoundTrip(transcript, transcript);
    GenerateRequest(config.host + "/api/generate", config.model, BuildPrompt(transcript), false,
                    RequestTimeoutSeconds)
  }

  /** The decoded response body: its `response` field if it has one, or the decoder's error. */
  datatype GenerateBody = Parsed(response: Option<string>) | Unparsable(message: string)

  /** What the POST did: an HTTP response, a timeout, a failed connection, or another request error. */
  datatype HttpOutcome =
    | Responded(statusCode: int, text: string, body: GenerateBody)
    | TimedOut
    | ConnectionFailed
    | RequestFailed(message: string)

  const FailurePrefix := "Failed to cleanup transcript: "
  const TimeoutMessage := "Ollama request timed out. " + "The transcript might be too long."
  const EmptyResponseMessage := "Ollama returned empty response"

  /** The message for a server that cannot be reached. */
  function ConnectionMessage(config: OllamaConfig): string {
    "Cannot connect to Ollama at " + config.host + ". Make sure Ollama is running."
  }

  /** The message for a status other than 200. */
  function ApiErrorMessage(statusCode: int, text: string): string {
    "Ollama API error: " + IntToString(statusCode) + " - " + text
  }

  /** The `response` field stripped, with a missing field read as the empty string. */
  function CleanedText(response: Option<string>): string {
    Strip(if response.Some? then response.value else "")
  }

  /** `cleanup_transcript`: one generate call, then the cleaned text or the exception message. Errors raised
      inside the `try` are wrapped with the failure prefix; the timeout and connection messages are not. */
  function CleanupTranscript(config: OllamaConfig, transcript: string, post: GenerateRequest -> HttpOutcome)
    : (r: Result<string, string>)
    ensures var outcome := post(MakeGenerateRequest(config, transcript));
      && (r.Success? <==> outcome.Responded? && outcome.statusCode == 200 && outcome.body.Parsed?
                          && CleanedText(outcome.body.response) != [])
      && (r.Success? ==> r.value == CleanedText(outcome.body.response))
      && (outcome == TimedOut ==> r == Failure(TimeoutMessage))
      && (outcome == ConnectionFailed ==> r == Failure(ConnectionMessage(config)))
      && (outcome.RequestFailed? ==> r == Failure(FailurePrefix + outcome.message))
      && (outcome.Responded? && outcome.statusCode != 200
          ==> r == Failure(FailurePrefix + ApiErrorMessage(outcome.statusCode, outcome.text)))
      && (outcome.Responded? && outcome.statusCode == 200 && outcome.body.Unparsable?
          ==> r == Failure(FailurePrefix + outcome.body.message))
      && (outcome.Responded? && outcome.statusCode == 200 && outcome.body.Parsed?
            && CleanedText(outcome.body.response) == []
          ==> r == Failure(FailurePrefix + EmptyResponseMessage))
  {
    match post(MakeGenerateRequest(config, transcript))
    case TimedOut => Failure(TimeoutMessage)
    case ConnectionFailed => Failure(ConnectionMessage(config))
    case RequestFailed(message) => Failure(FailurePrefix + message)
    case Responded(statusCode, text, body) =>
      if statusCode != 200 then Failure(FailurePrefix + ApiErrorMessage(statusCode, text))
      else match body
        case Unparsable(message) => Failure(FailurePrefix + message)
        case Parsed(response) =>
          var cleaned := CleanedText(response);
          if cleaned == [] then Failure(FailurePrefix + EmptyResponseMessage) else Success(cleaned)
  }

  /** A successful clean-up is never empty and is already stripped: stripping it again changes nothing. */
  lemma CleanedTextIsFinal(config: OllamaConfig, transcript: string, post: GenerateRequest -> HttpOutcome)
    requires CleanupTranscript(config, transcript, post).Success?
    ensures var cleaned := CleanupTranscript(config, transcript, post).value;
      cleaned != [] && Trimmed(cleaned) && Strip(cleaned) == cleaned
  {
    var outcome := post(MakeGenerateRequest(config, transcript));
    var raw := if outcome.body.response.Some? then outcome.body.response.value else "";
    StripShape(raw);
    StripIdempotent(raw);
  }

  /** Exactly the failures raised inside the `try` carry the failure prefix; the timeout and the failed
      connection keep their own messages. */
  lemma OnlyInnerFailuresAreWrapped(config: OllamaConfig, transcript: string, post: GenerateRequest -> HttpOutcome)
    requires CleanupTranscript(config, transcript, post).Failure?
    ensures var outcome := post(MakeGenerateRequest(config, transcript));
      var message := CleanupTranscript(config, transcript, post).error;
      (FailurePrefix <= message) <==> !(outcome == TimedOut || outcome == ConnectionFailed)
  {
    var outcome := post(MakeGenerateRequest(config, transcript));
    var message := CleanupTranscript(config, transcript, post).error;
    if outcome == TimedOut {
      assert message == TimeoutMessage;
      assert message[0] != FailurePrefix[0];
    } else if outcome == ConnectionFailed {
      assert message == ConnectionMessage(config);
      assert message[0] != FailurePrefix[0];
    } else {
      assert message[..|FailurePrefix|] == FailurePrefix;
    }
  }
}
