# Medical chatbot and transcription backend: a verified model

This project models the core logic of two small services in Dafny and proves properties about it.

The first service is the medical chatbot:
- `simple_app.py` has a rule-based responder over a three-entry knowledge table, plus its `/get` request gate and `/health` report.
- `app.py` has the retrieval-augmented variant. It covers the key check, the staged start-up that fills four component slots, the request gate around the retrieval chain, and the health report.
- `src/helper.py` has document preparation. It assembles PDF page text, validates the chunk parameters, and enriches chunk metadata.

The second service is the transcription backend:
- `main.py` has the upload extension check and the endpoints' error-to-status mapping.
- `cleanup.py` builds the Ollama prompt and classifies the Ollama answer.
- `models.py` holds the request and response records.

Everything the code hands to a library or to the outside world is a parameter of the model. This covers:
- environment variables
- the LangChain chain and the four start-up factories
- the text splitter and the PDF reader
- Whisper
- the HTTP call to Ollama

Each of these appears as an `Option` or `Result` outcome, or as a function value.

Modules, one per source file, plus two shared ones:
- `Wrappers` holds `Option` and `Result`.
- `Strings` holds the Python `str` operations the code relies on: `strip` over the full `isspace` set, `lower`, the substring test `in`, `any`, `join` and `str(int)`. `Contains` is the executable substring search. It is proved equal to a reference definition by position (`Occurs`), in both directions.
- `SimpleApp` models `simple_app.py`. It is pure. The responder is split into the decision (`SelectAnswer`: a find-first over the table's condition names, then over the keyword groups) and the text of each branch (`AnswerText`). The table is its keys and its values as two sequences in the same order.
- `RagApp` models `app.py`. The four module-level slots are the fields of the class `MedicalChatbotSystem`. Its `Initialize` method assigns them stage by stage and is proved equal to the function `StagedStartup`. The request gate and the health report are pure functions of a snapshot of the slots.
- `DocumentHelper` models `src/helper.py`. The split loop, the in-place metadata loop over an `array`, the page loop and the file loop are methods. Each is proved equal to a specification function: a prefix-recursive one for the split, page and file loops, and a sequence comprehension (`EnrichChunks`) for the metadata loop. The properties are lemmas about those functions.
- `TranscriptionModels`, `OllamaCleanup` and `TranscriptionApi` model `models.py`, `cleanup.py` and `main.py`. All three are pure.

Facts about the source that the proofs make explicit:
- Because "headache" contains "ache", a question that mentions a headache gets the pain reply. The headache reply is reachable only through "migraine".
- In `app.py`, the `abort(400)` for a missing `msg` is raised inside the `try` and caught by its catch-all, so the client gets the apology text. Only a `KeyError` from the chain reaches the client as status 400.
- The catch-alls of `main.py` turn their own 400 errors into 500 errors. The detail then embeds the text of the original exception, `"400: <detail>"`.
- A whitespace-only transcript passes the `min_length=1` constraint of `CleanupRequest` but is refused by `/api/cleanup`.

## Model

| member | source | states |
|---|---|---|
| Strings.StripShape | End-to-End-medical-Chatbot-main/simple_app.py:117 | `strip()` splits the string into blank padding, a trimmed middle and blank padding; it returns "" exactly when the string is all white space |
| Strings.StripIgnoresPadding | End-to-End-medical-Chatbot-main/simple_app.py:117 | white space added around a message does not change what `strip()` returns |
| Strings.StripTrimmed | End-to-End-medical-Chatbot-main/simple_app.py:117 | what `strip()` returns neither starts nor ends with white space |
| Strings.StripBlankIffAllSpace | End-to-End-medical-Chatbot-main/simple_app.py:117-121 | `strip()` returns "" exactly when the string is all white space |
| Strings.StripPadded | End-to-End-medical-Chatbot-main/simple_app.py:117 | a trimmed string between blank paddings strips to exactly itself |
| Strings.StripIdempotent | transcription-tool/backend/app/cleanup.py:71 | stripping twice is stripping once |
| Strings.AllSpaceConcat | End-to-End-medical-Chatbot-main/src/helper.py:89-97 | a concatenation is blank exactly when both parts are blank |
| Strings.ContainsIffOccurs | End-to-End-medical-Chatbot-main/simple_app.py:66 | the left-to-right search for `needle in hay` succeeds exactly when the needle occurs at some position |
| Strings.ContainsSuffix | transcription-tool/backend/app/cleanup.py:39-42 | a string contains each of its suffixes |
| Strings.ContainsTransitive | End-to-End-medical-Chatbot-main/simple_app.py:77-84 | a substring of a substring is a substring, e.g. "ache" of "headache" |
| Strings.LowerForgetsCase | End-to-End-medical-Chatbot-main/simple_app.py:62 | lower-casing is idempotent and ignores ASCII upper-casing beforehand |
| SimpleApp.FirstMatch | End-to-End-medical-Chatbot-main/simple_app.py:65-74 | the early-return loop finds the first table entry that matches, and none before it matches; with no result, no entry matches |
| SimpleApp.GetMedicalResponse | End-to-End-medical-Chatbot-main/simple_app.py:56-91 | the responder always returns a non-empty reply |
| SimpleApp.ContainsAnyPair | End-to-End-medical-Chatbot-main/simple_app.py:77 | `any(...)` over a keyword list is the first word's test or the test of the rest, and is false on an empty list |
| SimpleApp.GeneralTopicTests | End-to-End-medical-Chatbot-main/simple_app.py:77-84 | each generic group checks exactly its keywords: pain/hurt/ache, fever/temperature, headache/migraine |
| SimpleApp.ResponseIgnoresCase | End-to-End-medical-Chatbot-main/simple_app.py:62-66 | the reply is the same for the question, its lower-case form and its ASCII upper-case form |
| SimpleApp.SelectAnswer | End-to-End-medical-Chatbot-main/simple_app.py:65-87 | the branch taken names an existing table entry or an existing keyword group |
| SimpleApp.AspectPriority | End-to-End-medical-Chatbot-main/simple_app.py:67-74 | within a matched condition, "symptom" beats "treat" beats "prevent", else the overview; "treatment" and "prevention" make no difference of their own |
| SimpleApp.ConditionsInTableOrder | End-to-End-medical-Chatbot-main/simple_app.py:38-74 | the first condition in table order (diabetes, hypertension, heart disease) whose name occurs in the lower-cased question is the one answered about, with the aspect the question asks for |
| SimpleApp.ConditionReplyText | End-to-End-medical-Chatbot-main/simple_app.py:67-74 | a condition reply is "Regarding <name> symptoms/treatment/prevention: " with that text, or "About <name>: " with the symptoms text and the referral sentence |
| SimpleApp.GeneralTopicsInOrder | End-to-End-medical-Chatbot-main/simple_app.py:77-87 | with no condition named, pain/hurt/ache beats fever/temperature beats migraine, else the default branch |
| SimpleApp.GeneralReplyText | End-to-End-medical-Chatbot-main/simple_app.py:77-87 | the three generic branches return the pain, fever and headache texts, and the default branch the default text |
| SimpleApp.HeadacheGetsPainReply | End-to-End-medical-Chatbot-main/simple_app.py:77-84 | a question that names no condition and mentions "headache" gets the pain reply |
| SimpleApp.DefaultReplyIffNoKeyword | End-to-End-medical-Chatbot-main/simple_app.py:65-87 | both stages fall through to the default exactly when none of the ten keywords occurs in the lower-cased question |
| SimpleApp.ConditionStageMisses | End-to-End-medical-Chatbot-main/simple_app.py:65-66 | the condition stage finds nothing exactly when no condition name occurs |
| SimpleApp.GeneralStageMisses | End-to-End-medical-Chatbot-main/simple_app.py:77-84 | the generic stage finds nothing exactly when none of its seven keywords occurs |
| SimpleApp.ProcessMedicalQuery | End-to-End-medical-Chatbot-main/simple_app.py:103-135 | a non-POST request and a missing `msg` give their 400 texts. Otherwise the status is 200, and the body depends on the stripped message. An empty message gives the empty-question notice. A message over 1000 characters gives the length notice. Any other message gives the responder's reply followed by the disclaimer |
| SimpleApp.DisclaimerIffAccepted | End-to-End-medical-Chatbot-main/simple_app.py:117-135 | a 200 body ends with the disclaimer exactly when the stripped question was accepted; the text before the disclaimer is the responder's reply |
| SimpleApp.QuestionPaddingIgnored | End-to-End-medical-Chatbot-main/simple_app.py:117 | white space around the message never changes the reply |
| SimpleApp.LongestAcceptedQuestion | End-to-End-medical-Chatbot-main/simple_app.py:123-135 | a trimmed question of exactly 1000 characters is answered, with the disclaimer |
| SimpleApp.SystemHealthCheck | End-to-End-medical-Chatbot-main/simple_app.py:142-155 | the report is always healthy and ready; each API flag is true exactly when its key variable is set, even if it is empty |
| RagApp.LoadEnvironmentConfiguration | End-to-End-medical-Chatbot-main/app.py:62-103 | it succeeds exactly when both keys are set and non-empty; a missing Pinecone key is reported before a missing Groq key |
| RagApp.StagedStartup | End-to-End-medical-Chatbot-main/app.py:259-317 | with bad keys, nothing changes and the verdict is false. Otherwise embeddings, retriever, language model and chain are filled in that order, each from the outputs of the stages before it. The first stage that yields `None` stops the run and leaves the later slots as they were. The verdict is true exactly when the keys are good and all four slots are filled |
| RagApp.MedicalChatbotSystem.constructor | End-to-End-medical-Chatbot-main/app.py:56-59 | at import time every slot is empty |
| RagApp.MedicalChatbotSystem.Initialize | End-to-End-medical-Chatbot-main/app.py:259-317 | the returned verdict and the new slots are `StagedStartup` of the old slots; a true verdict means the health report shows the system as ready |
| RagApp.SystemHealthCheck | End-to-End-medical-Chatbot-main/app.py:427-452 | each component flag says that its slot is set; `ready_for_queries` is the conjunction of the four flags |
| RagApp.FreshStartupVerdictIsReadiness | End-to-End-medical-Chatbot-main/app.py:280-313 | starting from the import-time state, the start-up verdict equals the readiness that the health report shows afterwards |
| RagApp.AnswerFromChain | End-to-End-medical-Chatbot-main/app.py:395-423 | status 400 comes exactly from a `KeyError`. A `TimeoutError` gives the high-load text, and any other exception the apology. A result without "answer" gives the malformed-answer text. Otherwise the reply is the stripped answer followed by the disclaimer |
| RagApp.ProcessMedicalQuery | End-to-End-medical-Chatbot-main/app.py:344-423 | a non-POST request or a missing `msg` gives the apology text, because its `abort(400)` is caught. Next come the empty and length notices on the stripped message, then the unavailable text when the chain, the retriever or the language model is missing. Otherwise the reply is the chain's outcome as classified by `AnswerFromChain`. A 400 occurs only for an admitted question on an available system |
| RagApp.ChainOnlyForAdmittedQuestions | End-to-End-medical-Chatbot-main/app.py:374-392 | when the question is not admitted or the system is unavailable, the reply does not depend on the chain |
| RagApp.EmbeddingsSlotNotConsulted | End-to-End-medical-Chatbot-main/app.py:386-388 | the embeddings slot never affects a reply |
| RagApp.ReadyIsStricterThanAvailable | End-to-End-medical-Chatbot-main/app.py:446-451 | readiness in the health report implies availability in the handler; with only the embeddings slot empty, the system is available but not ready |
| RagApp.AnswersCarryDisclaimer | End-to-End-medical-Chatbot-main/app.py:398-411 | an answered question ends with the disclaimer, which has a leading space, after the stripped and trimmed answer; padding the question changes nothing |
| DocumentHelper.ValidateChunkParameters | End-to-End-medical-Chatbot-main/src/helper.py:160-165 | the parameters are valid exactly when 0 <= overlap < size; the size check comes first, then the negative-overlap check, then the overlap-too-large check |
| DocumentHelper.DefaultParametersValid | End-to-End-medical-Chatbot-main/src/helper.py:131-132 | the defaults, 500 and 50, pass validation |
| DocumentHelper.EnrichedMetadata | End-to-End-medical-Chatbot-main/src/helper.py:205-211 | the keys are the parent's keys plus the four chunk keys. The parent's other values are kept. `chunk_index`, `total_chunks`, `chunk_size` and `parent_document_index` hold the given numbers |
| DocumentHelper.SplitDocuments | End-to-End-medical-Chatbot-main/src/helper.py:128-169 | invalid parameters fail with the validation message before anything else; valid parameters with no documents give no chunks; the sizes default to 500 and 50 |
| DocumentHelper.EnrichChunkMetadata | End-to-End-medical-Chatbot-main/src/helper.py:203-212 | the in-place loop leaves every chunk with its own text and the enriched metadata of its position, its document's chunk count, its length and its document's position |
| DocumentHelper.ChunkOneDocument | End-to-End-medical-Chatbot-main/src/helper.py:193-214 | one loop iteration adds exactly the document's enriched chunks, or nothing when its split fails |
| DocumentHelper.SplitDocumentsIntoSemanticChunks | End-to-End-medical-Chatbot-main/src/helper.py:155-232 | the validate-then-extend loop returns exactly `SplitDocuments`: the enriched chunks of each document, in document order, with failed splits contributing nothing |
| DocumentHelper.EnrichedChunks | End-to-End-medical-Chatbot-main/src/helper.py:203-212 | every chunk a document adds is piece `j` of its split, with that piece's text and the document's metadata enriched with `j`, the piece count, the text's length and the document's position |
| DocumentHelper.ChunkProvenance | End-to-End-medical-Chatbot-main/src/helper.py:191-221 | every output chunk is a piece of some document's successful split, with that piece's text and that document's enriched metadata |
| DocumentHelper.EnrichedParentIndex | End-to-End-medical-Chatbot-main/src/helper.py:210 | every chunk that a document adds records that document's position |
| DocumentHelper.ChunksInDocumentOrder | End-to-End-medical-Chatbot-main/src/helper.py:191-221 | the recorded parent positions are positions of input documents and never decrease along the output |
| DocumentHelper.SameTextsSameChunks | End-to-End-medical-Chatbot-main/src/helper.py:203-212 | two splits of a document that agree on the pieces' texts give the same chunks |
| DocumentHelper.SplitterMetadataDiscarded | End-to-End-medical-Chatbot-main/src/helper.py:203-212 | metadata attached by the splitter (its start index) is replaced, so only the texts of the splitter's chunks matter |
| DocumentHelper.AssemblePageText | End-to-End-medical-Chatbot-main/src/helper.py:85-94 | the page loop returns `AssembledText`: in page order, each extracted non-blank page's text followed by a blank line |
| DocumentHelper.AssembledTextBlankIffNoKeptPage | End-to-End-medical-Chatbot-main/src/helper.py:85-97 | the assembled text strips to "" exactly when no page was extracted with non-blank text |
| DocumentHelper.AssembledAllSpaceIffNoKeptPage | End-to-End-medical-Chatbot-main/src/helper.py:85-97 | the assembled text is all white space exactly when no page was kept |
| DocumentHelper.PdfToDocument | End-to-End-medical-Chatbot-main/src/helper.py:97-107 | a readable file yields a document exactly when some page was kept. The document's content is non-empty and trimmed. Its metadata is source, filename, "medical_pdf" and the count of all pages |
| DocumentHelper.DocumentsOf | End-to-End-medical-Chatbot-main/src/helper.py:76-115 | at most one document per file; with `EveryKeptFileLoaded`, `SkippedFileAddsNothing` and `DocumentsInFileOrder`, exactly one for each readable file with text, in file order |
| DocumentHelper.LoadedDocuments | End-to-End-medical-Chatbot-main/src/helper.py:57-69 | a missing path gives `FileNotFoundError` and a non-directory gives `ValueError`, each with its message; a directory gives the documents of its PDF files, none when it has none; the directory defaults to "Documents/" |
| DocumentHelper.LoadMedicalDocumentsFromDirectory | End-to-End-medical-Chatbot-main/src/helper.py:32-122 | the path checks and the file and page loops return exactly `LoadedDocuments` |
| DocumentHelper.LoadedDocumentProvenance | End-to-End-medical-Chatbot-main/src/helper.py:76-107 | every loaded document has trimmed, non-empty content and comes from one readable input file, whose metadata it carries |
| DocumentHelper.DocumentsOfAppend | End-to-End-medical-Chatbot-main/src/helper.py:76-107 | the files are read one after another: loading two runs of files gives the first run's documents followed by the second's |
| DocumentHelper.EveryKeptFileLoaded | End-to-End-medical-Chatbot-main/src/helper.py:76-107 | every readable file with non-blank text yields its document, placed right after the documents of the files before it |
| DocumentHelper.SkippedFileAddsNothing | End-to-End-medical-Chatbot-main/src/helper.py:76-115 | an unreadable file, or one whose text is blank, adds no document |
| DocumentHelper.DocumentsInFileOrder | End-to-End-medical-Chatbot-main/src/helper.py:76-107 | a kept file's document precedes the documents of every later file |
| TranscriptionModels.ValidateCleanupRequest | transcription-tool/backend/app/models.py:12-14 | a request is built exactly when a transcript of at least one character is present, and it keeps that transcript |
| TranscriptionModels.ErrorResponseDefaults | transcription-tool/backend/app/models.py:24-28 | built from the message alone, `success` is false and `detail` is `None` |
| OllamaCleanup.ConfigFromEnvironment | transcription-tool/backend/app/cleanup.py:9-10 | a set variable wins, even when empty; otherwise the host is "http://ollama:11434" and the model "llama3" |
| OllamaCleanup.BuildPrompt | transcription-tool/backend/app/cleanup.py:30-42 | the prompt is the fixed instructions, then the transcript verbatim, then the closing label |
| OllamaCleanup.PromptRoundTrip | transcription-tool/backend/app/cleanup.py:30-42 | the transcript can be read back from its prompt, so different transcripts give different prompts |
| OllamaCleanup.TranscriptBetweenLabels | transcription-tool/backend/app/cleanup.py:39-42 | the prompt contains the label "Original Transcript:\n", then the transcript, then the label "\n\nCleaned Transcript:" |
| OllamaCleanup.MakeGenerateRequest | transcription-tool/backend/app/cleanup.py:45-63 | the request goes to `<host>/api/generate`, with the configured model, streaming off, a 300-second timeout and a prompt that carries the transcript |
| OllamaCleanup.CleanupTranscript | transcription-tool/backend/app/cleanup.py:13-92 | success comes exactly from status 200 with a parsable body whose stripped `response`, a missing field counting as "", is non-empty. The result is then that stripped text. Timeout and connection failure keep their own messages. A non-200 status, an unparsable body, an empty answer and any other request error are wrapped with "Failed to cleanup transcript: " |
| OllamaCleanup.CleanedTextIsFinal | transcription-tool/backend/app/cleanup.py:70-78 | a successful result is never empty and is already stripped |
| OllamaCleanup.OnlyInnerFailuresAreWrapped | transcription-tool/backend/app/cleanup.py:80-92 | a failure message carries the prefix exactly when the failure was neither a timeout nor a connection failure |
| TranscriptionApi.LastIndexOf | transcription-tool/backend/app/main.py:55 | `rfind`: the result is -1 or a position of the character, with no occurrence after it |
| TranscriptionApi.FinalComponent | transcription-tool/backend/app/main.py:55 | the path's name has no '/' and is never "." |
| TranscriptionApi.Suffix | transcription-tool/backend/app/main.py:55 | the suffix is "" or an extension (a dot, then at least one character, none of them a dot) that ends the name and is shorter than it |
| TranscriptionApi.SuffixOfStemAndExtension | transcription-tool/backend/app/main.py:55 | a non-empty stem followed by an extension has exactly that extension as its suffix |
| TranscriptionApi.AllowedAreExtensions | transcription-tool/backend/app/main.py:54 | every allowed entry is an extension |
| TranscriptionApi.LowerKeepsExtensionShape | transcription-tool/backend/app/main.py:55 | lower-casing keeps and creates no dots, so it preserves the extension shape both ways |
| TranscriptionApi.AcceptedIffAllowedExtension | transcription-tool/backend/app/main.py:54-57 | an upload is accepted exactly when its final path component is a non-empty stem followed by an extension whose lower-case form is one of the seven allowed |
| TranscriptionApi.AcceptedHasAllowedExtension | transcription-tool/backend/app/main.py:54-57 | an accepted name ends with an allowed extension after a non-empty stem |
| TranscriptionApi.AllowedExtensionAccepted | transcription-tool/backend/app/main.py:54-57 | a name that ends with an allowed extension after a non-empty stem is accepted |
| TranscriptionApi.PlainNameIsFinalComponent | transcription-tool/backend/app/main.py:55 | a name without '/' other than "" and "." is its own final component |
| TranscriptionApi.DirectoryIgnored | transcription-tool/backend/app/main.py:55 | the directories in front of a name do not change its final component |
| TranscriptionApi.LastDotAt | transcription-tool/backend/app/main.py:55 | a position holding a dot with no dot after it, or -1 for a name without a dot, is what `rfind` returns |
| TranscriptionApi.StemAndExtensionAccepted | transcription-tool/backend/app/main.py:54-57 | a non-empty stem followed by an extension whose lower-case form is allowed is accepted |
| TranscriptionApi.NoSuffixRefused | transcription-tool/backend/app/main.py:54-57 | a plain name whose last dot is missing, leading or trailing has no suffix and is refused |
| TranscriptionApi.UpperCaseDoubleSuffixAccepted | transcription-tool/backend/app/main.py:54-57 | "a.tar.MP3" is accepted |
| TranscriptionApi.NameInDirectoryAccepted | transcription-tool/backend/app/main.py:54-57 | "recordings/talk.wav" is accepted |
| TranscriptionApi.NameWithoutDotRefused | transcription-tool/backend/app/main.py:54-57 | "noext" is refused |
| TranscriptionApi.DotFileRefused | transcription-tool/backend/app/main.py:54-57 | ".mp3" is refused: its dot is leading, so it has no suffix |
| TranscriptionApi.TrailingDotRefused | transcription-tool/backend/app/main.py:54-57 | "song.mp3." is refused: its suffix would be empty |
| TranscriptionApi.TranscribeAudio | transcription-tool/backend/app/transcription.py:27-58 | Whisper's text comes back stripped; its failure comes back prefixed with "Failed to transcribe audio: " |
| TranscriptionApi.UnsupportedFormatDetailText | transcription-tool/backend/app/main.py:54-61 | the refusal detail is "Unsupported file format. Allowed formats: " followed by the seven allowed extensions in list order, separated by ", " |
| TranscriptionApi.HttpErrorTextOfStatus | transcription-tool/backend/app/main.py:86-114 | an HTTP exception with status 400 or 500 reads as "400: " or "500: " followed by its detail when a catch-all formats it |
| TranscriptionApi.Transcribe | transcription-tool/backend/app/main.py:45-88 | every failure has status 500. A refused extension gives "Transcription failed: 400: Unsupported file format. Allowed formats: ..." and a transcription failure gives "Transcription failed: " plus its message. Otherwise the response carries the transcript and the file name |
| TranscriptionApi.Cleanup | transcription-tool/backend/app/main.py:91-114 | every failure has status 500. A blank transcript gives "Cleanup failed: 400: Transcript cannot be empty" and a clean-up failure gives "Cleanup failed: " plus its message. Otherwise the result is a success, echoing the original transcript unchanged beside the non-empty, trimmed clean-up |
| TranscriptionApi.TranscribeAndCleanup | transcription-tool/backend/app/main.py:117-139 | errors of the transcription step pass through unchanged. An empty transcript is refused by the request record and gives a 500 "Process failed: ..." error. Otherwise the result is `cleanup` of the transcript |
| TranscriptionApi.BlankTranscriptAdmittedThenRefused | transcription-tool/backend/app/main.py:99-100 | a whitespace-only transcript satisfies the request record's length constraint, yet `/api/cleanup` refuses it |
| TranscriptionApi.SilentRecordingNeverReachesOllama | transcription-tool/backend/app/main.py:124-139 | a recording whose text is all white space ends in "Process failed", whatever Ollama would answer |
| TranscriptionApi.CombinedIsCleanupOfTranscript | transcription-tool/backend/app/main.py:124-133 | on success, the file was accepted and transcribed. The original transcript is Whisper's stripped text, and the cleaned text is the clean-up of that text |

## Left out

- I/O and server plumbing are not modelled: Flask and FastAPI routing, CORS, template rendering, logging, `load_dotenv` and the writes back to `os.environ`, the temporary upload file, `uvicorn` and `app.run`, and the `/` and `/health` routes of the transcription backend. The environment is a parameter.
- The factories `initialize_medical_embeddings`, `setup_medical_vector_retriever`, `initialize_medical_language_model` and `create_medical_rag_chain` are left out, because they call library code. Each is a function value returning an object or `None`, and the four objects are opaque handles. The same holds for the chain's internals, the Groq model, Pinecone search and the embeddings. `initialize_medical_embedding_model` in `src/helper.py` is not modelled for the same reason.
- The recursive character splitter and the PDF text extraction are not modelled, because they are library code. The splitter is a function returning chunks or `None` when it raises. A PDF file is its listing entry: the outcome of each page, or nothing when it cannot be opened.
- `glob("*.pdf")` is not modelled, including its case rules and its order; the listing is given with the PDF files already selected, in glob order.
- The Ollama `temperature` and `top_p` options, the LLM temperature and the chunk-size average statistics are not modelled, because they are floating-point values or logging only.
- The deprecated wrappers `load_pdf_file`, `text_split` and `hugging_face_embedding_model` in `src/helper.py` are not modelled; they only forward to the modelled functions or to library code.
- The Whisper model cache in `transcription.py` is not modelled; only how `transcribe_audio` strips and wraps is modelled.
- `store_index.py` is not part of this model.
- `Strings.Lower`: only ASCII letters are case-mapped, not Python's full Unicode `lower()`. The only non-ASCII characters whose lower case is ASCII are U+0130, which becomes "i" followed by U+0307, and U+212A, which becomes "k". No keyword of the responder ends in "i" or contains "k", and no allowed extension contains either letter. So the full mapping would neither create nor destroy a match.
- `Strings.Upper`: only ASCII letters are case-mapped, not Python's full Unicode `upper()`. The upper-case clauses of `Strings.LowerForgetsCase` and `SimpleApp.ResponseIgnoresCase` hold for this ASCII mapping only. Under the full mapping U+0131 (dotless i) becomes "I" and U+017F (long s) becomes "S", so upper-casing a question first can create a keyword match, and with it change the reply.
- Non-string values are not modelled: an `answer` or `response` field that is not a string, an upload without a file name. A page whose extractor returns `None` is covered: calling `strip()` on it raises inside the per-page `try`, so the page is skipped, which is the `ExtractionFailed` page outcome. Values whose truth alone the code checks are modelled as present or absent (`None`).
- The dead branch of `get_medical_response` is left out. Its `except` returns the apology text, but nothing inside its `try` raises on a string question.
- `TranscriptionApi.TranscribeAndCleanup`: the validation library's report on a too-short transcript is stood in for by the fixed line "1 validation error for CleanupRequest". The full text names the failing field and a versioned documentation address, and the model does not reproduce it. The "Transcription failed" branch for `success` being false is kept, but it cannot be reached, since `transcribe` always reports `success` as true.
- `OllamaCleanup.CleanupTranscript`: JSON decoding is given as its outcome, a parsed body or the decoder's error message, and not re-implemented. A connection failure and a timeout are told apart as the request library does, by exception class.
- `TranscriptionApi.Transcribe`: the text of an HTTP exception inside a catch-all is taken as `"<status>: <detail>"`, the form the web framework's exception prints.
- Parent documents are values in the model, so the fact that the metadata pass updates a copy and leaves the parent's own metadata alone holds by construction rather than by a proof about aliasing.
