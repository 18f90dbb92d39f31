/** The retrieval-augmented medical chatbot: key loading, the staged start-up that fills the four
    component slots, the `/get` request gate around the retrieval chain, and the `/health` report.
    The embeddings model, the vector-store retriever, the language model and the chain are library
    objects; here each is an opaque handle, and every library call is an oracle parameter. */
module RagApp {
  import opened Wrappers
  import opened Strings

  /** Python's truth test on an environment variable: `None` and `""` both count as missing. */
  predicate KeyPresent(key: Option<string>) {
    key.Some? && key.value != []
  }

  /** The two API keys, once both are known to be present. */
  datatype ApiKeys = ApiKeys(pinecone: string, groq: string)

  const PineconeKeyMissing := "PINECONE_API_KEY not found in environment variables"
  const GroqKeyMissing := "GROQ_API_KEY not found in environment variables"

  /** `load_environment_configuration`: the Pinecone key is checked before the Groq key. */
  function LoadEnvironmentConfiguration(pineconeApiKey: Option<string>, groqApiKey: Option<string>)
    : (r: Result<ApiKeys, string>)
    ensures r.Success? <==> KeyPresent(pineconeApiKey) && KeyPresent(groqApiKey)
    ensures r.Success? ==> r.value == ApiKeys(pineconeApiKey.value, groqApiKey.value)
    ensures !KeyPresent(pineconeApiKey) ==> r == Failure(PineconeKeyMissing)
    ensures KeyPresent(pineconeApiKey) && !KeyPresent(groqApiKey) ==> r == Failure(GroqKeyMissing)
  {
    if !KeyPresent(pineconeApiKey) then Failure(PineconeKeyMissing)
    else if !KeyPresent(groqApiKey) then Failure(GroqKeyMissing)
    else Success(ApiKeys(pineconeApiKey.value, groqApiKey.value))
  }

  /** Opaque handles for the library objects the start-up creates. */
  datatype Embeddings = Embeddings(handle: nat)
  datatype Retriever = Retriever(handle: nat)
  datatype LanguageModel = LanguageModel(handle: nat)
  datatype RagChain = RagChain(handle: nat)

  /** The environment and the four factory calls of the start-up, each returning an object or `None`
      (they catch their own exceptions and return `None`). */
  datatype StartupOracle = StartupOracle(
    pineconeApiKey: Option<string>,
    groqApiKey: Option<string>,
    embeddings: Option<Embeddings>,
    retriever: (Embeddings, string) -> Option<Retriever>,
    languageModel: string -> Option<LanguageModel>,
    ragChain: (LanguageModel, Retriever) -> Option<RagChain>)

  /** The four module-level component slots. */
  datatype Components = Components(embeddings: Option<Embeddings>, retriever: Option<Retriever>,
                                   languageModel: Option<LanguageModel>, ragChain: Option<RagChain>)

  /** All four slots are filled. */
  predicate AllSet(c: Components) {
    c.embeddings.Some? && c.retriever.Some? && c.languageModel.Some? && c.ragChain.Some?
  }

  /** `initialize_medical_chatbot_system` as a function of the slots before it runs: the verdict and the slots after. */
  function StagedStartup(c: Components, env: StartupOracle): (r: (bool, Components))
    ensures var keys := LoadEnvironmentConfiguration(env.pineconeApiKey, env.groqApiKey);
      && (keys.Failure? ==> r == (false, c))
      && (keys.Success? ==> r.1.embeddings == env.embeddings)
      && (keys.Success? && env.embeddings.None?
          ==> !r.0 && r.1 == c.(embeddings := None))
      && (keys.Success? && env.embeddings.Some?
          ==> r.1.retriever == env.retriever(env.embeddings.value, keys.value.pinecone))
      && (keys.Success? && env.embeddings.Some? && r.1.retriever.None?
          ==> !r.0 && r.1.languageModel == c.languageModel && r.1.ragChain == c.ragChain)
      && (keys.Success? && env.embeddings.Some? && r.1.retriever.Some?
          ==> r.1.languageModel == env.languageModel(keys.value.groq))
      && (keys.Success? && env.embeddings.Some? && r.1.retriever.Some? && r.1.languageModel.None?
          ==> !r.0 && r.1.ragChain == c.ragChain)
      && (keys.Success? && env.embeddings.Some? && r.1.retriever.Some? && r.1.languageModel.Some?
          ==> r.1.ragChain == env.ragChain(r.1.languageModel.value, r.1.retriever.value))
      && (r.0 <==> keys.Success? && AllSet(r.1))
  {
    var keys := LoadEnvironmentConfiguration(env.pineconeApiKey, env.groqApiKey);
    if keys.Failure? then (false, c)
    else
      var c1 := c.(embeddings := env.embeddings);
      if env.embeddings.None? then (false, c1)
      else
        var c2 := c1.(retriever := env.retriever(env.embeddings.value, keys.value.pinecone));
        if c2.retriever.None? then (false, c2)
        else
          var c3 := c2.(languageModel := env.languageModel(keys.value.groq));
          if c3.languageModel.None? then (false, c3)
          else
            var c4 := c3.(ragChain := env.ragChain(c3.languageModel.value, c2.retriever.value));
            (c4.ragChain.Some?, c4)
  }

  /** The process-wide state that the start-up assigns step by step. */
  class MedicalChatbotSystem {
    var embeddings: Option<Embeddings>
    var retriever: Option<Retriever>
    var languageModel: Option<LanguageModel>
    var ragChain: Option<RagChain>

    /** The slots as a value. */
    function Snapshot(): Components
      reads this
    {
      Components(embeddings, retriever, languageModel, ragChain)
    }

    /** Module import time: every slot is `None`. */
    constructor ()
      ensures Snapshot() == Components(None, None, None, None)
    {
      embeddings, retriever, languageModel, ragChain := None, None, None, None;
    }

    /** `initialize_medical_chatbot_system`: fills the slots in order and returns at the first stage that yields `None`. */
    method Initialize(env: StartupOracle) returns (ok: bool)
      modifies this
      ensures (ok, Snapshot()) == StagedStartup(old(Snapshot()), env)
      ensures ok ==> SystemHealthCheck(Snapshot()).readyForQueries
    {
      var keys := LoadEnvironmentConfiguration(env.pineconeApiKey, env.groqApiKey);
      if keys.Failure? {
        return false;
      }
      embeddings := env.embeddings;
      if embeddings.None? {
        return false;
      }
      retriever := env.retriever(embeddings.value, keys.value.pinecone);
      if retriever.None? {
        return false;
      }
      languageModel := env.languageModel(keys.value.groq);
      if languageModel.None? {
        return false;
      }
      ragChain := env.ragChain(languageModel.value, retriever.value);
      if ragChain.None? {
        return false;
      }
      return true;
    }
  }

  /** The `/health` report. */
  datatype HealthReport = HealthReport(status: string, embeddingsModel: bool, documentRetriever: bool,
                                       languageModel: bool, ragChain: bool, readyForQueries: bool)

  /** `system_health_check`: one flag per slot, and readiness is their conjunction. */
  function SystemHealthCheck(c: Components): (h: HealthReport)
    ensures h.status == "healthy"
    ensures h.embeddingsModel <==> c.embeddings != None
    ensures h.documentRetriever <==> c.retriever != None
    ensures h.languageModel <==> c.languageModel != None
    ensures h.ragChain <==> c.ragChain != None
    ensures h.readyForQueries <==> h.embeddingsModel && h.documentRetriever && h.languageModel && h.ragChain
  {
    var e, r, l, ch := c.embeddings.Some?, c.retriever.Some?, c.languageModel.Some?, c.ragChain.Some?;
    HealthReport("healthy", e, r, l, ch, e && r && l && ch)
  }

  /** From the import-time state, the start-up verdict is exactly the readiness the health report shows afterwards. */
  lemma FreshStartupVerdictIsReadiness(env: StartupOracle)
    ensures var r := StagedStartup(Components(None, None, None, None), env);
      r.0 == SystemHealthCheck(r.1).readyForQueries
  {
    var r := StagedStartup(Components(None, None, None, None), env);
    var keys := LoadEnvironmentConfiguration(env.pineconeApiKey, env.groqApiKey);
    if keys.Success? && env.embeddings.Some? && r.1.retriever.Some? && r.1.languageModel.Some? {
      assert r.0 == r.1.ragChain.Some?;
    }
  }

  /** A form post to `/get`. */
  datatype QueryRequest = QueryRequest(httpMethod: string, form: map<string, string>)

  /** Exceptions the chain can raise, as far as the handler tells them apart. */
  datatype ChainException = TimeoutError | KeyError | OtherException

  /** What `rag_chain.invoke({"input": q})` does: return a dictionary or raise. */
  datatype ChainOutcome = Returned(response: map<string, string>) | Raised(exception: ChainException)

  /** The handler's reply: a text body (status 200) or an aborted request with an error status. */
  datatype QueryReply = Text(body: string) | Aborted(status: nat)

  const MaxQuestionLength := 1000
  const EmptyQuestionNotice := "Please provide a medical question for me to help you with."
  const LongQuestionNotice := "Please keep your medical question under 1000 characters for better processing."
  const UnavailableReply := "Sorry, the medical AI assistant is currently unavailable. Please try again later or consult with a healthcare professional."
  const MalformedAnswerReply := "I apologize, but I encountered an issue generating a response. Please try again."
  const HighLoadReply := "The medical AI system is experiencing high load. Please try again in a moment."
  const ErrorReply := "I apologize, but I encountered an error processing your medical question. Please try again or consult with a healthcare professional."
  const Disclaimer := "\n\n Important: This information is for educational purposes only. Always consult with a qualified healthcare professional for medical advice."

  /** The handler's availability test: chain, retriever and language model; the embeddings slot is not consulted. */
  predicate Available(c: Components) {
    c.ragChain.Some? && c.retriever.Some? && c.languageModel.Some?
  }

  /** The request is well formed and its stripped question passes the empty and length checks. */
  predicate Admitted(req: QueryRequest) {
    && req.httpMethod == "POST" && "msg" in req.form
    && var q := Strip(req.form["msg"]); 0 < |q| <= MaxQuestionLength
  }

  /** The body of the `try` block, up to the chain call. */
  function AnswerFromChain(outcome: ChainOutcome): (r: QueryReply)
    ensures r.Aborted? <==> outcome == Raised(KeyError)
    ensures r.Aborted? ==> r.status == 400
    ensures outcome == Raised(TimeoutError) ==> r == Text(HighLoadReply)
    ensures outcome == Raised(OtherException) ==> r == Text(ErrorReply)
    ensures outcome.Returned? && "answer" !in outcome.response ==> r == Text(MalformedAnswerReply)
    ensures outcome.Returned? && "answer" in outcome.response
            ==> r == Text(Strip(outcome.response["answer"]) + Disclaimer)
  {
    match outcome
    case Raised(TimeoutError) => Text(HighLoadReply)
    case Raised(KeyError) => Aborted(400)
    case Raised(OtherException) => Text(ErrorReply)
    case Returned(response) =>
      if "answer" !in response then Text(MalformedAnswerReply)
      else Text(Strip(response["answer"]) + Disclaimer)
  }

  /** `process_medical_query`. The `abort(400)` for a bad method or a missing `msg` is raised inside the
      `try` and caught by its catch-all, so it yields the error text; only a `KeyError` from the chain,
      whose handler aborts outside the `try`, reaches the client as status 400. */
  function ProcessMedicalQuery(c: Components, invoke: (RagChain, string) -> ChainOutcome, req: QueryRequest)
    : (r: QueryReply)
    ensures req.httpMethod != "POST" || "msg" !in req.form ==> r == Text(ErrorReply)
    ensures req.httpMethod == "POST" && "msg" in req.form && Strip(req.form["msg"]) == [] ==> r == Text(EmptyQuestionNotice)
    ensures req.httpMethod == "POST" && "msg" in req.form && |Strip(req.form["msg"])| > MaxQuestionLength
            ==> r == Text(LongQuestionNotice)
    ensures Admitted(req) && !Available(c) ==> r == Text(UnavailableReply)
    ensures Admitted(req) && Available(c)
            ==> r == AnswerFromChain(invoke(c.ragChain.value, Strip(req.form["msg"])))
    ensures r.Aborted? ==> r.status == 400 && Admitted(req) && Available(c)
  {
    if req.httpMethod != "POST" || "msg" !in req.form then Text(ErrorReply)
    else
      var q := Strip(req.form["msg"]);
      if q == [] then Text(EmptyQuestionNotice)
      else if |q| > MaxQuestionLength then Text(LongQuestionNotice)
      else if !Available(c) then Text(UnavailableReply)
      else AnswerFromChain(invoke(c.ragChain.value, q))
  }

  /** A question that is not admitted, or an unavailable system, never reaches the chain: the reply is the same
      whatever the chain would do. */
  lemma ChainOnlyForAdmittedQuestions(c: Components, invoke1: (RagChain, string) -> ChainOutcome,
                                      invoke2: (RagChain, string) -> ChainOutcome, req: QueryRequest)
    requires !Admitted(req) || !Available(c)
    ensures ProcessMedicalQuery(c, invoke1, req) == ProcessMedicalQuery(c, invoke2, req)
  {
  }

  /** The embeddings slot does not affect any reply. */
  lemma EmbeddingsSlotNotConsulted(c: Components, e: Option<Embeddings>,
                                   invoke: (RagChain, string) -> ChainOutcome, req: QueryRequest)
    ensures ProcessMedicalQuery(c.(embeddings := e), invoke, req) == ProcessMedicalQuery(c, invoke, req)
  {
  }

  /** Readiness in the health report implies availability in the handler; the converse fails when only the
      embeddings slot is empty. */
  lemma ReadyIsStricterThanAvailable(c: Components, r: Retriever, l: LanguageModel, ch: RagChain)
    ensures SystemHealthCheck(c).readyForQueries ==> Available(c)
    ensures var partial := Components(None, Some(r), Some(l), Some(ch));
      Available(partial) && !SystemHealthCheck(partial).readyForQueries
  {
  }

  /** Every answer that came from the chain ends with the disclaimer, after the stripped answer text; white
      space around the question does not change what the chain is asked. */
  lemma AnswersCarryDisclaimer(c: Components, invoke: (RagChain, string) -> ChainOutcome, req: QueryRequest,
                               pre: string, post: string)
    requires Admitted(req) && Available(c)
    requires invoke(c.ragChain.value, Strip(req.form["msg"])).Returned?
    requires "answer" in invoke(c.ragChain.value, Strip(req.form["msg"])).response
    requires AllSpace(pre) && AllSpace(post)
    ensures var r, a := ProcessMedicalQuery(c, invoke, req),
                        invoke(c.ragChain.value, Strip(req.form["msg"])).response["answer"];
      && r.Text? && |r.body| >= |Disclaimer|
      && r.body[|r.body| - |Disclaimer|..] == Disclaimer
      && r.body[..|r.body| - |Disclaimer|] == Strip(a)
      && Trimmed(r.body[..|r.body| - |Disclaimer|])
    ensures ProcessMedicalQuery(c, invoke, req.(form := req.form["msg" := pre + req.form["msg"] + post]))
         == ProcessMedicalQuery(c, invoke, req)
  {
    var a := invoke(c.ragChain.value, Strip(req.form["msg"])).response["answer"];
    var r := ProcessMedicalQuery(c, invoke, req);
    assert r.body == Strip(a) + Disclaimer;
    assert r.body[..|r.body| - |Disclaimer|] == Strip(a);
    StripShape(a);
    StripIgnoresPadding(pre, req.form["msg"], post);
  }
}
