/** The simplified medical chatbot: a rule-based responder over a fixed knowledge table,
    the `/get` request gate that trims, bounds and disclaims questions, and the `/health` report. */
module SimpleApp {
  import opened Wrappers
  import opened Strings

  /** The knowledge table's keys: the condition names, in the order the responder tries them. */
  const ConditionNames: seq<string> := ["diabetes", "hypertension", "heart disease"]

  /** The three texts the table holds for one condition. */
  datatype ConditionInfo = ConditionInfo(symptoms: string, treatment: string, prevention: string)

  /** The knowledge table's values, in the order of `ConditionNames`. */
  const ConditionInfos: seq<ConditionInfo> := [
    ConditionInfo(
      "Common symptoms of diabetes include increased thirst, frequent urination, fatigue, blurred vision, and unexplained weight loss.",
      "Diabetes treatment typically involves lifestyle changes, blood sugar monitoring, and may include medications or insulin therapy.",
      "Diabetes prevention includes maintaining a healthy weight, regular exercise, and a balanced diet."),
    ConditionInfo(
      "Hypertension often has no symptoms but may cause headaches, shortness of breath, or nosebleeds in severe cases.",
      "Treatment includes lifestyle modifications like diet and exercise, and may require blood pressure medications.",
      "Prevention involves limiting sodium intake, regular exercise, maintaining healthy weight, and limiting alcohol."),
    ConditionInfo(
      "Symptoms may include chest pain, shortness of breath, fatigue, and irregular heartbeat.",
      "Treatment varies but may include medications, lifestyle changes, and in some cases, surgical procedures.",
      "Prevention includes a heart-healthy diet, regular exercise, not smoking, and managing stress.")
  ]

  const PainReply := "For pain management, it's important to identify the cause. Common approaches include rest, ice/heat therapy, and over-the-counter pain relievers. Please consult a healthcare professional for persistent or severe pain."
  const FeverReply := "Fever is often a sign that your body is fighting an infection. Stay hydrated, rest, and consider fever-reducing medications if needed. Seek medical attention if fever is high (over 103\U{B0}F/39.4\U{B0}C) or persistent."
  const HeadacheReply := "Headaches can have various causes including stress, dehydration, or underlying conditions. Stay hydrated, rest in a dark room, and consider over-the-counter pain relief. Consult a doctor for frequent or severe headaches."
  const DefaultReply := "I understand you have a medical question. While I can provide general health information, it's important to consult with a qualified healthcare professional for personalized medical advice, diagnosis, and treatment recommendations."
  const OverviewSuffix := " For treatment and prevention information, please consult with a healthcare professional."

  /** The generic keyword groups, tried in this order when no condition matched. */
  const TopicKeywords: seq<seq<string>> := [["pain", "hurt", "ache"], ["fever", "temperature"], ["headache", "migraine"]]

  /** The reply of each generic group, in the order of `TopicKeywords`. */
  const TopicReplies: seq<string> := [PainReply, FeverReply, HeadacheReply]

  /** Index of the first element of `xs` that satisfies `p`: a find-first with early return. */
  function FirstMatch<T>(xs: seq<T>, p: T -> bool): (r: Option<nat>)
    ensures r.Some? ==> r.value < |xs| && p(xs[r.value])
    ensures r.Some? ==> forall j :: 0 <= j < r.value ==> !p(xs[j])
    ensures r.None? ==> forall j :: 0 <= j < |xs| ==> !p(xs[j])
  {
    if |xs| == 0 then None
    else if p(xs[0]) then Some(0)
    else match FirstMatch(xs[1..], p)
      case None => None
      case Some(i) => Some(i + 1)
  }

  /** Which of a matched condition's texts the reply gives. */
  datatype Aspect = Symptoms | Treatment | Prevention | Overview

  /** The branch the responder takes, before any text is produced: a condition of the table with the
      aspect asked about, a generic group, or the default. */
  datatype Answer = AboutCondition(condition: nat, aspect: Aspect) | AboutTopic(topic: nat) | DefaultAnswer

  /** The aspect asked about, by sub-topic keyword in the lower-cased question. */
  function AspectOf(q: string): Aspect {
    if Contains(q, "symptom") then Symptoms
    else if Contains(q, "treatment") || Contains(q, "treat") then Treatment
    else if Contains(q, "prevention") || Contains(q, "prevent") then Prevention
    else Overview
  }

  /** The responder's decision on the lower-cased question: the first condition whose name occurs, else the
      first keyword group with a keyword that occurs, else the default. */
  function SelectAnswer(q: string): (a: Answer)
    ensures a.AboutCondition? ==> a.condition < |ConditionNames|
    ensures a.AboutTopic? ==> a.topic < |TopicKeywords|
  {
    match FirstMatch(ConditionNames, (name: string) => Contains(q, name))
    case Some(i) => AboutCondition(i, AspectOf(q))
    case None =>
      match FirstMatch(TopicKeywords, (words: seq<string>) => ContainsAny(q, words))
      case Some(j) => AboutTopic(j)
      case None => DefaultAnswer
  }

  /** The text returned for a branch. */
  function AnswerText(a: Answer): (r: string)
    requires a.AboutCondition? ==> a.condition < |ConditionNames|
    requires a.AboutTopic? ==> a.topic < |TopicKeywords|
  {
    match a
    case AboutCondition(i, aspect) =>
      var name, info := ConditionNames[i], ConditionInfos[i];
      (match aspect
       case Symptoms => "Regarding " + name + " symptoms: " + info.symptoms
       case Treatment => "Regarding " + name + " treatment: " + info.treatment
       case Prevention => "Regarding " + name + " prevention: " + info.prevention
       case Overview => "About " + name + ": " + info.symptoms + OverviewSuffix)
    case AboutTopic(j) => TopicReplies[j]
    case DefaultAnswer => DefaultReply
  }

  /** `get_medical_response`: conditions first, then the generic groups, then the default reply. */
  function GetMedicalResponse(question: string): (r: string)
    ensures r != []
  {
    AnswerText(SelectAnswer(Lower(question)))
  }

  /** One step of `any(...)`: the first word, or any of the rest. */
  lemma ContainsAnyPair(q: string, w: string, rest: seq<string>)
    ensures ContainsAny(q, [w] + rest) == (Contains(q, w) || ContainsAny(q, rest))
    ensures ContainsAny(q, []) == false
  {
    assert ([w] + rest)[1..] == rest;
  }

  /** What each generic group tests, spelled out. */
  lemma GeneralTopicTests(q: string)
    ensures ContainsAny(q, TopicKeywords[0]) == (Contains(q, "pain") || Contains(q, "hurt") || Contains(q, "ache"))
    ensures ContainsAny(q, TopicKeywords[1]) == (Contains(q, "fever") || Contains(q, "temperature"))
    ensures ContainsAny(q, TopicKeywords[2]) == (Contains(q, "headache") || Contains(q, "migraine"))
  {
    ContainsAnyPair(q, "pain", ["hurt", "ache"]);
    ContainsAnyPair(q, "hurt", ["ache"]);
    ContainsAnyPair(q, "ache", []);
    ContainsAnyPair(q, "fever", ["temperature"]);
    ContainsAnyPair(q, "temperature", []);
    ContainsAnyPair(q, "headache", ["migraine"]);
    ContainsAnyPair(q, "migraine", []);
  }

  /** The reply depends only on the lower-cased question: upper- and lower-casing the input change nothing. */
  lemma ResponseIgnoresCase(question: string)
    ensures GetMedicalResponse(Lower(question)) == GetMedicalResponse(question)
    ensures GetMedicalResponse(Upper(question)) == GetMedicalResponse(question)
  {
    LowerForgetsCase(question);
  }

  /** The aspect: "symptom" beats "treat" beats "prevent"; "treatment" and "prevention" add nothing, being
      contained in those. */
  lemma AspectPriority(q: string)
    ensures Occurs(q, "symptom") ==> AspectOf(q) == Symptoms
    ensures !Occurs(q, "symptom") && Occurs(q, "treat") ==> AspectOf(q) == Treatment
    ensures !Occurs(q, "symptom") && !Occurs(q, "treat") && Occurs(q, "prevent") ==> AspectOf(q) == Prevention
    ensures !Occurs(q, "symptom") && !Occurs(q, "treat") && !Occurs(q, "prevent") ==> AspectOf(q) == Overview
  {
    ContainsIffOccurs(q, "symptom");
    ContainsIffOccurs(q, "treat");
    ContainsIffOccurs(q, "prevent");
    if Contains(q, "treatment") { ContainsTransitive(q, "treatment", "treat"); }
    if Contains(q, "prevention") { ContainsTransitive(q, "prevention", "prevent"); }
  }

  /** The first condition in table order whose name occurs in the lower-cased question is the one answered
      about, with the aspect the question asks for. */
  lemma ConditionsInTableOrder(question: string, i: nat)
    requires i < |ConditionNames|
    requires Occurs(Lower(question), ConditionNames[i])
    requires forall j :: 0 <= j < i ==> !Occurs(Lower(question), ConditionNames[j])
    ensures SelectAnswer(Lower(question)) == AboutCondition(i, AspectOf(Lower(question)))
  {
    var q := Lower(question);
    var p := (name: string) => Contains(q, name);
    forall j | 0 <= j <= i ensures p(ConditionNames[j]) <==> Occurs(q, ConditionNames[j]) {
      ContainsIffOccurs(q, ConditionNames[j]);
    }
    var m := FirstMatch(ConditionNames, p);
    assert m == Some(i);
  }

  /** The reply about a condition: "Regarding <name> <aspect>: <text>", or for the overview the symptoms
      text followed by the referral sentence. */
  lemma ConditionReplyText(question: string)
    requires SelectAnswer(Lower(question)).AboutCondition?
    ensures var a := SelectAnswer(Lower(question));
      var name, info, r := ConditionNames[a.condition], ConditionInfos[a.condition], GetMedicalResponse(question);
      && (a.aspect == Symptoms ==> r == "Regarding " + name + " symptoms: " + info.symptoms)
      && (a.aspect == Treatment ==> r == "Regarding " + name + " treatment: " + info.treatment)
      && (a.aspect == Prevention ==> r == "Regarding " + name + " prevention: " + info.prevention)
      && (a.aspect == Overview ==> r == "About " + name + ": " + info.symptoms + OverviewSuffix)
  {
  }

  /** When no condition matches, the generic groups are tried in order; since "headache" contains "ache",
      the headache group is chosen only for "migraine" without pain, hurt, ache, fever or temperature. */
  lemma GeneralTopicsInOrder(question: string)
    requires forall j :: 0 <= j < |ConditionNames| ==> !Occurs(Lower(question), ConditionNames[j])
    ensures var q, a := Lower(question), SelectAnswer(Lower(question));
      var pain := Occurs(q, "pain") || Occurs(q, "hurt") || Occurs(q, "ache");
      var fever := Occurs(q, "fever") || Occurs(q, "temperature");
      && (pain ==> a == AboutTopic(0))
      && (!pain && fever ==> a == AboutTopic(1))
      && (!pain && !fever && Occurs(q, "migraine") ==> a == AboutTopic(2))
      && (!pain && !fever && !Occurs(q, "migraine") ==> a == DefaultAnswer)
  {
    var q := Lower(question);
    forall j | 0 <= j < |ConditionNames| ensures !Contains(q, ConditionNames[j]) {
      ContainsIffOccurs(q, ConditionNames[j]);
    }
    assert FirstMatch(ConditionNames, (name: string) => Contains(q, name)).None?;
    GeneralTopicTests(q);
    ContainsIffOccurs(q, "pain");
    ContainsIffOccurs(q, "hurt");
    ContainsIffOccurs(q, "ache");
    ContainsIffOccurs(q, "fever");
    ContainsIffOccurs(q, "temperature");
    ContainsIffOccurs(q, "migraine");
    if Contains(q, "headache") { ContainsTransitive(q, "headache", "ache"); }
  }

  /** The generic groups' replies and the default reply are what the responder returns for those branches. */
  lemma GeneralReplyText(question: string)
    requires !SelectAnswer(Lower(question)).AboutCondition?
    ensures var a, r := SelectAnswer(Lower(question)), GetMedicalResponse(question);
      && (a == AboutTopic(0) ==> r == PainReply)
      && (a == AboutTopic(1) ==> r == FeverReply)
      && (a == AboutTopic(2) ==> r == HeadacheReply)
      && (a == DefaultAnswer ==> r == DefaultReply)
  {
  }

  /** A question about headaches that names no condition gets the pain reply. */
  lemma HeadacheGetsPainReply(question: string)
    requires forall j :: 0 <= j < |ConditionNames| ==> !Occurs(Lower(question), ConditionNames[j])
    requires Occurs(Lower(question), "headache")
    ensures GetMedicalResponse(question) == PainReply
  {
    var q := Lower(question);
    ContainsIffOccurs(q, "headache");
    ContainsTransitive(q, "headache", "ache");
    ContainsIffOccurs(q, "ache");
    GeneralTopicsInOrder(question);
    GeneralReplyText(question);
  }

  /** None of the keywords the responder looks for occurs in `q`. */
  ghost predicate NoKeyword(q: string) {
    && !Occurs(q, "diabetes") && !Occurs(q, "hypertension") && !Occurs(q, "heart disease")
    && !Occurs(q, "pain") && !Occurs(q, "hurt") && !Occurs(q, "ache")
    && !Occurs(q, "fever") && !Occurs(q, "temperature")
    && !Occurs(q, "headache") && !Occurs(q, "migraine")
  }

  /** Both stages fall through to the default exactly when no keyword occurs in the lower-cased question. */
  lemma DefaultReplyIffNoKeyword(question: string)
    ensures SelectAnswer(Lower(question)) == DefaultAnswer <==> NoKeyword(Lower(question))
  {
    var q := Lower(question);
    ContainsIffOccurs(q, "diabetes");
    ContainsIffOccurs(q, "hypertension");
    ContainsIffOccurs(q, "heart disease");
    ContainsIffOccurs(q, "pain");
    ContainsIffOccurs(q, "hurt");
    ContainsIffOccurs(q, "ache");
    ContainsIffOccurs(q, "fever");
    ContainsIffOccurs(q, "temperature");
    ContainsIffOccurs(q, "headache");
    ContainsIffOccurs(q, "migraine");
    ConditionStageMisses(q);
    GeneralStageMisses(q);
  }

  /** The condition stage finds nothing exactly when no condition name occurs. */
  lemma ConditionStageMisses(q: string)
    ensures FirstMatch(ConditionNames, (name: string) => Contains(q, name)).None?
        <==> !Contains(q, "diabetes") && !Contains(q, "hypertension") && !Contains(q, "heart disease")
  {
  }

  /** The generic stage finds nothing exactly when none of its keywords occurs ("headache" needs no test of
      its own, since it contains "ache"). */
  lemma GeneralStageMisses(q: string)
    ensures FirstMatch(TopicKeywords, (words: seq<string>) => ContainsAny(q, words)).None?
        <==> !Contains(q, "pain") && !Contains(q, "hurt") && !Contains(q, "ache") && !Contains(q, "fever")
             && !Contains(q, "temperature") && !Contains(q, "headache") && !Contains(q, "migraine")
  {
    GeneralTopicTests(q);
    if Contains(q, "headache") { ContainsTransitive(q, "headache", "ache"); }
  }

  /** A form post to `/get`. */
  datatype FormRequest = FormRequest(httpMethod: string, form: map<string, string>)

  /** An HTTP reply: status code and body. */
  datatype Reply = Reply(status: nat, body: string)

  const MaxQuestionLength := 1000
  const EmptyQuestionNotice := "Please provide a medical question for me to help you with."
  const LongQuestionNotice := "Please keep your medical question under 1000 characters for better processing."
  const Disclaimer := "\n\nImportant: This information is for educational purposes only. Always consult with a qualified healthcare professional for medical advice."

  /** `process_medical_query` of the simplified app. */
  function ProcessMedicalQuery(req: FormRequest): (r: Reply)
    ensures req.httpMethod != "POST" ==> r == Reply(400, "Invalid request method")
    ensures req.httpMethod == "POST" && "msg" !in req.form ==> r == Reply(400, "Missing medical question")
    ensures r.status == 200 <==> req.httpMethod == "POST" && "msg" in req.form
    ensures r.status == 200 ==> var q := Strip(req.form["msg"]);
      && (q == [] ==> r.body == EmptyQuestionNotice)
      && (|q| > MaxQuestionLength ==> r.body == LongQuestionNotice)
      && (0 < |q| <= MaxQuestionLength ==> r.body == GetMedicalResponse(q) + Disclaimer)
  {
    if req.httpMethod != "POST" then Reply(400, "Invalid request method")
    else if "msg" !in req.form then Reply(400, "Missing medical question")
    else
      var q := Strip(req.form["msg"]);
      if q == [] then Reply(200, EmptyQuestionNotice)
      else if |q| > MaxQuestionLength then Reply(200, LongQuestionNotice)
      else Reply(200, GetMedicalResponse(q) + Disclaimer)
  }

  /** A successful reply carries the disclaimer exactly when the stripped question was accepted, and then
      a non-empty answer stands before it. */
  lemma DisclaimerIffAccepted(req: FormRequest)
    requires req.httpMethod == "POST" && "msg" in req.form
    ensures var r, q := ProcessMedicalQuery(req), Strip(req.form["msg"]);
      && (0 < |q| <= MaxQuestionLength <==> |r.body| > |Disclaimer| && r.body[|r.body| - |Disclaimer|..] == Disclaimer)
      && (0 < |q| <= MaxQuestionLength ==> r.body[..|r.body| - |Disclaimer|] == GetMedicalResponse(q))
  {
    var r, q := ProcessMedicalQuery(req), Strip(req.form["msg"]);
    if 0 < |q| <= MaxQuestionLength {
      var a := GetMedicalResponse(q);
      assert r.body == a + Disclaimer;
      assert r.body[|r.body| - |Disclaimer|..] == Disclaimer;
      assert r.body[..|r.body| - |Disclaimer|] == a;
    } else {
      assert |r.body| <= |Disclaimer|;
    }
  }

  /** White space around the question never changes the reply. */
  lemma QuestionPaddingIgnored(req: FormRequest, pre: string, post: string)
    requires "msg" in req.form && AllSpace(pre) && AllSpace(post)
    ensures ProcessMedicalQuery(req.(form := req.form["msg" := pre + req.form["msg"] + post]))
         == ProcessMedicalQuery(req)
  {
    StripIgnoresPadding(pre, req.form["msg"], post);
  }

  /** A trimmed question of exactly 1000 characters is still answered. */
  lemma LongestAcceptedQuestion(question: string)
    requires Trimmed(question) && |question| == MaxQuestionLength
    ensures ProcessMedicalQuery(FormRequest("POST", map["msg" := question])).body
         == GetMedicalResponse(question) + Disclaimer
  {
    StripPadded([], question, []);
    assert [] + question + [] == question;
  }

  /** The `/health` report of the simplified app. */
  datatype HealthStatus = HealthStatus(status: string, flaskApp: bool, medicalKnowledgeBase: bool,
                                       groqApi: bool, pineconeApi: bool, readyForQueries: bool, note: string)

  /** `system_health_check`: the two API flags say only whether the key variable is set at all. */
  function SystemHealthCheck(groqApiKey: Option<string>, pineconeApiKey: Option<string>): (h: HealthStatus)
    ensures h.status == "healthy" && h.flaskApp && h.medicalKnowledgeBase && h.readyForQueries
    ensures h.groqApi <==> groqApiKey != None
    ensures h.pineconeApi <==> pineconeApiKey != None
  {
    HealthStatus("healthy", true, true, groqApiKey.Some?, pineconeApiKey.Some?, true,
                 "Using simplified medical knowledge base")
  }
}
