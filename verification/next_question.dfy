/** The adaptive next-question edge function
    (supabase/functions/next-question/index.ts): the stage directive chosen
    by answer count, the normaliser that turns whatever JSON the language
    model returned into a question, a completion or a fall-through to the
    bank, and the HTTP handler's validation and catch-all policy.

    The language-model call itself is a parameter: `LlmReply` ranges over
    every way the call can end, so each guarantee below holds for every
    reply. */
module NextQuestion {
  import opened Wrappers
  import opened Json
  import opened Types
  import FallbackBank

  /** The server's own copy of `ROLES`. */
  const ServerRoleIds: seq<string> := [
    "frontend-engineer", "product-designer", "backend-engineer", "fullstack-engineer",
    "data-scientist", "devops-engineer", "product-manager", "ui-ux-designer",
    "mobile-developer", "qa-engineer"
  ]

  /** The client's role list and the server's agree element for element. */
  lemma ServerRolesMatchClient()
    ensures |ServerRoleIds| == |RoleIds| == 10
    ensures forall i :: 0 <= i < 10 ==> ServerRoleIds[i] == RoleIds[i] == RoleId(Roles[i])
  {
    RolesWellFormed();
  }

  // ----- Stage directive -----

  /** The seven stages the system prompt can announce. */
  datatype Stage = AskName | AskEmail | AskExperience | AskSkills | AskProject | AskAvailability | Finished

  /** Position of a stage in the interview (Finished last). */
  function StageRank(s: Stage): nat {
    match s
    case AskName => 0
    case AskEmail => 1
    case AskExperience => 2
    case AskSkills => 3
    case AskProject => 4
    case AskAvailability => 5
    case Finished => 6
  }

  /** The stage for `answers.length`: one stage per count below six and the
      terminal stage for every larger count. */
  function StageOf(count: nat): (s: Stage)
    ensures StageRank(s) == if count < 6 then count else 6
  {
    if count == 0 then AskName
    else if count == 1 then AskEmail
    else if count == 2 then AskExperience
    else if count == 3 then AskSkills
    else if count == 4 then AskProject
    else if count == 5 then AskAvailability
    else Finished
  }

  function Guidance(s: Stage): string {
    match s
    case AskName => "Start with basic contact information (name)."
    case AskEmail => "Ask for email address."
    case AskExperience => "Ask about their experience level in the field."
    case AskSkills => "Ask about specific skills, tools, or technologies relevant to the role."
    case AskProject => "Ask about a specific project, portfolio piece, or work experience."
    case AskAvailability => "Ask about availability or preferences for starting the role."
    case Finished => "The application should be complete. Return completed: true."
  }

  /** The stage directive is total in the count; counts 0..5 get pairwise
      distinct stages and every count from six on gets the terminal one. */
  lemma StageDirectiveDistinct(i: nat, j: nat)
    ensures i < j && i < 6 ==> StageOf(i) != StageOf(j)
    ensures i >= 6 <==> StageOf(i) == Finished
  {
    if i < j && i < 6 {
      assert StageRank(StageOf(i)) != StageRank(StageOf(j));
    }
  }

  // ----- Answers as received -----

  /** `a.key` as a string, when the element is an object whose `key` is a string. */
  function KeyOf(a: Json): Option<string> {
    match Field(a, "key")
    case Some(JStr(k)) => Some(k)
    case _ => None
  }

  /** `answers.map(a => a.key)` compared with `includes` against the bank's
      string keys. Reading `key` of a `null` element throws: None. */
  function AnsweredKeys(answers: seq<Json>): (r: Option<set<string>>)
    ensures r.None? <==> JNull in answers
    ensures r.Some? ==> forall k :: k in r.value <==> exists i :: 0 <= i < |answers| && KeyOf(answers[i]) == Some(k)
  {
    if JNull in answers then None
    else Some(set i | 0 <= i < |answers| && KeyOf(answers[i]).Some? :: KeyOf(answers[i]).value)
  }

  // ----- Outcomes -----

  /** What the edge function answers with on status 200:
      - Ask: `{question, completed: false}` with a question of the bank (or the catch-all default);
      - AskAi: the model's own JSON object after normalisation, returned as is;
      - Complete: `{completed: true, message}`. */
  datatype Outcome = Ask(question: Question) | AskAi(response: Json) | Complete(message: Json)

  /** `getFallbackQuestion(answers, role)`; None when it throws. */
  function FallbackOutcome(answers: seq<Json>, role: Role): (r: Option<Outcome>)
    ensures r.None? <==> JNull in answers
    ensures r.Some? ==> !r.value.AskAi?
    ensures r.Some? && r.value.Ask? ==> r.value.question in FallbackBank.Bank(role)
                                          && r.value.question.key !in AnsweredKeys(answers).value
    ensures r.Some? && r.value.Complete? <==>
              AnsweredKeys(answers).Some? && FallbackBank.KeysOf(FallbackBank.Bank(role)) <= AnsweredKeys(answers).value
  {
    match AnsweredKeys(answers)
    case None => None
    case Some(keys) =>
      match FallbackBank.Fallback(role, keys)
      case Some(q) => Some(Ask(q))
      case None => Some(Complete(JStr(FallbackBank.CompletionMessage)))
  }

  // ----- Normalising the model's reply -----

  /** Every way the chat-completion call can end: it threw or came back with
      no content, its content did not parse as JSON, or it parsed. */
  datatype LlmReply = CallFailed | NoContent | Unparseable | Parsed(value: Json)

  const ValidTypes: seq<string> := ["text", "textarea", "select", "number"]

  datatype Normalised = NormComplete(message: Json) | NormQuestion(response: Json) | FallThrough

  /** The reply names a question with truthy `key`, `label` and `type`. */
  predicate HasQuestionShape(p: Json) {
    && TruthyField(p, "question")
    && var q := p.fields["question"];
    && TruthyField(q, "key") && TruthyField(q, "label") && TruthyField(q, "type")
  }

  /** The type check and the select-without-options repair applied to the
      question object's fields. */
  function RepairQuestion(q: map<string, Json>): map<string, Json>
    requires "type" in q
  {
    var t := if q["type"].JStr? && q["type"].s in ValidTypes then q["type"] else JStr("text");
    if t == JStr("select") && !("options" in q && q["options"].JArr?) then
      q["type" := JStr("textarea")] - {"options"}
    else
      q["type" := t]
  }

  /** What the client may rely on in a normalised model question. */
  predicate WellFormedAiResponse(r: Json) {
    && r.JObj?
    && !TruthyField(r, "completed")
    && "question" in r.fields && r.fields["question"].JObj?
    && var q := r.fields["question"];
    && TruthyField(q, "key") && TruthyField(q, "label")
    && "type" in q.fields && q.fields["type"].JStr? && q.fields["type"].s in ValidTypes
    && (q.fields["type"] == JStr("select") ==> "options" in q.fields && q.fields["options"].JArr?)
  }

  /** The validation in `generateNextQuestion` of a parsed reply. */
  function Normalise(p: Json): (r: Normalised)
    ensures r.NormComplete? <==> TruthyField(p, "completed")
    ensures r.NormComplete? ==> Truthy(r.message)
    ensures r.NormComplete? && TruthyField(p, "message") ==> r.message == p.fields["message"]
    ensures r.NormComplete? && !TruthyField(p, "message") ==> r.message == JStr(FallbackBank.CompletionMessage)
    ensures r.FallThrough? <==> !TruthyField(p, "completed") && !HasQuestionShape(p)
    ensures r.NormQuestion? ==> WellFormedAiResponse(r.response)
  {
    if p.JNull? then
      FallThrough  // reading `completed` of null throws inside the try
    else if TruthyField(p, "completed") then
      NormComplete(if TruthyField(p, "message") then p.fields["message"] else JStr(FallbackBank.CompletionMessage))
    else if !HasQuestionShape(p) then
      FallThrough
    else
      var q := p.fields["question"].fields;
      NormQuestion(JObj(p.fields["question" := JObj(RepairQuestion(q))]))
  }

  /** The normalised question keeps the reply's key, label and every other
      property of the reply; a valid type is kept unless it is a select
      without an options array, which becomes a textarea without options;
      any other type becomes `text`. */
  lemma NormaliseQuestionFields(p: Json)
    requires Normalise(p).NormQuestion?
    ensures var r := Normalise(p).response;
            var q := p.fields["question"].fields;
            var q' := r.fields["question"].fields;
            && r.fields.Keys == p.fields.Keys
            && (forall k :: k in p.fields && k != "question" ==> r.fields[k] == p.fields[k])
            && q'["key"] == q["key"] && q'["label"] == q["label"]
            && (forall k :: k in q && k != "type" && k != "options" ==> k in q' && q'[k] == q[k])
            && ((q["type"].JStr? && q["type"].s in ValidTypes && q["type"] != JStr("select")) ==>
                  q'["type"] == q["type"] && ("options" in q' <==> "options" in q))
            && (!(q["type"].JStr? && q["type"].s in ValidTypes) ==> q'["type"] == JStr("text"))
            && ((q["type"] == JStr("select") && "options" in q && q["options"].JArr?) ==>
                  q'["type"] == JStr("select") && q'["options"] == q["options"])
            && ((q["type"] == JStr("select") && !("options" in q && q["options"].JArr?)) ==>
                  q'["type"] == JStr("textarea") && "options" !in q')
  {
  }

  /** One answer's line of the prompt, `Question: ${a.key}\nAnswer:
      ${a.value}`, can be built: the answer is not `null` (reading `key`
      of it throws), and its key and value, when present, print. */
  predicate PrintsInPrompt(a: Json) {
    && a != JNull
    && (Field(a, "key").None? || Printable(Field(a, "key").value))
    && (Field(a, "value").None? || Printable(Field(a, "value").value))
  }

  /** The prompt-building `answers.map` outside the try completes. */
  predicate PromptBuilds(answers: seq<Json>) {
    forall i :: 0 <= i < |answers| ==> PrintsInPrompt(answers[i])
  }

  /** `generateNextQuestion(answers, role)`; None when it throws (only the
      prompt-building `answers.map` outside its try can). */
  function Generate(answers: seq<Json>, role: Role, llm: LlmReply): (r: Option<Outcome>)
    ensures r.None? <==> exists i :: 0 <= i < |answers| && !PrintsInPrompt(answers[i])
    ensures JNull in answers ==> r.None?
  {
    if !PromptBuilds(answers) then None
    else match llm
      case Parsed(p) =>
        (match Normalise(p)
         case NormComplete(m) => Some(Complete(m))
         case NormQuestion(resp) => Some(AskAi(resp))
         case FallThrough => FallbackOutcome(answers, role))
      case _ => FallbackOutcome(answers, role)
  }

  /** An answer whose value is an object with its own `toString` property
      makes the prompt throw, although the bank would have answered. */
  lemma OwnToStringThrows(role: Role, llm: LlmReply)
    ensures var a := JObj(map["key" := JObj(map["toString" := JNum(1.0)]), "value" := JStr("x")]);
            Generate([a], role, llm).None? && FallbackOutcome([a], role).Some?
  {
    var a := JObj(map["key" := JObj(map["toString" := JNum(1.0)]), "value" := JStr("x")]);
    assert !PrintsInPrompt([a][0]);
  }

  /** Once the prompt builds, a failed, empty or unparseable reply, or one
      without a usable question, yields exactly the bank's answer for the
      same request; otherwise generation throws. */
  lemma FallThroughIsFallback(answers: seq<Json>, role: Role, llm: LlmReply)
    requires !llm.Parsed? || Normalise(llm.value).FallThrough?
    ensures PromptBuilds(answers) ==> Generate(answers, role, llm) == FallbackOutcome(answers, role)
    ensures !PromptBuilds(answers) ==> Generate(answers, role, llm).None?
  {
  }

  /** The model path has no cap at six: once the prompt builds, a
      well-formed model question is asked whatever the number of answers,
      even when every bank key has been answered. */
  lemma NoCapOnModelPath(answers: seq<Json>, role: Role, p: Json)
    requires Normalise(p).NormQuestion?
    ensures PromptBuilds(answers) ==> Generate(answers, role, Parsed(p)) == Some(AskAi(Normalise(p).response))
  {
  }

  // ----- The HTTP handler -----

  datatype Body = Malformed | Body(value: Json)

  datatype Request = Request(verb: string, body: Body)

  datatype Reply =
    | Preflight                             // 'ok' with the CORS headers
    | Failure(status: int, error: string)   // `{error}` with that status
    | Success(outcome: Outcome)             // status 200

  function Status(r: Reply): int {
    match r
    case Preflight => 200
    case Failure(s, _) => s
    case Success(_) => 200
  }

  /** The catch-all's question: `name`, as text, without `required`. */
  const DefaultQuestion: Question := Question("name", "What is your full name?", Text, None, None)

  /** `role` and `ROLES.includes(role)` together: a truthy string among the ten. */
  function RequestedRole(body: Json): Option<Role> {
    match Field(body, "role")
    case Some(JStr(s)) => ParseRole(s)
    case _ => None
  }

  /** The request checks, in order: method, body, role (before answers),
      answers; a `null` body throws on destructuring. */
  datatype Checked = Rejected(status: int, error: string) | Throws | Valid(role: Role, answers: seq<Json>)

  function Check(req: Request): (c: Checked)
    ensures c.Valid? <==> req.verb == "POST" && req.body.Body? && RequestedRole(req.body.value).Some?
                          && Field(req.body.value, "answers").Some? && Field(req.body.value, "answers").value.JArr?
    ensures c.Valid? ==> RequestedRole(req.body.value) == Some(c.role)
                         && Field(req.body.value, "answers") == Some(JArr(c.answers))
    ensures c.Throws? <==> req.verb == "POST" && req.body.Body? && req.body.value.JNull?
  {
    if req.verb != "POST" then Rejected(405, "Method not allowed")
    else match req.body
      case Malformed => Rejected(400, "Invalid JSON in request body")
      case Body(b) =>
        if b.JNull? then Throws
        else match RequestedRole(b)
          case None => Rejected(400, "Invalid or missing role")
          case Some(role) =>
            match Field(b, "answers")
            case Some(JArr(answers)) => Valid(role, answers)
            case _ => Rejected(400, "Answers must be an array")
  }

  /** The `Deno.serve` handler. */
  function Handle(req: Request, hasApiKey: bool, llm: LlmReply): (rep: Reply)
    ensures rep.Preflight? <==> req.verb == "OPTIONS"
    ensures Status(rep) in {200, 400, 405}
  {
    if req.verb == "OPTIONS" then Preflight
    else match Check(req)
      case Rejected(status, error) => Failure(status, error)
      case Throws => Success(Ask(DefaultQuestion))  // destructuring null throws: catch-all
      case Valid(role, answers) => Respond(answers, role, hasApiKey, llm)
  }

  /** The validated request's answer: the model path with an API key, the
      bank without one, the default question when either throws. */
  function Respond(answers: seq<Json>, role: Role, hasApiKey: bool, llm: LlmReply): (rep: Reply)
    ensures rep.Success?
    ensures !hasApiKey ==> (rep.outcome == Ask(DefaultQuestion) <==> JNull in answers)
    ensures hasApiKey ==> (rep.outcome == Ask(DefaultQuestion) <==> !PromptBuilds(answers))
  {
    var out := if hasApiKey then Generate(answers, role, llm) else FallbackOutcome(answers, role);
    if out.Some? then Success(out.value) else Success(Ask(DefaultQuestion))
  }

  /** The checks apply in order: method, body, role (before answers), answers. */
  lemma RequestChecksInOrder(req: Request, hasApiKey: bool, llm: LlmReply)
    ensures req.verb != "OPTIONS" && req.verb != "POST" ==>
              Handle(req, hasApiKey, llm) == Failure(405, "Method not allowed")
    ensures req.verb == "POST" && req.body.Malformed? ==>
              Handle(req, hasApiKey, llm) == Failure(400, "Invalid JSON in request body")
    ensures req.verb == "POST" && req.body.Body? && !req.body.value.JNull?
            && RequestedRole(req.body.value).None? ==>
              Handle(req, hasApiKey, llm) == Failure(400, "Invalid or missing role")
    ensures req.verb == "POST" && req.body.Body? && RequestedRole(req.body.value).Some?
            && !(Field(req.body.value, "answers").Some? && Field(req.body.value, "answers").value.JArr?) ==>
              Handle(req, hasApiKey, llm) == Failure(400, "Answers must be an array")
  {
  }

  /** A role is accepted exactly when it is one of the ten identifiers. */
  lemma RoleAcceptedIffListed(body: Json)
    ensures RequestedRole(body).Some? <==>
              (Field(body, "role").Some? && Field(body, "role").value.JStr?
               && Field(body, "role").value.s in ServerRoleIds)
  {
    ServerRolesMatchClient();
  }

  /** A request that passes every check is answered by `Respond`. */
  lemma ValidRequestResponds(req: Request, hasApiKey: bool, llm: LlmReply, role: Role, answers: seq<Json>)
    requires req.verb == "POST" && req.body.Body?
    requires RequestedRole(req.body.value) == Some(role)
    requires Field(req.body.value, "answers") == Some(JArr(answers))
    ensures Handle(req, hasApiKey, llm) == Respond(answers, role, hasApiKey, llm)
  {
    assert Check(req) == Valid(role, answers);
  }

  /** A valid request without an API key is answered from the bank. */
  lemma NoKeyAnswersFromBank(req: Request, llm: LlmReply, role: Role, answers: seq<Json>)
    requires req.verb == "POST" && req.body.Body?
    requires RequestedRole(req.body.value) == Some(role)
    requires Field(req.body.value, "answers") == Some(JArr(answers))
    requires JNull !in answers
    ensures Handle(req, false, llm) == Success(FallbackOutcome(answers, role).value)
  {
    ValidRequestResponds(req, false, llm, role, answers);
  }

  /** Whatever throws ends in status 200 with the default, non-completed
      `name` question. */
  lemma ThrowsGiveDefaultQuestion(req: Request, hasApiKey: bool, llm: LlmReply)
    requires req.verb == "POST" && req.body.Body?
    requires req.body.value.JNull?
             || (RequestedRole(req.body.value).Some?
                 && Field(req.body.value, "answers").Some?
                 && Field(req.body.value, "answers").value.JArr?
                 && (JNull in Field(req.body.value, "answers").value.items
                     || (hasApiKey && !PromptBuilds(Field(req.body.value, "answers").value.items))))
    ensures Handle(req, hasApiKey, llm) == Success(Ask(DefaultQuestion))
    ensures DefaultQuestion.key == "name" && DefaultQuestion.qtype == Text && !IsRequired(DefaultQuestion)
  {
  }
}
