/** The deterministic question bank of the next-question edge function
    (supabase/functions/next-question/index.ts, `getFallbackQuestion`): six
    questions per role, and the rule "ask the first question whose key has not
    been answered; when there is none, the application is complete". */
module FallbackBank {
  import opened Wrappers
  import opened Types

  const CompletionMessage: string :=
    "Thank you for completing your application! We'll review it and get back to you soon."

  const ExperienceOptions: seq<string> :=
    ["0-1 years", "2-3 years", "4-5 years", "6-8 years", "9+ years"]

  const AvailabilityOptions: seq<string> :=
    ["Immediately", "Within 2 weeks", "Within 1 month", "Within 2 months", "More than 2 months"]

  const NameQuestion: Question :=
    Question("name", "What is your full name?", Text, None, Some(true))

  const EmailQuestion: Question :=
    Question("email", "What is your email address?", Text, None, Some(true))

  const AvailabilityQuestion: Question :=
    Question("availability", "When would you be available to start?", Select,
             Some(AvailabilityOptions), Some(true))

  function ExperienceQuestion(field: string): Question {
    Question("experience", "How many years of " + field + " experience do you have?", Select,
             Some(ExperienceOptions), Some(true))
  }

  function Essay(key: string, prompt: string): Question {
    Question(key, prompt, Textarea, None, Some(true))
  }

  /** What the experience question asks about, per role. */
  function ExperienceField(r: Role): string {
    match r
    case FrontendEngineer => "frontend development"
    case ProductDesigner => "product design"
    case BackendEngineer => "backend development"
    case FullstackEngineer => "full-stack development"
    case DataScientist => "data science"
    case DevopsEngineer => "DevOps/Infrastructure"
    case ProductManager => "product management"
    case UiUxDesigner => "UI/UX design"
    case MobileDeveloper => "mobile development"
    case QaEngineer => "QA/Testing"
  }

  /** The key of the fourth question (tools and technologies), per role. */
  function ToolsKey(r: Role): string {
    match r
    case FrontendEngineer => "technologies"
    case ProductDesigner => "design_tools"
    case BackendEngineer => "technologies"
    case FullstackEngineer => "tech_stack"
    case DataScientist => "tools_languages"
    case DevopsEngineer => "cloud_tools"
    case ProductManager => "product_tools"
    case UiUxDesigner => "design_tools"
    case MobileDeveloper => "mobile_platforms"
    case QaEngineer => "testing_tools"
  }

  function ToolsPrompt(r: Role): string {
    match r
    case FrontendEngineer => "Which frontend technologies and frameworks are you most comfortable with? (e.g., React, Vue, Angular, TypeScript)"
    case ProductDesigner => "Which design tools do you use regularly? (e.g., Figma, Sketch, Adobe Creative Suite)"
    case BackendEngineer => "Which backend technologies and frameworks are you most experienced with? (e.g., Node.js, Python, Java, Go)"
    case FullstackEngineer => "What is your preferred full-stack technology stack? Include frontend, backend, and database technologies."
    case DataScientist => "Which programming languages and data science tools do you use regularly? (e.g., Python, R, SQL, TensorFlow)"
    case DevopsEngineer => "Which cloud platforms and DevOps tools do you have experience with? (e.g., AWS, Docker, Kubernetes, Jenkins)"
    case ProductManager => "What product management tools and methodologies do you use? (e.g., Jira, Figma, Agile, OKRs)"
    case UiUxDesigner => "Which design and prototyping tools do you use regularly? (e.g., Figma, Sketch, Adobe XD, Principle)"
    case MobileDeveloper => "Which mobile development platforms and technologies do you work with? (e.g., iOS/Swift, Android/Kotlin, React Native, Flutter)"
    case QaEngineer => "Which testing tools and frameworks do you use? (e.g., Selenium, Cypress, Jest, Postman, JIRA)"
  }

  /** The key of the fifth question (a project or process), per role. */
  function ProjectKey(r: Role): string {
    match r
    case FrontendEngineer => "challenging_project"
    case ProductDesigner => "design_process"
    case BackendEngineer => "system_design"
    case FullstackEngineer => "fullstack_project"
    case DataScientist => "ml_project"
    case DevopsEngineer => "infrastructure_project"
    case ProductManager => "product_launch"
    case UiUxDesigner => "design_process"
    case MobileDeveloper => "mobile_app"
    case QaEngineer => "testing_approach"
  }

  function ProjectPrompt(r: Role): string {
    match r
    case FrontendEngineer => "Tell us about your most challenging frontend project. What made it difficult and how did you overcome the challenges?"
    case ProductDesigner => "Describe your typical design process from initial concept to final delivery. How do you ensure your designs meet user needs?"
    case BackendEngineer => "Describe a complex backend system you designed or worked on. What were the main challenges and how did you address them?"
    case FullstackEngineer => "Tell us about a full-stack application you built from scratch. What technologies did you use and what challenges did you face?"
    case DataScientist => "Describe a machine learning or data analysis project you worked on. What was the problem, approach, and outcome?"
    case DevopsEngineer => "Tell us about a complex infrastructure or automation project you implemented. What challenges did you solve?"
    case ProductManager => "Tell us about a successful product launch you managed. What was your strategy and how did you measure success?"
    case UiUxDesigner => "Walk us through your design process from user research to final handoff. How do you ensure user-centered design?"
    case MobileDeveloper => "Tell us about a mobile app you developed. What were the key features and technical challenges you faced?"
    case QaEngineer => "Describe your approach to testing a complex application. How do you balance manual and automated testing?"
  }

  /** The role's bank, in the order the questions are asked: every role
      shares the name, email and availability questions and differs in the
      experience wording and the two open questions. */
  function Bank(r: Role): (b: seq<Question>)
    ensures |b| == 6
  {
    BankFrom(ExperienceField(r), ToolsKey(r), ToolsPrompt(r), ProjectKey(r), ProjectPrompt(r))
  }

  function BankFrom(field: string, toolsKey: string, toolsPrompt: string,
                    projectKey: string, projectPrompt: string): seq<Question> {
    [ NameQuestion,
      EmailQuestion,
      ExperienceQuestion(field),
      Essay(toolsKey, toolsPrompt),
      Essay(projectKey, projectPrompt),
      AvailabilityQuestion ]
  }

  /** The keys of a list of questions, as a set. */
  function KeysOf(qs: seq<Question>): set<string> {
    set i | 0 <= i < |qs| :: qs[i].key
  }

  /** `questions.find(q => !answeredKeys.includes(q.key))`, as a position. */
  function FirstUnanswered(qs: seq<Question>, answered: set<string>): (r: Option<nat>)
    ensures r.Some? ==> r.value < |qs| && qs[r.value].key !in answered
                        && forall j :: 0 <= j < r.value ==> qs[j].key in answered
    ensures r.None? <==> forall j :: 0 <= j < |qs| ==> qs[j].key in answered
  {
    if |qs| == 0 then None
    else if qs[0].key !in answered then Some(0)
    else
      match FirstUnanswered(qs[1..], answered)
      case None => None
      case Some(i) => Some(i + 1)
  }

  /** `getFallbackQuestion`: the next question to ask, or None when the
      application is complete. Only the answered KEYS are consulted. */
  function Fallback(r: Role, answered: set<string>): (q: Option<Question>)
    ensures q.Some? ==> exists i :: 0 <= i < |Bank(r)| && q.value == Bank(r)[i]
                                    && Bank(r)[i].key !in answered
                                    && forall j :: 0 <= j < i ==> Bank(r)[j].key in answered
    ensures q.None? <==> KeysOf(Bank(r)) <= answered
  {
    FirstIn(Bank(r), answered)
  }

  /** The first question of `qs` whose key is not answered, if any. */
  function FirstIn(qs: seq<Question>, answered: set<string>): (q: Option<Question>)
    ensures q.Some? ==> exists i :: 0 <= i < |qs| && q.value == qs[i] && qs[i].key !in answered
                                    && forall j :: 0 <= j < i ==> qs[j].key in answered
    ensures q.None? <==> KeysOf(qs) <= answered
  {
    match FirstUnanswered(qs, answered)
    case None =>
      assert forall k | k in KeysOf(qs) :: k in answered;
      None
    case Some(i) => Some(qs[i])
  }

  /** No two questions of the list share a key. */
  predicate DistinctKeys(qs: seq<Question>) {
    forall i, j :: 0 <= i < j < |qs| ==> qs[i].key != qs[j].key
  }

  /** The shape every bank has: six required questions with pairwise-distinct
      keys, opening with `name`, `email`, `experience` and closing with
      `availability`, where every `select` question carries options. */
  predicate WellFormedBank(b: seq<Question>) {
    && |b| == 6
    && b[0].key == "name" && b[1].key == "email"
    && b[2].key == "experience" && b[5].key == "availability"
    && DistinctKeys(b)
    && (forall i :: 0 <= i < 6 ==> IsRequired(b[i]))
    && (forall i :: 0 <= i < 6 && b[i].qtype == Select ==>
          b[i].options.Some? && |b[i].options.value| > 0)
  }

  /** A bank built from the shared questions is well formed as soon as its
      two role-specific keys are fresh. */
  lemma BankFromWellFormed(field: string, toolsKey: string, toolsPrompt: string,
                           projectKey: string, projectPrompt: string)
    requires toolsKey !in {"name", "email", "experience", "availability", projectKey}
    requires projectKey !in {"name", "email", "experience", "availability"}
    ensures WellFormedBank(BankFrom(field, toolsKey, toolsPrompt, projectKey, projectPrompt))
  {
  }

  /** The two role-specific keys differ from each other and from the four
      shared ones. */
  lemma RoleKeysFresh(r: Role)
    ensures ToolsKey(r) !in {"name", "email", "experience", "availability", ProjectKey(r)}
    ensures ProjectKey(r) !in {"name", "email", "experience", "availability"}
  {
  }

  lemma BankWellFormed(r: Role)
    ensures WellFormedBank(Bank(r))
  {
    RoleKeysFresh(r);
    BankFromWellFormed(ExperienceField(r), ToolsKey(r), ToolsPrompt(r), ProjectKey(r), ProjectPrompt(r));
  }

  /** Answering a list with distinct keys in order: after its first k
      answers the next question is the k-th one; after all of them there is
      none. */
  lemma {:induction false} InOrderAnsweringList(b: seq<Question>, k: nat)
    requires DistinctKeys(b) && k <= |b|
    ensures k < |b| ==> FirstUnanswered(b, KeysOf(b[..k])) == Some(k)
    ensures k == |b| ==> FirstUnanswered(b, KeysOf(b[..k])).None?
  {
    var answered := KeysOf(b[..k]);
    forall j | 0 <= j < k ensures b[j].key in answered {
      assert b[..k][j] == b[j];
    }
    if k < |b| {
      forall j | 0 <= j < k ensures b[..k][j].key != b[k].key {
        assert b[..k][j] == b[j];
      }
      assert b[k].key !in answered;
    }
  }

  /** The bank answered in order: after k < 6 answers the next question is
      the k-th of the bank. */
  lemma InOrderAnswering(r: Role, k: nat)
    requires k < 6
    ensures Fallback(r, KeysOf(Bank(r)[..k])) == Some(Bank(r)[k])
  {
    RoleKeysFresh(r);
    InOrderBankFrom(ExperienceField(r), ToolsKey(r), ToolsPrompt(r), ProjectKey(r), ProjectPrompt(r), k);
  }

  /** Once every bank key is answered, there is no next question. */
  lemma CompleteAfterBank(r: Role, answered: set<string>)
    requires KeysOf(Bank(r)) <= answered
    ensures Fallback(r, answered).None?
  {
  }

  lemma InOrderBankFrom(field: string, toolsKey: string, toolsPrompt: string,
                        projectKey: string, projectPrompt: string, k: nat)
    requires toolsKey !in {"name", "email", "experience", "availability", projectKey}
    requires projectKey !in {"name", "email", "experience", "availability"}
    requires k < 6
    ensures var b := BankFrom(field, toolsKey, toolsPrompt, projectKey, projectPrompt);
            FirstIn(b, KeysOf(b[..k])) == Some(b[k])
  {
    var b := BankFrom(field, toolsKey, toolsPrompt, projectKey, projectPrompt);
    BankFromWellFormed(field, toolsKey, toolsPrompt, projectKey, projectPrompt);
    InOrderAnsweringList(b, k);
  }

  /** FirstUnanswered depends only on membership of the listed keys. */
  lemma {:induction false} FirstUnansweredLocal(qs: seq<Question>, a: set<string>, b: set<string>)
    requires forall j :: 0 <= j < |qs| ==> (qs[j].key in a <==> qs[j].key in b)
    ensures FirstUnanswered(qs, a) == FirstUnanswered(qs, b)
  {
    if |qs| > 0 {
      FirstUnansweredLocal(qs[1..], a, b);
    }
  }

  /** Keys outside the role's bank neither advance nor finish the sequence:
      the answer depends only on which bank keys have been answered, not on
      how many answers there are. */
  lemma OnlyBankKeysMatter(r: Role, answered: set<string>)
    ensures Fallback(r, answered) == Fallback(r, answered * KeysOf(Bank(r)))
  {
    OnlyListedKeysMatter(Bank(r), answered);
  }

  lemma OnlyListedKeysMatter(b: seq<Question>, answered: set<string>)
    ensures FirstUnanswered(b, answered) == FirstUnanswered(b, answered * KeysOf(b))
  {
    var restricted := answered * KeysOf(b);
    forall j | 0 <= j < |b| ensures (b[j].key in answered <==> b[j].key in restricted) {
      assert b[j].key in KeysOf(b);
    }
    FirstUnansweredLocal(b, answered, restricted);
  }

  /** Answering the question just asked moves strictly forward in the list,
      so an answered key is never issued again. */
  lemma AnsweringAdvancesList(b: seq<Question>, answered: set<string>, i: nat)
    requires FirstUnanswered(b, answered) == Some(i)
    ensures var next := FirstUnanswered(b, answered + {b[i].key});
            next.None? || (next.value > i && b[next.value].key !in answered)
  {
    var next := FirstUnanswered(b, answered + {b[i].key});
    if next.Some? {
      assert next.value != i;
    }
  }
}
