/** The client's application state and its reducer
    (src/contexts/ApplicationContext.tsx): an explicit record, a finite set
    of actions, and for each action the exact set of fields it may write. */
module ApplicationContext {
  import opened Wrappers
  import opened Types

  datatype State = State(
    role: Role,
    currentQuestion: Option<Question>,
    answers: seq<Answer>,
    isLoading: bool,
    isCompleted: bool,
    currentStep: int,
    totalSteps: int,
    error: Option<string>,
    language: string)

  /** The actions of `ApplicationAction`; `Unrecognised` stands for any
      other object reaching the reducer's `default` branch. */
  datatype Action =
    | SetRole(role: Role)
    | SetCurrentQuestion(question: Option<Question>)
    | AddAnswer(answer: Answer)
    | SetLoading(loading: bool)
    | SetCompleted(completed: bool)
    | SetCurrentStep(step: int)
    | SetError(error: Option<string>)
    | ResetApplication
    | InitializeApplication(question: Option<Question>, totalSteps: int)
    | SetLanguage(language: string)
    | Unrecognised

  /** `localStorage.getItem('preferredLanguage') || 'en'`: an absent or
      empty stored value gives English. */
  function StartLanguage(stored: Option<string>): (lang: string)
    ensures lang != ""
    ensures stored.Some? && stored.value != "" ==> lang == stored.value
  {
    if stored.Some? && stored.value != "" then stored.value else "en"
  }

  /** `initialState`, whose language is read once when the module loads. */
  function InitialState(stored: Option<string>): (s: State)
    ensures s.role == FrontendEngineer && s.currentQuestion.None? && s.answers == []
    ensures !s.isLoading && !s.isCompleted && s.error.None?
    ensures s.currentStep == 1 && s.totalSteps == 6
    ensures s.language == StartLanguage(stored)
  {
    State(FrontendEngineer, None, [], false, false, 1, 6, None, StartLanguage(stored))
  }

  /** The nine fields of the state, to state which ones an action writes. */
  datatype Field = RoleField | QuestionField | AnswersField | LoadingField | CompletedField
                 | StepField | TotalField | ErrorField | LanguageField

  /** The two states hold the same value in field `f`. */
  predicate Agree(s: State, t: State, f: Field) {
    match f
    case RoleField => s.role == t.role
    case QuestionField => s.currentQuestion == t.currentQuestion
    case AnswersField => s.answers == t.answers
    case LoadingField => s.isLoading == t.isLoading
    case CompletedField => s.isCompleted == t.isCompleted
    case StepField => s.currentStep == t.currentStep
    case TotalField => s.totalSteps == t.totalSteps
    case ErrorField => s.error == t.error
    case LanguageField => s.language == t.language
  }

  /** The fields an action may change. */
  function Writes(a: Action): set<Field> {
    match a
    case SetRole(_) => {RoleField}
    case SetCurrentQuestion(_) => {QuestionField}
    case AddAnswer(_) => {AnswersField}
    case SetLoading(_) => {LoadingField}
    case SetCompleted(_) => {CompletedField}
    case SetCurrentStep(_) => {StepField}
    case SetError(_) => {ErrorField}
    case ResetApplication =>
      {QuestionField, AnswersField, LoadingField, CompletedField, StepField, TotalField, ErrorField}
    case InitializeApplication(_, _) =>
      {QuestionField, AnswersField, StepField, TotalField, CompletedField, ErrorField}
    case SetLanguage(_) => {LanguageField}
    case Unrecognised => {}
  }

  /** `applicationReducer`. Every field outside `Writes(a)` keeps its value;
      the written fields take the values below. `RESET_APPLICATION` spreads
      `initialState`, whose language it overrides with the current one, so
      the stored language read at load time is irrelevant to it. */
  function Reduce(s: State, a: Action): (t: State)
    ensures a.SetRole? ==> t.role == a.role
    ensures a.SetCurrentQuestion? ==> t.currentQuestion == a.question
    ensures a.AddAnswer? ==> |t.answers| == |s.answers| + 1 && t.answers[..|s.answers|] == s.answers
                             && t.answers[|s.answers|] == a.answer
    ensures a.SetLoading? ==> t.isLoading == a.loading
    ensures a.SetCompleted? ==> t.isCompleted == a.completed
    ensures a.SetCurrentStep? ==> t.currentStep == a.step
    ensures a.SetError? ==> t.error == a.error
    ensures a.ResetApplication? ==> t == InitialState(None).(role := s.role, language := s.language)
    ensures a.InitializeApplication? ==>
              && t.currentQuestion == a.question && t.totalSteps == a.totalSteps
              && t.answers == [] && t.currentStep == 1 && !t.isCompleted && t.error.None?
    ensures a.SetLanguage? ==> t.language == a.language
    ensures a.Unrecognised? ==> t == s
  {
    match a
    case SetRole(r) => s.(role := r)
    case SetCurrentQuestion(q) => s.(currentQuestion := q)
    case AddAnswer(ans) => s.(answers := s.answers + [ans])
    case SetLoading(b) => s.(isLoading := b)
    case SetCompleted(b) => s.(isCompleted := b)
    case SetCurrentStep(n) => s.(currentStep := n)
    case SetError(e) => s.(error := e)
    case ResetApplication =>
      State(s.role, None, [], false, false, 1, 6, None, s.language)
    case InitializeApplication(q, n) =>
      s.(currentQuestion := q, totalSteps := n, answers := [], currentStep := 1,
         isCompleted := false, error := None)
    case SetLanguage(l) => s.(language := l)
    case Unrecognised => s
  }

  /** Every field outside `Writes(a)` keeps its value. */
  lemma ReduceWritesOnly(s: State, a: Action)
    ensures forall f :: f !in Writes(a) ==> Agree(s, Reduce(s, a), f)
  {
  }

  /** Reset keeps the role and the language and forgets everything else:
      two states that agree on role and language reset to the same state,
      and resetting twice is resetting once. */
  lemma ResetForgets(s: State, u: State)
    requires s.role == u.role && s.language == u.language
    ensures Reduce(s, ResetApplication) == Reduce(u, ResetApplication)
    ensures Reduce(Reduce(s, ResetApplication), ResetApplication) == Reduce(s, ResetApplication)
  {
  }

  /** Dispatching a list of actions in order. */
  function Run(s: State, actions: seq<Action>): State
    decreases |actions|
  {
    if |actions| == 0 then s else Run(Reduce(s, actions[0]), actions[1..])
  }

  /** Actions without a role change keep the role, and actions without a
      language change keep the language. */
  lemma {:induction false} RunKeepsRoleAndLanguage(s: State, actions: seq<Action>)
    ensures (forall i :: 0 <= i < |actions| ==> !actions[i].SetRole?) ==> Run(s, actions).role == s.role
    ensures (forall i :: 0 <= i < |actions| ==> !actions[i].SetLanguage?) ==> Run(s, actions).language == s.language
    decreases |actions|
  {
    if |actions| > 0 {
      var t := Reduce(s, actions[0]);
      ReduceWritesOnly(s, actions[0]);
      RunKeepsRoleAndLanguage(t, actions[1..]);
      assert forall i :: 1 <= i < |actions| ==> actions[1..][i - 1] == actions[i];
      assert !actions[0].SetRole? ==> RoleField !in Writes(actions[0]) && Agree(s, t, RoleField);
      assert !actions[0].SetLanguage? ==> LanguageField !in Writes(actions[0]) && Agree(s, t, LanguageField);
    }
  }

  /** Dispatching two lists one after the other is dispatching their
      concatenation. */
  lemma {:induction false} RunConcat(s: State, xs: seq<Action>, ys: seq<Action>)
    ensures Run(s, xs + ys) == Run(Run(s, xs), ys)
    decreases |xs|
  {
    if |xs| > 0 {
      assert (xs + ys)[0] == xs[0] && (xs + ys)[1..] == xs[1..] + ys;
      RunConcat(Reduce(s, xs[0]), xs[1..], ys);
    } else {
      assert xs + ys == ys;
    }
  }

  /** Only `ADD_ANSWER` writes the answers, and it only appends: any run
      without `RESET_APPLICATION` or `INITIALIZE_APPLICATION` keeps the
      earlier answers as a prefix. */
  lemma {:induction false} AnswersOnlyGrow(s: State, actions: seq<Action>)
    requires forall i :: 0 <= i < |actions| ==>
               !actions[i].ResetApplication? && !actions[i].InitializeApplication?
    ensures s.answers <= Run(s, actions).answers
    decreases |actions|
  {
    if |actions| > 0 {
      var t := Reduce(s, actions[0]);
      ReduceWritesOnly(s, actions[0]);
      assert s.answers <= t.answers by {
        if actions[0].AddAnswer? {
          assert t.answers[..|s.answers|] == s.answers;
        } else {
          assert AnswersField !in Writes(actions[0]);
          assert Agree(s, t, AnswersField);
        }
      }
      AnswersOnlyGrow(t, actions[1..]);
    }
  }
}
