/** The application controller (src/hooks/useApplication.ts). Each
    operation reads the state it was rendered with and dispatches a fixed
    list of actions; the outcomes of the API calls are parameters. Each
    awaited step is taken as atomic, so the state after an operation is the
    rendered state with the operation's actions applied in order. */
module UseApplication {
  import opened Wrappers
  import opened Types
  import Strings
  import opened ApplicationContext
  import ProgressIndicator

  /** What a failed call rejected with: an `Error` and its message, or any
      other thrown value. */
  datatype Failure = ErrorWithMessage(message: string) | OtherThrown

  /** The outcome of `apiService.getNextQuestion`. */
  datatype NextResult = NextOk(response: NextQuestionResponse) | NextFailed(failure: Failure)

  /** The outcome of `apiService.submitApplication`. */
  datatype SubmitResult = SubmitOk | SubmitFailed(failure: Failure)

  const SetupMessage: string :=
    "Please set up your Supabase connection. Check the \"Connect to Supabase\" button in the top right."
  const ConnectMessage: string :=
    "Unable to connect to the server. Please check your internet connection."
  const InitFailedMessage: string := "Failed to load application. Please try again."
  const SubmitFailedMessage: string := "Failed to submit answer. Please try again."

  /** The error text shown for a failure: the setup message when the
      message mentions environment variables or Supabase, else the
      connectivity message when it mentions "Unable to connect", else the
      operation's own default. */
  function Classify(f: Failure, default: string): (msg: string)
    ensures msg in {SetupMessage, ConnectMessage, default}
    ensures f.OtherThrown? ==> msg == default
    ensures (f.ErrorWithMessage? && (Strings.Contains(f.message, "environment variables")
                                     || Strings.Contains(f.message, "Supabase"))) ==>
              msg == SetupMessage
  {
    match f
    case OtherThrown => default
    case ErrorWithMessage(m) =>
      if Strings.Contains(m, "environment variables") || Strings.Contains(m, "Supabase") then SetupMessage
      else if Strings.Contains(m, "Unable to connect") then ConnectMessage
      else default
  }

  /** The connectivity message needs "Unable to connect" and neither of the
      setup phrases. */
  lemma ClassifyConnect(f: Failure, default: string)
    requires default != ConnectMessage
    ensures Classify(f, default) == ConnectMessage <==>
              f.ErrorWithMessage? && Strings.Contains(f.message, "Unable to connect")
              && !Strings.Contains(f.message, "environment variables")
              && !Strings.Contains(f.message, "Supabase")
  {
  }

  /** What the API wrapper (src/services/api.ts) throws when the server
      cannot be reached. */
  const WrapperConnectError: string :=
    "Unable to connect to " + "Supabase" + ". Please check your internet connection and Supabase configuration."

  /** The wrapper's unreachable-server error mentions Supabase, so it is
      shown as the setup message, never as the connectivity one. */
  lemma WrapperConnectErrorShownAsSetup(default: string)
    ensures Classify(ErrorWithMessage(WrapperConnectError), default) == SetupMessage
  {
    Strings.ContainsMiddle("Unable to connect to ", "Supabase",
                           ". Please check your internet connection and Supabase configuration.");
  }

  /** The question shown when initialisation fails. */
  const FallbackNameQuestion: Question := Question("name", "What is your full name?", Text, None, Some(true))

  /** The request `getNextQuestion` is sent. */
  datatype Request = Request(answers: seq<Answer>, role: Role)

  /** The requests an operation sends and the actions it dispatches. */
  datatype Effects = Effects(nextRequest: Request, submitted: Option<Request>, actions: seq<Action>)

  /** `initializeApplication`, with the state it was rendered with. */
  function Initialize(s: State, result: NextResult): (e: Effects)
    ensures e.nextRequest == Request([], s.role) && e.submitted.None?
  {
    var middle :=
      match result
      case NextOk(resp) => [InitializeApplication(resp.question, 6)]
      case NextFailed(f) =>
        [SetError(Some(Classify(f, InitFailedMessage))), SetCurrentQuestion(Some(FallbackNameQuestion))];
    Effects(Request([], s.role), None, [SetLoading(true), SetError(None)] + middle + [SetLoading(false)])
  }

  /** `submitAnswer(answer)`. The submission request is sent only after a
      completed next-question response; its outcome is consulted only then. */
  function SubmitAnswer(s: State, answer: Answer, next: NextResult, submit: SubmitResult): (e: Effects)
    ensures e.nextRequest == Request(s.answers + [answer], s.role)
    ensures e.submitted.Some? <==> next.NextOk? && next.response.completed == Some(true)
    ensures e.submitted.Some? ==> e.submitted.value == e.nextRequest
  {
    var request := Request(s.answers + [answer], s.role);
    var sent := next.NextOk? && next.response.completed == Some(true);
    Effects(request, if sent then Some(request) else None, Started(answer) + SubmitTail(s, next, submit))
  }

  /** What `submitAnswer` dispatches before its first request. */
  function Started(answer: Answer): seq<Action> {
    [AddAnswer(answer), SetLoading(true), SetError(None)]
  }

  /** What `submitAnswer` dispatches once the requests have settled. */
  function SubmitTail(s: State, next: NextResult, submit: SubmitResult): seq<Action> {
    match next
    case NextOk(resp) =>
      if resp.completed == Some(true) then
        match submit
        case SubmitOk => [SetCompleted(true), SetLoading(false)]
        case SubmitFailed(f) => [SetError(Some(Classify(f, SubmitFailedMessage))), SetLoading(false)]
      else
        [SetCurrentQuestion(resp.question), SetCurrentStep(s.currentStep + 1), SetLoading(false)]
    case NextFailed(f) => [SetError(Some(Classify(f, SubmitFailedMessage))), SetLoading(false)]
  }

  /** `changeRole(newRole)`. */
  function ChangeRole(r: Role): seq<Action> {
    [SetRole(r), ResetApplication]
  }

  /** `restartApplication`. */
  function Restart(): seq<Action> {
    [ResetApplication]
  }

  /** `getProgressPercentage`: answers given over total steps, rounded. */
  function ProgressPercentage(s: State): (p: Option<int>)
    ensures p.None? <==> s.totalSteps == 0
    ensures s.totalSteps > 0 ==> ProgressIndicator.RoundsTo(100 * |s.answers|, s.totalSteps, p.value)
    ensures 0 < s.totalSteps && |s.answers| <= s.totalSteps ==> 0 <= p.value <= 100
  {
    var p := ProgressIndicator.Percent(|s.answers|, s.totalSteps);
    if 0 < s.totalSteps && |s.answers| <= s.totalSteps then
      ProgressIndicator.PercentBounds(|s.answers|, s.totalSteps);
      p
    else p
  }

  // ----- Running the dispatched actions -----

  lemma RunTwo(s: State, a: Action, b: Action)
    ensures Run(s, [a, b]) == Reduce(Reduce(s, a), b)
  {
    assert [a, b][0] == a && [a, b][1..] == [b];
    assert [b][0] == b && [b][1..] == [];
    assert Run(Reduce(s, a), [b]) == Run(Reduce(Reduce(s, a), b), []);
  }

  lemma RunThree(s: State, a: Action, b: Action, c: Action)
    ensures Run(s, [a, b, c]) == Reduce(Reduce(Reduce(s, a), b), c)
  {
    assert [a, b, c][1..] == [b, c];
    RunTwo(Reduce(s, a), b, c);
  }

  /** Successful initialisation: the returned question (or none), six
      steps, no answers, step one, not completed, no error, not loading;
      role and language are untouched. */
  lemma InitializeSucceeds(s: State, resp: NextQuestionResponse)
    ensures var t := Run(s, Initialize(s, NextOk(resp)).actions);
            && t.currentQuestion == resp.question && t.totalSteps == 6 && t.answers == []
            && t.currentStep == 1 && !t.isCompleted && t.error.None? && !t.isLoading
            && t.role == s.role && t.language == s.language
  {
    var acts := Initialize(s, NextOk(resp)).actions;
    assert acts == [SetLoading(true), SetError(None)] + [InitializeApplication(resp.question, 6), SetLoading(false)];
    RunConcat(s, [SetLoading(true), SetError(None)], [InitializeApplication(resp.question, 6), SetLoading(false)]);
    RunTwo(s, SetLoading(true), SetError(None));
    RunTwo(Run(s, [SetLoading(true), SetError(None)]), InitializeApplication(resp.question, 6), SetLoading(false));
  }

  /** Failed initialisation: the classified error and the required `name`
      question; the answers, step and completion flag are kept, loading ends. */
  lemma InitializeFails(s: State, f: Failure)
    ensures var t := Run(s, Initialize(s, NextFailed(f)).actions);
            && t.error == Some(Classify(f, InitFailedMessage))
            && t.currentQuestion == Some(FallbackNameQuestion) && IsRequired(FallbackNameQuestion)
            && t.answers == s.answers && t.currentStep == s.currentStep
            && t.isCompleted == s.isCompleted && !t.isLoading
  {
    var msg := Classify(f, InitFailedMessage);
    var acts := Initialize(s, NextFailed(f)).actions;
    var xs := [SetLoading(true), SetError(None)];
    var ys := [SetError(Some(msg)), SetCurrentQuestion(Some(FallbackNameQuestion)), SetLoading(false)];
    assert acts == xs + ys;
    RunConcat(s, xs, ys);
    RunTwo(s, xs[0], xs[1]);
    RunThree(Run(s, xs), ys[0], ys[1], ys[2]);
  }

  /** Initialisation changes neither the role nor the language. */
  lemma InitializeKeepsRoleAndLanguage(s: State, result: NextResult)
    ensures Run(s, Initialize(s, result).actions).role == s.role
    ensures Run(s, Initialize(s, result).actions).language == s.language
  {
    RunKeepsRoleAndLanguage(s, Initialize(s, result).actions);
  }

  /** Running a submission: the common start, then its tail. */
  lemma SubmitSplit(s: State, answer: Answer, next: NextResult, submit: SubmitResult)
    ensures Run(s, SubmitAnswer(s, answer, next, submit).actions)
            == Run(s.(answers := s.answers + [answer], isLoading := true, error := None), SubmitTail(s, next, submit))
  {
    RunConcat(s, Started(answer), SubmitTail(s, next, submit));
    RunThree(s, AddAnswer(answer), SetLoading(true), SetError(None));
  }

  /** Whatever the outcome, the answer is recorded at the end of the
      answers, loading ends, and role, language and total steps are kept. */
  lemma SubmitRecordsAnswer(s: State, answer: Answer, next: NextResult, submit: SubmitResult)
    ensures var t := Run(s, SubmitAnswer(s, answer, next, submit).actions);
            && t.answers == s.answers + [answer] && !t.isLoading
            && t.role == s.role && t.language == s.language && t.totalSteps == s.totalSteps
  {
    if next.NextFailed? || (next.response.completed == Some(true) && submit.SubmitFailed?) {
      SubmitFails(s, answer, next, submit);
    } else if next.response.completed == Some(true) {
      SubmitCompletes(s, answer, next.response);
    } else {
      SubmitAdvances(s, answer, next.response, submit);
    }
  }

  /** A completed response followed by a successful submission records the
      answer and marks the application completed, with no error, the same
      step and the same question; the submission carries the role and
      every answer. */
  lemma SubmitCompletes(s: State, answer: Answer, resp: NextQuestionResponse)
    requires resp.completed == Some(true)
    ensures var e := SubmitAnswer(s, answer, NextOk(resp), SubmitOk);
            && e.submitted == Some(Request(s.answers + [answer], s.role))
            && Run(s, e.actions)
               == s.(answers := s.answers + [answer], isCompleted := true, error := None, isLoading := false)
  {
    SubmitSplit(s, answer, NextOk(resp), SubmitOk);
    TwoStepTail(s.(answers := s.answers + [answer], isLoading := true, error := None), SetCompleted(true));
  }

  /** A non-completed response records the answer, shows the returned
      question and advances the step by one from the rendered step, with
      no error and nothing submitted. */
  lemma SubmitAdvances(s: State, answer: Answer, resp: NextQuestionResponse, submit: SubmitResult)
    requires resp.completed != Some(true)
    ensures var e := SubmitAnswer(s, answer, NextOk(resp), submit);
            && e.submitted.None?
            && Run(s, e.actions)
               == s.(answers := s.answers + [answer], currentQuestion := resp.question,
                     currentStep := s.currentStep + 1, error := None, isLoading := false)
  {
    SubmitSplit(s, answer, NextOk(resp), submit);
    AdvanceTail(s, answer, resp, submit);
  }

  /** The tail of a submission whose response is not completed. */
  lemma AdvanceTail(s: State, answer: Answer, resp: NextQuestionResponse, submit: SubmitResult)
    requires resp.completed != Some(true)
    ensures Run(s.(answers := s.answers + [answer], isLoading := true, error := None), SubmitTail(s, NextOk(resp), submit))
            == s.(answers := s.answers + [answer], currentQuestion := resp.question,
                  currentStep := s.currentStep + 1, error := None, isLoading := false)
  {
    var u := s.(answers := s.answers + [answer], isLoading := true, error := None);
    var a, b, c := SetCurrentQuestion(resp.question), SetCurrentStep(s.currentStep + 1), SetLoading(false);
    assert SubmitTail(s, NextOk(resp), submit) == [a, b, c];
    RunThree(u, a, b, c);
  }

  /** Any failure records the answer and sets the classified error; the
      completion flag, the step and the question stay as they were. */
  lemma SubmitFails(s: State, answer: Answer, next: NextResult, submit: SubmitResult)
    requires next.NextFailed? || (next.response.completed == Some(true) && submit.SubmitFailed?)
    ensures var t := Run(s, SubmitAnswer(s, answer, next, submit).actions);
            var f := if next.NextFailed? then next.failure else submit.failure;
            t == s.(answers := s.answers + [answer], error := Some(Classify(f, SubmitFailedMessage)), isLoading := false)
  {
    var f := if next.NextFailed? then next.failure else submit.failure;
    SubmitSplit(s, answer, next, submit);
    TwoStepTail(s.(answers := s.answers + [answer], isLoading := true, error := None),
                SetError(Some(Classify(f, SubmitFailedMessage))));
  }

  /** One action, then loading off. */
  lemma TwoStepTail(u: State, a: Action)
    ensures Run(u, [a, SetLoading(false)]) == Reduce(u, a).(isLoading := false)
  {
    RunTwo(u, a, SetLoading(false));
  }

  /** Changing role keeps only the language: the new role, no answers,
      step one, and the rest as in the initial state. */
  lemma ChangeRoleResets(s: State, r: Role)
    ensures Run(s, ChangeRole(r)) == InitialState(None).(role := r, language := s.language)
  {
    RunTwo(s, SetRole(r), ResetApplication);
  }

  /** Restarting keeps the role and the language and nothing else. */
  lemma RestartResets(s: State)
    ensures Run(s, Restart()) == InitialState(None).(role := s.role, language := s.language)
  {
    assert Restart()[1..] == [];
  }

  /** Six steps is an invariant of the controller: every operation
      started from a state with six total steps ends in one. */
  lemma TotalStepsStaySix(s: State, answer: Answer, next: NextResult, submit: SubmitResult, r: Role)
    requires s.totalSteps == 6
    ensures Run(s, Initialize(s, next).actions).totalSteps == 6
    ensures Run(s, SubmitAnswer(s, answer, next, submit).actions).totalSteps == 6
    ensures Run(s, ChangeRole(r)).totalSteps == 6
    ensures Run(s, Restart()).totalSteps == 6
  {
    if next.NextOk? {
      InitializeSucceeds(s, next.response);
    } else {
      var f := next.failure;
      var xs := [SetLoading(true), SetError(None)];
      var ys := [SetError(Some(Classify(f, InitFailedMessage))), SetCurrentQuestion(Some(FallbackNameQuestion)), SetLoading(false)];
      assert Initialize(s, next).actions == xs + ys;
      RunConcat(s, xs, ys);
      RunTwo(s, xs[0], xs[1]);
      RunThree(Run(s, xs), ys[0], ys[1], ys[2]);
    }
    SubmitRecordsAnswer(s, answer, next, submit);
    ChangeRoleResets(s, r);
    RestartResets(s);
  }
}
