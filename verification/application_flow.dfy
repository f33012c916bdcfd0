/** The screen flow (src/components/ApplicationFlow.tsx): what is shown
    for a state, and the two compound interactions that follow a role
    change or a restart with a fresh initialisation. */
module ApplicationFlow {
  import opened Wrappers
  import opened Types
  import opened ApplicationContext
  import UseApplication
  import ProgressIndicator

  /** The main panel: the completion card, the question card, or the
      loading placeholder. */
  datatype Panel = CompletionPanel(role: Role) | QuestionPanel(question: Question, loading: bool) | LoadingPanel

  /** The progress indicator's three inputs. */
  datatype Progress = Progress(currentStep: int, totalSteps: int, completedSteps: int)

  /** What the flow renders: the role selector and the progress indicator
      (present together or not at all), the error banner, and the panel. */
  datatype Screen = Screen(roleSelector: Option<Role>, progress: Option<Progress>,
                           errorBanner: Option<string>, panel: Panel)

  /** The rendering of a state. `{error && ...}` shows a banner only for a
      non-empty message. */
  function Render(s: State): (v: Screen)
    ensures v.roleSelector.Some? <==> !s.isCompleted
    ensures v.progress.Some? <==> !s.isCompleted
    ensures v.roleSelector.Some? ==> v.roleSelector.value == s.role
    ensures v.progress.Some? ==> v.progress.value.completedSteps == v.progress.value.currentStep - 1
                                 && v.progress.value.currentStep == s.currentStep
                                 && v.progress.value.totalSteps == s.totalSteps
    ensures v.errorBanner.Some? <==> s.error.Some? && s.error.value != ""
    ensures v.errorBanner.Some? ==> v.errorBanner == s.error
    ensures v.panel.CompletionPanel? <==> s.isCompleted
    ensures v.panel.QuestionPanel? <==> !s.isCompleted && s.currentQuestion.Some?
    ensures v.panel.QuestionPanel? ==> v.panel.question == s.currentQuestion.value && v.panel.loading == s.isLoading
    ensures v.panel.CompletionPanel? ==> v.panel.role == s.role
  {
    var chrome := !s.isCompleted;
    Screen(
      if chrome then Some(s.role) else None,
      if chrome then Some(Progress(s.currentStep, s.totalSteps, s.currentStep - 1)) else None,
      if s.error.Some? && s.error.value != "" then s.error else None,
      if s.isCompleted then CompletionPanel(s.role)
      else if s.currentQuestion.Some? then QuestionPanel(s.currentQuestion.value, s.isLoading)
      else LoadingPanel)
  }

  /** The markers drawn for a rendered progress indicator. */
  function MarkersOf(p: Progress): (ms: seq<ProgressIndicator.Marker>)
    ensures |ms| == if p.totalSteps < 0 then 0 else p.totalSteps
  {
    ProgressIndicator.Markers(p.completedSteps, p.currentStep, p.totalSteps)
  }

  /** Choosing a role dispatches the change; the role effect then runs
      `initializeApplication` with the new role, when the role changed. */
  function SelectRole(s: State, r: Role, result: UseApplication.NextResult): (t: State)
    ensures t.role == r && t.language == s.language
  {
    var u := Run(s, UseApplication.ChangeRole(r));
    UseApplication.ChangeRoleResets(s, r);
    UseApplication.InitializeKeepsRoleAndLanguage(u, result);
    if r == s.role then u else Run(u, UseApplication.Initialize(u, result).actions)
  }

  /** The effect depends on `[role, initializeApplication]`, and
      `initializeApplication` on `state.role`: dispatching the same role
      again resets the application but starts no initialisation, leaving
      the loading placeholder up. */
  lemma SameRoleOnlyResets(s: State, result: UseApplication.NextResult)
    ensures var t := SelectRole(s, s.role, result);
            && t.answers == [] && t.currentQuestion.None? && !t.isCompleted
            && Render(t).panel == LoadingPanel
  {
    UseApplication.ChangeRoleResets(s, s.role);
  }

  /** "Start New Application": reset, then initialise again with the same
      role. */
  function RestartFlow(s: State, result: UseApplication.NextResult): (t: State)
    ensures t.role == s.role && t.language == s.language
  {
    var u := Run(s, UseApplication.Restart());
    UseApplication.RestartResets(s);
    UseApplication.InitializeKeepsRoleAndLanguage(u, result);
    Run(u, UseApplication.Initialize(u, result).actions)
  }

  /** After choosing a role, with a first question returned, the screen
      asks it at step one of six, with no check marks, no error, and the
      selector showing the chosen role; whatever was answered before is
      gone. */
  lemma SelectRoleAsksFirstQuestion(s: State, r: Role, resp: NextQuestionResponse)
    requires r != s.role && resp.question.Some?
    ensures var t := SelectRole(s, r, UseApplication.NextOk(resp));
            var v := Render(t);
            && t.answers == [] && t.totalSteps == 6
            && v.panel == QuestionPanel(resp.question.value, false)
            && v.roleSelector == Some(r) && v.errorBanner.None?
            && v.progress == Some(Progress(1, 6, 0))
            && ProgressIndicator.CountDone(MarkersOf(v.progress.value)) == 0
  {
    var u := Run(s, UseApplication.ChangeRole(r));
    UseApplication.ChangeRoleResets(s, r);
    UseApplication.InitializeSucceeds(u, resp);
    ProgressIndicator.DoneMarkers(0, 1, 6);
  }

  /** When initialisation fails, the screen still offers the required
      name question, under the classified error. */
  lemma FailedStartStillAsksName(s: State, f: UseApplication.Failure)
    ensures var t := RestartFlow(s, UseApplication.NextFailed(f));
            var v := Render(t);
            && v.panel == QuestionPanel(UseApplication.FallbackNameQuestion, false)
            && v.errorBanner == Some(UseApplication.Classify(f, UseApplication.InitFailedMessage))
            && t.answers == [] && t.currentStep == 1
  {
    var u := Run(s, UseApplication.Restart());
    UseApplication.RestartResets(s);
    UseApplication.InitializeFails(u, f);
  }

  /** Once the final submission succeeds, only the completion card for the
      role is shown: no selector, no progress, no question. */
  lemma CompletionHidesTheForm(s: State, answer: Answer, resp: NextQuestionResponse)
    requires resp.completed == Some(true)
    ensures var t := Run(s, UseApplication.SubmitAnswer(s, answer, UseApplication.NextOk(resp),
                                                        UseApplication.SubmitOk).actions);
            Render(t) == Screen(None, None, None, CompletionPanel(s.role))
  {
    UseApplication.SubmitCompletes(s, answer, resp);
    UseApplication.SubmitRecordsAnswer(s, answer, UseApplication.NextOk(resp), UseApplication.SubmitOk);
  }

  /** Restarting after completion returns to the form for the same role. */
  lemma RestartReturnsToForm(s: State, result: UseApplication.NextResult)
    ensures var t := RestartFlow(s, result);
            !t.isCompleted && Render(t).roleSelector == Some(s.role) && Render(t).progress.Some?
  {
    var u := Run(s, UseApplication.Restart());
    UseApplication.RestartResets(s);
    if result.NextOk? {
      UseApplication.InitializeSucceeds(u, result.response);
    } else {
      UseApplication.InitializeFails(u, result.failure);
    }
  }
}
