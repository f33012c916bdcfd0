# Adaptive job application: a Dafny model of the core

This project models the logic of the adaptive job-application system. Each
Dafny module follows one source file:

- **The next-question edge function** (`NextQuestion`, `FallbackBank`):
  - request validation;
  - the stage directive;
  - the normalisation of the language model's reply;
  - the per-role fallback bank of six questions;
  - the catch-all default question.
- **The client state** (`ApplicationContext`): the reducer and its actions.
- **The client controller** (`UseApplication`): initialise, submit, change
  role, restart, the error classification and the progress percentage.
- **The flow screen** (`ApplicationFlow`).
- **Progress and input gating** (`ProgressIndicator`, `QuestionCard`).
- **The admin side**:
  - the CSV and text export (`AdminExport`);
  - the per-question analytics (`QuestionAnalytics`);
  - the dashboard summary (`AdminAnalytics`);
  - candidate scoring on the server (`ScoreCandidate`) and in the client
    (`CandidateScoring`);
  - the dashboard's filters and session (`AdminDashboard`).
- **The static-string translation cache** (`StaticLingo`).

Shared modules:

- `Wrappers` holds `Option`.
- `Json` holds parsed JSON values, JavaScript truthiness and property access.
- `Strings` holds substring search, ASCII lower-casing, JavaScript trimming
  and integer printing.
- `Sorting` is a stable descending sort, as `Array.prototype.sort` with a
  `b - a` comparator behaves.
- `Tally` counts occurrences into an object and gives the order in which
  `Object.entries` lists such an object.
- `Types` and `AdminTypes` hold the records.

Everything outside the program becomes a parameter of the function that
uses it:

- `Math.random()` draws, each a real in [0, 1);
- the language model's reply;
- database rows and errors;
- the outcome of service calls and of the translation service;
- the presence of an API key;
- locale-dependent date and number formatting.

Behaviours of the source that the model states as lemmas:

- The dashboard lists an application without a status under "pending".
  The export instead compares the stored status, so a "pending" export
  leaves that application out (`AdminDashboard.UnsetStatusListedButNotExported`).
- The client's data wrapper reports an unreachable server with a message
  that mentions Supabase. The controller therefore shows the set-up hint,
  not the connection hint (`UseApplication.WrapperConnectErrorShownAsSetup`).
- With an API key set, building the model prompt prints each answer's
  key and value into a template literal. An object from JSON with its own
  `toString` property cannot be printed, so such an answer throws and gets
  the default question, although the fallback bank would have answered it
  (`NextQuestion.OwnToStringThrows`).
- Scoring a candidate passes each score that is not a number in [0, 100]
  to `parseInt`, which first converts it to text. A score that is an object
  with its own `toString` property, or an array holding one, throws there,
  and the whole reply is replaced by the placeholder with the
  "temporarily unavailable" reasoning
  (`ScoreCandidate.OwnToStringScoreFallsBack`).
- Dispatching the role already selected resets the application but
  starts no initialisation, because the start effect only re-runs when the
  role changes (`ApplicationFlow.SameRoleOnlyResets`). The role selector
  is a `<select>`, which does not report re-selecting its current value.

## Model

| member | source | states |
|---|---|---|
| Types.ParseRole | src/types/index.ts:32-45 | a text is accepted as a role exactly when it is one of the ten identifiers, and the role returned prints back as that text |
| Types.RolesWellFormed | src/types/index.ts:32-43 | `ROLES` holds ten pairwise-distinct identifiers in declared order, and every role appears in it |
| Types.RoleIdInjective | src/types/index.ts:32-43 | distinct roles never share an identifier |
| Types.ParseRoleRoundTrip | src/types/index.ts:32-45 | parsing a role's identifier gives back the role, and an accepted text is the identifier of the role it parses to |
| Types.RoleLabelsDistinct | src/types/index.ts:47-58 | every role has a non-empty display label and no two roles share one |
| NextQuestion.ServerRolesMatchClient | supabase/functions/next-question/index.ts:9-20 | the edge function's own role list agrees element for element with the client's |
| NextQuestion.StageOf | supabase/functions/next-question/index.ts:165-182 | answer counts 0 to 5 each get their own stage in interview order, and any larger count gets the completion stage |
| NextQuestion.StageDirectiveDistinct | supabase/functions/next-question/index.ts:168-182 | two different counts below six never share a directive, and the completion directive is given exactly from six answers on |
| NextQuestion.AnsweredKeys | supabase/functions/next-question/index.ts:315-316 | reading the answered keys fails exactly when some answer is null; otherwise a key is answered exactly when some answer carries it |
| NextQuestion.FallbackOutcome | supabase/functions/next-question/index.ts:315-735 | the fallback never asks a model question, asks only questions of the role's bank, and completes exactly when every bank key is answered; it throws exactly on a null answer |
| NextQuestion.Normalise | supabase/functions/next-question/index.ts:277-305 | a truthy `completed` gives completion with a truthy message (the reply's own or the standard one); a reply without truthy key, label and type falls through; otherwise the question has a valid type and a select question has options |
| NextQuestion.NormaliseQuestionFields | supabase/functions/next-question/index.ts:290-305 | normalising keeps the reply's key and label; an unknown type becomes text, and a select without an options array becomes a textarea with no options |
| NextQuestion.Generate | supabase/functions/next-question/index.ts:159-313 | building the prompt throws exactly when some answer is null or has a `key` or `value` that cannot be printed into a template literal (an object with its own `toString`, or an array holding one); a null answer always throws |
| NextQuestion.OwnToStringThrows | supabase/functions/next-question/index.ts:159-161 | an answer whose key is an object with its own `toString` makes generation throw, although the bank alone would have answered it |
| NextQuestion.FallThroughIsFallback | supabase/functions/next-question/index.ts:159-313 | once the prompt builds, a missing key, a failed call, an empty or unparseable reply, or a reply without a question gives the same result as the bank; when the prompt cannot be built, generation throws |
| NextQuestion.NoCapOnModelPath | supabase/functions/next-question/index.ts:277-305 | when the prompt builds, a well-formed model question is passed on whatever the number of answers: the model path has no six-question cap |
| NextQuestion.Handle | supabase/functions/next-question/index.ts:737-838 | the handler answers a preflight exactly for OPTIONS and otherwise only with status 200, 400 or 405 |
| NextQuestion.Respond | supabase/functions/next-question/index.ts:796-816 | a validated request always gets status 200; without an API key it is the default question exactly when some answer is null, and with one exactly when the prompt cannot be built |
| NextQuestion.Check | supabase/functions/next-question/index.ts:745-793 | a request passes exactly when it is a POST whose body names a listed role and an `answers` array, and then carries that role and array; it throws exactly on a null body |
| NextQuestion.RequestChecksInOrder | supabase/functions/next-question/index.ts:745-793 | the checks run in order: a non-POST verb gets 405, a malformed body 400, a bad role 400 before the answers are looked at, and a non-array `answers` 400 |
| NextQuestion.RoleAcceptedIffListed | supabase/functions/next-question/index.ts:773-781 | a body's role is accepted exactly when it is a string among the ten identifiers |
| NextQuestion.ValidRequestResponds | supabase/functions/next-question/index.ts:770-816 | a POST whose role is listed and whose `answers` is an array is answered from those answers and that role |
| NextQuestion.NoKeyAnswersFromBank | supabase/functions/next-question/index.ts:796-807 | without an API key, a valid request is answered by the role's fallback bank |
| NextQuestion.ThrowsGiveDefaultQuestion | supabase/functions/next-question/index.ts:818-838 | a null body is caught and answered with status 200 and the default `name` text question, which is not marked required |
| FallbackBank.Bank | supabase/functions/next-question/index.ts:319-720 | every role's bank holds six questions |
| FallbackBank.BankWellFormed | supabase/functions/next-question/index.ts:319-720 | every bank holds six required questions with pairwise-distinct keys, starting with name, email and experience and ending with availability |
| FallbackBank.RoleKeysFresh | supabase/functions/next-question/index.ts:319-720 | each role's tools key and project key differ from each other and from the four shared keys |
| FallbackBank.FirstUnanswered | supabase/functions/next-question/index.ts:723 | the position found is the first question whose key is unanswered; nothing is found exactly when every key is answered |
| FallbackBank.Fallback | supabase/functions/next-question/index.ts:315-735 | the fallback question is one of the role's bank, and there is none exactly when every bank key is answered |
| FallbackBank.FirstIn | supabase/functions/next-question/index.ts:723 | `find` returns an unanswered question of the list, and nothing exactly when all its keys are answered |
| FallbackBank.InOrderAnswering | supabase/functions/next-question/index.ts:722-730 | after the first k bank questions are answered in order, the next fallback question is question k |
| FallbackBank.InOrderAnsweringList | supabase/functions/next-question/index.ts:723 | for any list with distinct keys, answering its first k questions makes question k the first unanswered one, and answering all of them leaves none |
| FallbackBank.CompleteAfterBank | supabase/functions/next-question/index.ts:731-735 | once every bank key is answered there is no further question |
| FallbackBank.OnlyBankKeysMatter | supabase/functions/next-question/index.ts:316-723 | answers whose keys are not in the role's bank change nothing |
| FallbackBank.OnlyListedKeysMatter | supabase/functions/next-question/index.ts:723 | the first unanswered question depends only on the answered keys that the list contains |
| FallbackBank.AnsweringAdvancesList | supabase/functions/next-question/index.ts:723 | answering the question just asked moves the next question strictly forward, or finishes the list |
| ApplicationContext.StartLanguage | src/contexts/ApplicationContext.tsx:37 | the starting language is never empty: it is the stored preference when that is non-empty, otherwise `en` |
| ApplicationContext.InitialState | src/contexts/ApplicationContext.tsx:28-38 | the initial state is the frontend role, no question, no answers, step 1 of 6, not loading, not completed and no error |
| ApplicationContext.Reduce | src/contexts/ApplicationContext.tsx:40-102 | adding an answer appends it; a reset returns to the initial state but keeps role and language; initialising clears the answers and error and goes to step 1; an unknown action changes nothing |
| ApplicationContext.ReduceWritesOnly | src/contexts/ApplicationContext.tsx:40-102 | each action changes only the fields it names, and every other field keeps its value |
| ApplicationContext.ResetForgets | src/contexts/ApplicationContext.tsx:77-82 | a reset forgets everything but role and language, and resetting twice is the same as resetting once |
| ApplicationContext.RunKeepsRoleAndLanguage | src/contexts/ApplicationContext.tsx:40-102 | a sequence of actions without a role change keeps the role, and one without a language change keeps the language |
| ApplicationContext.RunConcat | src/contexts/ApplicationContext.tsx:117 | dispatching two action sequences one after the other is the same as dispatching their concatenation |
| ApplicationContext.AnswersOnlyGrow | src/contexts/ApplicationContext.tsx:52-56 | without a reset or an initialisation, the answer list only grows and keeps its earlier answers as a prefix |
| UseApplication.Classify | src/hooks/useApplication.ts:31-39 | an error mentioning environment variables or Supabase shows the set-up message; one mentioning "Unable to connect" shows the connection message; anything else, or a non-Error throw, shows the default |
| UseApplication.ClassifyConnect | src/hooks/useApplication.ts:33-38 | the connection message is shown exactly when the error mentions "Unable to connect" but neither environment variables nor Supabase |
| UseApplication.WrapperConnectErrorShownAsSetup | src/hooks/useApplication.ts:34-35 | the data wrapper's unreachable-server error mentions Supabase, so the set-up message is shown for it |
| UseApplication.Initialize | src/hooks/useApplication.ts:9-56 | initialising asks for the first question of the current role with no answers and submits nothing |
| UseApplication.InitializeKeepsRoleAndLanguage | src/hooks/useApplication.ts:9-56 | initialising changes neither the role nor the language |
| UseApplication.SubmitAnswer | src/hooks/useApplication.ts:58-101 | submitting asks with the old answers plus the new one; the application is sent exactly when the reply says completed, and it is sent with that same list |
| UseApplication.ProgressPercentage | src/hooks/useApplication.ts:112-114 | the percentage is the nearest integer to answers/total times 100 (undefined for zero steps) and lies in [0, 100] while the answers do not exceed the steps |
| UseApplication.RunTwo | src/hooks/useApplication.ts:104-105 | dispatching two actions applies the reducer twice in order |
| UseApplication.RunThree | src/hooks/useApplication.ts:11-12 | dispatching three actions applies the reducer three times in order |
| UseApplication.InitializeSucceeds | src/hooks/useApplication.ts:9-27 | a successful start shows the returned question (or none), clears the answers and error, goes to step 1 of 6 and stops loading |
| UseApplication.InitializeFails | src/hooks/useApplication.ts:28-55 | a failed start shows the classified error with the required `name` question and stops loading |
| UseApplication.SubmitRecordsAnswer | src/hooks/useApplication.ts:58-64 | whatever the outcome, the submitted answer is appended to the recorded answers and loading stops |
| UseApplication.SubmitCompletes | src/hooks/useApplication.ts:73-79 | a completed reply submits the full answer list; the state ends with the answer appended, completed, without error and no longer loading, and nothing else changes |
| UseApplication.SubmitAdvances | src/hooks/useApplication.ts:80-83 | a reply that is not completed submits nothing; the state ends with the answer appended, the next question shown, the step advanced by one, without error and no longer loading, and nothing else changes |
| UseApplication.SubmitFails | src/hooks/useApplication.ts:84-97 | a failed request, or a failed submission after completion, ends with the answer appended, the classified error shown and loading off; question, step and completion are unchanged |
| UseApplication.ChangeRoleResets | src/hooks/useApplication.ts:103-106 | changing role gives the initial state with the new role and the same language |
| UseApplication.RestartResets | src/hooks/useApplication.ts:108-110 | restarting gives the initial state with the same role and language |
| UseApplication.TotalStepsStaySix | src/hooks/useApplication.ts:25 | starting, submitting, changing role and restarting all keep the step total at six |
| ApplicationFlow.Render | src/components/ApplicationFlow.tsx:54-89 | the role toggle and progress bar show exactly while not completed; the banner shows exactly a non-empty error; the completion card shows exactly when completed, otherwise the question card when there is a question, otherwise the loader |
| ApplicationFlow.MarkersOf | src/components/ApplicationFlow.tsx:57-61 | the progress bar draws one marker per step |
| ApplicationFlow.SelectRole | src/components/ApplicationFlow.tsx:26-32 | selecting a role, then the start the effect triggers when the role changed, leaves the new role and the language in place |
| ApplicationFlow.RestartFlow | src/components/ApplicationFlow.tsx:34-40 | restarting, then starting again, keeps role and language |
| ApplicationFlow.SelectRoleAsksFirstQuestion | src/components/ApplicationFlow.tsx:26-32 | after a change to a different role whose start succeeds, the question card shows the returned question at step 1 with no answers |
| ApplicationFlow.SameRoleOnlyResets | src/components/ApplicationFlow.tsx:26-28 | dispatching the current role again resets the answers and starts nothing, so the loading placeholder stays up |
| ApplicationFlow.FailedStartStillAsksName | src/components/ApplicationFlow.tsx:34-40 | after a restart whose start fails, the screen shows the error banner and the `name` question |
| ApplicationFlow.CompletionHidesTheForm | src/components/ApplicationFlow.tsx:54-75 | after a completed submission, only the completion card shows: no role toggle and no progress bar |
| ApplicationFlow.RestartReturnsToForm | src/components/ApplicationFlow.tsx:34-40 | after a restart the application is no longer completed and the role toggle is back |
| ProgressIndicator.Round | src/components/ProgressIndicator.tsx:24 | `Math.round` of a fraction is the unique integer within half of it, halves rounding up |
| ProgressIndicator.Percent | src/components/ProgressIndicator.tsx:15-24 | the shown percentage is the rounded share of completed steps times 100, and undefined for zero steps |
| ProgressIndicator.PercentExamples | src/components/__tests__/ProgressIndicator.test.tsx:1-43 | 2 of 6 shows 33%, 3 of 5 60%, 1 of 6 17%, 0 of 6 0% and 6 of 6 100% |
| ProgressIndicator.PercentBounds | src/components/ProgressIndicator.tsx:15-24 | with no more completed steps than steps, the percentage is between 0 and 100 |
| ProgressIndicator.HeaderExample | src/components/ProgressIndicator.tsx:21 | the header for step 3 of 6 reads "Question 3 of 6" |
| ProgressIndicator.MarkerAt | src/components/ProgressIndicator.tsx:39-51 | a marker is done (with a check) exactly below the completed count, current exactly at the current step otherwise, and every other marker shows its 1-based number |
| ProgressIndicator.Markers | src/components/ProgressIndicator.tsx:36-53 | there is one marker per step (none for a negative total), each classified by its index |
| ProgressIndicator.DoneMarkers | src/components/ProgressIndicator.tsx:40-47 | the number of done markers is the completed count clamped to [0, total] |
| ProgressIndicator.FlowMarkers | src/components/ApplicationFlow.tsx:57-61 | with completed = current - 1, as the flow passes them, markers before the current step are done, the current step is current, and later ones are pending |
| QuestionCard.InputFor | src/components/QuestionCard.tsx:38-89 | each question type gets its own input, and a select's first choice is the empty placeholder |
| QuestionCard.HandleSubmit | src/components/QuestionCard.tsx:26-36 | a submission is blocked exactly when the value is falsy (`""` or 0) and the question is required; otherwise it emits the question's key with the value |
| QuestionCard.ButtonDisabled | src/components/QuestionCard.tsx:108 | the button is disabled while loading, and otherwise exactly when a submission would be blocked |
| QuestionCard.OptionalAcceptsAnything | src/components/QuestionCard.tsx:28 | a question not marked required accepts every value, including an empty one |
| QuestionCard.Step | src/components/QuestionCard.tsx:21-36 | typing sets the value; an accepted submission emits once and clears the value; a blocked one changes nothing; showing a question with a new key clears the value |
| QuestionCard.Feed | src/components/QuestionCard.tsx:26-36 | a run of events emits at most one answer per event |
| QuestionCard.EmittedAnswersKeyed | src/components/QuestionCard.tsx:32 | every emitted answer is keyed by a question the card showed |
| AdminTypes.Flatten | supabase/functions/admin-export/index.ts:25-28 | the flattened answers hold exactly the keys that some answer carries |
| AdminTypes.FlattenLastWins | supabase/functions/admin-export/index.ts:25-28 | a key holds the value of its last answer |
| AdminTypes.FirstTruthy | supabase/functions/admin-export/index.ts:39-40 | a `||` chain gives the text of the answer under the first key whose answer is truthy, and the fallback when none is truthy |
| AdminTypes.StatusOrPending | supabase/functions/admin-export/index.ts:36 | a set, non-empty status is kept; a missing or empty one reads as `pending` |
| AdminTypes.MockScore | supabase/functions/admin-score-candidate/index.ts:16 | a mock score lies between 60 and 99 |
| AdminExport.ScoreText | supabase/functions/admin-export/index.ts:37 | a missing or zero score prints as the fallback text, and any other score as the formatted number |
| AdminExport.Row | supabase/functions/admin-export/index.ts:24-43 | a row has exactly eleven fields, one per header |
| AdminExport.RowColumns | supabase/functions/admin-export/index.ts:24-43 | a row holds the id, the role, the status or `pending`, and the tools chain and the project chain in their columns |
| AdminExport.ToolsColumnFallsBack | supabase/functions/admin-export/index.ts:39 | the tools column is the `technologies` answer when truthy, else the `design_tools` answer when truthy, else empty |
| AdminExport.Escape | supabase/functions/admin-export/index.ts:46 | doubling quotes never shortens a field |
| AdminExport.Records | supabase/functions/admin-export/index.ts:45 | the records are the header followed by one row per application, in list order |
| AdminExport.RecordsWidth | supabase/functions/admin-export/index.ts:10-45 | every record, header included, has eleven fields |
| AdminExport.QuotedBodyRoundTrip | supabase/functions/admin-export/index.ts:46 | reading an escaped field up to its closing quote gives back the field |
| AdminExport.LineRoundTrip | supabase/functions/admin-export/index.ts:45-47 | reading a printed line gives back its fields and the rest of the text |
| AdminExport.DocumentRoundTrip | supabase/functions/admin-export/index.ts:45-47 | reading a printed document gives back its records |
| AdminExport.CsvRoundTrip | supabase/functions/admin-export/index.ts:9-50 | the CSV export parses back to exactly the header and one row per application, whatever quotes, commas or newlines the answers hold |
| AdminExport.ReportCounts | supabase/functions/admin-export/index.ts:55-59 | the text report states the number of applications |
| AdminExport.ReportHasSection | supabase/functions/admin-export/index.ts:61-87 | the text report holds the numbered section of every application |
| AdminExport.Select | supabase/functions/admin-export/index.ts:109-120 | the export holds exactly the applications matching the role and status filters that are set, each as often as in the list |
| AdminExport.Export | supabase/functions/admin-export/index.ts:129-141 | a `pdf` format gives the text report as a plain-text `.txt` download; any other format gives the CSV as a `.csv` download |
| AdminExport.Handle | supabase/functions/admin-export/index.ts:92-169 | OPTIONS gets the preflight; a GET with rows succeeds with the export; a database error gets 500 and any other verb 405 |
| Tally.CountCorrect | supabase/functions/admin-analytics/index.ts:36-39 | counting gives one entry per distinct value, each holding the number of its occurrences |
| Tally.CountSize | supabase/functions/admin-question-analytics/index.ts:73-77 | the counting object has exactly one entry per distinct value |
| Tally.CountFirstSeen | supabase/functions/admin-question-analytics/index.ts:52-59 | the counting object (and a `Set`) lists the values in order of their first occurrence |
| Tally.CountSum | supabase/functions/admin-analytics/index.ts:36-39 | the counts add up to the number of values counted |
| Tally.Entries | supabase/functions/admin-question-analytics/index.ts:79 | `Object.entries` lists the same entries as were counted |
| Tally.EntriesOrder | supabase/functions/admin-question-analytics/index.ts:79 | `Object.entries` lists integer-like keys first, in increasing numeric order |
| Sorting.SortDesc | supabase/functions/admin-question-analytics/index.ts:98 | sorting by a descending comparator gives a permutation, ordered from the highest key down |
| Sorting.TopIsBest | supabase/functions/admin-analytics/index.ts:63-64 | the first n of a descending sort are sorted, come from the input, and none left out scores higher than one kept |
| Strings.ToLower | supabase/functions/admin-question-analytics/index.ts:75 | lower-casing keeps the length and maps each character |
| Strings.Trim | supabase/functions/admin-question-analytics/index.ts:75 | trimming gives a slice of the text with only whitespace before and after it and none at either end of the slice, so exactly the surrounding whitespace is removed |
| Strings.ReplaceFirst | supabase/functions/admin-question-analytics/index.ts:89 | `replace` with a character pattern changes only its first occurrence, and nothing when there is none |
| Strings.IntToString | supabase/functions/admin-question-analytics/index.ts:69 | `String(n)` prints the digits, with a minus sign for negative numbers |
| Strings.NatToStringRoundTrip | supabase/functions/admin-question-analytics/index.ts:69 | the printed digits of a number read back as that number |
| QuestionAnalytics.Label | supabase/functions/admin-question-analytics/index.ts:38-48 | a listed key gets its fixed label, and any other key its own text with the first underscore made a space |
| QuestionAnalytics.AnswerKeys | supabase/functions/admin-question-analytics/index.ts:52-59 | the collected keys are exactly those that some application answered |
| QuestionAnalytics.QuestionKeys | supabase/functions/admin-question-analytics/index.ts:52-62 | the key set lists every answered key exactly once, in order of first appearance among the answers |
| QuestionAnalytics.FirstAnswer | supabase/functions/admin-question-analytics/index.ts:64 | `find` gives an answer with the key, and finds one exactly when the application has one |
| QuestionAnalytics.Answering | supabase/functions/admin-question-analytics/index.ts:63-65 | the positions listed are, in increasing order, exactly those of the applications that answered the key |
| QuestionAnalytics.AnsweringCount | supabase/functions/admin-question-analytics/index.ts:63-67 | there is one position per application that answered the key |
| QuestionAnalytics.Responses | supabase/functions/admin-question-analytics/index.ts:63-65 | there is one response per application that answered the key, each with the key |
| QuestionAnalytics.ResponsesAreFirstAnswers | supabase/functions/admin-question-analytics/index.ts:63-65 | the k-th response is the first answer with the key of the k-th application that answered it |
| QuestionAnalytics.AnsweredKeyHasResponse | supabase/functions/admin-question-analytics/index.ts:52-67 | a collected key has at least one response, so the average never divides by zero |
| QuestionAnalytics.ResponseCount | supabase/functions/admin-question-analytics/index.ts:63-67 | the response count is the number of applications that answered the key, between one and all of them |
| QuestionAnalytics.NormalisedValues | supabase/functions/admin-question-analytics/index.ts:75 | there is one normalised value per response |
| QuestionAnalytics.CommonResponses | supabase/functions/admin-question-analytics/index.ts:73-82 | five common responses (all, when fewer values differ), most frequent first, each with its exact count among the normalised values, no value left out more frequent than one kept, together not exceeding the responses |
| QuestionAnalytics.TopCounts | supabase/functions/admin-question-analytics/index.ts:73-82 | the first five of a listing of the counting object, sorted by count, number five (all, when fewer values differ), are sorted, each an exact count of at least one, none left out more frequent than one kept, and together count no more than the values |
| QuestionAnalytics.DropOffRate | supabase/functions/admin-question-analytics/index.ts:85 | with no more responses than applications the clamp never applies and the rate is the share of non-responding applications in percent; with at least one response it is in [0, 100) |
| QuestionAnalytics.Analyse | supabase/functions/admin-question-analytics/index.ts:62-94 | each key's entry carries its label, as many responses as applications that answered the key (at least one), their drop-off rate in [0, 100), and five sorted common responses |
| QuestionAnalytics.DropOffIsUnanswered | supabase/functions/admin-question-analytics/index.ts:63-85 | an entry's drop-off rate is the percentage of applications that did not answer its key |
| QuestionAnalytics.Stats | supabase/functions/admin-question-analytics/index.ts:62-95 | there is one entry per answered key, in key order |
| QuestionAnalytics.Analytics | supabase/functions/admin-question-analytics/index.ts:97-98 | the reply is the entries reordered with the most-answered first |
| QuestionAnalytics.KeysReportedOnce | supabase/functions/admin-question-analytics/index.ts:52-98 | every answered key is reported exactly once and no other key is reported |
| QuestionAnalytics.EntriesAreAnalyses | supabase/functions/admin-question-analytics/index.ts:62-98 | every reported entry is the analysis of an answered key |
| AdminAnalytics.Roles | supabase/functions/admin-analytics/index.ts:36-37 | the role column has one role per application |
| AdminAnalytics.ByRole | supabase/functions/admin-analytics/index.ts:36-39 | the histogram has one entry per occurring role, with that role's count, listed in order of first occurrence, and the counts add up to the total |
| AdminAnalytics.DropRate | supabase/functions/admin-analytics/index.ts:51 | the i-th mock drop-off rate lies in [(6-i)*2, (6-i)*2+5) |
| AdminAnalytics.DropOffPoints | supabase/functions/admin-analytics/index.ts:48-52 | there are six drop-off points for the fixed keys in order, each rate in its band, and no later rate exceeds an earlier one by 5 or more |
| AdminAnalytics.MockScored | supabase/functions/admin-analytics/index.ts:58-62 | every application is kept with its score replaced by a mock score |
| AdminAnalytics.TopOf | supabase/functions/admin-analytics/index.ts:58-64 | five top candidates (all, when fewer), highest mock score first, drawn from the mock-scored applications, none left out scoring higher than one kept |
| AdminAnalytics.Summarise | supabase/functions/admin-analytics/index.ts:33-74 | the summary counts every application, has completion rate 100 and average time 12, holds the role histogram (counts adding up to the total) and the six drop-off points, the first ten applications as recent, and the mock top five |
| AdminAnalytics.TopCandidates | supabase/functions/admin-analytics/index.ts:58-64 | each top candidate is one of the applications with only its score changed, to a value in [60, 99] |
| ScoreCandidate.DigitRun | supabase/functions/admin-score-candidate/index.ts:98 | the digit run is the longest prefix of digits in the radix |
| ScoreCandidate.ParseIntRoundTrip | supabase/functions/admin-score-candidate/index.ts:98 | `parseInt` reads back any printed integer after leading whitespace, whatever non-digit text follows |
| ScoreCandidate.ParseIntWithoutDigits | supabase/functions/admin-score-candidate/index.ts:98 | a text without digits parses to NaN |
| ScoreCandidate.Truncate | supabase/functions/admin-score-candidate/index.ts:98 | `parseInt` of a number keeps its integer part, truncating toward zero |
| ScoreCandidate.Clamp | supabase/functions/admin-score-candidate/index.ts:98 | the repaired score lies in [0, 100]: NaN and 0 become 50, values above 100 become 100, negative ones 0, and the rest are kept |
| ScoreCandidate.ScoreField | supabase/functions/admin-score-candidate/index.ts:95-100 | a repaired field that converts to text is always a number in [0, 100], and an in-range number is left alone; one that cannot convert makes `parseInt` throw, which `ScoreAsWritten` and `Score` model |
| ScoreCandidate.ScoreFieldNumbers | supabase/functions/admin-score-candidate/index.ts:97-98 | numbers above 100 become 100, those at or below -1 become 0, and those between -1 and 0 become 50 |
| ScoreCandidate.ScoreFieldText | supabase/functions/admin-score-candidate/index.ts:97-98 | a text score is parsed and clamped |
| ScoreCandidate.ScoreFieldStrings | supabase/functions/admin-score-candidate/index.ts:97-98 | a printed integer as text is clamped to [0, 100], with "0" becoming 50 |
| ScoreCandidate.ScoreFieldNoDigits | supabase/functions/admin-score-candidate/index.ts:97-98 | a text without digits becomes 50 |
| ScoreCandidate.Normalised | supabase/functions/admin-score-candidate/index.ts:94-100 | when the loop completes (every score converts to text), repairing keeps the reply's keys, puts every score field in range, leaves in-range scores and all other fields untouched |
| ScoreCandidate.Mock | supabase/functions/admin-score-candidate/index.ts:12-22 | a mock result carries the requested id, the given reasoning and five scores drawn in [60, 99] |
| ScoreCandidate.SpreadAsWritten | supabase/functions/admin-score-candidate/index.ts:102-105 | the spread result holds the reply's keys plus the id; the requested id survives only when the reply has none |
| ScoreCandidate.Spread | supabase/functions/admin-score-candidate/index.ts:102-105 | the corrected result always carries the requested id and otherwise the repaired reply |
| ScoreCandidate.AsWrittenTakesReplyId | supabase/functions/admin-score-candidate/index.ts:102-105 | as written, an accepted reply that names an id replaces the requested one |
| ScoreCandidate.AsWrittenLosesRequestedId | supabase/functions/admin-score-candidate/index.ts:102-105 | as written, a complete reply naming another id returns a result that does not carry the requested id |
| ScoreCandidate.AsWrittenDiffersOnlyInId | supabase/functions/admin-score-candidate/index.ts:102-105 | the score as written and the corrected one have the same properties and differ at most in the id, so the overall score stored is the same |
| ScoreCandidate.ScoreAsWritten | supabase/functions/admin-score-candidate/index.ts:10-121 | the score as the code builds it always holds an id, a reasoning and five in-range scores; the id is the requested one unless an accepted reply names its own; a reply with every required field and every score convertible to text keeps its reasoning and in-range scores; anything else (no key, a failed call, a missing field, a score whose conversion throws) gives five mock scores with the reasoning for the cause |
| ScoreCandidate.Score | supabase/functions/admin-score-candidate/index.ts:10-121 | the corrected score carries the requested id whatever the model replies |
| ScoreCandidate.ScoreShape | supabase/functions/admin-score-candidate/index.ts:10-121 | the corrected score always carries the requested id, a reasoning and five in-range scores; an accepted reply (every required field, every score convertible to text) keeps its in-range scores and reasoning; otherwise all five are mock scores with the reasoning for the cause |
| ScoreCandidate.OwnToStringScoreFallsBack | supabase/functions/admin-score-candidate/index.ts:94-119 | a complete reply whose overall score is an object with its own `toString` makes `parseInt` throw, so the placeholder replaces it, reasoning included, both as written and corrected |
| ScoreCandidate.MockShape | supabase/functions/admin-score-candidate/index.ts:13-22 | the placeholder carries the requested id, the given reasoning and five scores between 60 and 99 |
| ScoreCandidate.SpreadShape | supabase/functions/admin-score-candidate/index.ts:85-105 | an accepted reply keeps the requested id, its reasoning and its in-range scores, and every score ends in [0, 100] |
| ScoreCandidate.SpreadAsWrittenShape | supabase/functions/admin-score-candidate/index.ts:85-105 | the spread as written keeps the reply's reasoning and in-range scores, every score ends in [0, 100], and the requested id stays when the reply names none |
| ScoreCandidate.Handle | supabase/functions/admin-score-candidate/index.ts:123-200 | OPTIONS gets the preflight; other non-POST verbs 405; a missing or null body 500; a falsy id 400; an unknown application 404; otherwise 200 with the score as the code builds it (the reply spread over the requested id), and the stored update carries the request's id and the in-range overall score |
| CandidateScoring.GradeOf | src/components/admin/CandidateScoring.tsx:50-56 | the grade is A+ exactly from 90 and D exactly below 60 |
| CandidateScoring.GradeMonotone | src/components/admin/CandidateScoring.tsx:50-56 | a higher score never gets a lower grade, and grades A, B and C each cover a ten-point band |
| CandidateScoring.GradeTextsDistinct | src/components/admin/CandidateScoring.tsx:50-56 | different grades print differently |
| CandidateScoring.ColourFollowsGrade | src/components/admin/CandidateScoring.tsx:44-56 | green is exactly grade A or A+, yellow exactly B or C, and red exactly D |
| CandidateScoring.Scored | src/components/admin/CandidateScoring.tsx:58 | the scored applications are exactly those that have a score, each as often as in the list |
| CandidateScoring.TotalBounds | src/components/admin/CandidateScoring.tsx:60 | the sum of scores between lo and hi lies between n·lo and n·hi |
| CandidateScoring.ListMeanBounds | src/components/admin/CandidateScoring.tsx:59-61 | the mean of a non-empty list of scores between lo and hi lies between lo and hi |
| CandidateScoring.Average | src/components/admin/CandidateScoring.tsx:59-61 | the average is 0 when nothing is scored |
| CandidateScoring.ScoredInRange | src/components/admin/CandidateScoring.tsx:58-60 | when every score lies between lo and hi, so does every scored application's overall score |
| CandidateScoring.AverageBounds | src/components/admin/CandidateScoring.tsx:59-61 | when every score lies between lo and hi, so does the average |
| CandidateScoring.RoundHalfUp | src/components/admin/CandidateScoring.tsx:103 | rounding gives the integer within half of the value, halves up |
| CandidateScoring.AverageTile | src/components/admin/CandidateScoring.tsx:103 | the tile shows "--" exactly when the average is not positive, and otherwise the rounded average |
| CandidateScoring.TopCandidates | src/components/admin/CandidateScoring.tsx:63-65 | five scored applications (all, when fewer), highest overall score first, none left out scoring higher than one kept |
| CandidateScoring.TopCandidatesAreBest | src/components/admin/CandidateScoring.tsx:63-65 | every top candidate is a scored application, and it scores at least as high as any scored application left out |
| CandidateScoring.CountAtLeast | src/components/admin/CandidateScoring.tsx:117 | the filter count never exceeds the list's length |
| CandidateScoring.TopTile | src/components/admin/CandidateScoring.tsx:117 | the tile counts at most the top five |
| CandidateScoring.CountSortedPrefix | src/components/admin/CandidateScoring.tsx:63-65 | in a descending list, the entries at or above a bar form a prefix of the counted length |
| CandidateScoring.TopTileCountsStrong | src/components/admin/CandidateScoring.tsx:117 | the tile's count is the length of the top list's prefix scoring 80 or more |
| CandidateScoring.ScoreOne | src/components/admin/CandidateScoring.tsx:16-32 | scoring one application leaves every other id untouched, ends not scoring, and stores the score with no error, or the failure message |
| CandidateScoring.Unscored | src/components/admin/CandidateScoring.tsx:35 | the ids to score are exactly those of listed applications without a score |
| CandidateScoring.UnscoredCounts | src/components/admin/CandidateScoring.tsx:35 | each unscored id appears among the ids to score as often as among the applications, and a scored id not at all |
| CandidateScoring.TurnKeepsSettled | src/components/admin/CandidateScoring.tsx:37-41 | one more turn of the loop keeps every earlier settled id settled and touches only its own id |
| CandidateScoring.ScoreAll | src/components/admin/CandidateScoring.tsx:34-42 | scoring all leaves each unscored id as its last turn's outcome left it, and every other id untouched |
| AdminDashboard.Kept | src/components/admin/AdminDashboard.tsx:117-126 | the kept positions are increasing, and a position is kept exactly when its application passes the filters |
| AdminDashboard.Filtered | src/components/admin/AdminDashboard.tsx:117-126 | the filtered list is the kept applications in list order |
| AdminDashboard.FilteredIsSubsequence | src/components/admin/AdminDashboard.tsx:117-126 | the filtered list holds exactly the passing applications, as an order-preserving subsequence of the list |
| AdminDashboard.NoFilterKeepsAll | src/components/admin/AdminDashboard.tsx:24-26 | with the initial filters nothing is filtered out |
| AdminDashboard.SearchIgnoresTermCase | src/components/admin/AdminDashboard.tsx:118-121 | the search term's case does not matter |
| AdminDashboard.SearchReadsValuesOnly | src/components/admin/AdminDashboard.tsx:118-121 | the search looks only at answer values: keys, role and status do not matter |
| AdminDashboard.ExportQuery | src/components/admin/AdminDashboard.tsx:97-100 | a role or status filter is sent exactly when it is neither `all` nor empty, and then unchanged |
| AdminDashboard.ExportMatchesListFilters | src/components/admin/AdminDashboard.tsx:97-123 | for an application with a status, the export selects it exactly when the list's role and status filters pass it |
| AdminDashboard.UnsetStatusListedButNotExported | src/components/admin/AdminDashboard.tsx:97-123 | an application without a status is listed under `pending` but left out of a `pending` export |
| AdminDashboard.Login | src/components/admin/AdminDashboard.tsx:39-56 | login ends not in progress; it authenticates exactly on success; a refusal shows the service's message or "Login failed", and a thrown request the network message; the data is untouched |
| AdminDashboard.Load | src/components/admin/AdminDashboard.tsx:75-93 | loading ends not in progress; success replaces both lists and clears the error; failure keeps both and shows the load error |
| AdminDashboard.ExportFailure | src/components/admin/AdminDashboard.tsx:111-114 | a failed export only sets the export error |
| AdminDashboard.Logout | src/components/admin/AdminDashboard.tsx:58-63 | logging out de-authenticates and drops applications and analytics, and nothing else changes |
| AdminDashboard.LogoutShowsNothing | src/components/admin/AdminDashboard.tsx:58-63 | after logging out the list is empty whatever the filters |
| StaticLingo.Shown | src/hooks/useStaticLingo.ts:33 | each output is the cached translation when there is a non-empty one, and the input string otherwise |
| StaticLingo.Missing | src/hooks/useStaticLingo.ts:23-30 | the untranslated strings are listed with their positions, in increasing order, and a position is listed exactly when its string is not cached |
| StaticLingo.MissingExactly | src/hooks/useStaticLingo.ts:23-31 | a string is requested exactly when it is an input missing from the cache, and nothing is requested exactly when every input is cached |
| StaticLingo.Merge | src/hooks/useStaticLingo.ts:39-41 | after merging, the cache holds its old keys plus the requested strings that got a result; other keys keep their value |
| StaticLingo.MergeLastWins | src/hooks/useStaticLingo.ts:39-41 | each requested string holds the result of its last position |
| StaticLingo.Begin | src/hooks/useStaticLingo.ts:11-37 | same locales show the input and touch nothing; otherwise the target's cache is created if absent, the missing strings are requested, and the list is shown at once exactly when nothing is missing |
| StaticLingo.Finish | src/hooks/useStaticLingo.ts:37-43 | a reply is merged into the target cache only, and the whole list is shown from it |
| StaticLingo.SameLocaleShowsInput | src/hooks/useStaticLingo.ts:13-15 | with equal locales the input is shown as it is and no cache changes |
| StaticLingo.AllCachedNoRequest | src/hooks/useStaticLingo.ts:31-35 | when every string is cached nothing is requested and the cached translations are shown |
| StaticLingo.TranslationRoundKeepsOtherLocales | src/hooks/useStaticLingo.ts:5-43 | a translation round leaves every other locale's cache as it was and shows a list as long as the input |
| StaticLingo.SwitchAsWritten | src/hooks/useStaticLingo.ts:49-55 | as written, a commit that changes the target locale always ends showing the input strings |
| StaticLingo.SwitchAsWrittenHidesCache | src/hooks/useStaticLingo.ts:31-55 | as written, switching to a fully cached locale shows the untranslated strings, although the translation effect set the cached ones |
| StaticLingo.Switch | src/hooks/useStaticLingo.ts:49-55 | the corrected commit runs the same translation effect |
| StaticLingo.SwitchShowsCache | src/hooks/useStaticLingo.ts:31-55 | corrected, switching to a fully cached locale shows the cached translations with no request; otherwise the input shows until the missing strings, and only those, come back |

## Left out

- Network, database and model calls are left out. Prompts, SQL ordering, the language model's text and the chat-completion client are outside the model; their results are parameters.
- The service wrappers are left out: the client API service, the admin API service and admin authentication, including token storage. The admin-login function is not part of this model.
- Display-only components are left out: the role toggle, the completion card, the analytics overview, the list and the detail modal. So are styling, animation and the 200 ms / 1 s / 100 ms timers. `isMounted` guards, concurrency and React scheduling are left out except for the effect order the lingo finding needs.
- `localStorage` writes are left out. The stored language is an input to `ApplicationContext.StartLanguage`.
- Dates and locale number formats are left out. `toLocaleDateString`, `toLocaleString` and `toISOString` are parameters of the export.
- Floating point is left out. Scores and rates are exact reals.
- QuestionAnalytics.DropOffRate: the rate is exact, not rounded to two decimals as `Math.round(x * 100) / 100` does.
- QuestionAnalytics.Analyse: `averageResponseLength` is rounded from exact lengths, and lengths count characters, not UTF-16 code units.
- QuestionAnalytics.Label: a key that names an `Object.prototype` property (`constructor`, say) would read an inherited value in the source. The model treats such keys as unlisted.
- Strings.ToLower: only ASCII letters are folded. `toLowerCase` folds all of Unicode.
- ScoreCandidate.ScoreField: two kinds of number print in exponent notation, so `parseInt` reads only their leading digit: numbers of magnitude 1e21 or more, and negatives closer to zero than 1e-6. The model gives 100 and 50 for them.
- ScoreCandidate.ScoreField: an array score is taken as 50. In the source, `parseInt` reads its first element's text.
- ScoreCandidate.Handle: the outcome of the score update is not an input. The source logs a failed update and still returns the score, as the model does.
- Sorting.SortDesc: the sort is stable insertion. Stability is a property of the model, not a lemma.
- StaticLingo.Finish: a reply longer than the request stores its extra results under the key `undefined` in the source. No lookup reaches that key, so the model drops those results.
- Any key in `Tally`'s counting object could clash with an `Object.prototype` property name in the source. The model does not model that.

## Findings

| source | as written | input that shows it | evidently intended | confidence | as-written member | corrected member |
|---|---|---|---|---|---|---|
| supabase/functions/admin-score-candidate/index.ts:102-105 | `{ applicationId: application.id, ...parsedResponse }` lets the model's reply override the requested id | a model reply with all six fields and `"applicationId": "other"` for application `a1`: the reply names `other`, and the stored score is still written to `a1` | the returned score carries the id that was asked for | not executed | ScoreCandidate.AsWrittenLosesRequestedId | ScoreCandidate.ScoreShape |
| src/hooks/useStaticLingo.ts:31-35, 49-55 | on a commit that changes the target locale, the translation effect sets the cached translations, then the locale-change effect (declared later, run later) sets the raw strings | switching from `en` to `fr` when every string is already in the `fr` cache: the raw English strings stay on screen, and no request follows to replace them | reset to the raw strings only while a translation is still to come | not executed | StaticLingo.SwitchAsWrittenHidesCache | StaticLingo.SwitchShowsCache |
