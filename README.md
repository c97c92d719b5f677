# Quiz session model

This project is a Dafny model of the core of a browser quiz application. The user enters an email,
answers fifteen trivia questions from a public trivia service against a thirty-minute countdown,
submits, and reads a report. The whole attempt lives in one session held by a React context. Every
change goes through a reducer and is mirrored into the browser's `localStorage`, so a reload resumes
where the user left off.

The model follows the source file by file:

- `quiz_context.dfy` (`src/context/QuizContext.jsx`) holds the session record, the reducer and the
  storage snapshot. Loading and persisting are written out over a string-keyed storage map. The
  provider is a class whose state and storage change with each dispatch.
- `json.dfy` models `JSON.stringify` and `JSON.parse` for the values the snapshot holds. This makes
  "a reload restores the saved session" a proved round trip rather than an assumption.
- `decimal.dfy` models `String(n)` for integers and reading decimal digits back.
- `quiz_page.dfy` (`src/pages/QuizPage.jsx`) covers the page's effects and handlers:
  - when a load starts, and how the trivia service's reply becomes questions or an error message;
  - the countdown and the one-shot submission;
  - navigation, and the attempted and progress views;
  - a class holding the page's `hasSubmittedRef` flag.
- `report_page.dfy` (`src/pages/ReportPage.jsx`) covers the attempted and correct counts, when the
  report renders, how each answer line is marked, and Restart.
- `start_page.dfy` (`src/pages/StartPage.jsx`) covers `trim`, the email regular expression, the
  saved-quiz check, and the Start and Start Over handlers as a class.
- `timer.dfy` (`src/components/Timer.jsx`) covers `formatTime`.

Where the written design description and the code disagree, the model follows the code:

- **The reducer has no guards.** The design says a transition requested from the wrong status is
  rejected. The reducer applies every action in every status, and the model does the same.
- **A snapshot of the wrong shape is not replaced by defaults.** The design says a shape mismatch
  falls back to defaults. The code spreads whatever `JSON.parse` returned over the initial state.
  `LoadState` follows the code for `null`, for non-object values and for missing fields.
- **A reload during a load does not start a new load.** The design says restoring a `loading`
  session should re-enter the load. The code restores `loading` with no questions, and from there
  the fetch effect never fires and the countdown never runs (`QuizPage.ReloadMidLoadNeverFetches`).
- **One expiring tick submits through a second effect run.** The design describes the tick that
  reaches zero as submitting in one fused step. In the code, the tick reaches zero, the re-render
  runs the timer effect again, and that run submits at once. `QuizPage.ExpiryScenario` states this
  as two runs of the effect.
- **A failed load is retried at once, without the Retry button.** The design says the page never
  retries on its own. The fetch effect depends on the status, so it runs again as soon as a load
  ends in `error`. With still no questions and an email, it starts another request. A reply with
  response code 0 and no results does the same. Only a load that brings back questions stops
  this (`QuizPage.LoadRefetchesUnlessQuestions`), so the error card's Retry is hardly ever needed.

## Model

| member | source | states |
|---|---|---|
| QuizContext.Reducer | src/context/QuizContext.jsx:61-102 | no ensures; stated by `SetQuestionsStartsAttempt`, `SetVisitedMarksOne`, `SelectAnswerOverwrites`, `SingleFieldActions`, `ResetAndUnknown` and `ReducerKeepsAligned` |
| QuizContext.LoadState | src/context/QuizContext.jsx:21-37 | no ensures; stated by `LoadStateOutcomes`, `LoadStateFields`, `LoadAfterPersist` and `LoadAfterClear` |
| QuizContext.PersistState | src/context/QuizContext.jsx:39-59 | no ensures; stated by `PersistStateWrites` and `LoadAfterPersist` |
| QuizContext.ShouldPersist | src/context/QuizContext.jsx:108 | no ensures; stated by `AfterRenderAbsorbs` and `ReportPage.RestartForgetsQuiz` |
| QuizContext.AfterRender | src/context/QuizContext.jsx:107-111 | no ensures; stated by `AfterRenderAbsorbs` and `QuizProvider.Dispatch` |
| QuizContext.Cleared | src/context/QuizContext.jsx:116-119 | no ensures; stated by `LoadAfterClear` and `QuizProvider.ClearStorage` |
| QuizContext.SetQuestionsStartsAttempt | src/context/QuizContext.jsx:69-80 | loading questions stores them, gives one null answer and one unvisited flag per question, cursor 0, 1800 s, `ready`, no error, no submission time, and keeps the email, whatever the prior state |
| QuizContext.SetVisitedMarksOne | src/context/QuizContext.jsx:83-87 | `SET_VISITED i` sets flag `i`, keeps every other flag and field, and is idempotent |
| QuizContext.SelectAnswerOverwrites | src/context/QuizContext.jsx:88-92 | `SET_SELECTED_ANSWER` writes that slot only, and a later selection for the same slot replaces it |
| QuizContext.ReducerKeepsAligned | src/context/QuizContext.jsx:61-102 | every action keeps answers and visited flags as long as the question list; `SET_QUESTIONS` and `RESET` establish that |
| QuizContext.SingleFieldActions | src/context/QuizContext.jsx:63-96 | `SET_EMAIL`, `SET_STATUS`, `SET_ERROR`, `SET_CURRENT_INDEX` and `SET_REMAINING_TIME` each change exactly their field; `MARK_SUBMITTED` sets `submitted` and the time stamp |
| QuizContext.ResetAndUnknown | src/context/QuizContext.jsx:97-100 | `RESET` gives the initial state from any state; an unknown action type returns the state unchanged |
| QuizContext.LoadStateOutcomes | src/context/QuizContext.jsx:21-37 | no snapshot gives the initial state with the stored email; an unparsable snapshot gives the initial state; a parsed object takes its non-empty email, else the stored one, also when the saved email is empty, and the initial time and status when those are missing |
| QuizContext.LoadStateFields | src/context/QuizContext.jsx:28-33 | for a snapshot that parses to an object: an empty or missing email gives the stored one; each of the nine fields keeps its initial value when missing and takes the saved value when it has the field's type |
| QuizContext.PersistStateWrites | src/context/QuizContext.jsx:39-59 | persisting writes a non-empty snapshot, writes the email key exactly when there is an email, and leaves every other key untouched |
| QuizContext.StringsRoundTrip | src/context/QuizContext.jsx:46 | an options list reads back from its JSON array |
| QuizContext.BoolsRoundTrip | src/context/QuizContext.jsx:49 | the visited flags read back from their JSON array |
| QuizContext.AnswersRoundTrip | src/context/QuizContext.jsx:48 | the answers, nulls included, read back from their JSON array |
| QuizContext.LookupFinds | src/context/QuizContext.jsx:28-33 | reading a field of a parsed object finds its last occurrence, as `JSON.parse` keeps the last of duplicate keys |
| QuizContext.QuestionRoundTrip | src/context/QuizContext.jsx:46 | a question record reads back from its JSON object |
| QuizContext.QuestionsRoundTrip | src/context/QuizContext.jsx:46 | the question list reads back from its JSON array |
| QuizContext.SnapshotLists | src/context/QuizContext.jsx:44-54 | the snapshot's questions, answers and visited fields read back unchanged |
| QuizContext.SnapshotScalars | src/context/QuizContext.jsx:44-54 | the snapshot's email, cursor, time, status, error and submission time read back unchanged |
| QuizContext.RestoreSnapshot | src/context/QuizContext.jsx:29-33 | restoring a snapshot gives the saved session, with the stored email when the saved one is empty |
| QuizContext.LoadAfterPersist | src/context/QuizContext.jsx:21-59 | for a session with an email, loading what was persisted gives back exactly that session |
| QuizContext.LoadAfterPersistNoEmail | src/context/QuizContext.jsx:21-59 | for a session without an email, loading what was persisted gives the session with the previously stored email |
| QuizContext.AfterRenderAbsorbs | src/context/QuizContext.jsx:107-111 | two persist effects for states with the same email, where the second state is persisted whenever the first one is, leave the storage the second one leaves |
| QuizContext.LoadAfterClear | src/context/QuizContext.jsx:116-119 | after both keys are removed, a load starts from exactly the initial state |
| QuizContext.QuizProvider.constructor | src/context/QuizContext.jsx:104-111 | the provider starts from the loaded state, and the persist effect runs once for it |
| QuizContext.QuizProvider.Dispatch | src/context/QuizContext.jsx:105-111 | the new state is the reducer's result, and storage is what the persist effect writes for it; an unknown action re-renders nothing and writes nothing |
| QuizContext.QuizProvider.ClearStorage | src/context/QuizContext.jsx:116-119 | both keys are removed, the state is untouched |
| JsonRoundTrip.ParseStringify | src/context/QuizContext.jsx:28 | parsing the text `JSON.stringify` writes gives back the same value |
| JsonRoundTrip.ValueRoundTrip | src/context/QuizContext.jsx:55 | a serialised value followed by a delimiter parses back to the value and leaves the delimiter |
| JsonRoundTrip.EscapeRoundTrip | src/context/QuizContext.jsx:55 | every string's escaped form parses back to the string |
| JsonRoundTrip.NumberRoundTrip | src/context/QuizContext.jsx:55 | every integer's decimal form parses back to the integer |
| Decimal.NatToString | src/pages/QuizPage.jsx:60 | `String(n)` is a non-empty run of digits with no leading zero; one digit exactly below 10, two exactly from 10 to 99 |
| Decimal.DigitsValueOfNatToString | src/components/Timer.jsx:6 | reading the digits of `String(n)` gives `n` |
| Decimal.NatToStringInjective | src/pages/QuizPage.jsx:60 | different numbers have different decimal forms |
| Decimal.LeadingZerosValue | src/components/Timer.jsx:6 | zeros in front do not change a digit string's value |
| QuizPage.ShouldFetch | src/pages/QuizPage.jsx:32 | no ensures; stated by `FetchGuard` and `LoadRefetchesUnlessQuestions` |
| QuizPage.Outcome | src/pages/QuizPage.jsx:40-68 | no ensures; stated by `OutcomeMessages` and `TokenExhaustedScenario` |
| QuizPage.BuildQuestions | src/pages/QuizPage.jsx:54-65 | one question per result, in order, each built from its result and its position; what each holds is stated by `BuiltQuestionsMatchResults` and `BuiltQuestionIdsUnique` |
| QuizPage.LoadSession | src/pages/QuizPage.jsx:31-80 | no ensures; stated by `LoadFailureShowsError`, `LoadSuccessStartsAttempt` and `LoadRefetchesUnlessQuestions` |
| QuizPage.RetrySession | src/pages/QuizPage.jsx:195-198 | no ensures; stated by `RetryReturnsToIdle` |
| QuizPage.TimerStep | src/pages/QuizPage.jsx:82-100 | no ensures; stated by `TickCountsDown`, `TimeNeverNegative`, `AtMostOneSubmission` and `ExpiryScenario` |
| QuizPage.SubmitStep | src/pages/QuizPage.jsx:141-147 | no ensures; stated by `SubmitIsOneShot` and `AtMostOneSubmission` |
| QuizPage.Navigate | src/pages/QuizPage.jsx:76-127 | no ensures; stated by `NavigateLands` |
| QuizPage.NextSession | src/pages/QuizPage.jsx:129-133 | no ensures; stated by `NextPreviousStayInRange` |
| QuizPage.PreviousSession | src/pages/QuizPage.jsx:135-139 | no ensures; stated by `NextPreviousStayInRange` |
| QuizPage.FetchGuard | src/pages/QuizPage.jsx:32 | a load starts exactly when there are no questions, no load under way and an email |
| QuizPage.OutcomeMessages | src/pages/QuizPage.jsx:40-68 | a failed request, a non-OK status, each response code 1 to 4 and any other non-zero code end in their fixed messages; code 0 gives the built questions |
| QuizPage.LoadFailureShowsError | src/pages/QuizPage.jsx:67-70 | a failed load leaves the session in `error` with the message and nothing else changed |
| QuizPage.LoadSuccessStartsAttempt | src/pages/QuizPage.jsx:66-80 | a successful load starts a fresh `ready` attempt on the new questions with only the first one visited |
| QuizPage.TokenExhaustedScenario | src/pages/QuizPage.jsx:44-70 | response code 4 ends the load in `error` with "Session token has no remaining questions." |
| QuizPage.ReloadMidLoadNeverFetches | src/pages/QuizPage.jsx:31-33 | a session reloaded while `loading` is restored as it was, starts no load and runs no countdown |
| QuizPage.LoadRefetchesUnlessQuestions | src/pages/QuizPage.jsx:31-74 | from a state where a load starts, the guard holds again after the load exactly when it failed or brought back no questions, so the effect requests again at once |
| QuizPage.RetryReturnsToIdle | src/pages/QuizPage.jsx:195-198 | Retry clears the error and returns to `idle`, which starts a new load when there are still no questions |
| QuizPage.ArrangePicks | src/pages/QuizPage.jsx:58 | the option at each position is the one the shuffle order names there |
| QuizPage.ArrangeRemoveAt | src/pages/QuizPage.jsx:58 | dropping one position from a shuffle order drops exactly its option from the options picked |
| QuizPage.ArrangeSameMultiset | src/pages/QuizPage.jsx:58 | two orders holding the same positions pick the same multiset of options |
| QuizPage.ArrangePermutes | src/pages/QuizPage.jsx:58 | a shuffled option list holds exactly the options it was built from |
| QuizPage.BuiltQuestionMatches | src/pages/QuizPage.jsx:55-64 | one built question: its id is the position, a dash and the decoded text; the decoded correct answer is kept and is among the options; the options are a permutation of the correct and incorrect answers |
| QuizPage.BuiltQuestionsMatchResults | src/pages/QuizPage.jsx:54-65 | one question per result in order: its id is the position, a dash and the decoded text; the decoded correct answer is kept and is among the options; the options are a permutation of the correct and incorrect answers |
| QuizPage.BuiltQuestionIdsUnique | src/pages/QuizPage.jsx:60 | no two built questions share an id |
| QuizPage.TickCountsDown | src/pages/QuizPage.jsx:92-97 | while `ready` with time left, a tick takes exactly one second off and changes nothing else |
| QuizPage.TimeNeverNegative | src/pages/QuizPage.jsx:82-100 | along any mix of timer runs and Submit clicks, the remaining time never rises and never goes below zero |
| QuizPage.AtMostOneSubmission | src/pages/QuizPage.jsx:82-147 | along any mix of timer runs and Submit clicks, `MARK_SUBMITTED` is dispatched at most once, the flag never drops, and the time stamp no longer changes once it is up |
| QuizPage.SubmitIsOneShot | src/pages/QuizPage.jsx:141-147 | submitting twice is submitting once, and the first submission sets `submitted` with its time |
| QuizPage.ExpiryScenario | src/pages/QuizPage.jsx:82-100 | with one second left, the tick reaches zero and the next run of the effect submits |
| QuizPage.NavigateLands | src/pages/QuizPage.jsx:76-127 | navigating makes the question current and visited, unmarks nothing and changes no other field; it keeps the current question visited |
| QuizPage.LoadedSessionOnVisited | src/pages/QuizPage.jsx:66-80 | after a load the current question is visited |
| QuizPage.NextPreviousStayInRange | src/pages/QuizPage.jsx:129-139 | Next moves one forward exactly when not on the last question, Previous one back exactly when not on the first, and the cursor stays on a question |
| QuizPage.Attempted | src/pages/QuizPage.jsx:102-105 | one flag per answer slot, set exactly when the slot holds an answer |
| QuizPage.AttemptedCount | src/pages/QuizPage.jsx:107-110 | at most the number of slots, and zero exactly when no slot holds an answer |
| QuizPage.AttemptedCountIsCardinality | src/pages/QuizPage.jsx:107-110 | the attempted count is the number of answered positions |
| QuizPage.ProgressPercent | src/pages/QuizPage.jsx:112-114 | the percentage is attempted over total times 100 rounded to nearest, between 0 and 100, and 0 with no questions |
| QuizPage.PercentBounds | src/pages/QuizPage.jsx:112-114 | the rounded percentage lies between 0 and 100 and is the nearest whole percent, halves rounding up |
| QuizPage.ProgressExtremes | src/pages/QuizPage.jsx:112-114 | no answers shows 0%, all answered shows 100% |
| QuizPage.QuizPage.constructor | src/pages/QuizPage.jsx:76-80 | the flag starts down and the visited effect marks the current question |
| QuizPage.QuizPage.FetchQuestions | src/pages/QuizPage.jsx:31-74 | the session ends as the load outcome dictates, and storage holds its snapshot |
| QuizPage.QuizPage.Retry | src/pages/QuizPage.jsx:195-198 | the session is the retried one, and storage is persisted for it |
| QuizPage.QuizPage.Submit | src/pages/QuizPage.jsx:141-147 | the page follows `SubmitStep`; the count of `MARK_SUBMITTED` dispatches stays at most one |
| QuizPage.QuizPage.TimerFires | src/pages/QuizPage.jsx:82-100 | the page follows `TimerStep`; the count of `MARK_SUBMITTED` dispatches stays at most one; storage changes only when something is dispatched |
| QuizPage.QuizPage.NavigateTo | src/pages/QuizPage.jsx:76-127 | the session follows `Navigate`, and storage is persisted for it |
| QuizPage.QuizPage.Next | src/pages/QuizPage.jsx:129-133 | the session follows `NextSession`; storage changes only when the cursor moves |
| QuizPage.QuizPage.Previous | src/pages/QuizPage.jsx:135-139 | the session follows `PreviousSession`; storage changes only when the cursor moves |
| QuizPage.QuizPage.Select | src/pages/QuizPage.jsx:118-123 | the chosen option becomes the current question's answer, and storage is persisted for it |
| ReportPage.CorrectCount | src/pages/ReportPage.jsx:11-13 | the score never exceeds the number of questions |
| ReportPage.CorrectCountIsCardinality | src/pages/ReportPage.jsx:11-13 | the score is the number of positions whose answer equals the correct answer |
| ReportPage.Summarize | src/pages/ReportPage.jsx:9-15 | attempted is at most the number of answer slots, and correct is at most both the number of questions and the attempted count |
| ReportPage.WorkedExample | src/pages/ReportPage.jsx:9-15 | correct answers A, B with selections A, null give one attempted and one correct |
| ReportPage.ShowsReport | src/pages/ReportPage.jsx:17-25 | no ensures; stated by `ReportAfterSubmit` |
| ReportPage.ReportAfterSubmit | src/pages/ReportPage.jsx:17-25 | submitting a loaded quiz makes the report render; the initial session never renders it |
| ReportPage.MarkOf | src/pages/ReportPage.jsx:57-64 | no ensures; stated by `MarkAgreesWithScore` and `MarkedCorrectMatchesScore` |
| ReportPage.MarkAgreesWithScore | src/pages/ReportPage.jsx:57-64 | a line is marked correct iff it scores and its correct answer is non-empty, and wrong iff a non-empty different answer was chosen; otherwise it reads "Not answered" |
| ReportPage.MarkedCorrectMatchesScore | src/pages/ReportPage.jsx:11-64 | with no empty correct answer, the lines marked correct are exactly as many as the score |
| ReportPage.Restart | src/pages/ReportPage.jsx:27-31 | both keys are removed and the session is exactly the initial one |
| ReportPage.RestartForgetsQuiz | src/pages/ReportPage.jsx:27-31 | after Restart the persist effect writes nothing, and a reload starts from the initial session |
| StartPage.Trim | src/pages/StartPage.jsx:19 | no ensures; stated by `TrimStart`, `TrimEnd`, `TrimKeepsMiddle` and `TrimIdempotent` |
| StartPage.TrimStart | src/pages/StartPage.jsx:19 | drops exactly the leading white space |
| StartPage.TrimEnd | src/pages/StartPage.jsx:19 | drops exactly the trailing white space |
| StartPage.TrimKeepsMiddle | src/pages/StartPage.jsx:19 | the input is a run of white space, then the trimmed email, then a run of white space |
| StartPage.TrimIdempotent | src/pages/StartPage.jsx:19 | a trimmed email has no white space at either end, and trimming it again changes nothing |
| StartPage.Find | src/pages/StartPage.jsx:5 | finds the first occurrence of a character, or reports that there is none |
| StartPage.MatchesEmailPattern | src/pages/StartPage.jsx:5 | no ensures; stated by `EmailPatternIff` |
| StartPage.IsValidEmail | src/pages/StartPage.jsx:20 | no ensures; stated by `EmailPatternIff` |
| StartPage.EmailPatternIff | src/pages/StartPage.jsx:5-20 | the pattern matches exactly when there is no white space, exactly one `@` with something before it, and a dot after it that is neither the first nor the last character of the domain |
| StartPage.HasSavedQuiz | src/pages/StartPage.jsx:13-15 | no ensures; stated by `SwitchingUserDropsOldQuiz`, `SameUserKeepsQuiz` and `StartPage.Proceed` |
| StartPage.SwitchingUserDropsOldQuiz | src/pages/StartPage.jsx:25-29 | after another user starts, storage holds the new email and its fresh session, and a reload gives exactly that session |
| StartPage.SameUserKeepsQuiz | src/pages/StartPage.jsx:25-29 | the same user's Start clears nothing and leaves the session as it was |
| StartPage.StartPage.constructor | src/pages/StartPage.jsx:10-11 | the input starts from the session's email, the error empty |
| StartPage.StartPage.Edit | src/pages/StartPage.jsx:55 | typing replaces the input |
| StartPage.StartPage.Proceed | src/pages/StartPage.jsx:25-29 | another user's saved quiz is dropped and the session starts over with the new email; otherwise only the email is set; storage is persisted for the new session |
| StartPage.StartPage.Submit | src/pages/StartPage.jsx:17-31 | proceeds iff the trimmed input matches the pattern; a rejected input sets the error and touches nothing else; an accepted one stores the trimmed email, after clearing storage and resetting when another user's quiz is saved |
| StartPage.StartPage.StartOver | src/pages/StartPage.jsx:37-42 | both keys are removed, the session is the initial one, and the form is emptied |
| Timer.FloorDiv60 | src/components/Timer.jsx:4 | the minutes are the floor of the count over 60 |
| Timer.JsRem60 | src/components/Timer.jsx:5 | the seconds are the remainder with the sign of the count: 0 to 59 for a non-negative count |
| Timer.PadStart2 | src/components/Timer.jsx:6 | padding puts zeros in front up to two characters and keeps the text |
| Timer.FormatTime | src/components/Timer.jsx:3-7 | no ensures; stated by `DisplayFields`, `ReadFormatted`, `FormatInjective`, `Examples` and `NegativeExample` |
| Timer.SplitsIntoMinutesAndSeconds | src/components/Timer.jsx:4-5 | for a non-negative count, 60 times the minutes plus the seconds is the count |
| Timer.PaddedValue | src/components/Timer.jsx:6 | a padded field is all digits and reads back as its number |
| Timer.DisplayFields | src/components/Timer.jsx:5-6 | the display is the padded minutes, a colon, and exactly two seconds digits; the fields read back as the whole minutes and the leftover seconds, 0 to 59 |
| Timer.FiveCharacters | src/components/Timer.jsx:6 | below 6000 seconds the display is exactly five characters |
| Timer.Examples | src/components/Timer.jsx:3-7 | 1800 seconds shows "30:00" and 0 shows "00:00" |
| Timer.ReadFormatted | src/components/Timer.jsx:4-6 | reading a display back gives the non-negative count it shows |
| Timer.FormatInjective | src/components/Timer.jsx:4-6 | no two non-negative counts share a display |
| Timer.NegativeExample | src/components/Timer.jsx:4-6 | a negative count, which the countdown never reaches, shows signed fields: -5 shows "-1:-5" |

## Left out

- The request to the trivia service is left out. This covers `fetch`, the URL with its question count of 15 and cache-busting time stamp, and `response.json()`. The reply is an input: either a failure message, or the OK flag, HTTP status, response code and results.
- Clock readings (`Date.now()`) are parameters.
- The browser decoder behind `decodeHtmlEntities` is a function parameter. Only its empty-input guard is modelled.
- `shuffleArray` is not part of this model. Each question's shuffle is an input order that holds each position exactly once.
- Routing is left out: the redirect effects, every `navigate` call and the App component. `proceed` in `StartPage.StartPage.Submit` stands for the move to the quiz.
- The confirm modal's visibility and all rendering and presentation components are left out.
- `localStorage` failures swallowed by the `try` blocks are not modelled. Storage is a plain map that always accepts writes.
- JSON is modelled only for the values the snapshot holds. Numbers are integers in plain decimal; fractions, exponents and numbers of 1e21 and above are not modelled. `\u` escapes naming UTF-16 surrogates are rejected, because a Dafny `char` cannot hold a lone surrogate.
- QuizContext.LoadState: a snapshot field holding a value its typed field cannot hold is treated as absent, so the initial value stays. This covers a value of the wrong JSON type and a `status` string other than the five status names. The code would copy such a value into the session as it is. A non-string truthy `email` is likewise replaced by the stored email.
- QuizContext.Reducer: writes to an answer or visited slot require the index to be in range. A JavaScript array would grow instead; the pages never write out of range.
- Action payloads are typed: a status is one of the five statuses. The code accepts any value.
- QuizContext.QuizProvider.Dispatch: the persist effect runs after each dispatch. React runs it once per batched render. The two agree on the final storage for every handler here. Either consecutive states in one handler share the email and the later one is persisted whenever the earlier one is (`QuizContext.AfterRenderAbsorbs`), or the earlier state is the initial one, which is never persisted. The second case is the RESET before SET_EMAIL in `StartPage.StartPage.Proceed`.
- QuizPage.QuizPage.FetchQuestions: the load is one atomic step. Events arriving while the request is in flight are not interleaved with it.
- QuizPage.QuizPage.TimerFires: the pending timeout and its cancellation on re-render are not modelled. One call is one run of the effect together with the timeout it schedules firing.
- StartPage.StartPage.Submit: `hasSavedQuiz` is computed from the current email and storage. The code memoises it on the email, so storage changes without an email change are not seen.
- QuizPage.ProgressPercent: exact rounding of the rational value stands in for floating-point `Math.round`.
- The Continue button only navigates, so it has no member.
