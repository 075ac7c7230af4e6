# Quiz progression and scoring — a Dafny model

This project models the in-memory core of an Angular quiz application: how the
quiz containers buffer the user's answers for the active question and score
them on moving on, how the question components set and clear the `selected`
flags of a question's options, the counters and lists of the quiz service, and
the arithmetic of the scoreboard timers. It follows the code as written, quirks
included:

- `QuizComponent` scores a question when some buffered answer names an option
  that is both selected and correct, and the buffer length equals the service's
  `numberOfCorrectAnswers`. The sets are not compared, so answers {0, 1} against
  correct options {0, 2} still score.
- `DependencyInjectionQuizComponent` scores when `find` returns a truthy answer.
  The number 0 is falsy, so a question whose first selected correct answer is
  option 0 never scores there.
- Both containers set their buffer to null when moving back. A later scoring
  call with a question set then throws at `answers.find`.
- `MultipleAnswerComponent.setSelected` sets the option index to null on a
  correct option and then reads `options[null]`, which throws.
- The index-0 guard (`optionIndex && …`) means option 0 is never recorded in
  `correctAnswers`.
- The countdown has no floor at zero.

The code compares no answer sets, never toggles a selection off, and lets the
countdown go below zero; the model follows the code.

Conventions:

- In the containers and the question components, a question is the
  `array<Option>` of its options, and they share that array by reference. The
  quiz service holds its questions as values (`seq<Option>`), and nothing
  aliases them.
- JavaScript null and undefined are `Nullable.Null`.
- A thrown TypeError is `Outcome.Threw` for an operation without a result, and
  `Completion.Thrown` for one with a result.
- Integers are unbounded.

Modules, one per source file, plus shared value modules:

- `Values`: options, nullable values, completions, progress.
- `Scoring`: the answer buffer rule, `find`, and the two scoring rules.
- `SharedServices`: the fields of the shared quiz and timer services that the
  components touch.
- `QuizContainer` and `DependencyInjectionContainer`: the two quiz containers.
- `QuizServices`: src/app/services/quiz.service.ts.
- `Selection`: the option-flag updates.
- `QuestionView`, `SingleAnswer` and `MultipleAnswer`: the question components.
- `Countdown`: the `reduce` and `scan` arithmetic.
- `ScoreboardTimer` and `ScoreboardTime`: the two scoreboard components.

## Model

| member | source | states |
|---|---|---|
| Values.CorrectCount | src/app/containers/quiz/quiz.component.ts:109 | the number of correct options is at most the option count; it is 0 iff no option is correct, and equal to the count iff every option is |
| Values.CorrectCountIgnoresSelection | src/app/containers/quiz/quiz.component.ts:109 | changing only `selected` flags never changes whether a question counts as multi-answer |
| Scoring.SelectAnswer | src/app/containers/quiz/quiz.component.ts:108-115 | the selected value is always in the buffer afterwards; the buffer never shrinks and grows by at most one; it grows iff it was empty or (multi-answer and the value was absent), and then it gains the value at the end; otherwise slot 0 becomes the value and the other slots stay |
| Scoring.SelectAll | src/app/containers/quiz/quiz.component.ts:108-115 | a run of `selectedAnswer` calls on one question: `SelectAnswer` applied to each value in turn (a definition; its properties are the three lemmas below) |
| Scoring.SingleCorrectKeepsOneAnswer | src/app/containers/quiz/quiz.component.ts:109-114 | on a question with at most one correct option, any run of selections from an empty buffer leaves at most one answer |
| Scoring.SelectionsGrowByAtMostOneEach | src/app/containers/quiz/quiz.component.ts:110-113 | a run of n selections never shortens the buffer and adds at most n entries |
| Scoring.SelectionsComeFromSelected | src/app/containers/quiz/quiz.component.ts:110-113 | every buffered answer was there before or was selected since, and the last selection is always buffered |
| Scoring.DuplicateAnswersArise | src/app/containers/quiz/quiz.component.ts:110-113 | selecting 1, 2, 2 on a multi-answer question gives the buffer [2, 2] |
| Scoring.Qualifies | src/app/containers/quiz/quiz.component.ts:163-168 | the `find` callback: the answer names an existing option whose `selected` and `correct` flags are both set (a definition; `Find` and the scoring lemmas are stated with it) |
| Scoring.Find | src/app/containers/quiz/quiz.component.ts:163-168 | `find` returns undefined iff no entry names an existing option that is selected and correct; otherwise it returns the first such entry |
| Scoring.Recorded | src/app/containers/quiz/quiz.component.ts:170-171 | the entry pushed onto `userAnswers` has the buffer's length and each answer plus one |
| Scoring.StrictScores | src/app/containers/quiz/quiz.component.ts:177-182 | the `addUpScores` condition on the found answer and the 1-based copy's length (a definition; `StrictScoresIff` characterizes it) |
| Scoring.StrictScoresIff | src/app/containers/quiz/quiz.component.ts:161-182 | `QuizComponent` scores iff some buffered answer names a selected correct option and the buffer length equals `numberOfCorrectAnswers` |
| Scoring.PartialSelectionStillScores | src/app/containers/quiz/quiz.component.ts:177-182 | answers {0, 1} with correct options {0, 2} and two correct answers score |
| QuizContainer.QuestionAt | src/app/containers/quiz/quiz.component.ts:199-202 | the question for a 1-based index is set iff the index lies inside the quiz, and it is then that question |
| QuizContainer.QuizComponent.constructor | src/app/containers/quiz/quiz.component.ts:31-60 | a new container has an empty buffer and no question |
| QuizContainer.QuizComponent.OnRouteParams | src/app/containers/quiz/quiz.component.ts:66-85 | on every emission of the route parameters: the total becomes the question count; a given index becomes the component's and the service's index and selects the question, with progress 0 and status Started on index 1 and `Percent(index - 1, total)` with the status kept otherwise; without an index nothing else changes |
| QuizContainer.QuizComponent.OnInit | src/app/containers/quiz/quiz.component.ts:62-93 | the first emission as in `OnRouteParams`, the buffer kept; the component's count becomes 0 when the index is 1 and the subject's old value otherwise |
| QuizContainer.QuizComponent.IsAnswered | src/app/containers/quiz/quiz.component.ts:100-102 | true iff the buffer is non-null and non-empty |
| QuizContainer.QuizComponent.SelectedAnswer | src/app/containers/quiz/quiz.component.ts:108-115 | throws iff there is no question or the buffer is null; otherwise the buffer follows `SelectAnswer`, multi-answer meaning more than one correct option |
| QuizContainer.QuizComponent.CheckIfAnsweredCorrectly | src/app/containers/quiz/quiz.component.ts:161-175 | a no-op without a question; throws and changes nothing on a null buffer; otherwise pushes exactly the 1-based copy and raises the count by exactly 1 iff the strict rule holds; the shared count can change only when it scores |
| QuizContainer.QuizComponent.AddUpScores | src/app/containers/quiz/quiz.component.ts:177-182 | the count rises by one iff the found answer is greater than -1 and the list length equals `numberOfCorrectAnswers`; otherwise it and the shared count are unchanged |
| QuizContainer.QuizComponent.AdvanceToNextQuestion | src/app/containers/quiz/quiz.component.ts:126-133 | scores first; if that throws nothing else changes, the shared count included; otherwise the buffer is empty and status is Continue, and the shared count can change only when the buffer scored |
| QuizContainer.QuizComponent.AdvanceToPreviousQuestion | src/app/containers/quiz/quiz.component.ts:135-140 | the buffer becomes null and status Continue, so the next scoring call with a question set throws |
| QuizContainer.QuizComponent.AdvanceToResults | src/app/containers/quiz/quiz.component.ts:142-148 | after the service reset, which may change any field of the two services, scores the buffer one last time: throws iff a question is set and the buffer is null; otherwise pushes the 1-based copy onto the `userAnswers` left by the reset and raises the count by one iff the strict rule holds against the reset's `numberOfCorrectAnswers` |
| QuizContainer.QuizComponent.RestartQuiz | src/app/containers/quiz/quiz.component.ts:150-159 | the timer service's elapsed times become empty and its completion time 0, and the buffer becomes null; the unmodelled service resets may change any other field of both services |
| QuizContainer.QuizComponent.SendCorrectCountToQuizService | src/app/containers/quiz/quiz.component.ts:226-229 | the component's count becomes the given value; the shared count may change through the unmodelled `sendCorrectCountToResults` |
| DependencyInjectionContainer.DependencyInjectionQuizComponent.constructor | src/app/containers/dependency-injection-quiz/dependency-injection-quiz.component.ts:31-48 | a new container has an empty buffer and no question |
| DependencyInjectionContainer.DependencyInjectionQuizComponent.OnRouteParams | src/app/containers/dependency-injection-quiz/dependency-injection-quiz.component.ts:51-65 | on every emission of the route parameters: the total becomes `numberOfQuestions()`; a given index becomes the component's and the service's index and selects the question, with progress 0 on index 1 and `Percent(index - 1, total)` otherwise; without an index nothing else changes |
| DependencyInjectionContainer.DependencyInjectionQuizComponent.OnInit | src/app/containers/dependency-injection-quiz/dependency-injection-quiz.component.ts:50-73 | the first emission as in `OnRouteParams`, the buffer kept; the component's count becomes 0 when the index is 1 and the subject's old value otherwise |
| DependencyInjectionContainer.DependencyInjectionQuizComponent.SelectedAnswer | src/app/containers/dependency-injection-quiz/dependency-injection-quiz.component.ts:83-90 | the same append-if-absent / overwrite-slot-0 rule as `QuizComponent`, with the same throwing cases |
| DependencyInjectionContainer.DependencyInjectionQuizComponent.CheckIfAnsweredCorrectly | src/app/containers/dependency-injection-quiz/dependency-injection-quiz.component.ts:120-134 | a no-op without a question; throws on a null buffer; otherwise pushes exactly the 1-based copy and raises the count by exactly 1 iff the loose rule holds; the shared count can change only when it scores |
| Scoring.LooseScores | src/app/containers/dependency-injection-quiz/dependency-injection-quiz.component.ts:122-130 | the truthiness test on the found answer (a definition; `LooseScoresIff` characterizes it) |
| Scoring.LooseScoresIff | src/app/containers/dependency-injection-quiz/dependency-injection-quiz.component.ts:122-130 | the variant scores iff the first buffered answer naming a selected correct option is not option 0; no count is compared |
| Scoring.OptionZeroFirstNeverScores | src/app/containers/dependency-injection-quiz/dependency-injection-quiz.component.ts:128-130 | when option 0 is selected, correct and buffered first, the variant does not score, whatever follows |
| Scoring.OneOfTwoCorrectScoresLoosely | src/app/containers/dependency-injection-quiz/dependency-injection-quiz.component.ts:128-130 | one of two correct options selected scores in the variant and not under the strict rule |
| DependencyInjectionContainer.DependencyInjectionQuizComponent.AdvanceToNextQuestion | src/app/containers/dependency-injection-quiz/dependency-injection-quiz.component.ts:92-97 | scores first; if that throws nothing else changes, the shared count included; otherwise the buffer is empty, and the shared count can change only when the buffer scored |
| DependencyInjectionContainer.DependencyInjectionQuizComponent.AdvanceToPreviousQuestion | src/app/containers/dependency-injection-quiz/dependency-injection-quiz.component.ts:99-103 | the buffer becomes null |
| DependencyInjectionContainer.DependencyInjectionQuizComponent.AdvanceToResults | src/app/containers/dependency-injection-quiz/dependency-injection-quiz.component.ts:105-109 | after the service reset, which may change any field of the service, scores the buffer one last time: throws iff a question is set and the buffer is null; otherwise pushes the 1-based copy onto the `userAnswers` left by the reset and raises the count by one iff the loose rule holds |
| DependencyInjectionContainer.DependencyInjectionQuizComponent.RestartQuiz | src/app/containers/dependency-injection-quiz/dependency-injection-quiz.component.ts:111-118 | elapsed times become empty, completion time 0, and the buffer null; the unmodelled service resets may change any other field of the quiz service |
| DependencyInjectionContainer.DependencyInjectionQuizComponent.SendCorrectCountToQuizService | src/app/containers/dependency-injection-quiz/dependency-injection-quiz.component.ts:136-139 | the component's count becomes the given value; the shared count may change through the unmodelled `sendCorrectCountToResults` |
| QuizServices.QuizService.constructor | src/app/services/quiz.service.ts:13-32 | a new service holds the quiz data, index 1, count 0 and empty answer lists |
| QuizServices.QuizService.ResetAll | src/app/services/quiz.service.ts:38-43 | count 0, index 1, no correct answers, no message; on an already reset service nothing changes (idempotent) |
| QuizServices.AddCorrectIndex | src/app/services/quiz.service.ts:53-64 | throws iff the index is non-zero, the question is set and the option is missing; otherwise it only appends, at most one entry, and it appends iff the index is non-zero, the question is set and the option is correct; the appended value is the index plus one and at least 2 |
| QuizServices.QuizService.AddCorrectIndexesToCorrectAnswerOptionsArray | src/app/services/quiz.service.ts:53-64 | the service's `correctAnswers` follows `AddCorrectIndex`, unchanged when it throws |
| QuizServices.AddCorrectIndexes | src/app/services/quiz.service.ts:53-64 | a run of `addCorrectIndexesToCorrectAnswerOptionsArray` calls: `AddCorrectIndex` applied to each index in turn, stopping at the first that throws (a definition; `OptionZeroNeverRecorded` states its properties) |
| QuizServices.OptionZeroNeverRecorded | src/app/services/quiz.service.ts:53-64 | any run of calls only appends, at most one entry per call, and never records option 0 (every new entry is at least 2) |
| QuizServices.QuizService.AddFinalAnswerToFinalAnswers | src/app/services/quiz.service.ts:66-68 | the current answer is appended and earlier entries stay |
| QuizServices.QuizService.NumberOfQuestions | src/app/services/quiz.service.ts:70-76 | the length of the question list, or 0 when the quiz data or its questions are missing |
| QuizServices.QuizService.GetQuestionType | src/app/services/quiz.service.ts:78-80 | true iff exactly one correct answer is recorded |
| QuizServices.QuizService.IsFinalQuestion | src/app/services/quiz.service.ts:82-84 | throws iff the quiz data or questions are missing; otherwise true iff the question count equals the current index |
| QuizServices.QuizService.NextQuestionIndex | src/app/services/quiz.service.ts:86-89 | the target lies past the current index, which is not changed |
| QuizServices.NextAfterFinalIsPastTheEnd | src/app/services/quiz.service.ts:82-89 | on the final question, `nextQuestion` targets one past the last question |
| Selection.ClearSelected | src/app/components/question/question.component.ts:67 | every `selected` flag is false; length and `correct` flags are kept |
| Selection.ClearSelectedInPlace | src/app/components/question/question.component.ts:67 | the forEach loop leaves the array equal to `ClearSelected` of its old contents |
| Selection.SelectExclusive | src/app/components/question/question.component.ts:67-68 | afterwards exactly option i is selected, the length is kept and no `correct` flag changes |
| Selection.IsCorrect | src/app/components/question/question.component.ts:62-64 | throws iff option i is missing; otherwise true iff the flag equals the option's `correct` |
| Selection.WithCorrectIndex | src/app/components/question/question.component.ts:69-75 | the list only grows, by at most one entry; it grows iff i is not 0 and option i is correct, and then by i + 1 |
| Selection.SelectingTwiceRecordsTwice | src/app/components/question/question.component.ts:75 | choosing the same correct option twice records its index twice |
| QuestionView.QuizQuestionComponent.constructor | src/app/components/question/question.component.ts:33-40 | the component holds the question it was given (the `question` input setter) and the shared quiz service |
| QuestionView.QuizQuestionComponent.SetSelected | src/app/components/question/question.component.ts:66-80 | throws iff option i is missing, after all flags were cleared; otherwise exactly option i is selected and `correctAnswers` follows `WithCorrectIndex` |
| Selection.SelectAlongside | src/app/components/question/single-answer/single-answer.component.ts:88 | option i is selected and every other option is unchanged |
| Selection.SelectOption | src/app/components/question/single-answer/single-answer.component.ts:85-88 | option i is selected; every other flag is cleared iff the update is exclusive and kept otherwise; no `correct` flag changes |
| Selection.SelectOptionIdempotent | src/app/components/question/single-answer/single-answer.component.ts:85-88 | choosing the same option twice gives the same flags as choosing it once |
| Selection.OwnFlagIsAlwaysCorrect | src/app/components/question/single-answer/single-answer.component.ts:79-82 | `isCorrect` applied to an option's own flag is always true |
| SingleAnswer.SingleAnswerComponent.constructor | src/app/components/question/single-answer/single-answer.component.ts:25-49 | a new component has every flag false |
| SingleAnswer.SingleAnswerComponent.SetSelected | src/app/components/question/single-answer/single-answer.component.ts:77-111 | `quizStarted` is set; throws iff option i is missing, changing nothing else; otherwise the flags follow `SelectOption` (exclusive iff one correct answer), `isCorrectAnswerSelected`, `optionSelected` and `alreadyAnswered` are true, and `optionCorrect` iff option i was correct |
| MultipleAnswer.MultipleAnswerComponent.constructor | src/app/components/question/multiple-answer/multiple-answer.component.ts:25-49 | a new component has every flag false |
| MultipleAnswer.MultipleAnswerComponent.SetSelected | src/app/components/question/multiple-answer/multiple-answer.component.ts:77-117 | a missing option throws with only `quizStarted` set; the flags follow `SelectOption`; a correct option then throws before `alreadyAnswered`; an incorrect one gets `correct` written false, `optionSelected` and `alreadyAnswered` true and `optionCorrect` false |
| Countdown.Reduce | src/app/containers/scoreboard/timer/timer.component.ts:99 | `reduce((acc, cur) => acc + cur, 0)` as a left fold from a seed (a definition; `ReduceIsSum` ties it to the sum) |
| Countdown.ReduceIsSum | src/app/containers/scoreboard/timer/timer.component.ts:99 | the left fold from a seed equals the seed plus the sum |
| Countdown.ReduceAppend | src/app/containers/scoreboard/timer/timer.component.ts:99 | appending x to the elapsed times raises the total by exactly x |
| Countdown.Scan | src/app/containers/scoreboard/timer/timer.component.ts:75 | one emission per tick |
| Countdown.ScanValues | src/app/containers/scoreboard/timer/timer.component.ts:75 | the k-th emission (from 0) is the seed minus 1000 (k + 1) |
| Countdown.ScanSteps | src/app/containers/scoreboard/timer/timer.component.ts:75 | consecutive emissions differ by exactly 1000 |
| ScoreboardTimer.TimerCountdown | src/app/containers/scoreboard/timer/timer.component.ts:75 | the timer emits 20000 - 1000 (k + 1) on the k-th tick from 0 |
| ScoreboardTimer.CountdownHasNoFloor | src/app/containers/scoreboard/timer/timer.component.ts:75 | the 20th emission is 0 and the 21st is -1000 |
| ScoreboardTimer.TimerComponent.constructor | src/app/containers/scoreboard/timer/timer.component.ts:19-23 | 20 seconds per question, no completion time or count yet |
| ScoreboardTimer.TimerComponent.StopTimer | src/app/containers/scoreboard/timer/timer.component.ts:92-95 | `timePerQuestion` becomes 0 |
| ScoreboardTimer.TimerComponent.CalculateTotalElapsedTime | src/app/containers/scoreboard/timer/timer.component.ts:97-102 | for a non-empty list returns the sum and stores it in `completionTime`; for an empty list returns undefined and leaves `completionTime` alone |
| ScoreboardTimer.TimerComponent.SendCompletionTimeToTimerService | src/app/containers/scoreboard/timer/timer.component.ts:104-107 | `completionCount` becomes the given value |
| ScoreboardTime.TimeComponent.constructor | src/app/containers/scoreboard/time/time.component.ts:20-24 | 20 seconds per question, no completion time or count yet |
| ScoreboardTime.TimeComponent.Countdown | src/app/containers/scoreboard/time/time.component.ts:71 | the k-th emission (from 0) is `timePerQuestion * 1000` - 1000 (k + 1) |
| ScoreboardTime.FreshCountdownFirstEmits19000 | src/app/containers/scoreboard/time/time.component.ts:20 | with the initial 20 seconds per question the first emission is 19000 |
| ScoreboardTime.TimeComponent.CalculateTotalElapsedTime | src/app/containers/scoreboard/time/time.component.ts:79-84 | for a non-empty list returns the sum and stores it in `completionTime`; for an empty list returns undefined and leaves `completionTime` alone |
| ScoreboardTime.TimeComponent.SendCompletionTimeToTimerService | src/app/containers/scoreboard/time/time.component.ts:86-89 | `completionCount` becomes the given value |

## Left out

- The RxJS and DOM wiring of `countdownClock` is not modelled: the button events, `timer`, `switchMapTo`, `takeUntil`, `repeatWhen`, and the `isStop`/`isPause` subjects of `stopTimer`, `pauseTimer` and `goOn`. It is asynchronous scheduling; only the `scan` arithmetic is modelled, over a given run of ticks.
- Router navigation is not modelled: `navigate` calls, the routing module, quiz selection, and `selectQuiz` and `findIndex` in the results component. It only computes targets; `nextQuestion`'s target is kept as `NextQuestionIndex`.
- The progress percentage for questions after the first is not computed, because the source evaluates it in floating point. Its two operands are kept as `Progress.Percent`.
  - `QuizComponent` rounds up with `Math.ceil` (src/app/containers/quiz/quiz.component.ts:80), and 7/100*100 is 7.000000000000001, so it shows 8.
  - The dependency-injection variant does not round (src/app/containers/dependency-injection-quiz/dependency-injection-quiz.component.ts:62).
  - Both map to the same `Percent(answered, total)`, so the model does not tell the two formulas apart.
- Shuffling of questions and options is not modelled: it is randomised and delegates to a `shuffle` that is not part of this model.
- Side effects outside the modelled state are dropped: sounds, `console.log`, `EventEmitter.emit`, animation subjects, and the timer service's `stopTimer` and `resetTimer`.
- The shared services that the components import (src/app/shared/services/) are not part of this model. Only the fields the components read or write directly are kept (`SharedServices`). Their methods are left out: `resetAll`, `resetQuestions`, `setTotalQuestions`, `setQuestion`, `setQuestions`, `setQuizId`, `setQuizStatus`, `setPreviousUserAnswersText`, `setIsAnswered`, `sendCorrectCountToResults`, `sendCompletionTimeToResults`, `setExplanationAndCorrectAnswerMessages`, `setOptions` (with the `isCorrectOption`/`isIncorrectOption` values it feeds), `setMultipleAnswer` (called from the single- and multiple-answer constructors), `navigateToResults` and `getCorrectAnswers`. `AdvanceToResults` and `RestartQuiz` of both containers may change any field of the services, because they call `resetAll`, `resetQuestions`, `stopTimer` and `resetTimer`. `SendCorrectCountToQuizService` calls `sendCorrectCountToResults`, so it may change the shared `correctAnswersCount`. `OnInit` always reaches it. `AddUpScores`, `CheckIfAnsweredCorrectly` and `AdvanceToNextQuestion` of both containers reach it only on the path that scores, and their contracts state that the shared count is unchanged on every other path: no question, a null buffer, or a failed rule. Everywhere else the model assumes the unmodelled calls leave the modelled fields as they were. The assumption is made at these calls:
  - `setTotalQuestions` and `sendValuesToQuizService` in the route callback (src/app/containers/quiz/quiz.component.ts:70, 83);
  - `navigateToNextQuestion` and `resetTimer` after the scoring in `advanceToNextQuestion` (src/app/containers/quiz/quiz.component.ts:131-132);
  - `navigateToPreviousQuestion` (src/app/containers/quiz/quiz.component.ts:139);
  - `nextQuestion` and `previousQuestion` (src/app/containers/dependency-injection-quiz/dependency-injection-quiz.component.ts:96, 102);
  - `setExplanationAndCorrectAnswerMessages` right after the `correctAnswers` append (src/app/components/question/question.component.ts:79).
  - `navigateToResults` after the scoring in `advanceToResults`, whose contract states `userAnswers` afterwards (src/app/containers/quiz/quiz.component.ts:147, src/app/containers/dependency-injection-quiz/dependency-injection-quiz.component.ts:108).
  - `setMultipleAnswer` in the single- and multiple-answer constructors (src/app/components/question/single-answer/single-answer.component.ts:118, src/app/components/question/multiple-answer/multiple-answer.component.ts:124).

  The fields concerned are `userAnswers`, `numberOfCorrectAnswers`, `currentQuestionIndex`, `correctAnswers`, `elapsedTimes` and `completionTime`.
- QuizContainer.QuizComponent.AdvanceToResults: the code of the shared service's `resetAll` and of the timer service's `stopTimer` and `resetTimer` is not available. So the `userAnswers` and `numberOfCorrectAnswers` the reset leaves are inputs, and the contract says nothing about the services' other fields afterwards.
- DependencyInjectionContainer.DependencyInjectionQuizComponent.AdvanceToResults: the code of the shared service's `resetAll` is not available. So the `userAnswers` it leaves is an input, and the contract says nothing about the service's other fields afterwards.
- DependencyInjectionContainer.DependencyInjectionQuizComponent.OnInit: `numberOfQuestions()` and `getQuestions()` belong to the shared service, so their results are inputs.
- QuizContainer.QuizComponent.OnInit: the quiz is taken as its list of questions, and the lookup of the quiz by id is not modelled. The shared `correctAnswersCount` after the method is not stated, because the final `sendCorrectCountToResults` may change it; the component's count is stated as the value read before that call.
- DependencyInjectionContainer.DependencyInjectionQuizComponent.OnInit: the shared `correctAnswersCount` after the method is not stated, because the final `sendCorrectCountToResults` may change it; the component's count is stated as the value read before that call.
- Of the Angular lifecycle hooks, only the two containers' `ngOnInit` is modelled (`OnInit`, with its route callback as `OnRouteParams`, which also stands for every later emission). The following are not modelled:
  - `ngOnDestroy`.
  - `ngOnChanges` of the question components. The components are built as it leaves them, holding a question and its correct answers. In the single- and multiple-answer components its `formGroup` reset branch is dead, because `formGroup` is never assigned.
  - `ngOnInit` of the question components (src/app/components/question/single-answer/single-answer.component.ts:51-57, src/app/components/question/multiple-answer/multiple-answer.component.ts:51-57, src/app/components/question/question.component.ts:42-47). The first two overwrite `currentQuestion` and `alreadyAnswered` from the shared service. The constructors' "every flag false" therefore holds only as long as the service's `alreadyAnswered` is falsy.
- A question always has its options list, so the `question.options &&` guards always pass. An absent `correct` or `selected` reads as false, and so the false written by `MultipleAnswerComponent` over an absent `correct` is indistinguishable from the value already there.
- `correctCount` is undefined until `ngOnInit` runs; the model starts it at 0.
- JavaScript numbers are doubles; the model's integers are exact, which matches the source only while sums and counts stay below 2^53.
- QuizServices.QuizService.NextQuestionIndex: its contract states only that the target lies past the current index. The exact value, one more, is stated by `NextAfterFinalIsPastTheEnd` on the final question.
- The other quiz service members are not modelled: `getQuestions` (a copy of the data), `setExplanationOptionsText`/`getExplanationOptionsText` (field copies) and `navigateToResults` (navigation).
- The introduction, score and results components are thin wiring and are not modelled.
