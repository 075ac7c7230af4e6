/** `DependencyInjectionQuizComponent`
    (src/app/containers/dependency-injection-quiz/dependency-injection-quiz.component.ts):
    the older quiz container. It buffers answers by the same rule as
    `QuizComponent` but scores by the looser truthiness rule of `LooseScores`. */
module DependencyInjectionContainer {
  import opened Values
  import opened Scoring
  import opened SharedServices
  import QuizContainer

  class DependencyInjectionQuizComponent {
    var question: array?<Option>
    var answers: Nullable<seq<int>>
    var questionIndex: Nullable<int>
    var totalQuestions: Nullable<int>
    var progressValue: Progress
    var correctCount: int
    const quizService: SharedQuizService
    const timerService: SharedTimerService

    constructor (quizService: SharedQuizService, timerService: SharedTimerService)
      ensures this.quizService == quizService && this.timerService == timerService
      ensures question == null && answers == NonNull([])
      ensures questionIndex.Null? && totalQuestions.Null? && progressValue == Unset && correctCount == 0
    {
      this.quizService := quizService;
      this.timerService := timerService;
      question := null;
      answers := NonNull([]);
      questionIndex := Null;
      totalQuestions := Null;
      progressValue := Unset;
      correctCount := 0;
    }

    /** The `activatedRoute.params` callback that `ngOnInit` subscribes, with the
        route's `questionIndex` parameter, the questions that
        `quizService.getQuestions()` holds and the value of
        `quizService.numberOfQuestions()`. Every question index uses the same
        route, so this runs again on each move to another question, without the
        count reset of `ngOnInit`. */
    method OnRouteParams(questions: seq<array<Option>>, numberOfQuestions: int, routeIndex: Nullable<int>)
      modifies this`totalQuestions, this`questionIndex, this`progressValue, this`question,
               quizService`currentQuestionIndex
      ensures totalQuestions == NonNull(numberOfQuestions)
      ensures routeIndex.NonNull? ==>
                questionIndex == routeIndex && quizService.currentQuestionIndex == routeIndex.value &&
                question == QuizContainer.QuestionAt(questions, routeIndex.value)
      ensures routeIndex == NonNull(1) ==> progressValue == Zero
      ensures routeIndex.NonNull? && routeIndex.value != 1 ==>
                progressValue == Percent(routeIndex.value - 1, numberOfQuestions)
      ensures routeIndex.Null? ==>
                questionIndex == old(questionIndex) && question == old(question) &&
                progressValue == old(progressValue) &&
                quizService.currentQuestionIndex == old(quizService.currentQuestionIndex)
    {
      totalQuestions := NonNull(numberOfQuestions);
      if routeIndex.NonNull? {
        var index := routeIndex.value;
        questionIndex := NonNull(index);
        quizService.currentQuestionIndex := index;
        question := QuizContainer.QuestionAt(questions, index);
        if index == 1 {
          progressValue := Zero;
        } else {
          progressValue := Percent(index - 1, numberOfQuestions);
        }
      }
    }

    /** `ngOnInit`: the first emission of the route parameters, then the count
        subject reset to 0 on the first question, and the count read back from
        it before it is sent on. */
    method OnInit(questions: seq<array<Option>>, numberOfQuestions: int, routeIndex: Nullable<int>)
      modifies this, quizService`currentQuestionIndex, quizService`correctAnswersCount
      ensures answers == old(answers)
      ensures totalQuestions == NonNull(numberOfQuestions)
      ensures routeIndex.NonNull? ==>
                questionIndex == routeIndex && quizService.currentQuestionIndex == routeIndex.value &&
                question == QuizContainer.QuestionAt(questions, routeIndex.value)
      ensures routeIndex == NonNull(1) ==> progressValue == Zero
      ensures routeIndex.NonNull? && routeIndex.value != 1 ==>
                progressValue == Percent(routeIndex.value - 1, numberOfQuestions)
      ensures routeIndex.Null? ==>
                questionIndex == old(questionIndex) && question == old(question) &&
                progressValue == old(progressValue) &&
                quizService.currentQuestionIndex == old(quizService.currentQuestionIndex)
      ensures correctCount == if questionIndex == NonNull(1) then 0 else old(quizService.correctAnswersCount)
    {
      OnRouteParams(questions, numberOfQuestions, routeIndex);
      if questionIndex == NonNull(1) {
        quizService.correctAnswersCount := 0;
      }
      correctCount := quizService.correctAnswersCount;
      SendCorrectCountToQuizService(correctCount);
    }

    /** `selectedAnswer(data)`: the same buffer rule as `QuizComponent`. */
    method SelectedAnswer(data: int) returns (outcome: Outcome)
      modifies this`answers
      ensures outcome == Threw <==> question == null || old(answers).Null?
      ensures outcome == Threw ==> answers == old(answers)
      ensures outcome == Returned ==>
                answers == NonNull(SelectAnswer(old(answers).value, data, CorrectCount(question[..]) > 1))
    {
      if question == null || answers.Null? {
        return Threw;
      }
      var correctAnswers := CorrectCount(question[..]);
      answers := NonNull(SelectAnswer(answers.value, data, correctAnswers > 1));
      outcome := Returned;
    }

    /** `checkIfAnsweredCorrectly()`: a no-op without a question; otherwise
        `answers.find` throws on a null buffer, and on a list the count rises when
        the found answer is truthy, and the 1-based copy is pushed. */
    method CheckIfAnsweredCorrectly() returns (outcome: Outcome)
      modifies this`correctCount, quizService`userAnswers, quizService`correctAnswersCount
      ensures outcome == Threw <==> question != null && answers.Null?
      ensures question == null || answers.Null? ==>
                correctCount == old(correctCount) && quizService.userAnswers == old(quizService.userAnswers)
      ensures question != null && answers.NonNull? ==>
                quizService.userAnswers == old(quizService.userAnswers) + [Recorded(answers.value)] &&
                correctCount == if LooseScores(question[..], answers.value)
                                then old(correctCount) + 1 else old(correctCount)
      ensures question == null || answers.Null? || !LooseScores(question[..], answers.value) ==>
                quizService.correctAnswersCount == old(quizService.correctAnswersCount)
    {
      if question == null {
        return Returned;
      }
      if answers.Null? {
        return Threw;
      }
      var correctAnswerFound := Find(question[..], answers.value);
      if correctAnswerFound.NonNull? && correctAnswerFound.value != 0 {
        SendCorrectCountToQuizService(correctCount + 1);
      }
      var answered := |answers.value| > 0;
      var recorded := if answered then Recorded(answers.value) else [];
      quizService.userAnswers := quizService.userAnswers + [if answered then recorded else answers.value];
      outcome := Returned;
    }

    /** `advanceToNextQuestion()`: scores the buffer, then empties it. */
    method AdvanceToNextQuestion() returns (outcome: Outcome)
      modifies this`answers, this`correctCount, quizService`userAnswers, quizService`correctAnswersCount
      ensures outcome == Threw <==> question != null && old(answers).Null?
      ensures outcome == Threw ==>
                answers == old(answers) && correctCount == old(correctCount) &&
                quizService.userAnswers == old(quizService.userAnswers)
      ensures outcome == Returned ==> answers == NonNull([])
      ensures outcome == Returned && question == null ==>
                correctCount == old(correctCount) && quizService.userAnswers == old(quizService.userAnswers)
      ensures outcome == Returned && question != null ==>
                quizService.userAnswers == old(quizService.userAnswers) + [Recorded(old(answers).value)] &&
                correctCount == if LooseScores(question[..], old(answers).value)
                                then old(correctCount) + 1 else old(correctCount)
      ensures outcome == Threw || question == null || !LooseScores(question[..], old(answers).value) ==>
                quizService.correctAnswersCount == old(quizService.correctAnswersCount)
    {
      outcome := CheckIfAnsweredCorrectly();
      if outcome == Threw {
        return;
      }
      answers := NonNull([]);
    }

    /** `advanceToPreviousQuestion()`: drops the buffer. */
    method AdvanceToPreviousQuestion()
      modifies this`answers
      ensures answers.Null?
    {
      answers := Null;
    }

    /** `advanceToResults()`: the shared service's `resetAll()` runs first. Its
        code is not part of this model, so the `userAnswers` it leaves behind are
        an input, and any other field of the service may change. The buffer is
        then scored one last time. */
    method AdvanceToResults(userAnswersAfterReset: seq<seq<int>>) returns (outcome: Outcome)
      modifies this`correctCount, quizService
      ensures outcome == Threw <==> question != null && answers.Null?
      ensures question == null || answers.Null? ==>
                correctCount == old(correctCount) && quizService.userAnswers == userAnswersAfterReset
      ensures question != null && answers.NonNull? ==>
                quizService.userAnswers == userAnswersAfterReset + [Recorded(answers.value)] &&
                correctCount == if LooseScores(question[..], answers.value)
                                then old(correctCount) + 1 else old(correctCount)
    {
      quizService.userAnswers := userAnswersAfterReset;
      outcome := CheckIfAnsweredCorrectly();
    }

    /** `restartQuiz()`: after the shared service's `resetAll()` and
        `resetQuestions()`, whose code is not part of this model and which may
        change any field of the service, it clears the timer service's history
        and drops the buffer. */
    method RestartQuiz()
      modifies this`answers, quizService, timerService
      ensures answers.Null?
      ensures timerService.elapsedTimes == [] && timerService.completionTime == 0
    {
      timerService.elapsedTimes := [];
      timerService.completionTime := 0;
      answers := Null;
    }

    /** `sendCorrectCountToQuizService(value)`: the count becomes `value`; the
        shared service's `sendCorrectCountToResults(value)` then runs, whose code
        is not part of this model and which may change the shared count. */
    method SendCorrectCountToQuizService(value: int)
      modifies this`correctCount, quizService`correctAnswersCount
      ensures correctCount == value
    {
      correctCount := value;
    }
  }
}
