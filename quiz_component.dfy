/** `QuizComponent` (src/app/containers/quiz/quiz.component.ts): the container
    that buffers the user's answers for the active question, scores them when the
    user moves on, and resets its state on navigation and restart. */
module QuizContainer {
  import opened Values
  import opened Scoring
  import opened SharedServices

  datatype Status = Started | Continue | Completed

  /** `questions[index - 1]`, which is undefined outside the quiz. */
  function QuestionAt(questions: seq<array<Option>>, index: int): (q: array?<Option>)
    ensures q != null <==> 1 <= index <= |questions|
    ensures q != null ==> q == questions[index - 1]
  {
    if 1 <= index <= |questions| then questions[index - 1] else null
  }

  class QuizComponent {
    /** The active question's options, shared with the question components; null
        while no question is set. */
    var question: array?<Option>
    /** The answer buffer; `Null` after moving back or restarting. */
    var answers: Nullable<seq<int>>
    var questionIndex: Nullable<int>
    var totalQuestions: Nullable<int>
    var progressValue: Progress
    var correctCount: int
    var status: Nullable<Status>
    const quizService: SharedQuizService
    const timerService: SharedTimerService

    constructor (quizService: SharedQuizService, timerService: SharedTimerService)
      ensures this.quizService == quizService && this.timerService == timerService
      ensures question == null && answers == NonNull([])
      ensures questionIndex.Null? && totalQuestions.Null? && progressValue == Unset
      ensures correctCount == 0 && status.Null?
    {
      this.quizService := quizService;
      this.timerService := timerService;
      question := null;
      answers := NonNull([]);
      questionIndex := Null;
      totalQuestions := Null;
      progressValue := Unset;
      correctCount := 0;
      status := Null;
    }

    /** The `activatedRoute.params` callback that `ngOnInit` subscribes, with the
        route's `questionIndex` parameter (`Null` when the route has none) and the
        selected quiz's questions. Every question index uses the same route, so
        the component is reused and this runs again on each move to another
        question, without the count reset of `ngOnInit`. */
    method OnRouteParams(questions: seq<array<Option>>, routeIndex: Nullable<int>)
      modifies this`totalQuestions, this`questionIndex, this`progressValue, this`status, this`question,
               quizService`currentQuestionIndex
      ensures totalQuestions == NonNull(|questions|)
      ensures routeIndex.NonNull? ==>
                questionIndex == routeIndex && quizService.currentQuestionIndex == routeIndex.value &&
                question == QuestionAt(questions, routeIndex.value)
      ensures routeIndex == NonNull(1) ==> progressValue == Zero && status == NonNull(Started)
      ensures routeIndex.NonNull? && routeIndex.value != 1 ==>
                progressValue == Percent(routeIndex.value - 1, |questions|) && status == old(status)
      ensures routeIndex.Null? ==>
                questionIndex == old(questionIndex) && question == old(question) &&
                progressValue == old(progressValue) && status == old(status) &&
                quizService.currentQuestionIndex == old(quizService.currentQuestionIndex)
    {
      totalQuestions := NonNull(|questions|);
      if routeIndex.NonNull? {
        var index := routeIndex.value;
        questionIndex := NonNull(index);
        quizService.currentQuestionIndex := index;
        if index == 1 {
          progressValue := Zero;
          status := NonNull(Started);
        } else {
          progressValue := Percent(index - 1, |questions|);
        }
        question := QuestionAt(questions, index);
      }
    }

    /** `ngOnInit`: the first emission of the route parameters, then the count
        subject reset to 0 on the first question, and the count read back from
        it before it is sent on. */
    method OnInit(questions: seq<array<Option>>, routeIndex: Nullable<int>)
      modifies this, quizService`currentQuestionIndex, quizService`correctAnswersCount
      ensures answers == old(answers)
      ensures totalQuestions == NonNull(|questions|)
      ensures routeIndex.NonNull? ==>
                questionIndex == routeIndex && quizService.currentQuestionIndex == routeIndex.value &&
                question == QuestionAt(questions, routeIndex.value)
      ensures routeIndex == NonNull(1) ==> progressValue == Zero && status == NonNull(Started)
      ensures routeIndex.NonNull? && routeIndex.value != 1 ==>
                progressValue == Percent(routeIndex.value - 1, |questions|) && status == old(status)
      ensures routeIndex.Null? ==>
                questionIndex == old(questionIndex) && question == old(question) &&
                progressValue == old(progressValue) && status == old(status) &&
                quizService.currentQuestionIndex == old(quizService.currentQuestionIndex)
      ensures correctCount == if questionIndex == NonNull(1) then 0 else old(quizService.correctAnswersCount)
    {
      OnRouteParams(questions, routeIndex);
      if questionIndex == NonNull(1) {
        quizService.correctAnswersCount := 0;
      }
      correctCount := quizService.correctAnswersCount;
      SendCorrectCountToQuizService(correctCount);
    }

    /** `isAnswered()`: the buffer exists and holds at least one answer. */
    function IsAnswered(): (r: bool)
      reads this
      ensures r <==> answers.NonNull? && |answers.value| > 0
    {
      match answers
      case Null => false
      case NonNull(a) => a != []
    }

    /** `selectedAnswer(data)`. Reading the options of an unset question, or
        indexing a null buffer, throws. */
    method SelectedAnswer(data: int) returns (outcome: Outcome)
      modifies this`answers
      ensures outcome == Threw <==> question == null || old(answers).Null?
      ensures outcome == Threw ==> answers == old(answers)
      ensures outcome == Returned ==>
                answers == NonNull(SelectAnswer(old(answers).value, data, CorrectCount(question[..]) > 1))
    {
      if question == null || answers.Null? {
        return Threw;
      }
      var correctAnswers := CorrectCount(question[..]);
      answers := NonNull(SelectAnswer(answers.value, data, correctAnswers > 1));
      outcome := Returned;
    }

    /** `checkIfAnsweredCorrectly()`: a no-op without a question; otherwise
        `answers.find` throws on a null buffer, and on a list it pushes the 1-based
        copy onto `userAnswers` and scores by the `addUpScores` rule. */
    method CheckIfAnsweredCorrectly() returns (outcome: Outcome)
      modifies this`correctCount, quizService`userAnswers, quizService`correctAnswersCount
      ensures outcome == Threw <==> question != null && answers.Null?
      ensures question == null || answers.Null? ==>
                correctCount == old(correctCount) && quizService.userAnswers == old(quizService.userAnswers)
      ensures question != null && answers.NonNull? ==>
                quizService.userAnswers == old(quizService.userAnswers) + [Recorded(answers.value)] &&
                correctCount == if StrictScores(question[..], answers.value, quizService.numberOfCorrectAnswers)
                                then old(correctCount) + 1 else old(correctCount)
      ensures question == null || answers.Null? ||
              !StrictScores(question[..], answers.value, quizService.numberOfCorrectAnswers) ==>
                quizService.correctAnswersCount == old(quizService.correctAnswersCount)
    {
      if question == null {
        return Returned;
      }
      if answers.Null? {
        return Threw;
      }
      var correctAnswerFound := Find(question[..], answers.value);
      var recorded := if IsAnswered() then Recorded(answers.value) else [];
      quizService.userAnswers := quizService.userAnswers + [if IsAnswered() then recorded else answers.value];
      AddUpScores(recorded, correctAnswerFound);
      outcome := Returned;
    }

    /** `addUpScores(answers, correctAnswerFound)`. */
    method AddUpScores(answers: seq<int>, correctAnswerFound: Nullable<int>)
      modifies this`correctCount, quizService`correctAnswersCount
      ensures correctCount ==
                if correctAnswerFound.NonNull? && correctAnswerFound.value > -1 &&
                   |answers| == quizService.numberOfCorrectAnswers
                then old(correctCount) + 1 else old(correctCount)
      ensures !(correctAnswerFound.NonNull? && correctAnswerFound.value > -1 &&
                |answers| == quizService.numberOfCorrectAnswers) ==>
                quizService.correctAnswersCount == old(quizService.correctAnswersCount)
    {
      if correctAnswerFound.NonNull? && correctAnswerFound.value > -1 &&
         |answers| == quizService.numberOfCorrectAnswers {
        SendCorrectCountToQuizService(correctCount + 1);
      }
    }

    /** `advanceToNextQuestion()`: scores the buffer, then empties it. When scoring
        throws, nothing after it runs. */
    method AdvanceToNextQuestion() returns (outcome: Outcome)
      modifies this`answers, this`status, this`correctCount, quizService`userAnswers, quizService`correctAnswersCount
      ensures outcome == Threw <==> question != null && old(answers).Null?
      ensures outcome == Threw ==>
                answers == old(answers) && status == old(status) && correctCount == old(correctCount) &&
                quizService.userAnswers == old(quizService.userAnswers)
      ensures outcome == Returned ==> answers == NonNull([]) && status == NonNull(Continue)
      ensures outcome == Returned && question == null ==>
                correctCount == old(correctCount) && quizService.userAnswers == old(quizService.userAnswers)
      ensures outcome == Returned && question != null ==>
                quizService.userAnswers == old(quizService.userAnswers) + [Recorded(old(answers).value)] &&
                correctCount == if StrictScores(question[..], old(answers).value, quizService.numberOfCorrectAnswers)
                                then old(correctCount) + 1 else old(correctCount)
      ensures outcome == Threw || question == null ||
              !StrictScores(question[..], old(answers).value, quizService.numberOfCorrectAnswers) ==>
                quizService.correctAnswersCount == old(quizService.correctAnswersCount)
    {
      outcome := CheckIfAnsweredCorrectly();
      if outcome == Threw {
        return;
      }
      answers := NonNull([]);
      status := NonNull(Continue);
    }

    /** `advanceToPreviousQuestion()`: drops the buffer. */
    method AdvanceToPreviousQuestion()
      modifies this`answers, this`status
      ensures answers.Null? && status == NonNull(Continue)
    {
      answers := Null;
      status := NonNull(Continue);
    }

    /** `advanceToResults()`: the shared service's `resetAll()` and the timer
        service's `stopTimer()` and `resetTimer()` run first. Their code is not
        part of this model, so the `userAnswers` and `numberOfCorrectAnswers` that
        `resetAll()` leaves behind are inputs, and any other field of the two
        services may change. The buffer is then scored one last time against
        those values. */
    method AdvanceToResults(userAnswersAfterReset: seq<seq<int>>, numberOfCorrectAnswersAfterReset: int)
      returns (outcome: Outcome)
      modifies this`correctCount, quizService, timerService
      ensures outcome == Threw <==> question != null && answers.Null?
      ensures question == null || answers.Null? ==>
                correctCount == old(correctCount) && quizService.userAnswers == userAnswersAfterReset
      ensures question != null && answers.NonNull? ==>
                quizService.userAnswers == userAnswersAfterReset + [Recorded(answers.value)] &&
                correctCount == if StrictScores(question[..], answers.value, numberOfCorrectAnswersAfterReset)
                                then old(correctCount) + 1 else old(correctCount)
    {
      quizService.userAnswers := userAnswersAfterReset;
      quizService.numberOfCorrectAnswers := numberOfCorrectAnswersAfterReset;
      outcome := CheckIfAnsweredCorrectly();
    }

    /** `restartQuiz()`: after the shared service's `resetAll()` and
        `resetQuestions()` and the timer service's `stopTimer()` and
        `resetTimer()`, whose code is not part of this model and which may change
        any field of the two services, it clears the timer service's history and
        drops the buffer. */
    method RestartQuiz()
      modifies this`answers, quizService, timerService
      ensures answers.Null?
      ensures timerService.elapsedTimes == [] && timerService.completionTime == 0
    {
      timerService.elapsedTimes := [];
      timerService.completionTime := 0;
      answers := Null;
    }

    /** `sendCorrectCountToQuizService(value)`: the count becomes `value`; the
        shared service's `sendCorrectCountToResults(value)` then runs, whose code
        is not part of this model and which may change the shared count. */
    method SendCorrectCountToQuizService(value: int)
      modifies this`correctCount, quizService`correctAnswersCount
      ensures correctCount == value
    {
      correctCount := value;
    }
  }
}
