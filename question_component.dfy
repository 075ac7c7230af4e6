/** `QuizQuestionComponent` (src/app/components/question/question.component.ts):
    renders one question and records the user's choice on its options. */
module QuestionView {
  import opened Values
  import opened Selection
  import opened SharedServices

  class QuizQuestionComponent {
    /** The options of the question bound to the component's `question` input. */
    var currentQuestion: array<Option>
    const quizService: SharedQuizService

    constructor (question: array<Option>, quizService: SharedQuizService)
      ensures currentQuestion == question && this.quizService == quizService
    {
      currentQuestion := question;
      this.quizService := quizService;
    }

    /** `setSelected(i)`: clears every `selected` flag, selects option `i`, and
        appends `i + 1` to the service's `correctAnswers` when `i` is not 0 and the
        option is correct. Setting the flag of a missing option throws after the
        flags have been cleared. */
    method SetSelected(optionIndex: int) returns (outcome: Outcome)
      modifies currentQuestion, quizService`correctAnswers
      ensures outcome == Threw <==> !(0 <= optionIndex < currentQuestion.Length)
      ensures outcome == Threw ==>
                currentQuestion[..] == ClearSelected(old(currentQuestion[..])) &&
                quizService.correctAnswers == old(quizService.correctAnswers)
      ensures outcome == Returned ==>
                currentQuestion[..] == SelectExclusive(old(currentQuestion[..]), optionIndex) &&
                quizService.correctAnswers ==
                  WithCorrectIndex(old(quizService.correctAnswers), old(currentQuestion[..]), optionIndex)
    {
      var options := currentQuestion;
      ClearSelectedInPlace(options);
      if !(0 <= optionIndex < options.Length) {
        return Threw;
      }
      options[optionIndex] := options[optionIndex].(selected := true);
      quizService.correctAnswers := WithCorrectIndex(quizService.correctAnswers, options[..], optionIndex);
      outcome := Returned;
    }
  }
}
