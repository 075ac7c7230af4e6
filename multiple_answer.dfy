/** `MultipleAnswerComponent`
    (src/app/components/question/multiple-answer/multiple-answer.component.ts): the
    option list of a multi-answer question. Its correct-option branch sets the
    local index to null and then reads `options[null]`, which throws. */
module MultipleAnswer {
  import opened Values
  import opened Selection

  class MultipleAnswerComponent {
    var currentQuestion: array<Option>
    /** What `quizService.getCorrectAnswers` returned for the current question. */
    var correctAnswers: seq<int>
    var quizStarted: bool
    var alreadyAnswered: bool
    var isCorrectAnswerSelected: bool
    var optionSelected: bool
    var optionCorrect: bool

    /** The component after `ngOnChanges` delivered a question and its correct
        answers; flags that start undefined read as false. */
    constructor (question: array<Option>, correctAnswers: seq<int>)
      ensures currentQuestion == question && this.correctAnswers == correctAnswers
      ensures !quizStarted && !alreadyAnswered && !isCorrectAnswerSelected && !optionSelected && !optionCorrect
    {
      currentQuestion := question;
      this.correctAnswers := correctAnswers;
      quizStarted := false;
      alreadyAnswered := false;
      isCorrectAnswerSelected := false;
      optionSelected := false;
      optionCorrect := false;
    }

    /** `setSelected(i)`. A missing option throws right after `quizStarted` is
        set; a correct option throws after its flag is set, before
        `alreadyAnswered`; an incorrect option has `false` written to its
        `correct` and completes. */
    method SetSelected(optionIndex: int) returns (outcome: Outcome)
      modifies this`quizStarted, this`isCorrectAnswerSelected, this`optionSelected, this`optionCorrect,
               this`alreadyAnswered, currentQuestion
      ensures quizStarted
      ensures !(0 <= optionIndex < currentQuestion.Length) ==>
                outcome == Threw && currentQuestion[..] == old(currentQuestion[..]) &&
                isCorrectAnswerSelected == old(isCorrectAnswerSelected) && optionSelected == old(optionSelected) &&
                optionCorrect == old(optionCorrect) && alreadyAnswered == old(alreadyAnswered)
      ensures 0 <= optionIndex < currentQuestion.Length ==>
                isCorrectAnswerSelected &&
                currentQuestion[..] == SelectOption(old(currentQuestion[..]), optionIndex, |correctAnswers| == 1)
      ensures 0 <= optionIndex < currentQuestion.Length && old(currentQuestion[optionIndex]).correct ==>
                outcome == Threw && optionSelected == old(optionSelected) &&
                optionCorrect == old(optionCorrect) && alreadyAnswered == old(alreadyAnswered)
      ensures 0 <= optionIndex < currentQuestion.Length && !old(currentQuestion[optionIndex]).correct ==>
                outcome == Returned && optionSelected && !optionCorrect && alreadyAnswered &&
                !currentQuestion[optionIndex].correct
    {
      quizStarted := true;
      var options := currentQuestion;
      if !(0 <= optionIndex < options.Length) {
        return Threw;
      }
      var comparison := IsCorrect(options[..], options[optionIndex].correct, optionIndex);
      isCorrectAnswerSelected := comparison.value;
      if |correctAnswers| == 1 {
        ClearSelectedInPlace(options);
      }
      options[optionIndex] := options[optionIndex].(selected := true);
      if options[optionIndex].correct {
        // The index is now null, and reading `options[null].selected` throws.
        return Threw;
      }
      optionSelected := options[optionIndex].selected;
      options[optionIndex] := options[optionIndex].(correct := false);
      optionCorrect := false;
      alreadyAnswered := true;
      outcome := Returned;
    }
  }
}
