/** `SingleAnswerComponent`
    (src/app/components/question/single-answer/single-answer.component.ts): the
    option list of a question, which marks the chosen option and reports whether
    it was correct. */
module SingleAnswer {
  import opened Values
  import opened Selection

  class SingleAnswerComponent {
    var currentQuestion: array<Option>
    /** What `quizService.getCorrectAnswers` returned for the current question. */
    var correctAnswers: seq<int>
    var quizStarted: bool
    var alreadyAnswered: bool
    var isCorrectAnswerSelected: bool
    var optionSelected: bool
    var optionCorrect: bool

    /** The component after `ngOnChanges` delivered a question and its correct
        answers; flags that start undefined read as false. */
    constructor (question: array<Option>, correctAnswers: seq<int>)
      ensures currentQuestion == question && this.correctAnswers == correctAnswers
      ensures !quizStarted && !alreadyAnswered && !isCorrectAnswerSelected && !optionSelected && !optionCorrect
    {
      currentQuestion := question;
      this.correctAnswers := correctAnswers;
      quizStarted := false;
      alreadyAnswered := false;
      isCorrectAnswerSelected := false;
      optionSelected := false;
      optionCorrect := false;
    }

    /** `setSelected(i)`. Reading option `i` when it does not exist throws right
        after `quizStarted` is set. */
    method SetSelected(optionIndex: int) returns (outcome: Outcome)
      modifies this`quizStarted, this`isCorrectAnswerSelected, this`optionSelected, this`optionCorrect,
               this`alreadyAnswered, currentQuestion
      ensures quizStarted
      ensures outcome == Threw <==> !(0 <= optionIndex < currentQuestion.Length)
      ensures outcome == Threw ==>
                currentQuestion[..] == old(currentQuestion[..]) &&
                isCorrectAnswerSelected == old(isCorrectAnswerSelected) && optionSelected == old(optionSelected) &&
                optionCorrect == old(optionCorrect) && alreadyAnswered == old(alreadyAnswered)
      ensures outcome == Returned ==>
                currentQuestion[..] == SelectOption(old(currentQuestion[..]), optionIndex, |correctAnswers| == 1) &&
                isCorrectAnswerSelected && optionSelected && alreadyAnswered &&
                (optionCorrect <==> old(currentQuestion[optionIndex]).correct)
    {
      quizStarted := true;
      var options := currentQuestion;
      if !(0 <= optionIndex < options.Length) {
        return Threw;
      }
      var comparison := IsCorrect(options[..], options[optionIndex].correct, optionIndex);
      isCorrectAnswerSelected := comparison.value;
      if |correctAnswers| == 1 {
        ClearSelectedInPlace(options);
      }
      options[optionIndex] := options[optionIndex].(selected := true);
      if options[optionIndex].correct {
        optionSelected := true;
        optionCorrect := true;
      } else {
        optionSelected := true;
        optionCorrect := false;
      }
      alreadyAnswered := true;
      outcome := Returned;
    }
  }
}
