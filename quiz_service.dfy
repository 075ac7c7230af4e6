/** `QuizService` (src/app/services/quiz.service.ts): the quiz data, the current
    question index, the running counters and the lists of recorded answers. */
module QuizServices {
  import opened Values
  import opened Selection

  /** The quiz data; each question is given by its options. */
  datatype QuizData = QuizData(questions: Nullable<seq<seq<Option>>>)

  /** The fields `resetAll` writes. */
  datatype Counters = Counters(correctAnswersCount: int, currentQuestionIndex: int,
                               correctAnswers: seq<int>, correctAnswerMessage: Nullable<string>)

  /** `addCorrectIndexesToCorrectAnswerOptionsArray(i)` on the values: nothing
      happens when `i` is 0 or the question is unset; reading `options[i]` of a
      missing option throws; otherwise the rule of `WithCorrectIndex` applies. */
  function AddCorrectIndex(correctAnswers: seq<int>, question: Nullable<seq<Option>>, optionIndex: int)
    : (r: Completion<seq<int>>)
    ensures r.Thrown? <==> optionIndex != 0 && question.NonNull? && !(0 <= optionIndex < |question.value|)
    ensures r.Normal? ==> correctAnswers <= r.value && |r.value| <= |correctAnswers| + 1
    ensures r.Normal? ==>
              (|r.value| == |correctAnswers| + 1 <==>
               optionIndex != 0 && question.NonNull? && 0 <= optionIndex < |question.value| &&
               question.value[optionIndex].correct)
    ensures r.Normal? && |r.value| == |correctAnswers| + 1 ==> r.value[|correctAnswers|] == optionIndex + 1 >= 2
  {
    if optionIndex == 0 || question.Null? then Normal(correctAnswers)
    else if !(0 <= optionIndex < |question.value|) then Thrown
    else Normal(WithCorrectIndex(correctAnswers, question.value, optionIndex))
  }

  /** `addCorrectIndexes…` applied to each of `indexes` in turn, stopping at the
      first that throws. */
  function AddCorrectIndexes(correctAnswers: seq<int>, question: Nullable<seq<Option>>, indexes: seq<int>)
    : Completion<seq<int>>
    decreases |indexes|
  {
    if indexes == [] then Normal(correctAnswers)
    else match AddCorrectIndex(correctAnswers, question, indexes[0])
         case Thrown => Thrown
         case Normal(next) => AddCorrectIndexes(next, question, indexes[1..])
  }

  /** Any run of calls only appends, and never records option 0 (as the value 1). */
  lemma {:induction false} OptionZeroNeverRecorded(correctAnswers: seq<int>, question: Nullable<seq<Option>>,
                                                   indexes: seq<int>)
    requires AddCorrectIndexes(correctAnswers, question, indexes).Normal?
    ensures correctAnswers <= AddCorrectIndexes(correctAnswers, question, indexes).value
    ensures |AddCorrectIndexes(correctAnswers, question, indexes).value| <= |correctAnswers| + |indexes|
    ensures forall k :: |correctAnswers| <= k < |AddCorrectIndexes(correctAnswers, question, indexes).value| ==>
              AddCorrectIndexes(correctAnswers, question, indexes).value[k] >= 2
    decreases |indexes|
  {
    if indexes != [] {
      var next := AddCorrectIndex(correctAnswers, question, indexes[0]).value;
      OptionZeroNeverRecorded(next, question, indexes[1..]);
    }
  }

  class QuizService {
    var quizData: Nullable<QuizData>
    /** The current question's options; unset until a question is given. */
    var question: Nullable<seq<Option>>
    var answer: Nullable<int>
    /** The current value of `correctAnswersCount`. */
    var correctAnswersCount: int
    var currentQuestionIndex: int
    var finalAnswers: seq<Nullable<int>>
    var correctAnswers: seq<int>
    var correctAnswerMessage: Nullable<string>

    /** A fresh service over a copy of the quiz data. */
    constructor (quizData: QuizData)
      ensures this.quizData == NonNull(quizData) && question.Null? && answer.Null?
      ensures correctAnswersCount == 0 && currentQuestionIndex == 1
      ensures finalAnswers == [] && correctAnswers == [] && correctAnswerMessage.Null?
    {
      this.quizData := NonNull(quizData);
      question := Null;
      answer := Null;
      correctAnswersCount := 0;
      currentQuestionIndex := 1;
      finalAnswers := [];
      correctAnswers := [];
      correctAnswerMessage := Null;
    }

    function Snapshot(): Counters
      reads this
    {
      Counters(correctAnswersCount, currentQuestionIndex, correctAnswers, correctAnswerMessage)
    }

    /** `resetAll()`: the count to 0, the index to 1, no correct answers and no
        message. Every field gets a value that does not depend on the old state,
        so a second call changes nothing. */
    method ResetAll()
      modifies this`correctAnswersCount, this`currentQuestionIndex, this`correctAnswers, this`correctAnswerMessage
      ensures Snapshot() == Counters(0, 1, [], Null)
      ensures old(Snapshot()) == Counters(0, 1, [], Null) ==> unchanged(this)
    {
      correctAnswersCount := 0;
      currentQuestionIndex := 1;
      correctAnswers := [];
      correctAnswerMessage := Null;
    }

    /** `addCorrectIndexesToCorrectAnswerOptionsArray(optionIndex)`. */
    method AddCorrectIndexesToCorrectAnswerOptionsArray(optionIndex: int) returns (outcome: Outcome)
      modifies this`correctAnswers
      ensures outcome == Threw <==> AddCorrectIndex(old(correctAnswers), question, optionIndex).Thrown?
      ensures outcome == Threw ==> correctAnswers == old(correctAnswers)
      ensures outcome == Returned ==> correctAnswers == AddCorrectIndex(old(correctAnswers), question, optionIndex).value
    {
      if optionIndex != 0 && question.NonNull? {
        var options := question.value;
        if !(0 <= optionIndex < |options|) {
          return Threw;
        }
        if options[optionIndex].correct {
          correctAnswers := correctAnswers + [optionIndex + 1];
        }
      }
      outcome := Returned;
    }

    /** `addFinalAnswerToFinalAnswers()`: the current answer goes at the end. */
    method AddFinalAnswerToFinalAnswers()
      modifies this`finalAnswers
      ensures |finalAnswers| == |old(finalAnswers)| + 1
      ensures finalAnswers[..|old(finalAnswers)|] == old(finalAnswers)
      ensures finalAnswers[|old(finalAnswers)|] == answer
    {
      finalAnswers := finalAnswers + [answer];
    }

    /** `numberOfQuestions()`: the length of the question list, 0 when the quiz
        data or its questions are missing. */
    function NumberOfQuestions(): (n: nat)
      reads this
      ensures quizData.NonNull? && quizData.value.questions.NonNull? ==> n == |quizData.value.questions.value|
      ensures quizData.Null? || quizData.value.questions.Null? ==> n == 0
    {
      match quizData
      case Null => 0
      case NonNull(data) =>
        match data.questions
        case Null => 0
        case NonNull(questions) => |questions|
    }

    /** `getQuestionType()`: true exactly for a single recorded correct answer. */
    function GetQuestionType(): (single: bool)
      reads this
      ensures single <==> |correctAnswers| == 1
    {
      |correctAnswers| == 1
    }

    /** `isFinalQuestion()`: the index has reached the question count. Reading the
        questions of missing quiz data throws. */
    function IsFinalQuestion(): (r: Completion<bool>)
      reads this
      ensures r.Thrown? <==> quizData.Null? || quizData.value.questions.Null?
      ensures r.Normal? ==> (r.value <==> NumberOfQuestions() == currentQuestionIndex)
    {
      if quizData.Null? || quizData.value.questions.Null? then Thrown
      else Normal(|quizData.value.questions.value| == currentQuestionIndex)
    }

    /** The question `nextQuestion()` navigates to: one past the current index,
        which stays as it is. */
    function NextQuestionIndex(): (target: int)
      reads this
      ensures target > currentQuestionIndex
    {
      currentQuestionIndex + 1
    }
  }

  /** On the final question `nextQuestion()` targets a question that does not
      exist. */
  lemma NextAfterFinalIsPastTheEnd(service: QuizService)
    requires service.IsFinalQuestion() == Normal(true)
    ensures service.NextQuestionIndex() == service.NumberOfQuestions() + 1
  {
  }
}
