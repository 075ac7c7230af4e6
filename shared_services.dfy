/** The state of the application's shared quiz and timer services that the
    components read and write directly. The components import these services from
    src/app/shared/services/, which is not part of this model: only the fields
    the components touch are kept, and none of the services' own methods. */
module SharedServices {

  /** The shared quiz service, as far as the containers and question components
      use its fields. */
  class SharedQuizService {
    /** `userAnswers`: one entry pushed per scored question. */
    var userAnswers: seq<seq<int>>
    /** The current value of `correctAnswersCountSubject`. */
    var correctAnswersCount: int
    var currentQuestionIndex: int
    /** `numberOfCorrectAnswers`, computed by the service for the current question. */
    var numberOfCorrectAnswers: int
    /** `correctAnswers`: 1-based indices appended by the question component. */
    var correctAnswers: seq<int>

    constructor (userAnswers: seq<seq<int>>, correctAnswersCount: int, currentQuestionIndex: int,
                 numberOfCorrectAnswers: int, correctAnswers: seq<int>)
      ensures this.userAnswers == userAnswers && this.correctAnswersCount == correctAnswersCount
      ensures this.currentQuestionIndex == currentQuestionIndex
      ensures this.numberOfCorrectAnswers == numberOfCorrectAnswers && this.correctAnswers == correctAnswers
    {
      this.userAnswers := userAnswers;
      this.correctAnswersCount := correctAnswersCount;
      this.currentQuestionIndex := currentQuestionIndex;
      this.numberOfCorrectAnswers := numberOfCorrectAnswers;
      this.correctAnswers := correctAnswers;
    }
  }

  /** The shared timer service, as far as the containers write its fields. */
  class SharedTimerService {
    var elapsedTimes: seq<int>
    var completionTime: int

    constructor (elapsedTimes: seq<int>, completionTime: int)
      ensures this.elapsedTimes == elapsedTimes && this.completionTime == completionTime
    {
      this.elapsedTimes := elapsedTimes;
      this.completionTime := completionTime;
    }
  }
}
