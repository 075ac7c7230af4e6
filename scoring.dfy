/** The answer buffer and the two scoring rules of the quiz containers
    (src/app/containers/quiz/quiz.component.ts and
    src/app/containers/dependency-injection-quiz/dependency-injection-quiz.component.ts).
    Both containers keep a list `answers` of option indices; this module holds the
    value-level rules that their methods apply to it. */
module Scoring {
  import opened Values

  /** `selectedAnswer(data)` on a non-null `answers`. On a question with more than
      one correct option `data` is pushed unless it is already present; in every
      other case `answers[0] = data` is executed, which on an empty list creates
      slot 0 and otherwise overwrites it. */
  function SelectAnswer(answers: seq<int>, data: int, multipleCorrect: bool): (r: seq<int>)
    ensures data in r
    ensures |answers| <= |r| <= |answers| + 1
    ensures |r| == |answers| + 1 <==> answers == [] || (multipleCorrect && data !in answers)
    ensures |r| == |answers| + 1 ==> r[..|answers|] == answers
    ensures |r| == |answers| ==> r[0] == data && r[1..] == answers[1..]
  {
    if multipleCorrect && data !in answers then answers + [data]
    else if answers == [] then [data]
    else
      var r := answers[0 := data];
      assert r[0] == data;
      r
  }

  /** `selectedAnswer` applied to each of `datas` in turn, on one question. */
  function SelectAll(answers: seq<int>, datas: seq<int>, multipleCorrect: bool): seq<int>
    decreases |datas|
  {
    if datas == [] then answers
    else SelectAll(SelectAnswer(answers, datas[0], multipleCorrect), datas[1..], multipleCorrect)
  }

  /** On a question with at most one correct option, a buffer that starts empty
      (or with one entry) never holds more than one answer. */
  lemma {:induction false} SingleCorrectKeepsOneAnswer(answers: seq<int>, datas: seq<int>)
    requires |answers| <= 1
    ensures |SelectAll(answers, datas, false)| <= 1
    decreases |datas|
  {
    if datas != [] {
      SingleCorrectKeepsOneAnswer(SelectAnswer(answers, datas[0], false), datas[1..]);
    }
  }

  /** Selections never shorten the buffer, and each one adds at most one entry. */
  lemma {:induction false} SelectionsGrowByAtMostOneEach(answers: seq<int>, datas: seq<int>, multipleCorrect: bool)
    ensures |answers| <= |SelectAll(answers, datas, multipleCorrect)| <= |answers| + |datas|
    decreases |datas|
  {
    if datas != [] {
      SelectionsGrowByAtMostOneEach(SelectAnswer(answers, datas[0], multipleCorrect), datas[1..], multipleCorrect);
    }
  }

  /** Every entry of the buffer was either there before or selected since, and the
      last selection is always present. */
  lemma {:induction false} SelectionsComeFromSelected(answers: seq<int>, datas: seq<int>, multipleCorrect: bool)
    ensures forall x :: x in SelectAll(answers, datas, multipleCorrect) ==> x in answers || x in datas
    ensures datas != [] ==> datas[|datas| - 1] in SelectAll(answers, datas, multipleCorrect)
    decreases |datas|
  {
    if datas != [] {
      var next := SelectAnswer(answers, datas[0], multipleCorrect);
      SelectionsComeFromSelected(next, datas[1..], multipleCorrect);
      forall x | x in next
        ensures x in answers || x in datas
      {
        if x != datas[0] {
          if |next| == |answers| + 1 {
            assert x in next[..|answers|];
          } else {
            assert x in next[1..];
          }
        }
      }
      if |datas| > 1 {
        assert datas[1..][|datas[1..]| - 1] == datas[|datas| - 1];
      }
    }
  }

  /** Re-selecting a value that sits at a later slot of a multi-answer buffer
      overwrites slot 0, so the buffer can hold the same answer twice. */
  lemma DuplicateAnswersArise()
    ensures SelectAll([], [1, 2, 2], true) == [2, 2]
  {
    assert SelectAnswer([], 1, true) == [1];
    assert SelectAnswer([1], 2, true) == [1, 2];
    assert SelectAnswer([1, 2], 2, true) == [2, 2];
  }

  /** The callback both containers pass to `answers.find`: option `answer` exists
      and is both selected and correct. An index outside the options reads
      undefined, which is falsy. */
  predicate Qualifies(options: seq<Option>, answer: int)
  {
    0 <= answer < |options| && options[answer].selected && options[answer].correct
  }

  /** `answers.find(Qualifies)`: the first qualifying entry, or undefined. */
  function Find(options: seq<Option>, answers: seq<int>): (r: Nullable<int>)
    ensures r.Null? <==> forall k :: 0 <= k < |answers| ==> !Qualifies(options, answers[k])
    ensures r.NonNull? ==> Qualifies(options, r.value)
    ensures r.NonNull? ==> exists k :: 0 <= k < |answers| && answers[k] == r.value &&
                              forall j :: 0 <= j < k ==> !Qualifies(options, answers[j])
  {
    if answers == [] then Null
    else if Qualifies(options, answers[0]) then NonNull(answers[0])
    else
      var r := Find(options, answers[1..]);
      if r.NonNull? then
        var k :| 0 <= k < |answers[1..]| && answers[1..][k] == r.value &&
                 forall j :: 0 <= j < k ==> !Qualifies(options, answers[1..][j]);
        assert answers[k + 1] == r.value;
        assert forall j :: 0 <= j < k + 1 ==> !Qualifies(options, answers[j]) by {
          forall j | 0 <= j < k + 1 ensures !Qualifies(options, answers[j]) {
            if j > 0 { assert answers[j] == answers[1..][j - 1]; }
          }
        }
        r
      else r
  }

  /** Two entries that are both the first qualifying entry are the same entry. */
  lemma FirstQualifyingIsUnique(options: seq<Option>, answers: seq<int>, k: int, m: int)
    requires 0 <= k < |answers| && Qualifies(options, answers[k])
    requires forall j :: 0 <= j < k ==> !Qualifies(options, answers[j])
    requires 0 <= m < |answers| && Qualifies(options, answers[m])
    requires forall j :: 0 <= j < m ==> !Qualifies(options, answers[j])
    ensures k == m
  {
  }

  /** `isAnswered() ? answers.map(a => a + 1) : answers` for a non-null buffer: the
      entry a container pushes onto `userAnswers`, a 1-based copy of the buffer. */
  function Recorded(answers: seq<int>): (r: seq<int>)
    ensures |r| == |answers|
    ensures forall k :: 0 <= k < |r| ==> r[k] == answers[k] + 1
  {
    if |answers| > 0 then seq(|answers|, k requires 0 <= k < |answers| => answers[k] + 1)
    else answers
  }

  /** The condition in `addUpScores` as `QuizComponent.checkIfAnsweredCorrectly`
      calls it: the found answer is greater than -1 and the recorded list has as
      many entries as the question has correct answers. */
  predicate StrictScores(options: seq<Option>, answers: seq<int>, numberOfCorrectAnswers: int)
  {
    var found := Find(options, answers);
    found.NonNull? && found.value > -1 && |Recorded(answers)| == numberOfCorrectAnswers
  }

  /** The rule of `QuizComponent`: it scores exactly when some entry names an option
      that is selected and correct, and the buffer length equals the number of
      correct answers. */
  lemma StrictScoresIff(options: seq<Option>, answers: seq<int>, numberOfCorrectAnswers: int)
    ensures StrictScores(options, answers, numberOfCorrectAnswers) <==>
            (exists k :: 0 <= k < |answers| && Qualifies(options, answers[k])) &&
            |answers| == numberOfCorrectAnswers
  {
  }

  /** The rule does not compare sets: answers {0, 1} against correct options
      {0, 2}, with options 0 and 1 selected, still scores. */
  lemma PartialSelectionStillScores()
    ensures StrictScores([Option(true, true), Option(false, true), Option(true, false)], [0, 1], 2)
  {
    assert Qualifies([Option(true, true), Option(false, true), Option(true, false)], 0);
  }

  /** `if (correctAnswerFound)` in `DependencyInjectionQuizComponent`: the found
      answer must be truthy, and the number 0 is not. */
  predicate LooseScores(options: seq<Option>, answers: seq<int>)
  {
    var found := Find(options, answers);
    found.NonNull? && found.value != 0
  }

  /** The rule of the variant: it scores exactly when the first entry naming a
      selected correct option is not option 0. No count is compared. */
  lemma LooseScoresIff(options: seq<Option>, answers: seq<int>)
    ensures LooseScores(options, answers) <==>
            exists k :: 0 <= k < |answers| && Qualifies(options, answers[k]) && answers[k] != 0 &&
                        forall j :: 0 <= j < k ==> !Qualifies(options, answers[j])
  {
    var found := Find(options, answers);
    if found.NonNull? {
      var k :| 0 <= k < |answers| && answers[k] == found.value &&
               forall j :: 0 <= j < k ==> !Qualifies(options, answers[j]);
      forall m | 0 <= m < |answers| && Qualifies(options, answers[m]) &&
                 forall j :: 0 <= j < m ==> !Qualifies(options, answers[j])
        ensures answers[m] == found.value
      {
        FirstQualifyingIsUnique(options, answers, k, m);
      }
    }
  }

  /** When the first selected correct answer is option 0 the variant never scores,
      even when a later entry is also selected and correct. */
  lemma OptionZeroFirstNeverScores(options: seq<Option>, answers: seq<int>)
    requires |answers| > 0 && answers[0] == 0 && Qualifies(options, 0)
    ensures !LooseScores(options, answers)
  {
  }

  /** One selected correct option suffices in the variant, on a question with two
      correct options of which only one was chosen. */
  lemma OneOfTwoCorrectScoresLoosely()
    ensures LooseScores([Option(false, false), Option(true, true), Option(true, false)], [1])
    ensures !StrictScores([Option(false, false), Option(true, true), Option(true, false)], [1], 2)
  {
    assert Qualifies([Option(false, false), Option(true, true), Option(true, false)], 1);
  }
}
