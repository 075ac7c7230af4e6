/** The option-flag updates shared by the three question components
    (src/app/components/question/): clearing every `selected` flag, selecting one
    option exclusively or alongside the others, comparing a flag with an option's
    `correct`, and recording the 1-based index of a correct option. */
module Selection {
  import opened Values

  /** `options.forEach(o => o.selected = false)` on the values. */
  function ClearSelected(options: seq<Option>): (r: seq<Option>)
    ensures |r| == |options|
    ensures forall k :: 0 <= k < |r| ==> !r[k].selected && r[k].correct == options[k].correct
  {
    seq(|options|, k requires 0 <= k < |options| => options[k].(selected := false))
  }

  /** The forEach loop itself, run in place on a question's options. */
  method ClearSelectedInPlace(options: array<Option>)
    modifies options
    ensures options[..] == ClearSelected(old(options[..]))
  {
    for k := 0 to options.Length
      invariant forall j :: 0 <= j < k ==> options[j] == old(options[j]).(selected := false)
      invariant forall j :: k <= j < options.Length ==> options[j] == old(options[j])
    {
      options[k] := options[k].(selected := false);
    }
  }

  /** Clear every flag, then set option `i`: afterwards exactly option `i` is
      selected, and no `correct` flag has moved. */
  function SelectExclusive(options: seq<Option>, i: int): (r: seq<Option>)
    requires 0 <= i < |options|
    ensures |r| == |options|
    ensures forall k :: 0 <= k < |r| ==> (r[k].selected <==> k == i) && r[k].correct == options[k].correct
  {
    ClearSelected(options)[i := options[i].(selected := true)]
  }

  /** Set option `i` and leave every other flag as it was. */
  function SelectAlongside(options: seq<Option>, i: int): (r: seq<Option>)
    requires 0 <= i < |options|
    ensures |r| == |options| && r[i].selected && r[i].correct == options[i].correct
    ensures forall k :: 0 <= k < |r| && k != i ==> r[k] == options[k]
  {
    options[i := options[i].(selected := true)]
  }

  /** The `selected` update of `setSelected(i)` in the single- and multiple-answer
      components: the flags are cleared first only when the question has exactly
      one correct answer. */
  function SelectOption(options: seq<Option>, i: int, exclusive: bool): (r: seq<Option>)
    requires 0 <= i < |options|
    ensures |r| == |options| && r[i].selected
    ensures forall k :: 0 <= k < |r| ==> r[k].correct == options[k].correct
    ensures forall k :: 0 <= k < |r| && k != i ==> r[k].selected == (!exclusive && options[k].selected)
  {
    if exclusive then SelectExclusive(options, i) else SelectAlongside(options, i)
  }

  /** Selecting the same option twice leaves the flags as selecting it once. */
  lemma SelectOptionIdempotent(options: seq<Option>, i: int, exclusive: bool)
    requires 0 <= i < |options|
    ensures SelectOption(SelectOption(options, i, exclusive), i, exclusive) == SelectOption(options, i, exclusive)
  {
    var once := SelectOption(options, i, exclusive);
    var twice := SelectOption(once, i, exclusive);
    assert forall k :: 0 <= k < |once| ==> twice[k] == once[k];
  }

  /** `isCorrect(correct, i)`: `correct === options[i].correct`; reading option
      `i` outside the options throws. */
  function IsCorrect(options: seq<Option>, correct: bool, i: int): (r: Completion<bool>)
    ensures r.Thrown? <==> !(0 <= i < |options|)
    ensures r.Normal? ==> (r.value <==> correct == options[i].correct)
  {
    if 0 <= i < |options| then Normal(correct == options[i].correct) else Thrown
  }

  /** `setSelected` asks `isCorrect` about an option's own flag, so the answer is
      always true. */
  lemma OwnFlagIsAlwaysCorrect(options: seq<Option>, i: int)
    requires 0 <= i < |options|
    ensures IsCorrect(options, options[i].correct, i) == Normal(true)
  {
  }

  /** The append of `setSelected` and of the service's
      `addCorrectIndexesToCorrectAnswerOptionsArray` for an option that exists: its
      1-based index is appended when the index is truthy (not 0) and the option's
      `correct` is `true`. Nothing is removed and nothing is deduplicated. */
  function WithCorrectIndex(correctAnswers: seq<int>, options: seq<Option>, i: int): (r: seq<int>)
    requires 0 <= i < |options|
    ensures correctAnswers <= r && |r| <= |correctAnswers| + 1
    ensures |r| == |correctAnswers| + 1 <==> i != 0 && options[i].correct
    ensures |r| == |correctAnswers| + 1 ==> r[|correctAnswers|] == i + 1 >= 2
  {
    if i != 0 && options[i].correct then correctAnswers + [i + 1] else correctAnswers
  }

  /** Selecting the same correct option twice through `QuizQuestionComponent`
      records its index twice. */
  lemma SelectingTwiceRecordsTwice(correctAnswers: seq<int>, options: seq<Option>, i: int)
    requires 0 < i < |options| && options[i].correct
    ensures WithCorrectIndex(WithCorrectIndex(correctAnswers, options, i), SelectExclusive(options, i), i) ==
            correctAnswers + [i + 1, i + 1]
  {
  }
}
