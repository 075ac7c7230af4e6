/** Values shared by every part of the quiz model: an answer option, the JavaScript
    null/undefined value, and how an operation ends (normally, or by throwing). */
module Values {

  /** One answer option of a question. An option whose `correct` or `selected`
      property is absent reads as false. */
  datatype Option = Option(correct: bool, selected: bool)

  /** A JavaScript value that may be null or undefined. */
  datatype Nullable<T> = Null | NonNull(value: T)

  /** How a value-returning operation ends: with its value, or by throwing a
      TypeError (a property read or written on undefined or null). */
  datatype Completion<T> = Normal(value: T) | Thrown

  /** How an operation without a result ends. */
  datatype Outcome = Returned | Threw

  /** The progress bar value a quiz container computes when it enters a question:
      0 on question 1, otherwise a percentage that the source evaluates in
      floating point and that is kept here as its two operands. */
  datatype Progress = Unset | Zero | Percent(answered: int, total: int)

  /** `options.filter(o => o.correct).length`: how many options are correct. */
  function CorrectCount(options: seq<Option>): (n: nat)
    ensures n <= |options|
    ensures n == 0 <==> forall k :: 0 <= k < |options| ==> !options[k].correct
    ensures n == |options| <==> forall k :: 0 <= k < |options| ==> options[k].correct
  {
    if options == [] then 0
    else (if options[0].correct then 1 else 0) + CorrectCount(options[1..])
  }

  /** Two options that differ only in their `selected` flag have the same number
      of correct options around them: the count reads `correct` flags only. */
  lemma {:induction false} CorrectCountIgnoresSelection(a: seq<Option>, b: seq<Option>)
    requires |a| == |b|
    requires forall k :: 0 <= k < |a| ==> a[k].correct == b[k].correct
    ensures CorrectCount(a) == CorrectCount(b)
  {
    if a != [] {
      CorrectCountIgnoresSelection(a[1..], b[1..]);
    }
  }
}
