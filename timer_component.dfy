/** `TimerComponent` (src/app/containers/scoreboard/timer/timer.component.ts): the
    scoreboard's countdown and its elapsed-time total. */
module ScoreboardTimer {
  import opened Values
  import opened Countdown

  /** The remaining milliseconds the countdown emits for a run of timer ticks:
      seeded with 20000 and 1000 lower on every tick, without a floor. */
  function TimerCountdown(ticks: seq<int>): (emitted: seq<int>)
    ensures |emitted| == |ticks|
    ensures forall k :: 0 <= k < |emitted| ==> emitted[k] == 20000 - 1000 * (k + 1)
  {
    ScanValues(20000, ticks);
    Scan(20000, ticks)
  }

  /** The twenty-first tick is already below zero. */
  lemma CountdownHasNoFloor(ticks: seq<int>)
    requires |ticks| > 20
    ensures TimerCountdown(ticks)[19] == 0 && TimerCountdown(ticks)[20] == -1000
  {
  }

  class TimerComponent {
    var timePerQuestion: int
    var completionTime: Nullable<int>
    var completionCount: Nullable<int>

    constructor ()
      ensures timePerQuestion == 20 && completionTime.Null? && completionCount.Null?
    {
      timePerQuestion := 20;
      completionTime := Null;
      completionCount := Null;
    }

    /** `stopTimer()`. */
    method StopTimer()
      modifies this`timePerQuestion
      ensures timePerQuestion == 0
    {
      timePerQuestion := 0;
    }

    /** `calculateTotalElapsedTime(elapsedTimes)`: for a non-empty list the sum,
        also kept in `completionTime`; for an empty list undefined, and
        `completionTime` is left alone. */
    method CalculateTotalElapsedTime(elapsedTimes: seq<int>) returns (total: Nullable<int>)
      modifies this`completionTime
      ensures |elapsedTimes| > 0 ==> total == NonNull(Sum(elapsedTimes)) && completionTime == total
      ensures |elapsedTimes| == 0 ==> total.Null? && completionTime == old(completionTime)
    {
      if |elapsedTimes| > 0 {
        ReduceIsSum(0, elapsedTimes);
        completionTime := NonNull(Reduce(0, elapsedTimes));
        return completionTime;
      }
      total := Null;
    }

    /** `sendCompletionTimeToTimerService(newValue)`, as far as this component's
        field goes. */
    method SendCompletionTimeToTimerService(newValue: int)
      modifies this`completionCount
      ensures completionCount == NonNull(newValue)
    {
      completionCount := NonNull(newValue);
    }
  }
}
