/** `TimeComponent` (src/app/containers/scoreboard/time/time.component.ts): the
    scoreboard countdown variant whose seed comes from `timePerQuestion`. */
module ScoreboardTime {
  import opened Values
  import opened Countdown

  class TimeComponent {
    var timePerQuestion: int
    var completionTime: Nullable<int>
    var completionCount: Nullable<int>

    constructor ()
      ensures timePerQuestion == 20 && completionTime.Null? && completionCount.Null?
    {
      timePerQuestion := 20;
      completionTime := Null;
      completionCount := Null;
    }

    /** The remaining milliseconds the countdown emits for a run of timer ticks:
        seeded with `timePerQuestion * 1000` and 1000 lower on every tick. */
    function Countdown(ticks: seq<int>): (emitted: seq<int>)
      reads this
      ensures |emitted| == |ticks|
      ensures forall k :: 0 <= k < |emitted| ==> emitted[k] == timePerQuestion * 1000 - 1000 * (k + 1)
    {
      ScanValues(timePerQuestion * 1000, ticks);
      Scan(timePerQuestion * 1000, ticks)
    }

    /** `calculateTotalElapsedTime(elapsedTimes)`: for a non-empty list the sum,
        also kept in `completionTime`; for an empty list undefined, and
        `completionTime` is left alone. */
    method CalculateTotalElapsedTime(elapsedTimes: seq<int>) returns (total: Nullable<int>)
      modifies this`completionTime
      ensures |elapsedTimes| > 0 ==> total == NonNull(Sum(elapsedTimes)) && completionTime == total
      ensures |elapsedTimes| == 0 ==> total.Null? && completionTime == old(completionTime)
    {
      if |elapsedTimes| > 0 {
        ReduceIsSum(0, elapsedTimes);
        completionTime := NonNull(Reduce(0, elapsedTimes));
        return completionTime;
      }
      total := Null;
    }

    /** `sendCompletionTimeToTimerService(newValue)`, as far as this component's
        field goes. */
    method SendCompletionTimeToTimerService(newValue: int)
      modifies this`completionCount
      ensures completionCount == NonNull(newValue)
    {
      completionCount := NonNull(newValue);
    }
  }

  /** With the initial 20 seconds per question the first emission is 19000 ms. */
  lemma FreshCountdownFirstEmits19000(component: TimeComponent, ticks: seq<int>)
    requires component.timePerQuestion == 20 && |ticks| > 0
    ensures component.Countdown(ticks)[0] == 19000
  {
  }
}
