/** The arithmetic of the scoreboard timers
    (src/app/containers/scoreboard/timer/ and src/app/containers/scoreboard/time/):
    the `reduce` that totals elapsed times and the `scan` that turns timer ticks
    into remaining milliseconds. */
module Countdown {

  /** `times.reduce((acc, cur) => acc + cur, acc)`: a left fold from `acc`. */
  function Reduce(acc: int, times: seq<int>): int
    decreases |times|
  {
    if times == [] then acc else Reduce(acc + times[0], times[1..])
  }

  /** The sum of a list, defined from its last element: the reference for
      `Reduce`. */
  function Sum(times: seq<int>): int
    decreases |times|
  {
    if times == [] then 0 else Sum(times[..|times| - 1]) + times[|times| - 1]
  }

  /** Summing `times` then `more` sums their concatenation. */
  lemma {:induction false} SumConcat(times: seq<int>, more: seq<int>)
    ensures Sum(times + more) == Sum(times) + Sum(more)
    decreases |more|
  {
    if more == [] {
      assert times + more == times;
    } else {
      SumConcat(times, more[..|more| - 1]);
      assert (times + more)[..|times + more| - 1] == times + more[..|more| - 1];
      assert (times + more)[|times + more| - 1] == more[|more| - 1];
    }
  }

  /** The left fold from `acc` adds `acc` to the sum. */
  lemma {:induction false} ReduceIsSum(acc: int, times: seq<int>)
    ensures Reduce(acc, times) == acc + Sum(times)
    decreases |times|
  {
    if times != [] {
      ReduceIsSum(acc + times[0], times[1..]);
      SumConcat([times[0]], times[1..]);
      assert [times[0]] + times[1..] == times;
      assert Sum([times[0]]) == times[0] by {
        assert [times[0]][..0] == [];
      }
    }
  }

  /** Appending `x` to the elapsed times raises the total by exactly `x`. */
  lemma ReduceAppend(times: seq<int>, x: int)
    ensures Reduce(0, times + [x]) == Reduce(0, times) + x
  {
    ReduceIsSum(0, times + [x]);
    ReduceIsSum(0, times);
    assert (times + [x])[..|times + [x]| - 1] == times;
  }

  /** `ticks.pipe(scan(acc => acc - 1000, acc))`: one emission per tick, each
      1000 ms below the accumulator before it. The tick values are ignored. */
  function Scan(acc: int, ticks: seq<int>): (emitted: seq<int>)
    ensures |emitted| == |ticks|
    decreases |ticks|
  {
    if ticks == [] then [] else [acc - 1000] + Scan(acc - 1000, ticks[1..])
  }

  /** The k-th emission (from 0) is `seed - 1000 * (k + 1)`: there is no floor at
      zero. */
  lemma {:induction false} ScanValues(seed: int, ticks: seq<int>)
    ensures forall k :: 0 <= k < |ticks| ==> Scan(seed, ticks)[k] == seed - 1000 * (k + 1)
    decreases |ticks|
  {
    if ticks != [] {
      ScanValues(seed - 1000, ticks[1..]);
      forall k | 0 <= k < |ticks|
        ensures Scan(seed, ticks)[k] == seed - 1000 * (k + 1)
      {
        if k > 0 {
          assert Scan(seed, ticks)[k] == Scan(seed - 1000, ticks[1..])[k - 1];
        }
      }
    }
  }

  /** Consecutive emissions differ by exactly 1000 ms. */
  lemma ScanSteps(seed: int, ticks: seq<int>, k: int)
    requires 0 < k < |ticks|
    ensures Scan(seed, ticks)[k] == Scan(seed, ticks)[k - 1] - 1000
  {
    ScanValues(seed, ticks);
  }
}
