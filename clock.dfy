/**
 * The wall clock read by `System.currentTimeMillis()`.
 *
 * The model fixes in advance the value every reading returns: reading number
 * `k` (counted from the clock's creation) returns `time(k)`. A sleep does not
 * move the clock by itself; the effect of sleeping is already part of the
 * values later readings return. Nothing forces the readings to increase (the
 * real wall clock can be set back); properties that need it take `Monotone`
 * as a hypothesis.
 */
module SystemClock {

  /** Reading number `k + 1` is not earlier than reading number `k`. */
  ghost predicate Step(time: nat -> int, k: nat) {
    time(k) <= time(k + 1)
  }

  /** The clock never goes back, stated one reading at a time. */
  ghost predicate Monotone(time: nat -> int) {
    forall k: nat :: Step(time, k)
  }

  /** A clock that never goes back between neighbouring readings never goes back at all. */
  lemma {:induction false} MonotoneBetween(time: nat -> int, i: nat, j: nat)
    requires Monotone(time) && i <= j
    ensures time(i) <= time(j)
    decreases j - i
  {
    if i < j {
      MonotoneBetween(time, i, j - 1);
      assert Step(time, j - 1);
    }
  }

  class Clock {
    /** `time(k)` is what the `k`-th reading returns. */
    const time: nat -> int
    /** How many readings have been taken so far. */
    var calls: nat

    constructor (time: nat -> int)
      ensures this.time == time && calls == 0
    {
      this.time := time;
      calls := 0;
    }

    /** `System.currentTimeMillis()`: takes the next reading. */
    method CurrentTimeMillis() returns (t: int)
      modifies this`calls
      ensures calls == old(calls) + 1
      ensures t == time(old(calls))
    {
      t := time(calls);
      calls := calls + 1;
    }
  }
}
