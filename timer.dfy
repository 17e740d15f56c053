/**
 * `game.engine.Timer`: milliseconds elapsed since the timer was created, and a
 * stopwatch that fires once its interval has passed and then re-arms itself.
 */
module Timing {
  import opened SystemClock

  class Timer {
    /** The clock every reading comes from. */
    const clock: Clock
    /** The number of the reading taken when the timer was created. */
    ghost const bornAt: nat
    /** `p_start`: the clock reading at creation. */
    var start: int
    /** `p_stopwatchStart`: the elapsed value at which the stopwatch was last armed. */
    var stopwatchStart: int

    ghost predicate Valid()
      reads this, clock
    {
      bornAt < clock.calls && start == clock.time(bornAt)
    }

    /** The elapsed value that reading number `k` yields. */
    function ElapsedAt(k: nat): int
      reads this
    {
      clock.time(k) - start
    }

    constructor (clock: Clock)
      modifies clock`calls
      ensures this.clock == clock && Valid()
      ensures clock.calls == old(clock.calls) + 1
      ensures start == clock.time(old(clock.calls))
      ensures stopwatchStart == 0
    {
      this.clock := clock;
      bornAt := clock.calls;
      var now := clock.CurrentTimeMillis();
      start := now;
      stopwatchStart := 0;
    }

    /** `getElapsed()`: the next clock reading minus the start reading. */
    method GetElapsed() returns (e: int)
      requires Valid()
      modifies clock`calls
      ensures Valid()
      ensures clock.calls == old(clock.calls) + 1
      ensures e == clock.time(old(clock.calls)) - start
      ensures Monotone(clock.time) ==> 0 <= e
    {
      var now := clock.CurrentTimeMillis();
      e := now - start;
      if Monotone(clock.time) {
        MonotoneBetween(clock.time, bornAt, clock.calls - 1);
      }
    }

    /**
     * `rest(ms)`: polls the elapsed value, sleeping a millisecond between
     * polls, until it has reached the entry reading plus `ms`. Returns how
     * many times it slept. The precondition says that some later reading
     * does reach that point (otherwise the source loops forever).
     */
    method Rest(ms: int) returns (sleeps: nat)
      requires Valid()
      requires exists k: nat :: clock.calls < k && clock.time(clock.calls) + ms <= clock.time(k)
      modifies clock`calls
      ensures Valid()
      ensures clock.calls == old(clock.calls) + 2 + sleeps
      ensures ElapsedAt(old(clock.calls)) + ms <= ElapsedAt(clock.calls - 1)
      ensures forall k :: old(clock.calls) < k < clock.calls - 1 ==> ElapsedAt(k) < ElapsedAt(old(clock.calls)) + ms
      ensures ms <= 0 && clock.time(old(clock.calls)) <= clock.time(old(clock.calls) + 1) ==> sleeps == 0
    {
      ghost var c0 := clock.calls;
      ghost var last: nat :| c0 < last && clock.time(c0) + ms <= clock.time(last);
      var entry := GetElapsed();
      var e := GetElapsed();
      sleeps := 0;
      while entry + ms > e
        invariant Valid()
        invariant clock.calls == c0 + 2 + sleeps <= last + 1
        invariant entry == ElapsedAt(c0) && e == ElapsedAt(clock.calls - 1)
        invariant forall k :: c0 < k < clock.calls - 1 ==> ElapsedAt(k) < entry + ms
        invariant ms <= 0 && clock.time(c0) <= clock.time(c0 + 1) ==> sleeps == 0
        decreases last + 1 - clock.calls
      {
        // Thread.sleep(1): the clock's later readings already account for it.
        e := GetElapsed();
        sleeps := sleeps + 1;
      }
    }

    /** `resetStopwatch()`: arms the stopwatch at the current elapsed value. */
    method ResetStopwatch()
      requires Valid()
      modifies this`stopwatchStart, clock`calls
      ensures Valid()
      ensures clock.calls == old(clock.calls) + 1
      ensures stopwatchStart == ElapsedAt(old(clock.calls))
    {
      stopwatchStart := GetElapsed();
    }

    /**
     * Polls `stopwatch(ms)` over the next `n` readings, as long as two of
     * them are left, and returns the values it re-armed at: exactly
     * `FireTimes` of those readings. Under a clock that never goes back,
     * the fires are therefore more than `ms` apart.
     */
    method PollStopwatch(ms: int, n: nat) returns (rearms: seq<int>)
      requires Valid()
      modifies this`stopwatchStart, clock`calls
      ensures Valid()
      ensures old(clock.calls) + n - 1 <= clock.calls <= old(clock.calls) + n
      ensures rearms == FireTimes(old(stopwatchStart), ms, Readings(clock.time, start, old(clock.calls), n))
      ensures Monotone(clock.time) ==> Spaced(old(stopwatchStart), ms, rearms)
    {
      var c0 := clock.calls;
      ghost var time, st, sw0 := clock.time, start, stopwatchStart;
      ghost var total := PollRun(time, st, sw0, ms, c0, n, []);
      // `k` and `arm` follow the reading count and the armed value.
      ghost var k, arm := c0, sw0;
      rearms := [];
      while clock.calls + 2 <= c0 + n
        invariant Valid() && start == st && clock.calls == k && stopwatchStart == arm
        invariant c0 <= k <= c0 + n
        invariant PollRun(time, st, arm, ms, k, c0 + n - k, rearms) == total
        decreases c0 + n - k
      {
        var fired := Stopwatch(ms);
        if fired {
          rearms := rearms + [stopwatchStart];
          k, arm := k + 2, stopwatchStart;
        } else {
          k := k + 1;
        }
      }
      PollRunReadings(time, st, sw0, ms, c0, n, []);
      if Monotone(time) {
        ReadingsFireSpaced(time, st, c0, n, sw0, ms);
      }
    }

    /**
     * `stopwatch(ms)`: fires when the elapsed value is past the armed value by
     * more than `ms`, and then re-arms at a second, fresh elapsed reading.
     * When it does not fire, the timer is left as it was.
     */
    method Stopwatch(ms: int) returns (fired: bool)
      requires Valid()
      modifies this`stopwatchStart, clock`calls
      ensures Valid()
      ensures fired <==> ElapsedAt(old(clock.calls)) > old(stopwatchStart) + ms
      ensures fired ==> clock.calls == old(clock.calls) + 2 && stopwatchStart == ElapsedAt(old(clock.calls) + 1)
      ensures !fired ==> clock.calls == old(clock.calls) + 1 && stopwatchStart == old(stopwatchStart)
      ensures fired && Monotone(clock.time) ==> stopwatchStart >= ElapsedAt(old(clock.calls))
      ensures fired && 0 <= ms ==> !(ElapsedAt(clock.calls - 1) > stopwatchStart + ms)
    {
      var e := GetElapsed();
      if e > stopwatchStart + ms {
        ResetStopwatch();
        fired := true;
        if Monotone(clock.time) {
          assert Step(clock.time, clock.calls - 2);
        }
      } else {
        fired := false;
      }
    }
  }

  /**
   * The re-arm values of a stopwatch armed at `sw` with interval `ms` that is
   * polled over the successive elapsed readings `es`: each poll takes one
   * reading to compare and, when it fires, one more to re-arm at. A poll
   * that fires on the very last reading has no reading left to re-arm at:
   * that fire is dropped, and the run ends there.
   */
  function FireTimes(sw: int, ms: int, es: seq<int>): (f: seq<int>)
    ensures 2 * |f| <= |es|
    ensures forall t :: t in f ==> t in es
    decreases |es|
  {
    if |es| == 0 then []
    else if es[0] > sw + ms then
      if |es| == 1 then [] else [es[1]] + FireTimes(es[1], ms, es[2..])
    else FireTimes(sw, ms, es[1..])
  }

  /** The `n` elapsed values that the readings from number `from` on yield, for a timer started at `start`. */
  function Readings(time: nat -> int, start: int, from: nat, n: nat): (es: seq<int>)
    ensures |es| == n
    ensures forall i :: 0 <= i < n ==> es[i] == time(from + i) - start
  {
    seq(n, i requires 0 <= i < n => time(from + i) - start)
  }

  /** Under a clock that never goes back, successive elapsed values never decrease. */
  lemma ReadingsSorted(time: nat -> int, start: int, from: nat, n: nat)
    requires Monotone(time)
    ensures Sorted(Readings(time, start, from, n))
  {
    var es := Readings(time, start, from, n);
    forall i, j | 0 <= i <= j < n ensures es[i] <= es[j] {
      MonotoneBetween(time, from + i, from + j);
    }
  }

  /** Over readings from a clock that never goes back, the stopwatch's fires are spaced. */
  lemma ReadingsFireSpaced(time: nat -> int, start: int, from: nat, n: nat, sw: int, ms: int)
    requires Monotone(time)
    ensures Spaced(sw, ms, FireTimes(sw, ms, Readings(time, start, from, n)))
  {
    ReadingsSorted(time, start, from, n);
    FireTimesSpaced(sw, ms, Readings(time, start, from, n));
  }

  /**
   * Polls over the `count` readings from number `from` on, for a timer
   * started at `start` whose stopwatch is armed at `sw`, appending each
   * re-arm value to `acc`.
   */
  function PollRun(time: nat -> int, start: int, sw: int, ms: int, from: nat, count: nat, acc: seq<int>): seq<int>
    decreases count
  {
    if count == 0 then acc
    else if time(from) - start > sw + ms then
      if count == 1 then acc
      else PollRun(time, start, time(from + 1) - start, ms, from + 2, count - 2, acc + [time(from + 1) - start])
    else PollRun(time, start, sw, ms, from + 1, count - 1, acc)
  }

  /** Polling the clock directly appends exactly `FireTimes` of its readings. */
  lemma {:induction false} PollRunReadings(time: nat -> int, start: int, sw: int, ms: int, from: nat, count: nat, acc: seq<int>)
    ensures PollRun(time, start, sw, ms, from, count, acc) == acc + FireTimes(sw, ms, Readings(time, start, from, count))
    decreases count
  {
    if count == 0 {
    } else if time(from) - start > sw + ms {
      if count > 1 {
        var rearm := time(from + 1) - start;
        ReadingsDrop(time, start, from, count, 2);
        var rest := FireTimes(rearm, ms, Readings(time, start, from + 2, count - 2));
        assert FireTimes(sw, ms, Readings(time, start, from, count)) == [rearm] + rest;
        PollRunReadings(time, start, rearm, ms, from + 2, count - 2, acc + [rearm]);
        AppendAssoc(acc, [rearm], rest);
      }
    } else {
      ReadingsDrop(time, start, from, count, 1);
      PollRunReadings(time, start, sw, ms, from + 1, count - 1, acc);
    }
  }

  /** Dropping the first `d` of a run of readings leaves the run that starts `d` readings later. */
  lemma ReadingsDrop(time: nat -> int, start: int, from: nat, count: nat, d: nat)
    requires d <= count
    ensures Readings(time, start, from, count)[d..] == Readings(time, start, from + d, count - d)
  {
    var es := Readings(time, start, from, count);
    assert forall i :: 0 <= i < count - d ==> es[d..][i] == es[d + i];
  }

  lemma AppendAssoc(a: seq<int>, b: seq<int>, c: seq<int>)
    ensures a + b + c == a + (b + c)
  {
  }

  ghost predicate Sorted(es: seq<int>) {
    forall i, j :: 0 <= i <= j < |es| ==> es[i] <= es[j]
  }

  /**
   * Re-arm values `f` of a stopwatch first armed at `sw` are spaced when the
   * first is past `sw` by more than `ms` and each later one is past the one
   * before it by more than `ms`.
   */
  ghost predicate Spaced(sw: int, ms: int, f: seq<int>) {
    (|f| > 0 ==> f[0] > sw + ms) &&
    forall i :: 0 <= i < |f| - 1 ==> f[i] + ms < f[i + 1]
  }

  /**
   * Over non-decreasing readings the stopwatch fires at most once per window:
   * its first re-arm is past the initial arming by more than `ms`, and every
   * re-arm is past the one before it by more than `ms`.
   */
  lemma {:induction false} FireTimesSpaced(sw: int, ms: int, es: seq<int>)
    requires Sorted(es)
    ensures Spaced(sw, ms, FireTimes(sw, ms, es))
    decreases |es|
  {
    if |es| == 0 {
    } else if es[0] > sw + ms {
      if |es| > 1 {
        assert Sorted(es[2..]) by {
          forall i, j | 0 <= i <= j < |es[2..]| ensures es[2..][i] <= es[2..][j] {
            assert es[2..][i] == es[i + 2] && es[2..][j] == es[j + 2];
          }
        }
        FireTimesSpaced(es[1], ms, es[2..]);
        var g := FireTimes(es[1], ms, es[2..]);
        assert FireTimes(sw, ms, es) == [es[1]] + g;
      }
    } else {
      assert Sorted(es[1..]) by {
        forall i, j | 0 <= i <= j < |es[1..]| ensures es[1..][i] <= es[1..][j] {
          assert es[1..][i] == es[i + 1] && es[1..][j] == es[j + 1];
        }
      }
      FireTimesSpaced(sw, ms, es[1..]);
    }
  }
}
