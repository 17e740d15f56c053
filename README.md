# SampleGameEngine: timer and frame-loop bookkeeping

A Dafny model of the sequential logic of a small Android game-loop base class:

- `Timer` (module `Timing`, `timer.dfy`): milliseconds elapsed since the timer
  was created, a blocking `rest(ms)` that polls the clock, and a re-arming
  stopwatch used as a once-per-second tick.
- `Engine` (module `GameEngine`, `engine.dfy`): the five-slot touch buffer
  (`onTouch`, `getTouchInputs`, `getTouchPoint`), frame rate to sleep budget
  (`setFrameRate`, the constructor), one iteration of the `run()` frame loop
  without drawing (frame counting, the FPS snapshot that also clears the touch
  count, the pacing sleep), and the flag writes of `onPause`/`onResume`.
- The wall clock (module `SystemClock`, `clock.dfy`): `System.currentTimeMillis()`
  is an input. A `Clock` object fixes in advance the value of every reading
  (`time(k)` for the `k`-th reading) and counts the readings taken. `Thread.sleep`
  does not move it: the effect of a sleep is already in the later readings.
  Whether the clock never goes back is a hypothesis (`Monotone`), not a given.

Every `getElapsed()` call is one clock reading, so the model keeps the exact
number and order of readings the source takes: `stopwatch` reads once to
compare and, when it fires, once more to re-arm; a loop iteration reads three
or four times.

`getTouchPoint` lowers an index above the touch count to the count before
reading the buffer, evidently to keep the read inside the buffer. The clamp is
off by one (with five points active it lowers to 5, one past the last slot)
and never raises a negative index, so it can read out of range; the model
follows the code and also gives the corrected clamp (see Findings).

`p_start` and `p_pauseCount` are never written after construction: no method
of the model has them in its `modifies` clause, so Dafny's frame checks prove it.

## Model

| member | source | states |
|---|---|---|
| SystemClock.Clock.CurrentTimeMillis | app/src/main/java/game/engine/Timer.java:16 | a reading returns the clock's next value and advances the reading count by one |
| SystemClock.MonotoneBetween | app/src/main/java/game/engine/Timer.java:15-17 | a clock that never goes back between neighbouring readings never goes back between any two readings, so later elapsed values are never smaller than earlier ones |
| Timing.Timer.constructor | app/src/main/java/game/engine/Timer.java:10-13 | the start is the clock reading taken at construction and the stopwatch is armed at 0 |
| Timing.Timer.GetElapsed | app/src/main/java/game/engine/Timer.java:15-17 | the result is the new clock reading minus the start; under a clock that never goes back it is never negative |
| Timing.Timer.Rest | app/src/main/java/game/engine/Timer.java:19-26 | returns at the first poll whose elapsed value reaches the entry reading plus `ms`, every earlier poll was below it, the timer's fields are untouched, and with `ms <= 0` and a clock not going back it returns without sleeping |
| Timing.Timer.ResetStopwatch | app/src/main/java/game/engine/Timer.java:28-30 | the stopwatch is re-armed at a fresh elapsed reading and nothing else of the timer changes |
| Timing.Timer.Stopwatch | app/src/main/java/game/engine/Timer.java:32-38 | fires iff the compared elapsed value exceeds the armed value plus `ms`; on firing it re-arms at a second, later reading (not before the compared one under a monotone clock) and a poll at that same reading would not fire for `ms >= 0`; when it does not fire the timer is unchanged |
| Timing.FireTimes | app/src/main/java/game/engine/Timer.java:32-38 | the re-arm values of repeated stopwatch polls over a run of readings: each is one of the readings, and there are at most half as many as readings |
| Timing.ReadingsFireSpaced | app/src/main/java/game/engine/Timer.java:32-38 | over the elapsed values of a clock that never goes back, the stopwatch's re-arms are spaced as `FireTimesSpaced` states |
| Timing.PollRunReadings | app/src/main/java/game/engine/Timer.java:32-38 | polling the clock reading by reading collects exactly `FireTimes` of the run of elapsed values those readings yield |
| Timing.Timer.PollStopwatch | app/src/main/java/game/engine/Timer.java:32-38 | repeated `stopwatch(ms)` calls while two readings are left re-arm exactly at `FireTimes` of the elapsed values of the readings they take, so under a clock that never goes back their fires are more than `ms` apart; the reading count advances by `n` or `n - 1` |
| Timing.FireTimesSpaced | app/src/main/java/game/engine/Timer.java:32-38 | over non-decreasing readings the stopwatch fires at most once per window: the first re-arm is past the initial arming by more than `ms`, each later one past the previous one by more than `ms` |
| GameEngine.JavaDiv | app/src/main/java/game/engine/Engine.java:182 | Java integer division: the remainder is smaller than the divisor in magnitude and never of the opposite sign to the dividend |
| GameEngine.JavaDivRemainder | app/src/main/java/game/engine/Engine.java:182 | the quotient of magnitudes, negated when the signs differ, leaves the remainder of the magnitudes with the dividend's sign |
| GameEngine.TruncateToInt | app/src/main/java/game/engine/Engine.java:159-160 | the `(int)` cast of a coordinate: rounds toward zero inside the range of `int` and saturates at its bounds outside it |
| GameEngine.ToPoint | app/src/main/java/game/engine/Engine.java:159-160 | a pointer's point: both coordinates lie in the range of `int`, and each coordinate inside that range is rounded toward zero |
| GameEngine.ClampToCount | app/src/main/java/game/engine/Engine.java:188 | the index `getTouchPoint` reads, as written: never above the index or the count, and equal to one of them |
| GameEngine.TouchReadInBounds | app/src/main/java/game/engine/Engine.java:187-190 | the slot the clamp picks is inside the buffer iff the index is not negative and not (five points active and index five or more) |
| GameEngine.TouchReadFaults | app/src/main/java/game/engine/Engine.java:187-190 | with five points active index 7 reads slot 5, and with none active index -1 reads slot -1: both outside the buffer |
| GameEngine.SafeSlot | app/src/main/java/game/engine/Engine.java:187-190 | the corrected clamp always picks a slot of the buffer, agrees with the written clamp wherever that one is in range, takes the first slot for a negative index and the last slot where the written clamp lands past the buffer |
| GameEngine.Tally | app/src/main/java/game/engine/Engine.java:91-96 | one non-paused iteration counts its frame; on a tick the frame rate becomes the count including this frame and the count restarts at 0, otherwise the frame rate is kept |
| GameEngine.ReplayCounts | app/src/main/java/game/engine/Engine.java:85-97 | from the starting counters, after any run of iterations the frame count is the number of iterations since the last tick and the frame rate shown is the number of iterations in the last completed window |
| GameEngine.PacingSleep | app/src/main/java/game/engine/Engine.java:109-116 | sleeps iff some of the budget is left after the frame's work, for exactly the remainder, and never for zero or a negative time |
| GameEngine.Engine.constructor | app/src/main/java/game/engine/Engine.java:27-41 | not running, not paused, no pauses, no touches, no buffer yet, frame rate 40 and sleep budget 25 |
| GameEngine.Engine.OnCreate | app/src/main/java/game/engine/Engine.java:61-73 | a fresh five-slot buffer of `(0,0)` points, and the engine marked running |
| GameEngine.Engine.SetFrameRate | app/src/main/java/game/engine/Engine.java:180-183 | the frame rate is the argument and the sleep budget is 1000 divided by it with truncation; a zero rate is excluded because the source's division throws |
| GameEngine.Engine.OnTouch | app/src/main/java/game/engine/Engine.java:154-163 | the touch count becomes the pointer count capped at five, exactly the leading slots take the truncated pointer coordinates, the other slots keep their values, and the event is reported handled |
| GameEngine.Engine.GetTouchInputs | app/src/main/java/game/engine/Engine.java:184-186 | the touch count, always between 0 and 5 |
| GameEngine.Engine.GetTouchPoint | app/src/main/java/game/engine/Engine.java:187-190 | as written: an index up to the count reads its own slot, a larger one reads the slot at the count; callable exactly when that read is inside the buffer |
| GameEngine.Engine.GetTouchPointClamped | app/src/main/java/game/engine/Engine.java:187-190 | corrected: every index yields a point of the buffer, the same one as the written version wherever that one is defined, and an index above the count yields the point of the corrected slot for the count |
| GameEngine.Engine.StartRun | app/src/main/java/game/engine/Engine.java:84-87 | the loop starts with a fresh timer reading the engine's clock and both counters at 0 |
| GameEngine.Engine.RunIteration | app/src/main/java/game/engine/Engine.java:89-117 | a paused iteration changes nothing and reads no clock; otherwise the frame is counted, on a stopwatch tick the frame rate takes the count and the frame and touch counts drop to 0, and the sleep is the pacing sleep of the time between the start and end readings |
| GameEngine.Engine.OnPause | app/src/main/java/game/engine/Engine.java:144-145 | paused is set and running cleared |
| GameEngine.Engine.OnResume | app/src/main/java/game/engine/Engine.java:135-136 | paused is cleared and running set |

## Left out

- `Texture`: decoding a bitmap from an asset is an I/O wrapper over the host framework.
- Drawing: `beginDrawing`, `endDrawing`, `drawText`, the canvas calls inside `run()`, the paint, colour, text size and typeface setters, and the `FontStyles`/`ScreenModes` enums are host graphics calls.
- The `init()`, `load()`, `update()` and `draw()` hooks belong to subclasses; the model treats them as changing no Engine state. A hook that calls `setFrameRate` would change the sleep budget in the middle of an iteration.
- Threads: creating and starting the loop thread in `onCreate`/`onResume`, `Thread.join`, and the unsynchronised sharing of the flags and the touch buffer between threads. The `run()` loop is modelled one iteration at a time; whether it goes on is decided by `p_running`, which another thread writes.
- `GameEngine.Engine.OnPause`: models only the two flag writes; the source then retries `join()` forever in a loop with no exit, so `onPause` never returns.
- A paused iteration of `run()` spins; the model states only that it changes nothing.
- `System.exit` at the end of `run()`, `fatalError`, and every log call.
- Floating point: `round` and the `toString` helpers; `toString(int)` is only used for the diagnostic text.
- `onCreate` window setup: title, orientation, content view and touch-listener registration.
- Real time: the clock is a fixed sequence of readings and `Thread.sleep` neither moves it nor is interrupted.
- `GameEngine.TruncateToInt`: coordinates are exact reals, so the NaN case of the cast (which yields 0) and the rounding of `float` values are not modelled.
- `GameEngine.Engine.GetTouchPoint`: returns the point as a value; in the source it is a reference to the buffer's `Point` object, which the next touch event mutates.
- `GameEngine.Engine.OnTouch`: requires the touch buffer to exist; `onCreate` allocates it (Engine.java:61) only after calling the subclass hook `init()` (Engine.java:56), so a touch handled before that point throws `NullPointerException` in the source, which the model does not represent.
- `GameEngine.Engine.GetTouchPoint`: requires the touch buffer to exist, for the same reason: a call from `init()` or from anywhere before `onCreate` has allocated it throws `NullPointerException` in the source.
- `GameEngine.Engine.SetFrameRate`: a zero rate is excluded by the precondition; in the source the field `p_preferredFrameRate` is already 0 when the division throws.
- `Timing.Timer.GetElapsed`: does not model 64-bit wrap-around of `long` subtraction, which real clock values never reach.
- `Timing.Timer.Stopwatch`: does not model 64-bit wrap-around of `p_stopwatchStart + ms`.
- `Timing.Timer.Rest`: requires that some later reading reaches the target (the source then polls forever), and does not model 64-bit wrap-around of `start + ms`.
- `GameEngine.Engine.RunIteration`: does not model 32-bit wrap-around of `frameCount`, which needs over two billion frames without a tick.

## Findings

| source | as written | input that shows it | evidently intended | confidence | as-written member | corrected member |
|---|---|---|---|---|---|---|
| app/src/main/java/game/engine/Engine.java:188-189 | `getTouchPoint` lowers an index above the count to the count, and never raises a negative index, before reading the five-slot array | a touch with five or more pointers, then `getTouchPoint(7)` reads slot 5; `getTouchPoint(-1)` reads slot -1; both throw `ArrayIndexOutOfBoundsException` | the clamp exists to keep the read inside the buffer, so every index should read a slot of it: a negative index the first slot, and an index the written clamp sends past the buffer the last slot | not executed; high | GameEngine.TouchReadFaults | GameEngine.Engine.GetTouchPointClamped |
