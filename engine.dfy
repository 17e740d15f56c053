/**
 * The non-graphical bookkeeping of `game.engine.Engine`: the five-slot touch
 * buffer, the frame-rate to sleep-budget arithmetic, one iteration of the
 * frame loop, and the pause/resume flags.
 */
module GameEngine {
  import opened SystemClock
  import opened Timing

  datatype Option<T> = None | Some(value: T)

  /** Slots in the touch buffer (`new Point[5]`). */
  const Capacity := 5
  /** The frame rate the constructor starts from. */
  const DefaultFrameRate := 40
  /** The interval handed to `stopwatch` for the once-per-second FPS snapshot. */
  const TickInterval := 1000

  const Int32Min := -0x8000_0000
  const Int32Max := 0x7fff_ffff

  /** An `android.graphics.Point`, taken as a value. */
  datatype Point = Point(x: int, y: int)

  /** One active pointer of a touch event: `getX(n)`, `getY(n)` as exact reals. */
  datatype Pointer = Pointer(x: real, y: real)

  function Abs(n: int): nat {
    if n < 0 then -n else n
  }

  function Min(a: int, b: int): int {
    if a <= b then a else b
  }

  /**
   * Java's integer division: the quotient is truncated toward zero, so the
   * remainder is smaller than the divisor in magnitude and never has the
   * opposite sign to the dividend.
   */
  function JavaDiv(a: int, b: int): (q: int)
    requires b != 0
    ensures Abs(a - q * b) < Abs(b)
    ensures 0 <= a ==> 0 <= a - q * b
    ensures a <= 0 ==> a - q * b <= 0
  {
    var q := if (a < 0) == (b < 0) then Abs(a) / Abs(b) else -(Abs(a) / Abs(b));
    JavaDivRemainder(a, b, q);
    q
  }

  /** The quotient rounded toward zero leaves the magnitude's remainder, with the dividend's sign. */
  lemma JavaDivRemainder(a: int, b: int, q: int)
    requires b != 0
    requires q == if (a < 0) == (b < 0) then Abs(a) / Abs(b) else -(Abs(a) / Abs(b))
    ensures a - q * b == if a < 0 then -(Abs(a) % Abs(b)) else Abs(a) % Abs(b)
    ensures Abs(a - q * b) < Abs(b)
    ensures 0 <= a ==> 0 <= a - q * b
    ensures a <= 0 ==> a - q * b <= 0
  {
    var m, r := Abs(a) / Abs(b), Abs(a) % Abs(b);
    assert Abs(a) == m * Abs(b) + r;
    if a < 0 {
      assert q * b == -(m * Abs(b));
    } else {
      assert q * b == m * Abs(b);
    }
  }

  /** `i` is `x` rounded toward zero. */
  ghost predicate TowardZero(x: real, i: int) {
    (0.0 <= x ==> i as real <= x < i as real + 1.0) &&
    (x < 0.0 ==> i as real - 1.0 < x <= i as real)
  }

  predicate InIntRange(x: real) {
    Int32Min as real < x < Int32Max as real
  }

  /**
   * Java's `(int)` cast of a coordinate: rounds toward zero, and saturates
   * at the bounds of `int`.
   */
  function TruncateToInt(x: real): (i: int)
    ensures Int32Min <= i <= Int32Max
    ensures x <= Int32Min as real ==> i == Int32Min
    ensures Int32Max as real <= x ==> i == Int32Max
    ensures InIntRange(x) ==> TowardZero(x, i)
  {
    if Int32Max as real <= x then Int32Max
    else if x <= Int32Min as real then Int32Min
    else if 0.0 <= x then x.Floor
    else -((-x).Floor)
  }

  /** The `(int)` casts of one pointer's coordinates. */
  function ToPoint(p: Pointer): (r: Point)
    ensures Int32Min <= r.x <= Int32Max && Int32Min <= r.y <= Int32Max
    ensures InIntRange(p.x) ==> TowardZero(p.x, r.x)
    ensures InIntRange(p.y) ==> TowardZero(p.y, r.y)
  {
    Point(TruncateToInt(p.x), TruncateToInt(p.y))
  }

  /** The clamp `getTouchPoint` applies, as written: only from above, and to the count itself. */
  function ClampToCount(index: int, count: int): (c: int)
    ensures c <= index && c <= count && (c == index || c == count)
  {
    if index > count then count else index
  }

  /**
   * The slot `getTouchPoint` reads lies inside the buffer exactly when the
   * index is not negative and it is not the case that all five slots are
   * active while the index is five or more.
   */
  lemma TouchReadInBounds(index: int, count: int)
    requires 0 <= count <= Capacity
    ensures 0 <= ClampToCount(index, count) < Capacity <==> 0 <= index && (index < Capacity || count < Capacity)
  {
  }

  /** Two reads the clamp lets through that fall outside the buffer. */
  lemma TouchReadFaults()
    ensures ClampToCount(7, Capacity) == Capacity
    ensures ClampToCount(-1, 0) == -1
  {
  }

  /**
   * The clamp corrected so that every index lands in the buffer: it agrees
   * with the clamp as written wherever that one stays inside the buffer.
   */
  function SafeSlot(index: int, count: int): (i: int)
    ensures 0 <= i < Capacity
    ensures 0 <= ClampToCount(index, count) < Capacity ==> i == ClampToCount(index, count)
    ensures index < 0 ==> i == 0
    ensures ClampToCount(index, count) >= Capacity ==> i == Capacity - 1
  {
    var c := ClampToCount(index, count);
    if c < 0 then 0 else if c >= Capacity then Capacity - 1 else c
  }

  /** The locals of `run()` that outlive an iteration: `frameCount` and `frameRate`. */
  datatype Counters = Counters(frameCount: int, frameRate: int)

  /** The frame bookkeeping of one non-paused iteration; `tick` is whether `stopwatch(1000)` fired. */
  function Tally(c: Counters, tick: bool): (r: Counters)
    ensures tick ==> r.frameCount == 0 && r.frameRate == c.frameCount + 1
    ensures !tick ==> r.frameCount == c.frameCount + 1 && r.frameRate == c.frameRate
  {
    var counted := c.frameCount + 1;
    if tick then Counters(0, counted) else Counters(counted, c.frameRate)
  }

  /** The counters after non-paused iterations whose ticks are `ticks`, in order. */
  function Replay(c: Counters, ticks: seq<bool>): Counters
    decreases |ticks|
  {
    if ticks == [] then c else Tally(Replay(c, ticks[..|ticks| - 1]), ticks[|ticks| - 1])
  }

  /** How many iterations since the last tick (all of them if none ticked). */
  function QuietRun(ticks: seq<bool>): nat
    decreases |ticks|
  {
    if ticks == [] || ticks[|ticks| - 1] then 0 else QuietRun(ticks[..|ticks| - 1]) + 1
  }

  /**
   * How many iterations make up the last completed window: those after the
   * tick before last, up to and including the last tick (0 if none ticked).
   */
  function LastWindow(ticks: seq<bool>): nat
    decreases |ticks|
  {
    if ticks == [] then 0
    else if ticks[|ticks| - 1] then QuietRun(ticks[..|ticks| - 1]) + 1
    else LastWindow(ticks[..|ticks| - 1])
  }

  /**
   * From the counters `run()` starts with, the frame count is the number of
   * iterations since the last tick and the displayed frame rate is the number
   * of iterations in the last completed window.
   */
  lemma {:induction false} ReplayCounts(ticks: seq<bool>)
    ensures Replay(Counters(0, 0), ticks) == Counters(QuietRun(ticks), LastWindow(ticks))
    decreases |ticks|
  {
    if ticks != [] {
      ReplayCounts(ticks[..|ticks| - 1]);
    }
  }

  /**
   * The pacing sleep of an iteration whose work took `timeDiff` against the
   * budget `sleepTime`: the remainder of the budget when some is left, and
   * no sleep at all otherwise.
   */
  function PacingSleep(sleepTime: int, timeDiff: int): (s: Option<int>)
    ensures s.Some? <==> timeDiff < sleepTime
    ensures s.Some? ==> 0 < s.value && s.value + timeDiff == sleepTime
  {
    var updatePeriod := sleepTime - timeDiff;
    if updatePeriod > 0 then Some(updatePeriod) else None
  }

  class Engine {
    /** `p_running`, `p_paused`, `p_pauseCount`. */
    var running: bool
    var paused: bool
    var pauseCount: int
    /** `p_touchPoints`: null until `onCreate` allocates it. */
    var touchPoints: array?<Point>
    /** `p_numPoints`: how many leading slots hold the current touch. */
    var numPoints: int
    /** `p_preferredFrameRate` and the per-frame budget `p_sleepTime` derived from it. */
    var preferredFrameRate: int
    var sleepTime: int

    ghost predicate Valid()
      reads this
    {
      0 <= numPoints <= Capacity &&
      (touchPoints != null ==> touchPoints.Length == Capacity) &&
      preferredFrameRate != 0 &&
      sleepTime == JavaDiv(1000, preferredFrameRate)
    }

    constructor ()
      ensures Valid()
      ensures !running && !paused && pauseCount == 0
      ensures touchPoints == null && numPoints == 0
      ensures preferredFrameRate == DefaultFrameRate && sleepTime == 25
    {
      running := false;
      paused := false;
      numPoints := 0;
      touchPoints := null;
      preferredFrameRate := DefaultFrameRate;
      sleepTime := JavaDiv(1000, DefaultFrameRate);
      pauseCount := 0;
    }

    /** The part of `onCreate` that concerns this model: five `(0,0)` touch slots, then `p_running = true`. */
    method OnCreate()
      requires Valid()
      modifies this`touchPoints, this`running
      ensures Valid() && running
      ensures touchPoints != null && fresh(touchPoints) && touchPoints.Length == Capacity
      ensures forall n :: 0 <= n < Capacity ==> touchPoints[n] == Point(0, 0)
    {
      var buffer := new Point[Capacity];
      for n := 0 to Capacity
        invariant forall k :: 0 <= k < n ==> buffer[k] == Point(0, 0)
      {
        buffer[n] := Point(0, 0);
      }
      touchPoints := buffer;
      running := true;
    }

    /** `setFrameRate(rate)`; a rate of 0 makes the Java division throw. */
    method SetFrameRate(rate: int)
      requires Valid() && rate != 0
      modifies this`preferredFrameRate, this`sleepTime
      ensures Valid()
      ensures preferredFrameRate == rate && sleepTime == JavaDiv(1000, rate)
    {
      preferredFrameRate := rate;
      sleepTime := JavaDiv(1000, preferredFrameRate);
    }

    /**
     * `onTouch`: the touch count becomes the pointer count capped at five,
     * the leading slots are overwritten with the truncated coordinates of the
     * pointers, and the slots past the new count keep what they held.
     */
    method OnTouch(event: seq<Pointer>) returns (handled: bool)
      requires Valid() && touchPoints != null
      modifies this`numPoints, touchPoints
      ensures Valid()
      ensures numPoints == Min(|event|, Capacity)
      ensures forall n :: 0 <= n < numPoints ==> touchPoints[n] == ToPoint(event[n])
      ensures forall n :: numPoints <= n < Capacity ==> touchPoints[n] == old(touchPoints[n])
      ensures handled
    {
      numPoints := |event|;
      if numPoints > Capacity {
        numPoints := Capacity;
      }
      for n := 0 to numPoints
        invariant numPoints == Min(|event|, Capacity)
        invariant forall k :: 0 <= k < n ==> touchPoints[k] == ToPoint(event[k])
        invariant forall k :: n <= k < Capacity ==> touchPoints[k] == old(touchPoints[k])
      {
        touchPoints[n] := Point(TruncateToInt(event[n].x), TruncateToInt(event[n].y));
      }
      handled := true;
    }

    /** `getTouchInputs()`: the current touch count. */
    function GetTouchInputs(): (n: int)
      reads this
      requires Valid()
      ensures 0 <= n <= Capacity
    {
      numPoints
    }

    /**
     * `getTouchPoint(index)` as written: an index past the count reads the
     * slot at the count. The precondition is exactly what keeps the read
     * inside the buffer (see `TouchReadInBounds`).
     */
    function GetTouchPoint(index: int): (p: Point)
      reads this, touchPoints
      requires Valid() && touchPoints != null
      requires 0 <= index && (index < Capacity || numPoints < Capacity)
      ensures index <= numPoints ==> p == touchPoints[index]
      ensures numPoints < index ==> p == touchPoints[numPoints]
    {
      TouchReadInBounds(index, numPoints);
      touchPoints[ClampToCount(index, numPoints)]
    }

    /** `getTouchPoint` with the clamp corrected: every index reads a slot of the buffer. */
    function GetTouchPointClamped(index: int): (p: Point)
      reads this, touchPoints
      requires Valid() && touchPoints != null
      ensures p in touchPoints[..]
      ensures numPoints < index ==> p == touchPoints[SafeSlot(numPoints, numPoints)]
      ensures 0 <= index && (index < Capacity || numPoints < Capacity) ==> p == GetTouchPoint(index)
    {
      TouchReadInBounds(index, numPoints);
      touchPoints[SafeSlot(index, numPoints)]
    }

    /** The start of `run()`: a fresh timer, and both counters at 0. */
    method StartRun(clock: Clock) returns (timer: Timer, counters: Counters)
      modifies clock`calls
      ensures fresh(timer) && timer.Valid() && timer.clock == clock
      ensures timer.start == clock.time(old(clock.calls)) && timer.stopwatchStart == 0
      ensures clock.calls == old(clock.calls) + 1
      ensures counters == Counters(0, 0)
    {
      timer := new Timer(clock);
      counters := Counters(0, 0);
    }

    /**
     * One iteration of the `run()` loop, drawing left out. A paused iteration
     * changes nothing. Otherwise it counts the frame, takes the start reading,
     * polls `stopwatch(1000)` (on a tick: snapshot the frame rate, zero the
     * frame count and the touch count), takes the end reading, and returns the
     * pacing sleep.
     */
    method RunIteration(timer: Timer, counters: Counters) returns (next: Counters, sleep: Option<int>)
      requires Valid() && timer.Valid()
      modifies this`numPoints, timer`stopwatchStart, timer.clock`calls
      ensures Valid() && timer.Valid()
      ensures old(paused) ==>
        next == counters && sleep == None && numPoints == old(numPoints) &&
        timer.stopwatchStart == old(timer.stopwatchStart) && timer.clock.calls == old(timer.clock.calls)
      ensures !old(paused) ==>
        var c0 := old(timer.clock.calls);
        var tick := timer.ElapsedAt(c0 + 1) > old(timer.stopwatchStart) + TickInterval;
        var endReading := if tick then c0 + 3 else c0 + 2;
        next == Tally(counters, tick) &&
        (tick ==> numPoints == 0 && timer.stopwatchStart == timer.ElapsedAt(c0 + 2)) &&
        (!tick ==> numPoints == old(numPoints) && timer.stopwatchStart == old(timer.stopwatchStart)) &&
        timer.clock.calls == endReading + 1 &&
        sleep == PacingSleep(sleepTime, timer.ElapsedAt(endReading) - timer.ElapsedAt(c0))
    {
      if paused {
        return counters, None;
      }
      var frameCount := counters.frameCount + 1;
      var frameRate := counters.frameRate;
      var starTime := timer.GetElapsed();
      var tick := timer.Stopwatch(TickInterval);
      if tick {
        frameRate := frameCount;
        frameCount := 0;
        numPoints := 0;
      }
      // update() and the drawing block: hooks outside this model.
      var now := timer.GetElapsed();
      var timeDiff := now - starTime;
      var updatePeriod := sleepTime - timeDiff;
      next := Counters(frameCount, frameRate);
      if updatePeriod > 0 {
        sleep := Some(updatePeriod);
      } else {
        sleep := None;
      }
    }

    /** The flag writes of `onPause`. */
    method OnPause()
      requires Valid()
      modifies this`paused, this`running
      ensures Valid() && paused && !running
    {
      paused := true;
      running := false;
    }

    /** The flag writes of `onResume`. */
    method OnResume()
      requires Valid()
      modifies this`paused, this`running
      ensures Valid() && !paused && running
    {
      paused := false;
      running := true;
    }
  }
}
