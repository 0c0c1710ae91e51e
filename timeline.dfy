/**
 * The state of a Scripted instance as a value, and each prototype method
 * as a function from the state before to the state after. The class in
 * module Session performs the same steps on its fields; this module is
 * the specification it is proved against, and the home of the facts
 * about catching up, dispatch and reset.
 *
 * Units: wall-clock times (timestamps, currentTime) are integer
 * milliseconds. The frame interval `delay` and the residue `loopCounter`
 * are counted in ticks of a tenth of a millisecond, so that an interval
 * such as 8.3 ms is exact.
 */
module Timeline {
  import opened Wrappers
  import opened Cuepoints
  import Text

  /** A wall-clock duration in milliseconds as a number of ticks (tenths of a millisecond). */
  function Ticks(ms: int): int
  {
    10 * ms
  }

  /** A frame interval: a positive number of ticks. */
  type Interval = d: int | d > 0 witness 1

  /**
   * What setupTimer sets: the timeline's rate, interval, length and repeat
   * flag. The rate and the length are JavaScript numbers and need not be
   * whole (30 fps for 0.5 s, 29.97 fps), so they and their product are
   * exact rationals.
   */
  datatype Config = Config(
    fps: real,
    delay: Interval,
    totalTimeInSeconds: real,
    totalTimeInFrames: real,
    shouldRepeat: bool)

  /** What the timing loop changes: the running flag, the last timestamp and the three counters. */
  datatype Clock = Clock(
    isTimerRunning: bool,
    timestamp: int,
    loopCounter: int,
    currentTime: int,
    currentFrame: nat)

  datatype State = State(
    config: Config,
    clock: Clock,
    actions: Table,
    scope: Scope,
    // every action-method call dispatch has made, oldest first
    log: seq<Invocation>,
    // how many host frame callbacks have been requested
    callbacksRequested: nat)

  /** The default properties every new instance starts from (60 fps, 18 ms, 600 frames, repeating). */
  function Initial(): State
  {
    State(Config(60.0, Ticks(18), 10.0, 600.0, true), Clock(false, 0, 0, 0, 0), map[], Undefined, [], 0)
  }

  /** The clock with the residue, the elapsed time and the frame position zeroed together. */
  function Rewound(c: Clock): Clock
  {
    c.(loopCounter := 0, currentTime := 0, currentFrame := 0)
  }

  /** Zeroes the residue, the elapsed time and the frame position together; nothing else changes. */
  function ResetTimer(s: State): State
  {
    s.(clock := Rewound(s.clock))
  }

  lemma ResetTimerEffect(s: State)
    ensures var r := ResetTimer(s);
            && (r.clock.loopCounter == 0 && r.clock.currentTime == 0 && r.clock.currentFrame == 0)
            && (r.clock.isTimerRunning == s.clock.isTimerRunning && r.clock.timestamp == s.clock.timestamp)
            && (r.(clock := s.clock) == s)
  {
  }

  /**
   * Configures the clock: the interval, total frames = fps * seconds, the
   * repeat flag; the timer is stopped and rewound. Cuepoints, scope and
   * timestamp are kept.
   */
  function SetupTimer(s: State, fps: real, totalTimeInSeconds: real, delay: Interval, shouldRepeat: bool): State
  {
    var configured := s.(config := Config(fps, delay, totalTimeInSeconds, fps * totalTimeInSeconds, shouldRepeat),
                         clock := s.clock.(isTimerRunning := false));
    ResetTimer(configured)
  }

  lemma SetupTimerEffect(s: State, fps: real, totalTimeInSeconds: real, delay: Interval, shouldRepeat: bool)
    ensures var r := SetupTimer(s, fps, totalTimeInSeconds, delay, shouldRepeat);
            && (r.config == Config(fps, delay, totalTimeInSeconds, fps * totalTimeInSeconds, shouldRepeat))
            && (r.clock == Clock(false, s.clock.timestamp, 0, 0, 0))
            && (r.(config := s.config, clock := s.clock) == s)
  {
  }

  /** Starts counting from `now` and asks the host for a frame callback. */
  function StartTimer(s: State, now: int): State
  {
    s.(clock := s.clock.(isTimerRunning := true, timestamp := now),
       callbacksRequested := s.callbacksRequested + 1)
  }

  lemma StartTimerEffect(s: State, now: int)
    ensures var r := StartTimer(s, now);
            && (r.clock.isTimerRunning && r.clock.timestamp == now)
            && (r.callbacksRequested == s.callbacksRequested + 1)
            && (r.clock.(isTimerRunning := s.clock.isTimerRunning, timestamp := s.clock.timestamp) == s.clock)
            && (r.(clock := s.clock, callbacksRequested := s.callbacksRequested) == s)
  {
  }

  /** Pausing only clears the running flag: frame position and residue stay. */
  function PauseTimer(s: State): State
  {
    s.(clock := s.clock.(isTimerRunning := false))
  }

  lemma PauseTimerEffect(s: State)
    ensures var r := PauseTimer(s);
            && (!r.clock.isTimerRunning)
            && (r.clock.(isTimerRunning := s.clock.isTimerRunning) == s.clock)
            && (r.(clock := s.clock) == s)
  {
  }

  /** Stopping does exactly what pausing does: it does not rewind. */
  function StopTimer(s: State): State
  {
    s.(clock := s.clock.(isTimerRunning := false))
  }

  lemma StopIsPause(s: State)
    ensures var r := StopTimer(s);
            && (r == PauseTimer(s))
            && (r.clock.currentFrame == s.clock.currentFrame && r.clock.loopCounter == s.clock.loopCounter)
  {
  }

  /** Sets the scope later registrations are bound to; the table is untouched. */
  function Using(s: State, scope: Scope): State
  {
    s.(scope := scope)
  }

  lemma UsingEffect(s: State, scope: Scope)
    ensures var r := Using(s, scope);
            && (r.scope == scope && r.(scope := s.scope) == s)
  {
  }

  /**
   * Registers one script line: one bound action, carrying the scope current
   * now, is pushed under the line's key. Only the table changes.
   */
  function ParseScript(s: State, script: string): State
  {
    var b := ParseLine(script, s.scope);
    s.(actions := Register(s.actions, b.key, b.action))
  }

  lemma ParseScriptEffect(s: State, script: string)
    ensures var r := ParseScript(s, script);
            && (var b := ParseLine(script, s.scope);
               r.actions == Register(s.actions, b.key, b.action) && b.action.scope == s.scope)
            && (r.(actions := s.actions) == s)
  {
  }

  /**
   * The clock after one frame: the frame counter goes up by one and, when
   * the new frame reaches the total, the counters are rewound and the timer
   * is stopped unless the timeline repeats.
   */
  function FrameClock(cfg: Config, c: Clock): Clock
  {
    var frame := c.currentFrame + 1;
    if frame as real >= cfg.totalTimeInFrames then
      if cfg.shouldRepeat then Rewound(c) else Rewound(c).(isTimerRunning := false)
    else c.(currentFrame := frame)
  }

  /**
   * One frame: the frame counter goes up by one, the actions of the new
   * frame are invoked, and when the new frame reaches the total the
   * counters are reset and, unless repeating, the timer is stopped.
   */
  function FrameLoop(s: State): State
  {
    s.(clock := FrameClock(s.config, s.clock), log := s.log + Fire(s.actions, s.clock.currentFrame + 1))
  }

  lemma FrameLoopEffect(s: State)
    ensures var r := FrameLoop(s);
            && (r.log == s.log + Fire(s.actions, s.clock.currentFrame + 1))
            && (r.(clock := s.clock, log := s.log) == s)
            && ((s.clock.currentFrame + 1) as real < s.config.totalTimeInFrames ==>
                 r.clock == s.clock.(currentFrame := s.clock.currentFrame + 1))
            && ((s.clock.currentFrame + 1) as real >= s.config.totalTimeInFrames ==>
                 r.clock == s.clock.(currentFrame := 0, loopCounter := 0, currentTime := 0,
                                     isTimerRunning := s.clock.isTimerRunning && s.config.shouldRepeat))
  {
  }

  /** One turn of the catch-up loop on the clock: one interval off the residue, then one frame. */
  function CatchUpTurn(cfg: Config, c: Clock): Clock
  {
    FrameClock(cfg, c.(loopCounter := c.loopCounter - cfg.delay))
  }

  /** The clock after the catch-up loop of timerLoop. */
  function CatchUpClock(cfg: Config, c: Clock): (r: Clock)
    ensures r.loopCounter <= cfg.delay
    ensures r.timestamp == c.timestamp
    ensures r.isTimerRunning ==> c.isTimerRunning
    decreases c.loopCounter
  {
    if c.loopCounter > cfg.delay then CatchUpClock(cfg, CatchUpTurn(cfg, c)) else c
  }

  /** The action calls the catch-up loop of timerLoop makes, in order. */
  function CatchUpLog(cfg: Config, t: Table, c: Clock): seq<Invocation>
    decreases c.loopCounter
  {
    if c.loopCounter > cfg.delay then Fire(t, c.currentFrame + 1) + CatchUpLog(cfg, t, CatchUpTurn(cfg, c)) else []
  }

  /**
   * The catch-up loop of timerLoop: while the residue exceeds one interval,
   * take one interval off it and run one frame.
   */
  function CatchUp(s: State): State
  {
    s.(clock := CatchUpClock(s.config, s.clock), log := s.log + CatchUpLog(s.config, s.actions, s.clock))
  }

  lemma CatchUpEffect(s: State)
    ensures var r := CatchUp(s);
            && (r.clock.loopCounter <= r.config.delay)
            && (r.(clock := s.clock, log := s.log) == s)
  {
  }

  /** Each turn of the loop is one FrameLoop on the state with one interval taken off the residue. */
  lemma CatchUpTurnIsFrameLoop(s: State)
    requires s.clock.loopCounter > s.config.delay
    ensures CatchUp(s) == CatchUp(FrameLoop(s.(clock := s.clock.(loopCounter := s.clock.loopCounter - s.config.delay))))
  {
    var next := FrameLoop(s.(clock := s.clock.(loopCounter := s.clock.loopCounter - s.config.delay)));
    assert next.clock == CatchUpTurn(s.config, s.clock);
    assert s.log + CatchUpLog(s.config, s.actions, s.clock)
        == next.log + CatchUpLog(s.config, s.actions, next.clock);
  }

  /**
   * The catch-up loop never dispatches frame 0: the frame counter is
   * incremented before every lookup, so a line registered at "0" is never run.
   */
  lemma {:induction false} CatchUpNeverDispatchesFrameZero(cfg: Config, t: Table, c: Clock)
    ensures forall i :: 0 <= i < |CatchUpLog(cfg, t, c)| ==> CatchUpLog(cfg, t, c)[i].frame >= 1
    decreases c.loopCounter
  {
    if c.loopCounter > cfg.delay {
      var head := Fire(t, c.currentFrame + 1);
      var rest := CatchUpLog(cfg, t, CatchUpTurn(cfg, c));
      var all: seq<Invocation> := head + rest;
      CatchUpNeverDispatchesFrameZero(cfg, t, CatchUpTurn(cfg, c));
      forall i | 0 <= i < |all| ensures all[i].frame >= 1 {
        if i >= |head| { assert all[i] == rest[i - |head|]; }
      }
    }
  }

  /** The state a callback at `now` hands to the catch-up loop: the elapsed time added to the residue and to the elapsed counter. */
  function Elapse(s: State, now: int): State
  {
    var timeDelta := now - s.clock.timestamp;
    s.(clock := s.clock.(loopCounter := s.clock.loopCounter + Ticks(timeDelta),
                         currentTime := s.clock.currentTime + timeDelta))
  }

  /**
   * One host callback at wall-clock time `now`: the elapsed time goes into
   * the residue and the elapsed counter, due frames are run, and only if
   * the timer is still running is `now` remembered and another callback
   * requested.
   */
  function TimerLoop(s: State, now: int): State
  {
    var caughtUp := CatchUp(Elapse(s, now));
    if caughtUp.clock.isTimerRunning then
      caughtUp.(clock := caughtUp.clock.(timestamp := now), callbacksRequested := caughtUp.callbacksRequested + 1)
    else caughtUp
  }

  lemma TimerLoopEffect(s: State, now: int)
    ensures var r := TimerLoop(s, now);
            && (r.clock.timestamp == (if r.clock.isTimerRunning then now else s.clock.timestamp))
            && (r.callbacksRequested == s.callbacksRequested + (if r.clock.isTimerRunning then 1 else 0))
            && (r.clock.isTimerRunning ==> s.clock.isTimerRunning)
            && (r.clock.loopCounter <= r.config.delay)
            && (r.config == s.config && r.actions == s.actions && r.scope == s.scope)
  {
  }

  /** How many frames the catch-up loop runs from a residue of `residue` ticks, if none resets. */
  function CatchUpFrames(residue: int, delay: Interval): (k: nat)
    ensures residue > 0 ==> 0 < residue - Intervals(k, delay) <= delay
    ensures residue <= 0 ==> k == 0
    decreases residue
  {
    if residue > delay then 1 + CatchUpFrames(residue - delay, delay) else 0
  }

  /** k intervals of d ticks: the ticks k frames consume. */
  function Intervals(k: nat, d: Interval): int
  {
    if k == 0 then 0 else Intervals(k - 1, d) + d
  }

  lemma {:induction false} IntervalsIsProduct(k: nat, d: Interval)
    ensures Intervals(k, d) == k * d
  {
    if k > 0 {
      IntervalsIsProduct(k - 1, d);
      assert k * d == (k - 1) * d + d;
    }
  }

  lemma {:induction false} IntervalsAdd(a: nat, b: nat, d: Interval)
    ensures Intervals(a + b, d) == Intervals(a, d) + Intervals(b, d)
    decreases b
  {
    if b > 0 {
      IntervalsAdd(a, b - 1, d);
    }
  }

  lemma MulAtLeast(x: int, d: int)
    requires x >= 1 && d > 0
    ensures x * d >= d
  {
  }

  lemma Distribute(a: int, b: int, d: int)
    ensures a * d - b * d == (a - b) * d
  {
  }

  lemma DivUnique(a: int, d: int, q: int)
    requires d > 0 && 0 <= a - q * d < d
    ensures a / d == q
  {
    var q', m := a / d, a % d;
    assert a == q' * d + m && 0 <= m < d;
    Distribute(q', q, d);
    if q' > q {
      MulAtLeast(q' - q, d);
    } else if q' < q {
      MulAtLeast(q - q', d);
      Distribute(q, q', d);
    }
  }

  /**
   * The number of frames is (residue - 1) / delay, the ceiling of
   * residue / delay less one: a residue of exactly one interval runs no frame.
   */
  lemma CatchUpFramesIsQuotient(residue: int, delay: Interval)
    requires residue > 0
    ensures CatchUpFrames(residue, delay) == (residue - 1) / delay
  {
    var k := CatchUpFrames(residue, delay);
    IntervalsIsProduct(k, delay);
    DivUnique(residue - 1, delay, k);
  }

  /** Carrying the remainder forward loses nothing: frames now plus frames later equal frames for the sum. */
  lemma {:induction false} CatchUpFramesCompose(residue: int, extra: int, delay: Interval)
    requires extra >= 0
    ensures var k := CatchUpFrames(residue, delay);
            k + CatchUpFrames(residue - Intervals(k, delay) + extra, delay) == CatchUpFrames(residue + extra, delay)
    decreases if residue > 0 then residue else 0
  {
    if residue > delay {
      CatchUpFramesCompose(residue - delay, extra, delay);
    }
  }

  /**
   * When no reset falls inside it, catching up from residue L runs exactly
   * k = CatchUpFrames(L) frames, advancing the frame counter by k and
   * leaving L - Intervals(k) ticks.
   */
  lemma {:induction false} CatchUpClockWithoutReset(cfg: Config, c: Clock)
    requires var k := CatchUpFrames(c.loopCounter, cfg.delay);
             k == 0 || (c.currentFrame + k) as real < cfg.totalTimeInFrames
    ensures var k := CatchUpFrames(c.loopCounter, cfg.delay);
            CatchUpClock(cfg, c) == c.(currentFrame := c.currentFrame + k,
                                       loopCounter := c.loopCounter - Intervals(k, cfg.delay))
    decreases c.loopCounter
  {
    if c.loopCounter > cfg.delay {
      CatchUpClockWithoutReset(cfg, CatchUpTurn(cfg, c));
    }
  }

  /** ... and those k frames are dispatched as frames currentFrame+1 .. currentFrame+k, in order. */
  lemma {:induction false} CatchUpLogWithoutReset(cfg: Config, t: Table, c: Clock)
    requires var k := CatchUpFrames(c.loopCounter, cfg.delay);
             k == 0 || (c.currentFrame + k) as real < cfg.totalTimeInFrames
    ensures var k := CatchUpFrames(c.loopCounter, cfg.delay);
            CatchUpLog(cfg, t, c) == FireRange(t, c.currentFrame + 1, k)
    decreases c.loopCounter
  {
    if c.loopCounter > cfg.delay {
      CatchUpLogWithoutReset(cfg, t, CatchUpTurn(cfg, c));
    }
  }

  /**
   * When the frame total is reached during catching up, the three counters
   * are zeroed, the timer stays running only if repeating, and the loop
   * ends there: the residue that was left is dropped with the reset.
   */
  lemma {:induction false} CatchUpClockWithReset(cfg: Config, c: Clock)
    requires var k := CatchUpFrames(c.loopCounter, cfg.delay);
             k > 0 && (c.currentFrame + k) as real >= cfg.totalTimeInFrames
    ensures CatchUpClock(cfg, c) == c.(currentFrame := 0, loopCounter := 0, currentTime := 0,
                                       isTimerRunning := c.isTimerRunning && cfg.shouldRepeat)
    decreases c.loopCounter
  {
    if (c.currentFrame + 1) as real < cfg.totalTimeInFrames {
      CatchUpClockWithReset(cfg, CatchUpTurn(cfg, c));
    }
  }

  /**
   * The first whole frame at or past the total: the frame at which the end
   * check fires when the total is not a whole number (37.5 frames end at 38).
   */
  function EndFrame(cfg: Config): (n: int)
    ensures n as real >= cfg.totalTimeInFrames
    ensures (n - 1) as real < cfg.totalTimeInFrames
  {
    -((-cfg.totalTimeInFrames).Floor)
  }

  /**
   * The end check of a frame fires exactly when the new frame reaches the
   * end frame: a total of 37.5 frames is reset at frame 38, not 37.
   */
  lemma EndCheckFiresAtEndFrame(cfg: Config, c: Clock)
    ensures FrameClock(cfg, c).currentFrame == 0 <==> c.currentFrame + 1 >= EndFrame(cfg)
  {
  }

  /** ... after dispatching every frame up to the end frame (at least one). */
  lemma {:induction false} CatchUpLogWithReset(cfg: Config, t: Table, c: Clock)
    requires var k := CatchUpFrames(c.loopCounter, cfg.delay);
             k > 0 && (c.currentFrame + k) as real >= cfg.totalTimeInFrames
    ensures var end := EndFrame(cfg);
            var ran := if end - c.currentFrame >= 1 then end - c.currentFrame else 1;
            CatchUpLog(cfg, t, c) == FireRange(t, c.currentFrame + 1, ran)
    decreases c.loopCounter
  {
    var next := CatchUpTurn(cfg, c);
    if (c.currentFrame + 1) as real >= cfg.totalTimeInFrames {
      assert CatchUpLog(cfg, t, next) == [];
      assert FireRange(t, c.currentFrame + 1, 1) == Fire(t, c.currentFrame + 1) + [];
    } else {
      assert next.currentFrame == c.currentFrame + 1 && next.loopCounter == c.loopCounter - cfg.delay;
      CatchUpLogWithReset(cfg, t, next);
      assert CatchUpLog(cfg, t, c) == Fire(t, c.currentFrame + 1) + CatchUpLog(cfg, t, next);
      var ran := EndFrame(cfg) - c.currentFrame;
      assert FireRange(t, c.currentFrame + 1, ran) == Fire(t, c.currentFrame + 1) + FireRange(t, c.currentFrame + 2, ran - 1);
    }
  }

  /** The residue a callback at `now` brings the catch-up loop: the old residue plus the elapsed ticks. */
  function Counted(s: State, now: int): int
  {
    s.clock.loopCounter + Ticks(now - s.clock.timestamp)
  }

  /**
   * One host callback without a reset: with L = loopCounter + elapsed ticks
   * and k = CatchUpFrames(L), exactly k frames run in order, the residue
   * plus the k consumed intervals is L, and the residue is at most one
   * interval (and not negative unless L was).
   */
  lemma TimerLoopWithoutReset(s: State, now: int)
    requires var k := CatchUpFrames(Counted(s, now), s.config.delay);
             k == 0 || (s.clock.currentFrame + k) as real < s.config.totalTimeInFrames
    ensures var k := CatchUpFrames(Counted(s, now), s.config.delay);
            var r := TimerLoop(s, now);
            && r.clock.currentFrame == s.clock.currentFrame + k
            && r.clock.loopCounter + Intervals(k, s.config.delay) == Counted(s, now)
            && r.clock.loopCounter <= s.config.delay
            && (Counted(s, now) >= 0 ==> r.clock.loopCounter >= 0)
            && r.clock.currentTime == s.clock.currentTime + (now - s.clock.timestamp)
            && r.clock.isTimerRunning == s.clock.isTimerRunning
            && r.log == s.log + FireRange(s.actions, s.clock.currentFrame + 1, k)
  {
    var counted := Elapse(s, now);
    CatchUpClockWithoutReset(counted.config, counted.clock);
    CatchUpLogWithoutReset(counted.config, counted.actions, counted.clock);
  }

  /** A callback that arrives while the timer is not running neither remembers `now` nor asks for another. */
  lemma StoppedTimerIsNotRearmed(s: State, now: int)
    requires !s.clock.isTimerRunning
    ensures var r := TimerLoop(s, now);
            !r.clock.isTimerRunning && r.clock.timestamp == s.clock.timestamp
            && r.callbacksRequested == s.callbacksRequested
  {
  }

  /**
   * Once the last frame is reached inside a callback, the position is frame
   * 0 with no residue; a non-repeating timeline is stopped and requests no
   * further callback, a repeating one keeps running from frame 0.
   */
  lemma TimerLoopAtEnd(s: State, now: int)
    requires var k := CatchUpFrames(Counted(s, now), s.config.delay);
             k > 0 && (s.clock.currentFrame + k) as real >= s.config.totalTimeInFrames
    ensures var r := TimerLoop(s, now);
            && r.clock.currentFrame == 0 && r.clock.loopCounter == 0 && r.clock.currentTime == 0
            && r.clock.isTimerRunning == (s.clock.isTimerRunning && s.config.shouldRepeat)
            && r.callbacksRequested == s.callbacksRequested + (if r.clock.isTimerRunning then 1 else 0)
  {
    var counted := Elapse(s, now);
    CatchUpClockWithReset(counted.config, counted.clock);
  }

  /** A sequence of host callbacks at the given times. */
  function Run(s: State, nows: seq<int>): State
    decreases |nows|
  {
    if nows == [] then s else Run(TimerLoop(s, nows[0]), nows[1..])
  }

  predicate NonDecreasing(nows: seq<int>)
  {
    forall i, j :: 0 <= i < j < |nows| ==> nows[i] <= nows[j]
  }

  /** The frames owed at the last callback of a run: those its counted time pays for. */
  function Owed(s: State, nows: seq<int>): nat
    requires |nows| > 0
  {
    CatchUpFrames(Counted(s, nows[|nows| - 1]), s.config.delay)
  }

  /**
   * Callbacks on a running timer at non-decreasing times from its timestamp
   * on, during which the end of the timeline is not reached.
   */
  predicate Uninterrupted(s: State, nows: seq<int>)
  {
    && s.clock.isTimerRunning
    && |nows| > 0 && NonDecreasing(nows) && s.clock.timestamp <= nows[0]
    && (s.clock.currentFrame + Owed(s, nows)) as real < s.config.totalTimeInFrames
  }

  /**
   * The first callback of an uninterrupted run: it leaves the timer running
   * at its time, and the frames it runs are split off from those owed at
   * the end, so that the rest of the run is uninterrupted too.
   */
  lemma {:induction false} RunStep(s: State, nows: seq<int>)
    requires Uninterrupted(s, nows)
    ensures var s1 := TimerLoop(s, nows[0]);
            var k1 := CatchUpFrames(Counted(s, nows[0]), s.config.delay);
            && s1.config == s.config && s1.actions == s.actions
            && s1.clock.isTimerRunning && s1.clock.timestamp == nows[0]
            && s1.callbacksRequested == s.callbacksRequested + 1
            && s1.clock.currentFrame == s.clock.currentFrame + k1
            && s1.clock.loopCounter + Intervals(k1, s.config.delay) == Counted(s, nows[0])
            && s1.clock.currentTime == s.clock.currentTime + (nows[0] - s.clock.timestamp)
            && s1.log == s.log + FireRange(s.actions, s.clock.currentFrame + 1, k1)
            && (|nows| == 1 ==> k1 == Owed(s, nows))
            && (|nows| > 1 ==>
                  && Uninterrupted(s1, nows[1..])
                  && k1 + Owed(s1, nows[1..]) == Owed(s, nows)
                  && Counted(s1, nows[|nows| - 1]) == Counted(s, nows[|nows| - 1]) - Intervals(k1, s.config.delay))
  {
    var first := nows[0];
    var last := nows[|nows| - 1];
    var residue := Counted(s, first);
    var extra := Ticks(last - first);
    CatchUpFramesCompose(residue, extra, s.config.delay);
    TimerLoopWithoutReset(s, first);
    if |nows| > 1 {
      var rest := nows[1..];
      assert rest[|rest| - 1] == last;
    }
  }

  /** A run with at least one callback is its first callback followed by the rest. */
  lemma RunUnfold(s: State, nows: seq<int>)
    requires |nows| > 0
    ensures Run(s, nows) == Run(TimerLoop(s, nows[0]), nows[1..])
  {
  }

  /**
   * The conservation law across callbacks: for an uninterrupted run ending
   * at `last`, the frames run are exactly those the counted time pays for
   * (CatchUpFrames of the residue plus all the elapsed ticks), however the
   * elapsed time was cut into callbacks, and the residue left is what those
   * frames did not consume. The timer is still running, remembers `last`,
   * and one callback was requested per callback received.
   */
  lemma {:induction false} RunWithoutReset(s: State, nows: seq<int>)
    requires Uninterrupted(s, nows)
    ensures var last := nows[|nows| - 1];
            var k := Owed(s, nows);
            var r := Run(s, nows);
            && r.clock.isTimerRunning
            && r.clock.timestamp == last
            && r.clock.currentFrame == s.clock.currentFrame + k
            && r.clock.loopCounter == Counted(s, last) - Intervals(k, s.config.delay)
            && r.clock.currentTime == s.clock.currentTime + (last - s.clock.timestamp)
            && r.callbacksRequested == s.callbacksRequested + |nows|
    decreases |nows|
  {
    RunStep(s, nows);
    RunUnfold(s, nows);
    var s1 := TimerLoop(s, nows[0]);
    if |nows| == 1 {
      assert Run(s1, nows[1..]) == s1;
    } else {
      RunWithoutReset(s1, nows[1..]);
      IntervalsAdd(CatchUpFrames(Counted(s, nows[0]), s.config.delay), Owed(s1, nows[1..]), s.config.delay);
    }
  }

  /** The dispatch half of RunStep, for a run with more callbacks to come. */
  lemma RunLogStep(s: State, nows: seq<int>)
    requires Uninterrupted(s, nows) && |nows| > 1
    ensures var s1 := TimerLoop(s, nows[0]);
            var k1 := CatchUpFrames(Counted(s, nows[0]), s.config.delay);
            && Uninterrupted(s1, nows[1..])
            && s1.actions == s.actions
            && s1.clock.currentFrame == s.clock.currentFrame + k1
            && s1.log == s.log + FireRange(s.actions, s.clock.currentFrame + 1, k1)
            && k1 + Owed(s1, nows[1..]) == Owed(s, nows)
  {
    RunStep(s, nows);
  }

  /** A run of one callback dispatches the frames it owes. */
  lemma RunLogSingle(s: State, nows: seq<int>)
    requires Uninterrupted(s, nows) && |nows| == 1
    ensures Run(s, nows).log == s.log + FireRange(s.actions, s.clock.currentFrame + 1, Owed(s, nows))
  {
    RunStep(s, nows);
    RunUnfold(s, nows);
    assert Run(TimerLoop(s, nows[0]), nows[1..]) == TimerLoop(s, nows[0]);
  }

  /**
   * The dispatch half of the conservation law: across an uninterrupted run
   * the frames currentFrame+1 .. currentFrame+k are dispatched, in that
   * order, each once.
   */
  lemma {:induction false} RunLogWithoutReset(s: State, nows: seq<int>)
    requires Uninterrupted(s, nows)
    ensures Run(s, nows).log == s.log + FireRange(s.actions, s.clock.currentFrame + 1, Owed(s, nows))
    decreases |nows|
  {
    if |nows| == 1 {
      RunLogSingle(s, nows);
    } else {
      RunLogStep(s, nows);
      RunUnfold(s, nows);
      var s1 := TimerLoop(s, nows[0]);
      var k1 := CatchUpFrames(Counted(s, nows[0]), s.config.delay);
      RunLogWithoutReset(s1, nows[1..]);
      AppendRanges(s.log, s1.log, Run(s1, nows[1..]).log, s.actions, s.clock.currentFrame + 1, k1, Owed(s1, nows[1..]));
    }
  }

  /**
   * A bound action keeps the scope that was current when its line was
   * registered: register "frame kind value" under scope `a`, switch to scope
   * `b`, and the next frame, if it is `frame`, ends by calling kind with
   * scope `a` (after whatever was registered there before).
   */
  lemma ScopeIsCapturedAtRegistration(s: State, a: Scope, b: Scope, frame: nat, kind: string, value: string)
    requires Text.Space !in kind && Text.Space !in value
    requires s.clock.currentFrame + 1 == frame
    ensures var line := Text.NatToString(frame) + " " + kind + " " + value;
            var registered := Using(ParseScript(Using(s, a), line), b);
            && registered.scope == b
            && FrameLoop(registered).log
               == s.log + Fire(s.actions, frame) + [Invocation(Some(kind), a, Some(value), frame)]
  {
    var token := Text.NatToString(frame);
    assert Text.Space !in token;
    ParseWellFormedLine(token, kind, value, a);
    var line := token + " " + kind + " " + value;
    var key := FrameKey(frame);
    var bound := BoundAction(Some(kind), a, Some(value));
    var registered := Using(ParseScript(Using(s, a), line), b);
    assert registered.actions == Register(s.actions, key, bound);
    assert registered.log == s.log && registered.clock == s.clock;
    var before := Lookup(s.actions, key);
    var list := before + [bound];
    assert Lookup(registered.actions, key) == list;
    assert list[..|list| - 1] == before;
    assert Fire(registered.actions, frame) == Invocations(before, frame) + [Invoke(bound, frame)];
  }
}
