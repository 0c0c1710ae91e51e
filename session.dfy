/**
 * A Scripted instance: the fields its prototype methods update in place,
 * and those methods performing the source's steps on them. Each method is
 * proved to take the instance from `old(State())` to the state the
 * corresponding function of module Timeline (or Loader) describes; the
 * facts about those functions are proved there.
 *
 * The host is explicit: `now` stands for the value Date.now() returns, and
 * each requestAnimationFrame call adds one to `callbacksRequested`; the
 * host calls TimerLoop(now) once for each callback it was asked for.
 */
module Session {
  import opened Wrappers
  import opened Cuepoints
  import Text
  import Timeline
  import Loader

  class Scripted {
    var isTimerRunning: bool
    var fps: real
    var delay: Timeline.Interval
    var totalTimeInSeconds: real
    var totalTimeInFrames: real
    var shouldRepeat: bool
    var timestamp: int
    var loopCounter: int
    var currentTime: int
    var currentFrame: nat
    var actions: Table
    var scope: Scope
    // every action-method call dispatch has made, oldest first
    var log: seq<Invocation>
    // how many host frame callbacks have been requested
    var callbacksRequested: nat

    /** The instance's fields as a Timeline.State value. */
    function State(): Timeline.State
      reads this
    {
      Timeline.State(
        Timeline.Config(fps, delay, totalTimeInSeconds, totalTimeInFrames, shouldRepeat),
        Timeline.Clock(isTimerRunning, timestamp, loopCounter, currentTime, currentFrame),
        actions, scope, log, callbacksRequested)
    }

    /** `new Scripted()`: the default properties and no scope. */
    constructor ()
      ensures State() == Timeline.Initial()
    {
      isTimerRunning := false;
      fps := 60.0;
      delay := Timeline.Ticks(18);
      totalTimeInSeconds := 10.0;
      totalTimeInFrames := 600.0;
      shouldRepeat := true;
      timestamp := 0;
      loopCounter := 0;
      currentTime := 0;
      currentFrame := 0;
      actions := map[];
      scope := Undefined;
      log := [];
      callbacksRequested := 0;
    }

    /**
     * `new Scripted(fps, totalTimeInSeconds[, shouldRepeat])`: the defaults,
     * then setupTimer; the repeat flag defaults to false when not given.
     */
    constructor WithTimer(fps: real, totalTimeInSeconds: real, delay: Timeline.Interval, shouldRepeat: Option<bool>)
      ensures State() == Timeline.SetupTimer(Timeline.Initial(), fps, totalTimeInSeconds, delay, shouldRepeat.GetOr(false))
      ensures !isTimerRunning && this.totalTimeInFrames == fps * totalTimeInSeconds
    {
      this.isTimerRunning := false;
      this.fps := 60.0;
      this.delay := Timeline.Ticks(18);
      this.totalTimeInSeconds := 10.0;
      this.totalTimeInFrames := 600.0;
      this.shouldRepeat := true;
      this.timestamp := 0;
      this.loopCounter := 0;
      this.currentTime := 0;
      this.currentFrame := 0;
      this.actions := map[];
      this.scope := Undefined;
      this.log := [];
      this.callbacksRequested := 0;
      new;
      SetupTimer(fps, totalTimeInSeconds, delay, shouldRepeat.GetOr(false));
    }

    /** `delay` is the interval 1000 / fps already rounded, in ticks. */
    method SetupTimer(fps: real, totalTimeInSeconds: real, delay: Timeline.Interval, shouldRepeat: bool)
      modifies this
      ensures State() == Timeline.SetupTimer(old(State()), fps, totalTimeInSeconds, delay, shouldRepeat)
    {
      this.delay := delay;
      this.totalTimeInFrames := fps * totalTimeInSeconds;
      this.isTimerRunning := false;
      this.fps := fps;
      this.shouldRepeat := shouldRepeat;
      this.totalTimeInSeconds := totalTimeInSeconds;
      ghost var configured := State();
      assert configured == old(State()).(config := configured.config, clock := old(State()).clock.(isTimerRunning := false));
      ResetTimer();
    }

    method StartTimer(now: int)
      modifies this
      ensures State() == Timeline.StartTimer(old(State()), now)
    {
      isTimerRunning := true;
      timestamp := now;
      callbacksRequested := callbacksRequested + 1;
    }

    method PauseTimer()
      modifies this
      ensures State() == Timeline.PauseTimer(old(State()))
    {
      isTimerRunning := false;
    }

    method StopTimer()
      modifies this
      ensures State() == Timeline.StopTimer(old(State()))
    {
      isTimerRunning := false;
    }

    /** Returns the instance itself, so calls can be chained. */
    method Using(scope: Scope) returns (self: Scripted)
      modifies this
      ensures self == this
      ensures State() == Timeline.Using(old(State()), scope)
    {
      this.scope := scope;
      self := this;
    }

    /** Returns the instance itself, so calls can be chained. */
    method At(script: string) returns (self: Scripted)
      modifies this
      ensures self == this
      ensures State() == Timeline.ParseScript(old(State()), script)
    {
      ParseScript(script);
      self := this;
    }

    /** `loadScript` hands the document to parseJsonScript. */
    method LoadScript(doc: Loader.Document)
      modifies this
      ensures State() == Loader.ParseJsonScript(old(State()), doc)
    {
      ParseJsonScript(doc);
    }

    method ResetTimer()
      modifies this
      ensures State() == Timeline.ResetTimer(old(State()))
    {
      loopCounter := 0;
      currentTime := 0;
      currentFrame := 0;
    }

    /**
     * One host callback: the elapsed time goes into the residue and the
     * elapsed counter; while the residue exceeds one interval, one interval
     * is taken off and one frame run; then, if still running, `now` is
     * remembered and another callback requested.
     */
    method TimerLoop(now: int)
      modifies this
      ensures State() == Timeline.TimerLoop(old(State()), now)
    {
      var timeDelta := now - timestamp;
      loopCounter := loopCounter + Timeline.Ticks(timeDelta);
      currentTime := currentTime + timeDelta;
      ghost var counted := State();
      assert counted == Timeline.Elapse(old(State()), now);
      while loopCounter > delay
        invariant Timeline.CatchUp(State()) == Timeline.CatchUp(counted)
        decreases loopCounter
      {
        ghost var before := State();
        Timeline.CatchUpTurnIsFrameLoop(before);
        loopCounter := loopCounter - delay;
        ghost var due := State();
        assert due == before.(clock := before.clock.(loopCounter := before.clock.loopCounter - before.config.delay));
        FrameLoop();
        Timeline.FrameLoopEffect(due);
      }
      assert State() == Timeline.CatchUp(State());
      if isTimerRunning {
        timestamp := now;
        callbacksRequested := callbacksRequested + 1;
      }
    }

    /**
     * One frame: the frame counter first, then every action bound to the
     * new frame's key, in push order, then the end-of-timeline check.
     */
    method FrameLoop()
      modifies this
      ensures State() == Timeline.FrameLoop(old(State()))
    {
      ghost var start := State();
      currentFrame := currentFrame + 1;
      ghost var stepped := State();
      var key := FrameKey(currentFrame);
      if key in actions {
        // the calls made, in push order, one per bound action
        var list := actions[key];
        var calls: seq<Invocation> := [];
        for i := 0 to |list|
          invariant calls == Invocations(list[..i], currentFrame)
        {
          assert list[..i + 1][..i] == list[..i];
          calls := calls + [Invoke(list[i], currentFrame)];
        }
        assert list[..|list|] == list;
        log := log + calls;
      }
      ghost var dispatched := State();
      assert dispatched == stepped.(log := stepped.log + Fire(actions, currentFrame));
      if currentFrame as real >= totalTimeInFrames {
        if shouldRepeat {
          ResetTimer();
        } else {
          ResetTimer();
          isTimerRunning := false;
        }
      }
      assert State().clock == Timeline.FrameClock(start.config, start.clock);
      assert State() == dispatched.(clock := Timeline.FrameClock(start.config, start.clock));
    }

    /**
     * Registers one line: its first three space-separated pieces are the
     * frame, the action kind and the value; the list under "frame" + frame
     * is created if absent and one bound action with the current scope is
     * pushed onto it.
     */
    method ParseScript(script: string)
      modifies this
      ensures State() == Timeline.ParseScript(old(State()), script)
    {
      var scriptArray := Text.Split(script);
      var timeKey := ScriptKey(scriptArray[0]);
      var action := Token(scriptArray, 1);
      var value := Token(scriptArray, 2);
      var scope := this.scope;
      if timeKey !in actions {
        actions := actions[timeKey := []];
      }
      actions := actions[timeKey := actions[timeKey] + [BoundAction(action, scope, value)]];
    }

    /**
     * The options, if present, go to setupTimer; then, for each entry in
     * order, `using` its scope and `at` each of its lines.
     */
    method ParseJsonScript(doc: Loader.Document)
      modifies this
      ensures State() == Loader.ParseJsonScript(old(State()), doc)
    {
      if doc.options.Some? {
        var options := doc.options.value;
        SetupTimer(options.fps, options.totalTimeInSeconds, options.delay, options.shouldRepeat.GetOr(false));
      }
      ghost var configured := State();
      assert configured == Loader.Configure(old(State()), doc.options);
      for i := 0 to |doc.entries|
        invariant State() == Loader.ApplyEntries(configured, doc.entries[..i])
      {
        var entry := doc.entries[i];
        Loader.ApplyEntriesStep(configured, doc.entries, i);
        var _ := Using(entry.scope);
        ghost var scoped := State();
        for a := 0 to |entry.lines|
          invariant State() == Loader.AtEach(scoped, entry.lines[..a])
        {
          Loader.AtEachStep(scoped, entry.lines, a);
          var _ := At(entry.lines[a]);
        }
        assert entry.lines[..|entry.lines|] == entry.lines;
      }
      assert doc.entries[..|doc.entries|] == doc.entries;
    }
  }
}
