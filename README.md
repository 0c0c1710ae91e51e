# Scripted: a verified model of the cuepoint scheduler

`Scripted` (js/Scripted.js) plays a script of cuepoints against wall-clock time.
- Each script line reads `"<frame> <action> <value>"`.
- `using(scope)` sets the scope that later lines are bound to. `at(line)` pushes one bound action into the per-frame table `actions["frame" + frame]`.
- After `startTimer()`, every host frame callback runs `timerLoop`. It adds the elapsed milliseconds to the residue `loopCounter`. While the residue is more than one frame interval `delay`, it takes off one interval and runs `frameLoop`.
- `frameLoop` advances `currentFrame` by one and calls every action bound to that frame, in push order.
- When the frame reaches `totalTimeInFrames`, the counters are reset. The timer also stops unless `shouldRepeat` is set.
- `loadScript` registers a whole document: optional timer options, then entries of `using` plus `at` lines.

The project has six modules:

- `Wrappers` (wrappers.dfy): the `Option` datatype, for a piece a script line does not have and an argument or option that is not given.
- `Text` (text.dfy): `split(" ")` as `Text.Split`, with its inverse `Text.Join`, and the decimal numeral JavaScript writes for a frame number.
- `Cuepoints` (cuepoints.dfy): the table from key to list of bound actions.
  - How a line becomes a key and a bound action.
  - What reaching a frame invokes.
  - Facts about runs of consecutive frames.
- `Timeline` (timeline.dfy): the whole instance state as a value. Each prototype method is a function from the state before to the state after. This module is the specification the class is proved against. It also proves the catch-up, reset and dispatch properties, over one callback and over a run of callbacks.
- `Loader` (loader.dfy): the `loadScript`/`parseJsonScript` document, with its entries already decoded into datatypes.
- `Session` (session.dfy): the class `Scripted`.
  - Its fields are the instance's properties.
  - Its methods perform the source's steps in place: the `while` loop of `timerLoop`, the `for` loop of `frameLoop`, and the nested loops of `parseJsonScript`.
  - Each method ensures `State() == Timeline.Op(old(State()), …)`.

The host is explicit:
- `now` is the value `Date.now()` would return.
- Every `requestAnimationFrame` call adds one to the field `callbacksRequested`.
- A call of an action method (`methods[kind](scope, value, currentFrame)`) is appended to the field `log` as an `Invocation(kind, scope, value, frame)`.

Units:
- Timestamps and `currentTime` are integer milliseconds.
- `delay` and `loopCounter` are counted in ticks of a tenth of a millisecond (`Timeline.Ticks`), so an interval such as 8.3 ms is exact.
- `fps`, `totalTimeInSeconds` and `totalTimeInFrames` are exact rationals (`real`). The source multiplies whatever numbers it is given (js/Scripted.js:98): `new Scripted(30, 0.5)` has 15 frames, and `setupTimer(25, 1.5)` has 37.5 frames. The end check (js/Scripted.js:179) compares the whole frame counter with that total, so the second timeline ends at frame 38 (`Timeline.EndFrame`). The source rounds that product to a double, and the model does not (see "## Left out").

Behaviour at the edges, as the code has it:
- The catch-up loop runs while the residue is strictly greater than one interval (js/Scripted.js:153). The header comment (js/Scripted.js:88-91) speaks of the counter reaching the threshold. In the code, a residue of exactly one interval runs no frame and is carried to the next callback. When the counted residue is positive and no reset falls inside the callback, the residue left lies in (0, delay]. A reset leaves 0, and a counted residue of 0 or less is left as it is.
- No line is rejected. Pieces after the third are ignored, and a missing action or value piece is recorded as `None`. `setupTimer` accepts any numbers.
- `stopTimer` only clears the running flag, exactly as `pauseTimer` does. It does not rewind.
- The frame counter is incremented before the lookup, so a line at frame `0` never runs. A frame token with a leading zero (`"060"`) names a key that dispatch never looks up.
- The two-argument call `new Scripted(fps, seconds)` sets `shouldRepeat` to false (js/Scripted.js:40-45). A third argument is used when given, so `new Scripted(30, 2, true)` repeats. Without a third argument the constructor sets the flag to false; only an instance built with no arguments keeps the default true.
- The header's usage example `new Scripted({fps:18})` (js/Scripted.js:13) passes a single argument. The constructor calls `setupTimer` only when two arguments are defined (js/Scripted.js:35-36), so that instance keeps the default 60 fps. `Session.Scripted.constructor` models this.
- A callback that arrives after a pause still runs the frames that are due before it declines to re-arm.

## Model

| member | source | states |
|---|---|---|
| Session.Scripted.constructor | js/Scripted.js:52-65 | a new instance holds the default properties: 60 fps, an 18 ms interval, 10 s, 600 frames, repeating, all counters 0, an empty table, no scope |
| Session.Scripted.WithTimer | js/Scripted.js:35-47 | the constructor with fps and seconds is the defaults followed by setupTimer, with shouldRepeat false unless a third argument is given; total frames is fps * seconds and the timer is stopped |
| Session.Scripted.SetupTimer | js/Scripted.js:96-104 | the instance's new state is Timeline.SetupTimer of the old one |
| Session.Scripted.StartTimer | js/Scripted.js:105-109 | the new state is Timeline.StartTimer: running, timestamp now, one callback requested |
| Session.Scripted.PauseTimer | js/Scripted.js:110-112 | the new state is Timeline.PauseTimer of the old one |
| Session.Scripted.StopTimer | js/Scripted.js:113-115 | the new state is Timeline.StopTimer of the old one |
| Session.Scripted.Using | js/Scripted.js:117-121 | the new state is Timeline.Using of the old one, and the instance itself is returned for chaining |
| Session.Scripted.At | js/Scripted.js:122-126 | the new state is Timeline.ParseScript of the old one on the line, and the instance itself is returned |
| Session.Scripted.LoadScript | js/Scripted.js:130-132 | the new state is Loader.ParseJsonScript of the old one on the document |
| Session.Scripted.ResetTimer | js/Scripted.js:135-139 | the new state is Timeline.ResetTimer of the old one |
| Session.Scripted.TimerLoop | js/Scripted.js:140-162 | the while loop over the residue takes the instance to exactly Timeline.TimerLoop(old state, now); the loop invariant is that catching up from the current state equals catching up from the state after the elapsed time was added |
| Session.Scripted.FrameLoop | js/Scripted.js:166-187 | the increment, the for loop over the frame's list and the end check take the instance to exactly Timeline.FrameLoop of the old state; the loop invariant is that the calls made so far are the invocations of the first i bound actions |
| Session.Scripted.ParseScript | js/Scripted.js:195-214 | splitting, building the key, creating the list if absent and pushing take the instance to Timeline.ParseScript of the old state |
| Session.Scripted.ParseJsonScript | js/Scripted.js:216-248 | the options and the nested using/at loops take the instance to Loader.ParseJsonScript of the old state; the loop invariants are that the state is ApplyEntries over the entries done so far, and AtEach over the lines done so far |
| Timeline.ResetTimerEffect | js/Scripted.js:135-139 | reset zeroes loopCounter, currentTime and currentFrame together and changes nothing else, neither the running flag nor the timestamp |
| Timeline.SetupTimerEffect | js/Scripted.js:96-104 | setupTimer stores fps, interval, seconds and repeat flag, sets total frames to fps * seconds, stops the timer and zeroes the three counters; the timestamp, the table, the scope and the log are kept |
| Timeline.StartTimerEffect | js/Scripted.js:105-109 | after startTimer the timer is running from timestamp now, one more callback is requested, and nothing else changes |
| Timeline.PauseTimerEffect | js/Scripted.js:110-112 | pausing clears the running flag and changes nothing else: frame position and residue stay |
| Timeline.StopIsPause | js/Scripted.js:113-115 | stopTimer gives exactly the state pauseTimer gives; the frame and the residue are unchanged (no rewind) |
| Timeline.UsingEffect | js/Scripted.js:117-118 | using sets the scope and changes nothing else |
| Timeline.ParseScriptEffect | js/Scripted.js:197-213 | registering a line pushes its binding, which carries the scope current at registration, and changes nothing but the table |
| Timeline.FrameLoopEffect | js/Scripted.js:166-187 | a frame invokes the actions of frame currentFrame + 1, the old frame plus one; below the total the counter just goes up by one; at or past the total the three counters are zero together and the timer keeps running exactly when it was running and shouldRepeat holds; config, table and scope are unchanged |
| Timeline.CatchUpClock | js/Scripted.js:153-156 | after the catch-up loop the residue is at most one interval, the timestamp is untouched, and the timer can only have stopped, never started |
| Timeline.CatchUpEffect | js/Scripted.js:153-156 | catching up changes only the clock and the log, and leaves at most one interval of residue |
| Timeline.CatchUpTurnIsFrameLoop | js/Scripted.js:153-156 | one turn of the loop is one frameLoop on the state with one interval taken off the residue |
| Timeline.CatchUpNeverDispatchesFrameZero | js/Scripted.js:167-175 | every call made while catching up is made at a frame of at least 1 |
| Timeline.TimerLoopEffect | js/Scripted.js:140-162 | after a callback the timestamp is now and one callback is requested exactly when the timer is still running, otherwise both are unchanged; the timer never starts itself; residue at most one interval; config, table and scope unchanged |
| Timeline.CatchUpFrames | js/Scripted.js:153-156 | the count of turns the strict loop makes from a residue: for a positive residue, the residue less that many intervals lies in (0, delay]; a residue of 0 or less makes none |
| Timeline.CatchUpFramesIsQuotient | js/Scripted.js:153-156 | the number of frames a residue of L > 0 ticks runs is (L - 1) / delay |
| Timeline.CatchUpFramesCompose | js/Scripted.js:147-156 | carrying the leftover residue into the next callback loses nothing: the frames run now plus those run later with more elapsed time equal the frames for the sum |
| Timeline.CatchUpClockWithoutReset | js/Scripted.js:153-156 | without reaching the total, catching up advances the frame by exactly k = CatchUpFrames(L) and leaves L - k intervals |
| Timeline.CatchUpLogWithoutReset | js/Scripted.js:153-175 | without reaching the total, the calls made while catching up are those of frames currentFrame+1 .. currentFrame+k, in order |
| Timeline.CatchUpClockWithReset | js/Scripted.js:153-186 | once the total is reached while catching up, the counters are zero, the loop stops there (the leftover residue is dropped), and the timer runs on only if it was running and repeats |
| Timeline.EndFrame | js/Scripted.js:179 | the first whole frame at or past the total number of frames, which may be fractional: the frame is at least the total and the frame before it is below it |
| Timeline.EndCheckFiresAtEndFrame | js/Scripted.js:179-186 | a frame resets the counters exactly when the new frame reaches the end frame |
| Timeline.CatchUpLogWithReset | js/Scripted.js:153-186 | in that case exactly the frames up to the end frame, at least one, are dispatched in order, and none after |
| Timeline.TimerLoopWithoutReset | js/Scripted.js:143-161 | one callback without reset: exactly k frames run, in order, each once; residue plus k consumed intervals equals the old residue plus the elapsed ticks; 0 <= residue <= delay when that sum is not negative; currentTime grows by the elapsed time |
| Timeline.StoppedTimerIsNotRearmed | js/Scripted.js:158-161 | a callback on a stopped timer neither stores its time nor requests another callback |
| Timeline.TimerLoopAtEnd | js/Scripted.js:140-186 | a callback that reaches the total leaves frame 0, no residue and no elapsed time; the timer runs on exactly when it was running and repeats, and only then is another callback requested |
| Timeline.RunStep | js/Scripted.js:140-162 | the first callback of an uninterrupted run keeps the timer running at its time, runs its due frames in order, and leaves the rest of the run uninterrupted with the remaining frames owed |
| Timeline.RunWithoutReset | js/Scripted.js:140-162 | across any sequence of non-decreasing callbacks that does not reach the total, the frames run are those the total counted time pays for, however it was cut into callbacks; the residue is what they did not consume; one callback is requested per callback received |
| Timeline.RunLogWithoutReset | js/Scripted.js:140-175 | across such a run, frames currentFrame+1 .. currentFrame+k are dispatched in that order, each once, none skipped |
| Timeline.ScopeIsCapturedAtRegistration | js/Scripted.js:197-213 | a line registered under scope a and dispatched after using(b) is still called with scope a, after the actions registered there before it |
| Cuepoints.ScriptKeyMatchesFrame | js/Scripted.js:199 | a line's key is the key dispatch looks up at a frame (line 168) exactly when its first piece is that frame's decimal numeral |
| Cuepoints.NonCanonicalTokenNeverFires | js/Scripted.js:199 | a frame piece with a leading zero gives a key that no frame's lookup ever finds |
| Cuepoints.ParseLine | js/Scripted.js:197-202 | the binding a line gives carries the scope it is registered under |
| Cuepoints.ParseWellFormedLine | js/Scripted.js:197-202 | a line of three space-free words registers (kind, scope, value) under "frame" + the first word |
| Cuepoints.Register | js/Scripted.js:204-210 | pushing adds the bound action at the end of its key's list, creates the list when absent, and leaves every other key's list unchanged |
| Cuepoints.RegisterAllLookup | js/Scripted.js:204-210 | registering a sequence of bindings grows each key's list by exactly the bindings under that key, in order |
| Cuepoints.Invocations | js/Scripted.js:169-175 | dispatching a list calls each bound action exactly once, in list order, with the scope and value it was bound with |
| Cuepoints.FireRangeSplit | js/Scripted.js:153-175 | the frames of two consecutive runs dispatch what one run over both dispatches |
| Cuepoints.FireRangeAt | js/Scripted.js:166-175 | in a run over consecutive frames, every frame of the run dispatches exactly its own list, and any other frame dispatches nothing |
| Cuepoints.FireRangeOrdered | js/Scripted.js:166-175 | in a run over consecutive frames, calls are made at frames inside the range and in non-decreasing frame order |
| Text.Split | js/Scripted.js:197 | splitting always gives at least one piece, so the first piece exists |
| Text.SplitPiecesHaveNoSpace | js/Scripted.js:197 | no piece of a split contains a space |
| Text.JoinSplit | js/Scripted.js:197 | joining the pieces with single spaces gives back the line |
| Text.SplitJoin | js/Scripted.js:197 | space-free words joined with single spaces split back into the same words |
| Text.NatToString | js/Scripted.js:168 | a frame number is written with at least one digit and no leading zero |
| Text.DecimalRoundTrip | js/Scripted.js:168 | reading back the numeral of a frame number gives the number |
| Text.NatToStringInjective | js/Scripted.js:168 | two frame numbers have the same key exactly when they are equal |
| Loader.LineBindings | js/Scripted.js:244-246 | the lines of an entry give one binding each, in order, under the entry's scope |
| Loader.AtEachRegisters | js/Scripted.js:244-246 | the inner loop registers the entry's lines in order under the current scope and changes nothing else |
| Loader.ApplyEntriesRegisters | js/Scripted.js:241-247 | the outer loop registers all entries' lines in document order, each under its own entry's scope; the last entry's scope is left current |
| Loader.LoadedDocument | js/Scripted.js:232-247 | loading applies the options once, as setupTimer (timer stopped, counters zero, frames fps * seconds), or leaves config and clock alone without options; each key's list grows by exactly the document's lines for it, in order; log and callbacks untouched |

## Left out

- `Number(1000 / fps).toPrecision(2)` (js/Scripted.js:97) is floating-point formatting to a string. The interval is a parameter of `SetupTimer`: a positive number of tenth-millisecond ticks, which the caller rounds. The following are not modelled:
  - An fps above 1000 gives an interval finer than 0.1 ms.
  - An fps of 0 gives the interval `"Infinity"`, and no frame ever runs.
  - A negative fps gives a negative interval such as `"-17"`. The loop at js/Scripted.js:153-156 then never ends: each reset zeroes the residue, and 0 > -17 holds again, so the source hangs.
  - The type `Timeline.Interval` (a positive number of ticks) excludes both of the last two cases. This is what makes `Timeline.CatchUpClock` terminate.
- Rounding of the residue is not modelled. The source keeps `loopCounter` as a double and subtracts a decimal interval from it (js/Scripted.js:154), such as 6.9 ms for 145 fps, and that subtraction is not exact in binary. The model's residue is exact, in tenth-millisecond ticks. When the counted time lies within rounding error of a whole number of intervals, the source can run one frame more or one fewer than the model. Example: callbacks whose deltas add up to 483 ms = 70 × 6.9 ms can leave a residue just above zero in doubles, so a 70th frame runs. The model leaves exactly one interval and runs 69.
- `Date.now()` becomes the parameter `now`. The `requestAnimationFrame` handle stored in `timer` and the polyfill (js/Scripted.js:259-282) are host scheduling: each request is counted in `callbacksRequested`, and the host is taken to call `TimerLoop(now)` once per request.
- The action methods `addClass`, `removeClass` and `callFunction` (js/Scripted.js:72-83) are DOM and jQuery effects. A call is recorded in the log instead. The `TypeError` raised for an unknown or missing action kind is not modelled: such a call is logged like any other. An action that calls back into the instance during dispatch (for example `callFunction` on a function that pauses the timer) is not modelled either.
- `$.extend` (js/Scripted.js:30) copies the default `actions` object by reference, so instances share one table. The model gives each instance its own table.
- The empty `every` stub (js/Scripted.js:127-129) does nothing and is not modelled.
- `console.log` (js/Scripted.js:233) is not modelled.
- The loop variable `a` of `parseJsonScript` leaks into the global scope (js/Scripted.js:244). This has no effect on the instance and is not modelled.
- Loader.LoadedDocument: the document is taken as decoded JSON of the right shape. Options missing `fps` or `totalTimeInSeconds` (the comment's example names the second `length`) would make the source compute with `undefined`; this is not modelled. A missing `shouldRepeat` reads as false.
- Timeline.RunWithoutReset: the run lemmas cover runs that do not reach the last frame. A callback that does reach it is covered by Timeline.TimerLoopAtEnd and Timeline.CatchUpLogWithReset, one callback at a time.
- Timeline.SetupTimer, Session.Scripted.SetupTimer, Session.Scripted.WithTimer, Loader.LoadedDocument and Timeline.EndFrame: the total number of frames is the exact product fps * seconds. The source rounds the product to the nearest double (js/Scripted.js:98), and the model does not, so the frame at which the end check fires can differ by one. Example: `new Scripted(25, 2.2)` gives 55.00000000000001 frames in JavaScript. The check `55 >= 55.00000000000001` at js/Scripted.js:179 fails, and the source resets at frame 56. The model's total is exactly 55, and it resets at frame 55. `100 * 0.14`, giving 14.000000000000002, is another such case. This rounding happens at every magnitude, not only for large numbers.
- Number widths: JavaScript numbers are doubles. Counters and timestamps here are unbounded integers, and fps, seconds and total frames are exact rationals. No double rounding is modelled. This covers the product above, the residue described earlier, and precision loss beyond 2^53. `NaN` and infinite values are not modelled either.
