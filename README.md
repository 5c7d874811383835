# BMI160 position tracker and cube view, modelled in Dafny

This project models the estimator logic of two desktop viewers for a BMI160
six-axis sensor. An ESP32 streams lines of six comma-separated readings over
a serial port: accelerometer `ax, ay, az` and gyroscope `gx, gy, gz`.

* `position_tracking.py` waits for the `DATA_BEGIN` line, giving up after
  10 s. It then calibrates a gravity offset as the mean of a window of 100
  samples (30 in demo mode); the live window can run longer, as "## Findings"
  explains. After that, every sample sets the velocity of a
  tracked point from the bias-corrected, dead-zoned, remapped acceleration,
  clamped to ±5 and damped by 0.95. The point moves by `velocity * dt`,
  clamped to ±10. A bounded trail of 1000 recent positions is kept. Keys
  reset the point, toggle auto-reset, recalibrate and change the
  sensitivity. Auto-reset fires every 30 s.
* `cube_visualization.py` waits for `DATA_BEGIN` with no timeout. It then
  runs a complementary filter: gyroscope integration for roll, pitch and
  yaw, and a 0.8/0.2 blend of roll and pitch with the accelerometer tilt.

Modules, one per file:

| file | module | contents |
|---|---|---|
| wrappers.dfy | `Wrappers` | `Option`, `Result` |
| vectors.dfy | `Vectors` | `Vec3` values for position, velocity and readings |
| sample_line.dfy | `SampleLine` | line splitting and decoding into a `Sample`, shared by both programs |
| trail.dfy | `Trail` | the bounded deque: pure `Appended`/`Keep` and the in-place `History` class |
| calibration.dfy | `Calibration` | sum and mean of the calibration window, with bounds |
| motion.dfy | `Motion` | dead zone, remap, velocity and position steps |
| tracking.dfy | `Tracking` | the tracker state `Snapshot`, its pure transitions and the invariant, the start-up wait |
| tracker.dfy | `MainLoop` | the `Tracker` class: the main loop's variables, updated in place, proved equal to the pure transitions |
| orientation.dfy | `Orientation` | the cube view's filter, its loop and its wait |

The tracker's main loop works in place, so `MainLoop.Tracker` holds the
loop's variables as fields and the deque as a `History` object. Each of its
methods that changes state is proved to leave `State()` equal to a pure
transition of `Tracking`. The helpers `Commanded`, `Corrected`, `Damped`
and `Moved` change nothing: they compute the velocity and the position step
by step in local variables, as the loop does, and return values proved
equal to the functions of `Motion`. The lemmas about reachable states are proved over those
transitions, such as `Tracking.BoundsAfterEveryFrame`.

Python's `float()`, `math.atan2` and `math.sqrt` are parameters. `float()`
is a `Parser`, `string -> Option<real>`, where `None` stands for a raised
`ValueError`. `atan2` and `sqrt` come in a `Trig` record. Wall-clock
readings (`now`) are inputs. The pygame tick parity that throttles trail
appends is a boolean input (`tickEven`). Reals are mathematical reals.

Behaviour of the code worth knowing:

* The cube view's wait has no timeout. It ends only on an exact
  `DATA_BEGIN` (`Orientation.AwaitMarker`), so a sensor that never sends it
  blocks that program for ever.
* In demo mode the serial port is `None`. `ser.in_waiting` then raises on
  every pass, and the exception is caught, so the tracker's wait always runs
  its full 10 s. This is `Tracking.AwaitStream` with every poll's line
  `None`.
* Malformed lines leave the state unchanged. The converse holds only while
  calibrating. In the active phase a well-formed line can also leave the
  state unchanged, for example a reading equal to the offset when the point
  is at rest. `Tracking.OnLine` and
  `Tracking.RestingSampleChangesNothing` prove both facts.
* The live calibration screen draws with a camera position that only the
  rendering pass at the end of an iteration computes. `Tracking.Frame`,
  `Tracking.Replay` and `MainLoop` model the loop as evidently intended,
  with that screen drawable; `Tracking.FrameAsWritten` models the code as
  written, and "## Findings" records the difference.

## Model

| member | source | states |
|---|---|---|
| SampleLine.Split | position_tracking.py:429 | `str.split`: at least one piece, no piece holds the separator, and exactly one piece iff the line has no separator |
| SampleLine.JoinSplit | position_tracking.py:429 | joining the pieces of a split with the separator gives back the line |
| SampleLine.SplitJoin | position_tracking.py:429 | splitting a join of separator-free pieces gives back the pieces |
| SampleLine.ParseFields | position_tracking.py:429 | the comprehension `[float(x) for x in ...]`: every value is its field's conversion, or the error names the first field that does not convert |
| SampleLine.Decode | position_tracking.py:426-431 | a line decodes iff it holds a comma, splits into 6 fields and all convert; the readings are the converted fields in order; `NoSeparator` iff there is no comma |
| SampleLine.DecodeEncode | cube_visualization.py:145-150 | a sample whose six readings are each printed without a comma and read back exactly by `float` decodes to itself |
| SampleLine.ZeroSampleRoundTrips | cube_visualization.py:145-150 | a sensor at rest printing each reading as "0" sends a line that decodes back to the zero sample, for any `float` that reads "0" as 0 |
| Trail.Keep | position_tracking.py:13-14 | the newest n elements: length min(\|s\|, n), a suffix of s |
| Trail.Appended | position_tracking.py:13-14 | `deque.append` with `maxlen`: never above capacity; below capacity a plain append; at capacity the oldest entry is evicted; no new elements other than x |
| Trail.AppendAll | position_tracking.py:416-417 | repeated appends never exceed the capacity |
| Trail.KeepAppend | position_tracking.py:13-14 | truncating before an append equals truncating after it |
| Trail.AppendAllKeepsNewest | position_tracking.py:13-14 | after any appends the deque holds exactly the newest `capacity` elements received, oldest first |
| Trail.OldestEvicted | position_tracking.py:13-14 | capacity + 1 appends to an empty deque keep all but the first |
| Trail.History.constructor | position_tracking.py:14 | `deque(maxlen=capacity)`: a valid, empty deque of that capacity |
| Trail.History.Append | position_tracking.py:416-417 | the in-place append leaves exactly `Appended(old items, x, capacity)` |
| Trail.History.Clear | position_tracking.py:279 | the deque is empty afterwards |
| Calibration.Mean | position_tracking.py:458 | definition: `np.mean(..., axis=0)`, the per-axis sum times 1/n of a non-empty window (also line 353 in demo mode) |
| Calibration.SumOfConstant | position_tracking.py:458 | n equal readings c sum to n·c |
| Calibration.MeanOfConstant | position_tracking.py:458 | `np.mean` of equal readings c is c |
| Calibration.MultipleIsProduct | position_tracking.py:458 | n-fold repeated addition of x is x·n |
| Calibration.SumAxisBetween | position_tracking.py:458 | readings within [lo, hi] on an axis sum to within [n·lo, n·hi] |
| Calibration.DivideBounds | position_tracking.py:458 | a total within [n·lo, n·hi] divided by n lies within [lo, hi] |
| Calibration.MeanAxisBetween | position_tracking.py:458 | the mean lies between the extreme readings on every axis |
| Calibration.MeanBetween | position_tracking.py:353 | the gravity offset lies inside the box the samples span |
| Motion.FrameStep | position_tracking.py:266 | `min(elapsed, 0.1)`: at most 0.1, equal to the elapsed time when that is at most 0.1 |
| Motion.Clamp | position_tracking.py:387-389 | `max(min(v, M), -M)`: within ±M, v itself inside the range, the nearer bound outside it |
| Motion.Suppress | position_tracking.py:366-369 | the dead zone: zero exactly when \|a\| < 0.001, a otherwise, never larger in magnitude |
| Motion.DeadZone | position_tracking.py:366-369 | definition: the dead zone applied to each axis (also lines 484-486) |
| Motion.SuppressIdempotent | position_tracking.py:483-486 | applying the dead zone twice is applying it once |
| Motion.Remap | position_tracking.py:376-378 | definition: the sensor-to-view axis map (-x, z, y) (also lines 493-495) |
| Motion.RemapInvolution | position_tracking.py:376-378 | the axis remap (-x, z, y) is its own inverse |
| Motion.AxisVelocity | position_tracking.py:386-395 | a velocity axis is within ±4.75; inside ±5 it is the scaled reading times 0.95; sign is kept; zero stays zero |
| Motion.VelocityFor | position_tracking.py:503-512 | every velocity axis within ±4.75; zero input gives zero; inside the ±5 box, exactly the input times 0.95 |
| Motion.CommandedVelocity | position_tracking.py:478-512 | the velocity an active sample sets is inside the ±4.75 box whatever the reading, offset and sensitivity |
| Motion.UnitPushVelocity | position_tracking.py:478-512 | reading (1, 0, 1) with offset (0, 0, 1) at sensitivity 2 gives velocity (-1.9, 0, 0) |
| Motion.OffsetReadingIsRest | position_tracking.py:478-500 | a reading equal to the offset commands zero velocity at any sensitivity |
| Motion.Advance | position_tracking.py:398-406 | the new position is inside the ±10 box, and equals position + velocity·dt whenever that is inside the box |
| Motion.Moving | position_tracking.py:416 | definition: some velocity axis exceeds 0.01 in magnitude, the test before a trail append (also line 533) |
| Motion.AdvanceAtRest | position_tracking.py:515-523 | with zero velocity a position inside the box does not move |
| Motion.UnitPushAdvance | position_tracking.py:515-517 | from the origin, velocity (-1.9, 0, 0) over 0.1 s reaches (-0.19, 0, 0) |
| Tracking.Accels | position_tracking.py:435 | the collected accelerometer triples, one per sample, in order |
| Tracking.Initial | position_tracking.py:240-257 | the start-up state satisfies the invariant for every positive threshold |
| Tracking.Tick | position_tracking.py:265-267 | the step is at most 0.1 s, equals the elapsed time when that is at most 0.1, and only the clock changes |
| Tracking.OnCommand | position_tracking.py:275-303 | each key changes exactly the variables its handler assigns: R zeroes position and velocity, clears the trail and holds; its release only releases; A flips auto-reset; C restarts an empty window; + and - multiply or divide the sensitivity by 1.2; no key touches the offset or the clocks |
| Tracking.HeldReset | position_tracking.py:321-323 | while R is held the position, and nothing else, is zeroed |
| Tracking.AutoReset | position_tracking.py:326-330 | the auto-reset changes nothing unless enabled and more than 30 s have passed; then it zeroes position and velocity, clears the trail and sets its timer to now, and changes nothing else |
| Tracking.OnSample | position_tracking.py:434-534 | calibrating: only the window and count change, and the completing sample sets the offset to the window mean, ends calibration and zeroes the motion and trail; active: velocity from the sample, position advanced, trail appended only when moving on an even tick, nothing else changes |
| Tracking.OnLine | position_tracking.py:426-431 | a malformed line changes nothing; a well-formed one is exactly `OnSample` of its decoded sample; while calibrating, a line changes the state iff it is well-formed |
| Tracking.StepMotion | position_tracking.py:515-534 | definition: assign the velocity, advance and clamp the position, and append it to the trail when moving on an even tick (also lines 398-417) |
| Tracking.ApplyCommands | position_tracking.py:270-303 | definition: the key events of one iteration handled in order by `OnCommand` |
| Tracking.OnFeed | position_tracking.py:333-431 | definition: an idle pass changes nothing, a transport line goes to `OnLine`, a generated sample to `OnSample` |
| Tracking.Frame | position_tracking.py:264-540 | definition: one iteration as intended: `Tick`, the key events, the held and automatic resets, then the feed |
| Tracking.Replay | position_tracking.py:264 | definition: the `while True` loop as the iterations of `Frame` in order |
| Tracking.OnSampleKeepsInvariant | position_tracking.py:348-417 | a sample keeps the invariant: bookkeeping, offset = mean once active, velocity ±4.75, position and trail ±10, trail ≤ 1000 |
| Tracking.ApplyCommandsKeepsInvariant | position_tracking.py:275-303 | any sequence of key events keeps the invariant |
| Tracking.ResetsKeepInvariant | position_tracking.py:321-330 | the held and automatic resets keep the invariant |
| Tracking.FrameKeepsInvariant | position_tracking.py:264-540 | one loop iteration keeps the invariant |
| Tracking.ReplayKeepsInvariant | position_tracking.py:264-540 | any number of iterations keeps the invariant |
| Tracking.BoundsAfterEveryFrame | position_tracking.py:386-406 | after every iteration of any run from start-up, velocity is within ±4.75, position within ±10 and the trail at most 1000 long |
| Tracking.CalibrationWindowHoldsState | position_tracking.py:434-436 | samples that do not complete the window only extend it and the count |
| Tracking.CalibrationYieldsMean | position_tracking.py:456-463 | exactly `threshold` samples from an empty window end calibration with offset = their mean and zero motion and an empty trail |
| Tracking.CalibrationOfConstant | position_tracking.py:456-458 | stationary samples all reading c calibrate the offset to c |
| Tracking.RecalibrationKeepsOffsetUntilComplete | position_tracking.py:285-288 | after C the old offset stays in force while the window fills and is replaced by the new mean when it completes |
| Tracking.VelocityIgnoresPreviousVelocity | position_tracking.py:498-500 | the velocity after an active sample does not depend on the previous velocity or position |
| Tracking.RestingSampleChangesNothing | position_tracking.py:478-534 | in the active phase, a well-formed reading equal to the offset with zero velocity and the point anywhere inside the box changes nothing, so an unchanged state does not imply a malformed line |
| Tracking.StillStepKeepsPlace | position_tracking.py:398-417 | an active step at the current velocity, below the motion threshold and leaving the position where it is, changes no variable and records nothing |
| Tracking.TrailGrowsOnlyWhenMoving | position_tracking.py:533-534 | in the active phase the trail changes only by an append, on an even tick, when some velocity axis exceeds 0.01 |
| Tracking.ResetIdempotent | position_tracking.py:276-281 | pressing R twice equals pressing it once |
| Tracking.SensitivityStepsCancel | position_tracking.py:282-294 | up then down, or down then up, restores the state; so does toggling auto-reset twice |
| Tracking.PushFromRest | position_tracking.py:478-523 | at rest at the origin with offset (0, 0, 1), a 1 g push along sensor x gives velocity (-1.9, 0, 0) and position (-0.19, 0, 0) after 0.1 s |
| Tracking.StationaryThenPush | position_tracking.py:434-523 | 100 stationary samples calibrate the offset to (0, 0, 1), and the push then behaves as in PushFromRest |
| Tracking.LineRenders | position_tracking.py:426-540 | definition: an iteration with a line reaches the rendering pass only when the line has a comma, every field converts and the count is wrong (lines 427, 429, 538-540), or the line is well-formed and the tracker is active (line 475 ends calibrating iterations) |
| Tracking.OnLineAsWritten | position_tracking.py:433-456 | as written: once the camera exists, or when not calibrating, a line is handled as `OnLine`; before it exists a well-formed calibrating line is appended and counted and the completion test is skipped; a malformed line changes nothing |
| Tracking.FrameAsWritten | position_tracking.py:264-555 | as written: once the camera exists every iteration is `Frame`, and so is every iteration without a transport line |
| Tracking.ReplayAsWritten | position_tracking.py:264 | definition: the `while True` loop as the iterations of `FrameAsWritten`, carrying whether the camera position exists |
| Tracking.LineFrameBeforeView | position_tracking.py:434-442 | as written, before the camera exists, an iteration with one well-formed line while calibrating counts one more reading, keeps calibrating and the offset, and still leaves no camera |
| Tracking.CountOvershootsBeforeFirstView | position_tracking.py:434-456 | as written, n such iterations count n readings and never complete the window, whatever its size |
| Tracking.ViewlessCalibrationBreaksInvariant | position_tracking.py:434-456 | as written, `threshold` or more well-formed lines from start-up leave the tracker calibrating with at least `threshold` readings, breaking the invariant that the intended `Replay` keeps |
| Tracking.LateViewAveragesOverlongWindow | position_tracking.py:456-463 | as written, the first line after the camera exists completes an overlong window with the mean of more than `threshold` readings |
| Tracking.AwaitStream | position_tracking.py:214-231 | the wait ends at the first pass more than 10 s after the start, checked before reading, or at the first exact `DATA_BEGIN`; every earlier pass did neither |
| MainLoop.Tracker.constructor | position_tracking.py:240-260 | the new tracker is in the initial state with threshold 30 in demo mode, 100 otherwise |
| MainLoop.Tracker.BeginFrame | position_tracking.py:265-267 | the in-place clock update performs `Tick` |
| MainLoop.Tracker.Handle | position_tracking.py:275-303 | the in-place key handling performs `OnCommand` and keeps the invariant |
| MainLoop.Tracker.Resets | position_tracking.py:321-330 | the in-place resets perform `HeldReset` then `AutoReset` |
| MainLoop.Tracker.Observe | position_tracking.py:348-417 | the in-place sample update performs `OnSample` and keeps the invariant |
| MainLoop.Tracker.Collect | position_tracking.py:434-463 | the in-place calibration branch performs `OnSample`'s calibrating case |
| MainLoop.Tracker.Integrate | position_tracking.py:478-534 | the component-by-component active update performs `OnSample`'s active case |
| MainLoop.Tracker.Commanded | position_tracking.py:360-396 | the velocity computed in local variables is `CommandedVelocity` of the reading, offset and sensitivity |
| MainLoop.Tracker.Corrected | position_tracking.py:360-369 | subtracting the offset and zeroing small axes in place is `DeadZone` of the corrected reading |
| MainLoop.Tracker.Damped | position_tracking.py:385-396 | clamping and damping each axis in place is `VelocityFor` of the scaled reading |
| MainLoop.Tracker.Moved | position_tracking.py:398-406 | integrating and clamping each axis in place is `Advance` of the position by the velocity |
| MainLoop.Tracker.Receive | position_tracking.py:421-431 | the in-place line handling performs `OnLine` |
| MainLoop.Tracker.RunFrame | position_tracking.py:264-534 | one in-place iteration performs `Frame` and keeps the invariant |
| MainLoop.Tracker.Run | position_tracking.py:264-534 | any number of in-place iterations performs `Replay` |
| Orientation.GyroIncrement | cube_visualization.py:156-158 | definition: the angle a gyroscope rate adds per sample, `rate * 0.01 * 0.5` |
| Orientation.RollTilt | cube_visualization.py:161 | definition: the accelerometer roll `atan2(ay, az)` in degrees |
| Orientation.PitchTilt | cube_visualization.py:162 | definition: the accelerometer pitch `atan2(-ax, sqrt(ay² + az²))` in degrees |
| Orientation.Blend | cube_visualization.py:165-167 | the 0.8/0.2 blend lies between the integrated angle and the tilt, and its distance to the tilt is 0.8 times the integrated angle's |
| Orientation.Filtered | cube_visualization.py:154-167 | yaw gains `gz·0.005` with no accelerometer term; roll's and pitch's distances to their tilts are 0.8 times those after gyro integration |
| Orientation.OnLine | cube_visualization.py:145-150 | a malformed line leaves roll, pitch and yaw unchanged; a well-formed one applies the filter |
| Orientation.Replay | cube_visualization.py:130-172 | definition: the loop as `OnLine` applied to the received lines in order |
| Orientation.FilterAll | cube_visualization.py:154-167 | definition: `Filtered` applied to the samples in order |
| Orientation.Decoded | cube_visualization.py:145-150 | the samples of the well-formed lines: never more than the lines, each from some line that decodes to it |
| Orientation.Track | cube_visualization.py:130-172 | the loop, starting level and updating roll, pitch and yaw in place, ends at the replay of the lines from `Level` |
| Orientation.ReplayFiltersDecoded | cube_visualization.py:145-172 | replaying lines is filtering exactly the samples of the well-formed ones |
| Orientation.YawIsGyroTurn | cube_visualization.py:158 | yaw is the start plus the sum of `gz·0.005` over the samples, whatever the accelerometer reads |
| Orientation.YawOfLines | cube_visualization.py:130-172 | from level, the yaw after any lines is the gyroscope's turn over the well-formed ones |
| Orientation.PowAlphaBounds | cube_visualization.py:165 | 0 < 0.8^n ≤ 1 |
| Orientation.ShrunkIsPow | cube_visualization.py:166-167 | keeping 0.8 of the error n times multiplies it by 0.8^n |
| Orientation.ShrunkMagnitude | cube_visualization.py:166-167 | after n contractions by 0.8 the error's magnitude is exactly 0.8^n times the initial one, a factor in (0, 1] |
| Orientation.ShrunkNeverGrows | cube_visualization.py:166-167 | repeated contraction by 0.8 never enlarges the error's magnitude and never changes its sign |
| Orientation.RollSettles | cube_visualization.py:156-166 | with gx = 0 and a steady roll tilt c, the roll error after n samples is the initial one contracted n times by 0.8 |
| Orientation.PitchSettles | cube_visualization.py:157-167 | with gy = 0 and a steady pitch tilt c, the pitch error after n samples is the initial one contracted n times by 0.8 |
| Orientation.SteadyTiltNeverDiverges | cube_visualization.py:156-167 | under a steady tilt with the gyroscope still, roll and pitch errors never grow |
| Orientation.AwaitMarker | cube_visualization.py:116-127 | the wait ends at the first exact `DATA_BEGIN` and keeps waiting iff none has arrived: there is no timeout |

## Left out

- Rendering: the OpenGL/pygame drawing, HUD text, fonts, the calibration-progress screens and the 2 s pause after calibration. Only one of its effects reaches the estimator: whether the camera position exists yet, the `viewReady` flag of `Tracking.FrameAsWritten`.
- The serial port: discovery, opening, `readline`, UTF-8 decoding and `strip`. The transport is a sequence of already-stripped lines.
- The camera controls driven by mouse drag and wheel. These are view state only.
- The demo-mode generator (sines, `np.random`, `get_ticks`). Its output enters as a `Generated` sample.
- The print throttle. The trail-append throttle is the `tickEven` input.
- Quit and Escape, which end the program. `reset_ball_position` is written but never read, so it is not modelled.
- `time.time()` is read several times per iteration. The model uses one `now` for every clock read of an iteration (lines 265, 326 and 330), and one `now` for the two start-up reads (lines 241 and 251).
- IEEE floating point: rounding, NaN and infinities. `float()`, `atan2` and `sqrt` are parameters with no properties assumed, so the orientation results hold for any tilt functions.
- Exceptions other than a failed `float()` conversion and the unbound camera position. Inside the `try` of lines 422-540 they are caught and skip the rest of the iteration; elsewhere, such as `ser.in_waiting` at line 421 or a missing font or GL error in the rendering pass (lines 543-590), they end `main()`. The model has no such failures.
- Time between cube-view samples: the filter always uses its fixed 0.01 s step, and idle polls change nothing, so the model has only the received lines.

## Findings

| source | as written | input that shows it | evidently intended | confidence | as-written member | corrected member |
|---|---|---|---|---|---|---|
| position_tracking.py:442 | the live calibration screen calls `gluLookAt(cx, cy, cz, ...)` after counting the sample (lines 435-436); `cx` is first bound by the rendering pass (line 550), which a calibrating sample never reaches (line 475), so until some iteration renders the call raises, the handler (lines 538-540) skips the `>= 100` test at line 456, and the window grows past 100 | from start-up, 100 or more iterations in a row that each find a well-formed line waiting: the tracker stays calibrating with 100 or more readings, and the first later iteration that renders lets the next line average all of them | the screen is drawable from the first sample, and calibration ends with the mean of exactly 100 readings | not executed | Tracking.ViewlessCalibrationBreaksInvariant | Tracking.CalibrationYieldsMean |
