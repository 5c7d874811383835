/** The position tracker of position_tracking.py: the state `main()` keeps in
    module globals and loop locals, the start-up wait, the operator
    commands, calibration and the active integrator step. The pure
    transition functions over `Snapshot` specify the `Tracker` class below,
    whose methods update its fields in place as the loop does. */
module Tracking {
  import opened Wrappers
  import opened Vectors
  import opened SampleLine
  import opened Motion
  import opened Calibration
  import opened Trail

  /** Seconds between automatic resets while auto-reset is on (line 326). */
  const AutoResetInterval: real := 30.0
  /** Seconds the start-up wait lasts at most (line 212). */
  const StartTimeout: real := 10.0

  /** The key events the loop reacts to (lines 275-303). */
  datatype Command =
    | ResetPressed      // R down: zero position and velocity, clear the trail, hold
    | ResetReleased     // R up
    | ToggleAutoReset   // A
    | Recalibrate       // C
    | SensitivityUp     // arrow up
    | SensitivityDown   // arrow down

  /** What one loop iteration receives from its sample source. */
  datatype Feed =
    | Idle                       // live sensor, nothing waiting
    | Line(text: string)         // live sensor, one stripped line
    | Generated(sample: Sample)  // demo mode, one synthetic sample

  /** Everything one iteration of the `while True` loop consumes. */
  datatype FrameInput = FrameInput(now: real, commands: seq<Command>, feed: Feed, tickEven: bool)

  /** The tracker's state: globals `position`, `velocity`,
      `position_history` and the loop locals of `main()`. */
  datatype Snapshot = Snapshot(
    position: Vec3,
    velocity: Vec3,
    gravityOffset: Vec3,
    gravitySamples: seq<Vec3>,
    calibrationCount: nat,
    isCalibrating: bool,
    scaleFactor: real,
    autoReset: bool,
    lastResetTime: real,
    resetHeld: bool,
    lastTime: real,
    trail: seq<Vec3>)

  function CalibrationThreshold(demoMode: bool): nat {
    if demoMode then DemoSampleCount else LiveSampleCount
  }

  function Accel(s: Sample): Vec3 {
    Vec3(s.ax, s.ay, s.az)
  }

  /** The accelerometer triples of `ss`, in order. */
  function Accels(ss: seq<Sample>): (r: seq<Vec3>)
    ensures |r| == |ss|
    ensures forall i :: 0 <= i < |ss| ==> r[i] == Accel(ss[i])
    decreases |ss|
  {
    if ss == [] then [] else Accels(ss[..|ss| - 1]) + [Accel(ss[|ss| - 1])]
  }

  /** What every reachable state satisfies: the calibration bookkeeping
      agrees, an active tracker's offset is the mean of its samples, the
      sensitivity is positive, position, velocity and every trail entry
      are inside their boxes, and the trail is within capacity. */
  predicate Invariant(st: Snapshot, threshold: nat) {
    && 0 < threshold
    && st.calibrationCount == |st.gravitySamples|
    && (st.isCalibrating ==> st.calibrationCount < threshold)
    && (!st.isCalibrating ==>
          && st.calibrationCount == threshold
          && |st.gravitySamples| > 0
          && st.gravityOffset == Mean(st.gravitySamples))
    && 0.0 < st.scaleFactor
    && InBox(st.position, MaxPosition)
    && InBox(st.velocity, VelocityBound)
    && |st.trail| <= MaxTrailLength
    && forall i :: 0 <= i < |st.trail| ==> InBox(st.trail[i], MaxPosition)
  }

  /** The state when the loop starts (lines 17-18 and 240-257). */
  function Initial(now: real): (st: Snapshot)
    ensures forall threshold: nat :: 0 < threshold ==> Invariant(st, threshold)
  {
    Snapshot(Zero, Zero, Zero, [], 0, true, DefaultScale, true, now, false, now, [])
  }

  function ClearMotion(st: Snapshot): Snapshot {
    st.(position := Zero, velocity := Zero, trail := [])
  }

  /** Start of an iteration (lines 265-267): the clock advances and the time
      step is the elapsed time, capped at 0.1 s. */
  function Tick(st: Snapshot, now: real): (r: (Snapshot, real))
    ensures r.1 <= MaxStep
    ensures now - st.lastTime <= MaxStep ==> r.1 == now - st.lastTime
    ensures r.0 == st.(lastTime := now)
  {
    (st.(lastTime := now), FrameStep(now - st.lastTime))
  }

  /** One key event (lines 275-303). No command touches the gravity offset
      or the clocks, and only pressing R moves the tracked point; each key
      changes exactly the variables its handler assigns. */
  function OnCommand(st: Snapshot, c: Command): (r: Snapshot)
    ensures r.gravityOffset == st.gravityOffset
    ensures r.lastTime == st.lastTime && r.lastResetTime == st.lastResetTime
    ensures c != ResetPressed ==> r.position == st.position && r.velocity == st.velocity && r.trail == st.trail
    ensures c == ResetPressed ==> r == st.(position := Zero, velocity := Zero, trail := [], resetHeld := true)
    ensures c == ResetReleased ==> r == st.(resetHeld := false)
    ensures c == ToggleAutoReset ==> r == st.(autoReset := !st.autoReset)
    ensures c == Recalibrate ==> r == st.(isCalibrating := true, calibrationCount := 0, gravitySamples := [])
    ensures c == SensitivityUp ==> r == st.(scaleFactor := st.scaleFactor * SensitivityFactor)
    ensures c == SensitivityDown ==> r == st.(scaleFactor := st.scaleFactor / SensitivityFactor)
  {
    match c
    case ResetPressed => ClearMotion(st).(resetHeld := true)
    case ResetReleased => st.(resetHeld := false)
    case ToggleAutoReset => st.(autoReset := !st.autoReset)
    case Recalibrate => st.(isCalibrating := true, calibrationCount := 0, gravitySamples := [])
    case SensitivityUp => st.(scaleFactor := st.scaleFactor * SensitivityFactor)
    case SensitivityDown => st.(scaleFactor := st.scaleFactor / SensitivityFactor)
  }

  /** The events of one iteration, in the order they arrived. */
  function ApplyCommands(st: Snapshot, cs: seq<Command>): Snapshot
    decreases |cs|
  {
    if cs == [] then st else OnCommand(ApplyCommands(st, cs[..|cs| - 1]), cs[|cs| - 1])
  }

  /** While R is held the position, and nothing else, is zeroed every
      iteration (lines 321-323). */
  function HeldReset(st: Snapshot): (r: Snapshot)
    ensures r == st.(position := r.position)
    ensures st.resetHeld ==> r.position == Zero
    ensures !st.resetHeld ==> r == st
  {
    if st.resetHeld then st.(position := Zero) else st
  }

  /** Lines 326-330: the automatic reset fires only when it is enabled and
      more than 30 s have passed since the last one; it then zeroes the
      motion, clears the trail and restarts its timer. */
  function AutoReset(st: Snapshot, now: real): (r: Snapshot)
    ensures r != st ==> st.autoReset && now - st.lastResetTime > AutoResetInterval
    ensures st.autoReset && now - st.lastResetTime > AutoResetInterval ==>
              r == st.(position := Zero, velocity := Zero, trail := [], lastResetTime := now)
    ensures r.gravityOffset == st.gravityOffset && r.isCalibrating == st.isCalibrating
    ensures r.autoReset == st.autoReset && r.scaleFactor == st.scaleFactor
  {
    if st.autoReset && now - st.lastResetTime > AutoResetInterval then
      ClearMotion(st).(lastResetTime := now)
    else st
  }

  /** One decoded sample (lines 348-417 and 434-534). While calibrating it
      is only collected, and the sample that completes the window sets the
      offset to the window's mean, ends calibration and zeroes the motion.
      Once active, the velocity is assigned from the sample alone, the
      position advances by it, and the position joins the trail when the
      point moves and the throttle tick is even. */
  function OnSample(st: Snapshot, s: Sample, dt: real, tickEven: bool, threshold: nat): (r: Snapshot)
    ensures st.isCalibrating ==>
              && r.gravitySamples == st.gravitySamples + [Accel(s)]
              && r.calibrationCount == st.calibrationCount + 1
    ensures st.isCalibrating && st.calibrationCount + 1 < threshold ==>
              r == st.(gravitySamples := r.gravitySamples, calibrationCount := r.calibrationCount)
    ensures st.isCalibrating && st.calibrationCount + 1 >= threshold ==>
              r == st.(gravitySamples := r.gravitySamples, calibrationCount := r.calibrationCount,
                       gravityOffset := Mean(r.gravitySamples), isCalibrating := false,
                       position := Zero, velocity := Zero, trail := [])
    ensures !st.isCalibrating ==>
              && r.velocity == CommandedVelocity(Accel(s), st.gravityOffset, st.scaleFactor)
              && r.position == Advance(st.position, r.velocity, dt)
              && r.trail == (if Moving(r.velocity) && tickEven
                             then Appended(st.trail, r.position, MaxTrailLength) else st.trail)
              && r == st.(velocity := r.velocity, position := r.position, trail := r.trail)
  {
    if st.isCalibrating then
      var samples := st.gravitySamples + [Accel(s)];
      var collected := st.(gravitySamples := samples, calibrationCount := st.calibrationCount + 1);
      if collected.calibrationCount >= threshold then
        ClearMotion(collected.(gravityOffset := Mean(samples), isCalibrating := false))
      else collected
    else
      StepMotion(st, CommandedVelocity(Accel(s), st.gravityOffset, st.scaleFactor), dt, tickEven)
  }

  /** The active step once the velocity `v` is known: integrate, clamp and
      record the position when moving on an even tick. */
  function StepMotion(st: Snapshot, v: Vec3, dt: real, tickEven: bool): Snapshot {
    var p := Advance(st.position, v, dt);
    var trail := if Moving(v) && tickEven then Appended(st.trail, p, MaxTrailLength) else st.trail;
    st.(velocity := v, position := p, trail := trail)
  }

  /** The active branch of `OnSample` is `StepMotion` at the commanded
      velocity. */
  lemma ActiveSampleSteps(st: Snapshot, s: Sample, dt: real, tickEven: bool, threshold: nat)
    requires !st.isCalibrating
    ensures OnSample(st, s, dt, tickEven, threshold)
            == StepMotion(st, CommandedVelocity(Accel(s), st.gravityOffset, st.scaleFactor), dt, tickEven)
  {
  }

  /** One transport line. A malformed line changes nothing; while
      calibrating, a line changes the state exactly when it is well-formed. */
  function OnLine(st: Snapshot, line: string, parse: Parser, dt: real, tickEven: bool, threshold: nat): (r: Snapshot)
    ensures Decode(line, parse).Err? ==> r == st
    ensures Decode(line, parse).Ok? ==> r == OnSample(st, Decode(line, parse).value, dt, tickEven, threshold)
    ensures st.isCalibrating ==> (r == st <==> Decode(line, parse).Err?)
  {
    match Decode(line, parse)
    case Ok(s) => OnSample(st, s, dt, tickEven, threshold)
    case Err(_) => st
  }

  function OnFeed(st: Snapshot, feed: Feed, parse: Parser, dt: real, tickEven: bool, threshold: nat): Snapshot {
    match feed
    case Idle => st
    case Line(text) => OnLine(st, text, parse, dt, tickEven, threshold)
    case Generated(s) => OnSample(st, s, dt, tickEven, threshold)
  }

  /** One iteration of the `while True` loop (lines 264-540), without its
      rendering. */
  function Frame(st: Snapshot, f: FrameInput, parse: Parser, threshold: nat): Snapshot {
    var ticked := Tick(st, f.now);
    var commanded := ApplyCommands(ticked.0, f.commands);
    var reset := AutoReset(HeldReset(commanded), f.now);
    OnFeed(reset, f.feed, parse, ticked.1, f.tickEven, threshold)
  }

  function Replay(st: Snapshot, frames: seq<FrameInput>, parse: Parser, threshold: nat): Snapshot
    decreases |frames|
  {
    if frames == [] then st
    else Frame(Replay(st, frames[..|frames| - 1], parse, threshold), frames[|frames| - 1], parse, threshold)
  }

  /** A run of samples fed one after another with the same time step. */
  function ObserveAll(st: Snapshot, ss: seq<Sample>, dt: real, tickEven: bool, threshold: nat): Snapshot
    decreases |ss|
  {
    if ss == [] then st
    else OnSample(ObserveAll(st, ss[..|ss| - 1], dt, tickEven, threshold), ss[|ss| - 1], dt, tickEven, threshold)
  }

  // ---------------------------------------------------------------------
  // Invariant preservation: the bounds hold after every step of any run.

  lemma OnSampleKeepsInvariant(st: Snapshot, s: Sample, dt: real, tickEven: bool, threshold: nat)
    requires Invariant(st, threshold)
    ensures Invariant(OnSample(st, s, dt, tickEven, threshold), threshold)
  {
    var r := OnSample(st, s, dt, tickEven, threshold);
    if !st.isCalibrating && Moving(r.velocity) && tickEven {
      forall i | 0 <= i < |r.trail| ensures InBox(r.trail[i], MaxPosition) {
        assert r.trail[i] in r.trail;
        assert r.trail[i] in st.trail || r.trail[i] == r.position;
      }
    }
  }

  lemma {:induction false} ApplyCommandsKeepsInvariant(st: Snapshot, cs: seq<Command>, threshold: nat)
    requires Invariant(st, threshold)
    ensures Invariant(ApplyCommands(st, cs), threshold)
    decreases |cs|
  {
    if cs != [] {
      ApplyCommandsKeepsInvariant(st, cs[..|cs| - 1], threshold);
    }
  }

  lemma ResetsKeepInvariant(st: Snapshot, now: real, threshold: nat)
    requires Invariant(st, threshold)
    ensures Invariant(HeldReset(st), threshold)
    ensures Invariant(AutoReset(st, now), threshold)
  {
  }

  lemma FrameKeepsInvariant(st: Snapshot, f: FrameInput, parse: Parser, threshold: nat)
    requires Invariant(st, threshold)
    ensures Invariant(Frame(st, f, parse, threshold), threshold)
  {
    var ticked := Tick(st, f.now);
    assert Invariant(ticked.0, threshold);
    var commanded := ApplyCommands(ticked.0, f.commands);
    ApplyCommandsKeepsInvariant(ticked.0, f.commands, threshold);
    var held := HeldReset(commanded);
    ResetsKeepInvariant(commanded, f.now, threshold);
    var reset := AutoReset(held, f.now);
    ResetsKeepInvariant(held, f.now, threshold);
    assert Frame(st, f, parse, threshold) == OnFeed(reset, f.feed, parse, ticked.1, f.tickEven, threshold);
    match f.feed
    case Idle =>
    case Line(text) =>
      if Decode(text, parse).Ok? {
        OnSampleKeepsInvariant(reset, Decode(text, parse).value, ticked.1, f.tickEven, threshold);
      }
    case Generated(sample) => OnSampleKeepsInvariant(reset, sample, ticked.1, f.tickEven, threshold);
  }

  lemma {:induction false} ReplayKeepsInvariant(st: Snapshot, frames: seq<FrameInput>, parse: Parser, threshold: nat)
    requires Invariant(st, threshold)
    ensures Invariant(Replay(st, frames, parse, threshold), threshold)
    decreases |frames|
  {
    if frames != [] {
      ReplayKeepsInvariant(st, frames[..|frames| - 1], parse, threshold);
      FrameKeepsInvariant(Replay(st, frames[..|frames| - 1], parse, threshold), frames[|frames| - 1], parse, threshold);
    }
  }

  /** From start-up on, after every iteration of any run: each velocity
      axis is within +-4.75, each position axis within +-10, and the trail
      holds at most 1000 positions. */
  lemma BoundsAfterEveryFrame(now: real, frames: seq<FrameInput>, parse: Parser, threshold: nat)
    requires 0 < threshold
    ensures forall k :: 0 <= k <= |frames| ==>
              var st := Replay(Initial(now), frames[..k], parse, threshold);
              InBox(st.velocity, VelocityBound) && InBox(st.position, MaxPosition) && |st.trail| <= MaxTrailLength
  {
    forall k | 0 <= k <= |frames|
      ensures Invariant(Replay(Initial(now), frames[..k], parse, threshold), threshold)
    {
      ReplayKeepsInvariant(Initial(now), frames[..k], parse, threshold);
    }
  }

  // ---------------------------------------------------------------------
  // Calibration.

  /** Samples that do not complete the window are only collected: the
      offset, the motion, the trail and everything else stay as they were. */
  lemma {:induction false} CalibrationWindowHoldsState(st: Snapshot, ss: seq<Sample>, dt: real, tickEven: bool, threshold: nat)
    requires st.isCalibrating && st.calibrationCount + |ss| < threshold
    ensures ObserveAll(st, ss, dt, tickEven, threshold) ==
              st.(gravitySamples := st.gravitySamples + Accels(ss), calibrationCount := st.calibrationCount + |ss|)
    decreases |ss|
  {
    if ss == [] {
      assert st.gravitySamples + [] == st.gravitySamples;
    } else {
      var front := ss[..|ss| - 1];
      CalibrationWindowHoldsState(st, front, dt, tickEven, threshold);
      assert st.gravitySamples + Accels(front) + [Accel(ss[|ss| - 1])] == st.gravitySamples + Accels(ss);
    }
  }

  /** A calibration that starts from an empty window ends after exactly
      `threshold` samples with the offset equal to their mean, the tracker
      active, and position, velocity and trail zero and empty. */
  lemma CalibrationYieldsMean(st: Snapshot, ss: seq<Sample>, dt: real, tickEven: bool, threshold: nat)
    requires st.isCalibrating && st.calibrationCount == 0 && st.gravitySamples == []
    requires |ss| == threshold > 0
    ensures ObserveAll(st, ss, dt, tickEven, threshold) ==
              st.(gravitySamples := Accels(ss), calibrationCount := threshold,
                  gravityOffset := Mean(Accels(ss)), isCalibrating := false,
                  position := Zero, velocity := Zero, trail := [])
  {
    var front := ss[..|ss| - 1];
    CalibrationWindowHoldsState(st, front, dt, tickEven, threshold);
    assert [] + Accels(front) == Accels(front);
  }

  /** Stationary samples that all read `c` calibrate the offset to `c`. */
  lemma CalibrationOfConstant(st: Snapshot, ss: seq<Sample>, c: Vec3, dt: real, tickEven: bool, threshold: nat)
    requires st.isCalibrating && st.calibrationCount == 0 && st.gravitySamples == []
    requires |ss| == threshold > 0
    requires forall i :: 0 <= i < |ss| ==> Accel(ss[i]) == c
    ensures ObserveAll(st, ss, dt, tickEven, threshold).gravityOffset == c
  {
    CalibrationYieldsMean(st, ss, dt, tickEven, threshold);
    var window := Accels(ss);
    forall i | 0 <= i < |window| ensures window[i] == c {
      assert window[i] == Accel(ss[i]);
    }
    MeanOfConstant(window, c);
  }

  /** Recalibration empties the window but keeps the old offset in force
      until the new window is complete; the window then replaces it. */
  lemma RecalibrationKeepsOffsetUntilComplete(st: Snapshot, ss: seq<Sample>, dt: real, tickEven: bool, threshold: nat)
    requires 0 < threshold
    ensures |ss| < threshold ==>
              && ObserveAll(OnCommand(st, Recalibrate), ss, dt, tickEven, threshold).gravityOffset == st.gravityOffset
              && ObserveAll(OnCommand(st, Recalibrate), ss, dt, tickEven, threshold).isCalibrating
    ensures |ss| == threshold ==>
              ObserveAll(OnCommand(st, Recalibrate), ss, dt, tickEven, threshold).gravityOffset == Mean(Accels(ss))
  {
    var restarted := OnCommand(st, Recalibrate);
    if |ss| < threshold {
      CalibrationWindowHoldsState(restarted, ss, dt, tickEven, threshold);
    } else if |ss| == threshold {
      CalibrationYieldsMean(restarted, ss, dt, tickEven, threshold);
    }
  }

  // ---------------------------------------------------------------------
  // The live calibration screen as written. It draws with the camera
  // position `cx, cy, cz` (line 442), which only the rendering pass at the
  // end of an iteration computes (lines 548-551). Until one iteration has
  // reached that pass, the name is unbound, the drawing raises, the handler
  // at lines 538-540 ends the iteration, and the completion test at line
  // 456 is never reached. `OnLine` and `Frame` above are the evidently
  // intended behaviour, in which the screen can be drawn.

  /** Whether an iteration that received `line` reaches the rendering pass:
      a line without a comma (line 427) or with a field `float` rejects
      (lines 538-540) ends it early, and so does every well-formed line
      while calibrating, by the `continue` at line 475 or by the exception
      above; a line with the wrong number of fields falls through. */
  function LineRenders(st: Snapshot, line: string, parse: Parser): bool {
    match Decode(line, parse)
    case Ok(_) => !st.isCalibrating
    case Err(e) => e.WrongFieldCount?
  }

  /** One transport line as the code handles it, given whether the camera
      position exists yet. Before it does, a well-formed line received
      while calibrating is appended and counted (lines 434-435) and nothing
      else happens; otherwise the line is handled as intended. */
  function OnLineAsWritten(st: Snapshot, viewReady: bool, line: string, parse: Parser, dt: real, tickEven: bool, threshold: nat): (r: Snapshot)
    ensures viewReady || !st.isCalibrating ==> r == OnLine(st, line, parse, dt, tickEven, threshold)
    ensures !viewReady && st.isCalibrating && Decode(line, parse).Ok? ==>
              r == st.(gravitySamples := st.gravitySamples + [Accel(Decode(line, parse).value)],
                       calibrationCount := st.calibrationCount + 1)
    ensures Decode(line, parse).Err? ==> r == st
  {
    match Decode(line, parse)
    case Ok(s) =>
      if st.isCalibrating && !viewReady then
        st.(gravitySamples := st.gravitySamples + [Accel(s)], calibrationCount := st.calibrationCount + 1)
      else OnSample(st, s, dt, tickEven, threshold)
    case Err(_) => st
  }

  /** One iteration as written: the new state, and whether the camera
      position exists afterwards. Idle iterations and generated samples
      always reach the rendering pass, and once the camera exists every
      iteration is the intended `Frame`. */
  function FrameAsWritten(st: Snapshot, viewReady: bool, f: FrameInput, parse: Parser, threshold: nat): (r: (Snapshot, bool))
    ensures viewReady ==> r == (Frame(st, f, parse, threshold), true)
    ensures !f.feed.Line? ==> r == (Frame(st, f, parse, threshold), true)
  {
    var ticked := Tick(st, f.now);
    var commanded := ApplyCommands(ticked.0, f.commands);
    var reset := AutoReset(HeldReset(commanded), f.now);
    match f.feed
    case Line(text) =>
      (OnLineAsWritten(reset, viewReady, text, parse, ticked.1, f.tickEven, threshold),
       viewReady || LineRenders(reset, text, parse))
    case _ => (OnFeed(reset, f.feed, parse, ticked.1, f.tickEven, threshold), true)
  }

  function ReplayAsWritten(st: Snapshot, viewReady: bool, frames: seq<FrameInput>, parse: Parser, threshold: nat): (Snapshot, bool)
    decreases |frames|
  {
    if frames == [] then (st, viewReady)
    else
      var before := ReplayAsWritten(st, viewReady, frames[..|frames| - 1], parse, threshold);
      FrameAsWritten(before.0, before.1, frames[|frames| - 1], parse, threshold)
  }

  /** Iterations that each receive one well-formed line and no key event. */
  predicate OnlySamples(frames: seq<FrameInput>, parse: Parser) {
    forall i :: 0 <= i < |frames| ==>
      frames[i].commands == [] && frames[i].feed.Line? && Decode(frames[i].feed.text, parse).Ok?
  }

  /** Before the first rendering pass, every well-formed line received while
      calibrating is counted and none completes the window, whatever the
      threshold: after n of them the tracker is still calibrating, with n
      more readings in the window, the old offset, and still no camera. */
  lemma {:induction false} CountOvershootsBeforeFirstView(st: Snapshot, frames: seq<FrameInput>, parse: Parser, threshold: nat)
    requires st.isCalibrating && OnlySamples(frames, parse)
    ensures var r := ReplayAsWritten(st, false, frames, parse, threshold);
            && r.0.isCalibrating && !r.1
            && r.0.calibrationCount == st.calibrationCount + |frames|
            && |r.0.gravitySamples| == |st.gravitySamples| + |frames|
            && r.0.gravityOffset == st.gravityOffset
    decreases |frames|
  {
    if frames != [] {
      var front := frames[..|frames| - 1];
      assert OnlySamples(front, parse) by {
        forall i | 0 <= i < |front| ensures front[i] == frames[i] {}
      }
      CountOvershootsBeforeFirstView(st, front, parse, threshold);
      var last := frames[|frames| - 1];
      var before := ReplayAsWritten(st, false, front, parse, threshold);
      LineFrameBeforeView(before.0, last, parse, threshold);
    }
  }

  /** One iteration with a well-formed line and no key event, before the
      camera exists, while calibrating: one more reading is counted and
      nothing else of calibration changes. */
  lemma LineFrameBeforeView(st: Snapshot, f: FrameInput, parse: Parser, threshold: nat)
    requires st.isCalibrating && f.commands == [] && f.feed.Line? && Decode(f.feed.text, parse).Ok?
    ensures var r := FrameAsWritten(st, false, f, parse, threshold);
            && r.0.isCalibrating && !r.1
            && r.0.calibrationCount == st.calibrationCount + 1
            && |r.0.gravitySamples| == |st.gravitySamples| + 1
            && r.0.gravityOffset == st.gravityOffset
  {
    var ticked := Tick(st, f.now);
    assert ApplyCommands(ticked.0, f.commands) == ticked.0;
    var reset := AutoReset(HeldReset(ticked.0), f.now);
    assert reset.isCalibrating && reset.calibrationCount == st.calibrationCount;
    assert reset.gravitySamples == st.gravitySamples && reset.gravityOffset == st.gravityOffset;
  }

  /** The discrepancy: from start-up, `threshold` or more well-formed lines
      arriving before any iteration renders leave the tracker calibrating
      with more readings than the window holds, a state no run of the
      intended loop reaches. */
  lemma ViewlessCalibrationBreaksInvariant(now: real, frames: seq<FrameInput>, parse: Parser, threshold: nat)
    requires 0 < threshold <= |frames| && OnlySamples(frames, parse)
    ensures ReplayAsWritten(Initial(now), false, frames, parse, threshold).0.calibrationCount >= threshold
    ensures !Invariant(ReplayAsWritten(Initial(now), false, frames, parse, threshold).0, threshold)
    ensures Invariant(Replay(Initial(now), frames, parse, threshold), threshold)
  {
    CountOvershootsBeforeFirstView(Initial(now), frames, parse, threshold);
    ReplayKeepsInvariant(Initial(now), frames, parse, threshold);
  }

  /** Once the camera exists, the next well-formed line completes the
      overlong window: the offset becomes the mean of more than `threshold`
      readings. */
  lemma LateViewAveragesOverlongWindow(st: Snapshot, line: string, parse: Parser, dt: real, tickEven: bool, threshold: nat)
    requires st.isCalibrating && st.calibrationCount >= threshold && st.calibrationCount == |st.gravitySamples|
    requires Decode(line, parse).Ok?
    ensures var r := OnLineAsWritten(st, true, line, parse, dt, tickEven, threshold);
            && !r.isCalibrating
            && |r.gravitySamples| == r.calibrationCount > threshold
            && r.gravityOffset == Mean(r.gravitySamples)
  {
  }

  // ---------------------------------------------------------------------
  // The active step and the operator commands.

  /** Velocity is assigned from the sample, not accumulated: two active
      states that differ only in their previous velocity (or position)
      end with the same velocity. */
  lemma VelocityIgnoresPreviousVelocity(st1: Snapshot, st2: Snapshot, s: Sample, dt: real, tickEven: bool, threshold: nat)
    requires !st1.isCalibrating && !st2.isCalibrating
    requires st1.gravityOffset == st2.gravityOffset && st1.scaleFactor == st2.scaleFactor
    ensures OnSample(st1, s, dt, tickEven, threshold).velocity == OnSample(st2, s, dt, tickEven, threshold).velocity
  {
  }

  /** In the active phase a well-formed line need not change the state: a
      reading equal to the offset, with zero velocity and the point anywhere
      inside the box, leaves every variable as it was. So "the state did not change" does not imply "the
      line was malformed" once calibration is over. */
  lemma RestingSampleChangesNothing(st: Snapshot, s: Sample, dt: real, tickEven: bool, threshold: nat)
    requires !st.isCalibrating && Accel(s) == st.gravityOffset
    requires st.velocity == Zero && InBox(st.position, MaxPosition)
    ensures OnSample(st, s, dt, tickEven, threshold) == st
  {
    OffsetReadingIsRest(st.gravityOffset, st.scaleFactor);
    ZeroIsStill();
    AdvanceAtRest(st.position, dt);
    StillStepKeepsPlace(st, Zero, dt, tickEven);
  }

  /** An active step whose velocity is the current one, below the motion
      threshold, and that does not move the point, changes nothing. */
  lemma StillStepKeepsPlace(st: Snapshot, v: Vec3, dt: real, tickEven: bool)
    requires v == st.velocity && !Moving(v) && Advance(st.position, v, dt) == st.position
    ensures StepMotion(st, v, dt, tickEven) == st
  {
  }

  /** The trail changes in the active phase only by an append, and only
      when the new velocity exceeds the motion threshold on some axis and
      the throttle tick is even. */
  lemma TrailGrowsOnlyWhenMoving(st: Snapshot, s: Sample, dt: real, tickEven: bool, threshold: nat)
    requires !st.isCalibrating
    ensures var r := OnSample(st, s, dt, tickEven, threshold);
            r.trail != st.trail ==> Moving(r.velocity) && tickEven && r.trail == Appended(st.trail, r.position, MaxTrailLength)
  {
  }

  /** Pressing R twice is the same as pressing it once. */
  lemma ResetIdempotent(st: Snapshot)
    ensures OnCommand(OnCommand(st, ResetPressed), ResetPressed) == OnCommand(st, ResetPressed)
  {
  }

  /** Raising the sensitivity and lowering it again restores the state;
      toggling auto-reset twice does too. */
  lemma SensitivityStepsCancel(st: Snapshot)
    ensures OnCommand(OnCommand(st, SensitivityUp), SensitivityDown) == st
    ensures OnCommand(OnCommand(st, SensitivityDown), SensitivityUp) == st
    ensures OnCommand(OnCommand(st, ToggleAutoReset), ToggleAutoReset) == st
  {
  }

  /** A push of 1 g along the sensor's x axis, on a tracker at rest at the
      origin with offset (0, 0, 1) and the default sensitivity, is corrected
      to (1, 0, 0), remapped to (-1, 0, 0), and over 0.1 s moves the point
      to (-0.19, 0, 0) with velocity (-1.9, 0, 0). */
  lemma PushFromRest(st: Snapshot, tickEven: bool, threshold: nat)
    requires !st.isCalibrating && st.gravityOffset == Vec3(0.0, 0.0, 1.0)
    requires st.scaleFactor == DefaultScale && st.position == Zero
    ensures var moved := OnSample(st, Sample(1.0, 0.0, 1.0, 0.0, 0.0, 0.0), 0.1, tickEven, threshold);
            && moved.velocity == Vec3(-1.9, 0.0, 0.0)
            && moved.position == Vec3(-0.19, 0.0, 0.0)
  {
    var s := Sample(1.0, 0.0, 1.0, 0.0, 0.0, 0.0);
    assert Accel(s) == Vec3(1.0, 0.0, 1.0);
    ActiveSampleSteps(st, s, 0.1, tickEven, threshold);
    UnitPushVelocity();
    UnitPushAdvance();
    StepMotionMovesTo(st, Vec3(-1.9, 0.0, 0.0), 0.1, tickEven, Vec3(-0.19, 0.0, 0.0));
  }

  lemma StepMotionMovesTo(st: Snapshot, v: Vec3, dt: real, tickEven: bool, p: Vec3)
    requires Advance(st.position, v, dt) == p
    ensures StepMotion(st, v, dt, tickEven).velocity == v
    ensures StepMotion(st, v, dt, tickEven).position == p
  {
  }

  /** The end-to-end scenario: one hundred stationary samples reading
      (0, 0, 1) calibrate the live tracker to the offset (0, 0, 1), leave it
      at rest at the origin, and the push of PushFromRest then follows. */
  lemma StationaryThenPush(now: real, ss: seq<Sample>, tickEven: bool)
    requires |ss| == LiveSampleCount
    requires forall i :: 0 <= i < |ss| ==> ss[i] == Sample(0.0, 0.0, 1.0, 0.0, 0.0, 0.0)
    ensures var calibrated := ObserveAll(Initial(now), ss, MaxStep, tickEven, LiveSampleCount);
            && !calibrated.isCalibrating
            && calibrated.gravityOffset == Vec3(0.0, 0.0, 1.0)
            && var moved := OnSample(calibrated, Sample(1.0, 0.0, 1.0, 0.0, 0.0, 0.0), 0.1, tickEven, LiveSampleCount);
               && moved.velocity == Vec3(-1.9, 0.0, 0.0)
               && moved.position == Vec3(-0.19, 0.0, 0.0)
  {
    var c := Vec3(0.0, 0.0, 1.0);
    var start := Initial(now);
    var calibrated := ObserveAll(start, ss, MaxStep, tickEven, LiveSampleCount);
    CalibrationYieldsMean(start, ss, MaxStep, tickEven, LiveSampleCount);
    forall i | 0 <= i < |ss| ensures Accel(ss[i]) == c {
      assert ss[i] == Sample(0.0, 0.0, 1.0, 0.0, 0.0, 0.0);
    }
    CalibrationOfConstant(start, ss, c, MaxStep, tickEven, LiveSampleCount);
    PushFromRest(calibrated, tickEven, LiveSampleCount);
  }

  // ---------------------------------------------------------------------
  // The start-up wait (lines 208-231).

  /** One pass of the wait loop: the clock reading taken at its top and
      the stripped line read after it, if the port had one waiting. */
  datatype Poll = Poll(now: real, line: Option<string>)

  datatype WaitOutcome = Started(at: nat) | TimedOut(at: nat) | StillWaiting

  /** A pass that neither times out nor reads the start marker. */
  predicate KeepsWaiting(start: real, p: Poll) {
    p.now - start <= StartTimeout && p.line != Some(StartMarker)
  }

  /** The wait ends at the first pass whose clock is more than 10 s past the
      start (before reading) or that reads exactly `DATA_BEGIN`. */
  method AwaitStream(start: real, polls: seq<Poll>) returns (outcome: WaitOutcome)
    ensures outcome.Started? ==>
              && outcome.at < |polls|
              && polls[outcome.at].now - start <= StartTimeout
              && polls[outcome.at].line == Some(StartMarker)
    ensures outcome.TimedOut? ==> outcome.at < |polls| && polls[outcome.at].now - start > StartTimeout
    ensures !outcome.StillWaiting? ==> forall j :: 0 <= j < outcome.at ==> KeepsWaiting(start, polls[j])
    ensures outcome.StillWaiting? ==> forall j :: 0 <= j < |polls| ==> KeepsWaiting(start, polls[j])
  {
    var i := 0;
    while i < |polls|
      invariant 0 <= i <= |polls|
      invariant forall j :: 0 <= j < i ==> KeepsWaiting(start, polls[j])
    {
      if polls[i].now - start > StartTimeout {
        return TimedOut(i);
      }
      if polls[i].line == Some(StartMarker) {
        return Started(i);
      }
      i := i + 1;
    }
    return StillWaiting;
  }
}
