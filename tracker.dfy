/** The main loop of position_tracking.py as the program runs it: the
    state lives in variables that each step of the loop overwrites in place,
    and the trail is a bounded deque that is appended to and cleared. Every
    method that changes state is proved to perform exactly a pure
    transition of module Tracking, so the lemmas proved there about
    reachable states hold of the running loop; the helpers that compute the
    velocity and position step by step return exactly the functions of
    module Motion. */
module MainLoop {
  import opened Vectors
  import opened SampleLine
  import opened Motion
  import opened Calibration
  import opened Trail
  import opened Tracking

  class Tracker {
    /** Samples the calibration window collects: 30 in demo mode, else 100. */
    const threshold: nat
    /** `position_history`, a deque of at most 1000 positions. */
    const history: History<Vec3>
    var position: Vec3
    var velocity: Vec3
    var gravityOffset: Vec3
    var gravitySamples: seq<Vec3>
    var calibrationCount: nat
    var isCalibrating: bool
    var scaleFactor: real
    var autoReset: bool
    var lastResetTime: real
    var resetHeld: bool
    var lastTime: real

    /** The abstract value of the tracker. */
    function State(): Snapshot
      reads this, history
    {
      Snapshot(position, velocity, gravityOffset, gravitySamples, calibrationCount, isCalibrating,
               scaleFactor, autoReset, lastResetTime, resetHeld, lastTime, history.items)
    }

    ghost predicate Valid()
      reads this, history
    {
      && history.capacity == MaxTrailLength
      && history.Valid()
      && Invariant(State(), threshold)
    }

    /** The set-up before the loop (lines 17-18 and 240-257). */
    constructor (now: real, demoMode: bool)
      ensures Valid() && fresh(history)
      ensures threshold == CalibrationThreshold(demoMode)
      ensures State() == Initial(now)
    {
      threshold := CalibrationThreshold(demoMode);
      history := new History(MaxTrailLength);
      position, velocity := Zero, Zero;
      autoReset, lastResetTime := true, now;
      resetHeld := false;
      scaleFactor := DefaultScale;
      lastTime := now;
      gravityOffset, gravitySamples := Zero, [];
      calibrationCount, isCalibrating := 0, true;
    }

    /** Lines 265-267: read the clock, take the capped step, remember the
        clock. */
    method BeginFrame(now: real) returns (dt: real)
      requires Valid()
      modifies this
      ensures Valid()
      ensures (State(), dt) == Tick(old(State()), now)
    {
      dt := now - lastTime;
      if dt > MaxStep {
        dt := MaxStep;
      }
      lastTime := now;
    }

    /** One key event (lines 275-303). */
    method Handle(c: Command)
      requires Valid()
      modifies this, history
      ensures Valid()
      ensures State() == OnCommand(old(State()), c)
    {
      match c {
        case ResetPressed =>
          position := Zero;
          velocity := Zero;
          history.Clear();
          resetHeld := true;
        case ResetReleased =>
          resetHeld := false;
        case ToggleAutoReset =>
          autoReset := !autoReset;
        case Recalibrate =>
          isCalibrating := true;
          calibrationCount := 0;
          gravitySamples := [];
        case SensitivityUp =>
          scaleFactor := scaleFactor * SensitivityFactor;
        case SensitivityDown =>
          scaleFactor := scaleFactor / SensitivityFactor;
      }
      ApplyCommandsKeepsInvariant(old(State()), [c], threshold);
      assert ApplyCommands(old(State()), [c]) == OnCommand(old(State()), c);
    }

    /** Lines 321-330: the held R key, then the automatic reset. */
    method Resets(now: real)
      requires Valid()
      modifies this, history
      ensures Valid()
      ensures State() == AutoReset(HeldReset(old(State())), now)
    {
      if resetHeld {
        position := Zero;
      }
      ResetsKeepInvariant(old(State()), now, threshold);
      ghost var held := State();
      if autoReset && now - lastResetTime > AutoResetInterval {
        position := Zero;
        velocity := Zero;
        history.Clear();
        lastResetTime := now;
      }
      ResetsKeepInvariant(held, now, threshold);
    }

    /** One decoded sample (lines 348-417 and 434-534): collected while
        calibrating, integrated once active. */
    method Observe(s: Sample, dt: real, tickEven: bool)
      requires Valid()
      modifies this, history
      ensures Valid()
      ensures State() == OnSample(old(State()), s, dt, tickEven, threshold)
    {
      OnSampleKeepsInvariant(State(), s, dt, tickEven, threshold);
      if isCalibrating {
        Collect(s);
      } else {
        Integrate(s, dt, tickEven);
      }
    }

    /** The calibration branch (lines 348-358 and 434-463): append the
        reading; the sample that fills the window sets the offset to the
        mean, ends calibration and zeroes the motion. This branch does not
        depend on the time step or the tick. */
    method Collect(s: Sample)
      requires history.Valid() && isCalibrating
      modifies this, history
      ensures history.Valid()
      ensures State() == OnSample(old(State()), s, 0.0, false, threshold)
    {
      gravitySamples := gravitySamples + [Accel(s)];
      calibrationCount := calibrationCount + 1;
      if calibrationCount >= threshold {
        gravityOffset := Mean(gravitySamples);
        isCalibrating := false;
        position := Zero;
        velocity := Zero;
        history.Clear();
      }
    }

    /** The active branch (lines 359-417 and 477-534): assign the velocity
        commanded by the reading, integrate and clamp the position, and
        record it when moving on an even tick. */
    method Integrate(s: Sample, dt: real, tickEven: bool)
      requires history.Valid() && history.capacity == MaxTrailLength && !isCalibrating
      modifies this, history
      ensures history.Valid()
      ensures State() == OnSample(old(State()), s, dt, tickEven, threshold)
    {
      ActiveSampleSteps(State(), s, dt, tickEven, threshold);
      velocity := Commanded(s);
      position := Moved(dt);
      if Moving(velocity) && tickEven {
        history.Append(position);
      }
    }

    /** Lines 360-396 and 478-512, step by step as the loop computes them: the
        corrected, dead-zoned reading is remapped, scaled by the
        sensitivity, and clamped and damped axis by axis. */
    method Commanded(s: Sample) returns (v: Vec3)
      ensures v == CommandedVelocity(Accel(s), gravityOffset, scaleFactor)
    {
      var a := Corrected(s);
      var scaled := Scale(Remap(a), scaleFactor);
      v := Damped(scaled);
    }

    /** Lines 360-369 and 478-486: subtract the offset and zero every axis whose
        magnitude is below the dead-zone width. */
    method Corrected(s: Sample) returns (a: Vec3)
      ensures a == DeadZone(Sub(Accel(s), gravityOffset))
    {
      var ax, ay, az := s.ax - gravityOffset.x, s.ay - gravityOffset.y, s.az - gravityOffset.z;
      if Abs(ax) < DeadZoneWidth { ax := 0.0; }
      if Abs(ay) < DeadZoneWidth { ay := 0.0; }
      if Abs(az) < DeadZoneWidth { az := 0.0; }
      a := Vec3(ax, ay, az);
    }

    /** Lines 385-396 and 503-512: clamp each axis of the scaled reading to the
        velocity limit, then damp it. */
    static method Damped(scaled: Vec3) returns (v: Vec3)
      ensures v == VelocityFor(scaled)
    {
      var vx, vy, vz := scaled.x, scaled.y, scaled.z;
      vx := Clamp(vx, MaxVelocity);
      vy := Clamp(vy, MaxVelocity);
      vz := Clamp(vz, MaxVelocity);
      v := Vec3(vx * Damping, vy * Damping, vz * Damping);
    }

    /** Lines 398-406 (generated samples) and 515-523 (transport samples):
        move by the velocity for the time step and clamp each axis to the
        box. */
    method Moved(dt: real) returns (p: Vec3)
      ensures p == Advance(position, velocity, dt)
    {
      var step := Scale(velocity, dt);
      var px, py, pz := position.x + step.x, position.y + step.y, position.z + step.z;
      px := Clamp(px, MaxPosition);
      py := Clamp(py, MaxPosition);
      pz := Clamp(pz, MaxPosition);
      p := Vec3(px, py, pz);
    }

    /** One stripped transport line (lines 421-431): a malformed one is
        dropped, a well-formed one is observed. */
    method Receive(line: string, parse: Parser, dt: real, tickEven: bool)
      requires Valid()
      modifies this, history
      ensures Valid()
      ensures State() == OnLine(old(State()), line, parse, dt, tickEven, threshold)
    {
      var decoded := Decode(line, parse);
      if decoded.Ok? {
        Observe(decoded.value, dt, tickEven);
      }
    }

    /** One iteration of the `while True` loop (lines 264-534). */
    method RunFrame(f: FrameInput, parse: Parser)
      requires Valid()
      modifies this, history
      ensures Valid()
      ensures State() == Frame(old(State()), f, parse, threshold)
    {
      var dt := BeginFrame(f.now);
      ghost var ticked := State();
      var i := 0;
      while i < |f.commands|
        invariant 0 <= i <= |f.commands|
        invariant Valid()
        invariant State() == ApplyCommands(ticked, f.commands[..i])
      {
        Handle(f.commands[i]);
        assert f.commands[..i + 1][..i] == f.commands[..i];
        i := i + 1;
      }
      assert f.commands[..i] == f.commands;
      Resets(f.now);
      match f.feed {
        case Idle =>
        case Line(text) => Receive(text, parse, dt, f.tickEven);
        case Generated(s) => Observe(s, dt, f.tickEven);
      }
    }

    /** Any number of iterations. */
    method Run(frames: seq<FrameInput>, parse: Parser)
      requires Valid()
      modifies this, history
      ensures Valid()
      ensures State() == Replay(old(State()), frames, parse, threshold)
    {
      var i := 0;
      while i < |frames|
        invariant 0 <= i <= |frames|
        invariant Valid()
        invariant State() == Replay(old(State()), frames[..i], parse, threshold)
      {
        RunFrame(frames[i], parse);
        assert frames[..i + 1][..i] == frames[..i];
        i := i + 1;
      }
      assert frames[..i] == frames;
    }
  }
}
