/** The active-phase integrator of position_tracking.py (lines 361-417 and
    478-534): bias correction, dead zone, axis remapping, velocity assigned
    from the scaled acceleration, velocity clamp, damping, position
    integration and position clamp. */
module Motion {
  import opened Vectors

  const DeadZoneWidth: real := 0.001
  const MaxVelocity: real := 5.0
  const Damping: real := 0.95
  const MaxPosition: real := 10.0
  /** Upper bound on the time step of one frame (line 266). */
  const MaxStep: real := 0.1
  /** Speed on some axis above which a position joins the trail. */
  const MotionThreshold: real := 0.01
  /** Factor by which the arrow keys change the sensitivity. */
  const SensitivityFactor: real := 1.2
  const DefaultScale: real := 2.0
  /** Largest speed per axis after clamping and damping: 5.0 * 0.95. */
  const VelocityBound: real := 4.75

  /** `min(elapsed, 0.1)`: the time step a frame integrates over. */
  function FrameStep(elapsed: real): (dt: real)
    ensures dt <= MaxStep
    ensures dt == elapsed || dt == MaxStep
    ensures elapsed <= MaxStep ==> dt == elapsed
  {
    if elapsed <= MaxStep then elapsed else MaxStep
  }

  /** `max(min(v, limit), -limit)`. */
  function Clamp(v: real, limit: real): (r: real)
    requires 0.0 <= limit
    ensures -limit <= r <= limit
    ensures -limit <= v <= limit ==> r == v
    ensures limit < v ==> r == limit
    ensures v < -limit ==> r == -limit
  {
    var upper := if v <= limit then v else limit;
    if upper >= -limit then upper else -limit
  }

  /** The dead zone on one bias-corrected axis: a reading becomes zero
      exactly when its magnitude is below 0.001, and is kept otherwise. */
  function Suppress(a: real): (r: real)
    ensures r == 0.0 || r == a
    ensures r == 0.0 <==> Abs(a) < DeadZoneWidth
    ensures Abs(r) <= Abs(a)
  {
    if Abs(a) < DeadZoneWidth then 0.0 else a
  }

  function DeadZone(a: Vec3): Vec3 {
    Vec3(Suppress(a.x), Suppress(a.y), Suppress(a.z))
  }

  lemma SuppressIdempotent(a: real)
    ensures Suppress(Suppress(a)) == Suppress(a)
  {
  }

  /** Sensor axes to display axes: x is mirrored, the sensor's z (up at
      rest) becomes the display's y, and the sensor's y becomes z. */
  function Remap(a: Vec3): Vec3 {
    Vec3(-a.x, a.z, a.y)
  }

  /** The remapping is its own inverse, so it loses nothing. */
  lemma RemapInvolution(a: Vec3)
    ensures Remap(Remap(a)) == a
  {
  }

  /** One axis of the velocity from the scaled reading: clamped to +-5,
      then damped by 0.95. */
  function AxisVelocity(scaled: real): (r: real)
    ensures Abs(r) <= VelocityBound
    ensures Abs(scaled) <= MaxVelocity ==> r == scaled * Damping
    ensures scaled == 0.0 ==> r == 0.0
    ensures 0.0 <= scaled ==> 0.0 <= r
    ensures scaled <= 0.0 ==> r <= 0.0
  {
    Clamp(scaled, MaxVelocity) * Damping
  }

  /** The velocity commanded by an acceleration already corrected,
      remapped to display axes and multiplied by the sensitivity: every
      axis within +-4.75; zero for a zero input; and, while the input is
      inside the +-5 box, exactly the input damped by 0.95. */
  function VelocityFor(scaled: Vec3): (v: Vec3)
    ensures InBox(v, VelocityBound)
    ensures scaled == Zero ==> v == Zero
    ensures InBox(scaled, MaxVelocity) ==> v == Scale(scaled, Damping)
  {
    Vec3(AxisVelocity(scaled.x), AxisVelocity(scaled.y), AxisVelocity(scaled.z))
  }

  /** The velocity an active sample commands (lines 478-512): the
      bias-corrected, dead-zoned, remapped acceleration, times the
      sensitivity, drives VelocityFor.
      Nothing of the previous velocity enters: velocity is assigned, not
      accumulated. */
  function CommandedVelocity(accel: Vec3, offset: Vec3, scale: real): (v: Vec3)
    ensures InBox(v, VelocityBound)
  {
    VelocityFor(Scale(Remap(DeadZone(Sub(accel, offset))), scale))
  }

  /** A reading equal to the offset commands no velocity, whatever the
      sensitivity. */
  lemma OffsetReadingIsRest(offset: Vec3, scale: real)
    ensures CommandedVelocity(offset, offset, scale) == Zero
  {
    SubSelfIsZero(offset);
    assert DeadZone(Zero) == Zero;
    assert Remap(Zero) == Zero;
    ScaleZero(scale);
  }

  lemma SubSelfIsZero(a: Vec3)
    ensures Sub(a, a) == Zero
  {
    assert a.x - a.x == 0.0 && a.y - a.y == 0.0 && a.z - a.z == 0.0;
  }

  lemma ScaleZero(k: real)
    ensures Scale(Zero, k) == Zero
  {
    assert 0.0 * k == 0.0;
  }

  /** A reading of (1, 0, 1) against the offset (0, 0, 1) at the default
      sensitivity: corrected to (1, 0, 0), remapped to (-1, 0, 0), scaled
      to (-2, 0, 0) and damped to (-1.9, 0, 0). */
  lemma UnitPushVelocity()
    ensures CommandedVelocity(Vec3(1.0, 0.0, 1.0), Vec3(0.0, 0.0, 1.0), DefaultScale) == Vec3(-1.9, 0.0, 0.0)
  {
    UnitPushCorrected();
    UnitPushScaled();
    UnitPushDamped();
  }

  lemma UnitPushCorrected()
    ensures DeadZone(Sub(Vec3(1.0, 0.0, 1.0), Vec3(0.0, 0.0, 1.0))) == Vec3(1.0, 0.0, 0.0)
  {
  }

  lemma UnitPushScaled()
    ensures Scale(Remap(Vec3(1.0, 0.0, 0.0)), DefaultScale) == Vec3(-2.0, 0.0, 0.0)
  {
  }

  lemma UnitPushDamped()
    ensures VelocityFor(Vec3(-2.0, 0.0, 0.0)) == Vec3(-1.9, 0.0, 0.0)
  {
    assert InBox(Vec3(-2.0, 0.0, 0.0), MaxVelocity);
  }

  /** The position after moving with `velocity` for `dt`, clamped to the
      +-10 box; exact whenever the unclamped position is inside the box. */
  function Advance(position: Vec3, velocity: Vec3, dt: real): (p: Vec3)
    ensures InBox(p, MaxPosition)
    ensures InBox(Add(position, Scale(velocity, dt)), MaxPosition) ==>
              p == Add(position, Scale(velocity, dt))
  {
    var moved := Add(position, Scale(velocity, dt));
    Vec3(Clamp(moved.x, MaxPosition), Clamp(moved.y, MaxPosition), Clamp(moved.z, MaxPosition))
  }

  /** From the origin, the push velocity (-1.9, 0, 0) over 0.1 s reaches
      (-0.19, 0, 0), well inside the box. */
  lemma UnitPushAdvance()
    ensures Advance(Zero, Vec3(-1.9, 0.0, 0.0), 0.1) == Vec3(-0.19, 0.0, 0.0)
  {
    assert Add(Zero, Scale(Vec3(-1.9, 0.0, 0.0), 0.1)) == Vec3(-0.19, 0.0, 0.0);
  }

  /** Without velocity a position inside the box stays where it is. */
  lemma AdvanceAtRest(position: Vec3, dt: real)
    requires InBox(position, MaxPosition)
    ensures Advance(position, Zero, dt) == position
  {
    assert Add(position, Scale(Zero, dt)) == position;
  }

  /** Some axis of the velocity exceeds the motion threshold in magnitude. */
  predicate Moving(v: Vec3) {
    Abs(v.x) > MotionThreshold || Abs(v.y) > MotionThreshold || Abs(v.z) > MotionThreshold
  }

  lemma ZeroIsStill()
    ensures !Moving(Zero)
  {
  }
}
