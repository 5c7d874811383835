/** The attitude estimate of cube_visualization.py: a complementary filter
    that integrates the gyroscope into roll, pitch and yaw and pulls roll
    and pitch towards the tilt the accelerometer sees. `atan2` and `sqrt`
    are supplied by the caller as a `Trig` record. */
module Orientation {
  import opened Wrappers
  import opened SampleLine
  import opened Vectors

  /** The fixed time step of one sample, in seconds (line 154). */
  const SampleInterval: real := 0.01
  /** The factor that scales the gyroscope rate down (lines 156-158). */
  const GyroGain: real := 0.5
  /** The weight of the integrated angle in the blend (line 165). */
  const Alpha: real := 0.8
  /** `math.pi` as a decimal. */
  const Pi: real := 3.141592653589793

  /** Roll, pitch and yaw in degrees. */
  datatype Attitude = Attitude(roll: real, pitch: real, yaw: real)

  /** The attitude the loop starts from (line 130). */
  const Level := Attitude(0.0, 0.0, 0.0)

  datatype Trig = Trig(atan2: (real, real) -> real, sqrt: real -> real)

  function Degrees(radians: real): real {
    radians * 180.0 / Pi
  }

  /** Roll as the accelerometer sees it (line 161). */
  function RollTilt(s: Sample, trig: Trig): real {
    Degrees(trig.atan2(s.ay, s.az))
  }

  /** Pitch as the accelerometer sees it (line 162). */
  function PitchTilt(s: Sample, trig: Trig): real {
    Degrees(trig.atan2(-s.ax, trig.sqrt(s.ay * s.ay + s.az * s.az)))
  }

  /** The angle one sample adds for a gyroscope rate: `rate * 0.01 * 0.5`. */
  function GyroIncrement(rate: real): real {
    rate * SampleInterval * GyroGain
  }

  function Min(a: real, b: real): real {
    if a <= b then a else b
  }

  function Max(a: real, b: real): real {
    if a <= b then b else a
  }

  /** `0.8 * integrated + 0.2 * tilt` (lines 166-167): a convex combination,
      so the result lies between the two, and its distance to the tilt is
      0.8 times that of the integrated angle. */
  function Blend(integrated: real, tilt: real): (r: real)
    ensures r - tilt == Alpha * (integrated - tilt)
    ensures Min(integrated, tilt) <= r <= Max(integrated, tilt)
    ensures r == tilt <==> integrated == tilt
  {
    Alpha * integrated + (1.0 - Alpha) * tilt
  }

  /** One well-formed sample (lines 154-167). Yaw only integrates the
      gyroscope; roll and pitch integrate it and are then blended with the
      accelerometer tilt. */
  function Filtered(att: Attitude, s: Sample, trig: Trig): (r: Attitude)
    ensures r.yaw == att.yaw + GyroIncrement(s.gz)
    ensures r.roll - RollTilt(s, trig) == Alpha * (att.roll + GyroIncrement(s.gx) - RollTilt(s, trig))
    ensures r.pitch - PitchTilt(s, trig) == Alpha * (att.pitch + GyroIncrement(s.gy) - PitchTilt(s, trig))
  {
    Attitude(Blend(att.roll + GyroIncrement(s.gx), RollTilt(s, trig)),
             Blend(att.pitch + GyroIncrement(s.gy), PitchTilt(s, trig)),
             att.yaw + GyroIncrement(s.gz))
  }

  /** One received line (lines 142-172): a line without a comma, with a
      field that is not a number, or without exactly six fields leaves the
      attitude as it was. */
  function OnLine(att: Attitude, line: string, parse: Parser, trig: Trig): (r: Attitude)
    ensures Decode(line, parse).Err? ==> r == att
    ensures Decode(line, parse).Ok? ==> r == Filtered(att, Decode(line, parse).value, trig)
  {
    match Decode(line, parse)
    case Ok(s) => Filtered(att, s, trig)
    case Err(_) => att
  }

  function Replay(att: Attitude, lines: seq<string>, parse: Parser, trig: Trig): Attitude
    decreases |lines|
  {
    if lines == [] then att
    else OnLine(Replay(att, lines[..|lines| - 1], parse, trig), lines[|lines| - 1], parse, trig)
  }

  /** The samples of the well-formed lines, in order. */
  function Decoded(lines: seq<string>, parse: Parser): (r: seq<Sample>)
    ensures |r| <= |lines|
    ensures forall s :: s in r ==> exists line :: line in lines && Decode(line, parse) == Ok(s)
    decreases |lines|
  {
    if lines == [] then []
    else
      var init := Decoded(lines[..|lines| - 1], parse);
      var last := lines[|lines| - 1];
      if Decode(last, parse).Ok? then init + [Decode(last, parse).value] else init
  }

  function FilterAll(att: Attitude, ss: seq<Sample>, trig: Trig): Attitude
    decreases |ss|
  {
    if ss == [] then att else Filtered(FilterAll(att, ss[..|ss| - 1], trig), ss[|ss| - 1], trig)
  }

  /** The loop as it runs (lines 130-172): roll, pitch and yaw start at
      zero and are updated in place, first by `+=` with the gyroscope and
      then by reassignment with the blend, for every well-formed line. */
  method Track(lines: seq<string>, parse: Parser, trig: Trig) returns (att: Attitude)
    ensures att == Replay(Level, lines, parse, trig)
  {
    var roll, pitch, yaw := 0.0, 0.0, 0.0;
    var i := 0;
    while i < |lines|
      invariant 0 <= i <= |lines|
      invariant Attitude(roll, pitch, yaw) == Replay(Level, lines[..i], parse, trig)
    {
      var decoded := Decode(lines[i], parse);
      if decoded.Ok? {
        var s := decoded.value;
        roll := roll + s.gx * SampleInterval * GyroGain;
        pitch := pitch + s.gy * SampleInterval * GyroGain;
        yaw := yaw + s.gz * SampleInterval * GyroGain;
        var rollAcc := RollTilt(s, trig);
        var pitchAcc := PitchTilt(s, trig);
        roll := Alpha * roll + (1.0 - Alpha) * rollAcc;
        pitch := Alpha * pitch + (1.0 - Alpha) * pitchAcc;
      }
      assert lines[..i + 1][..i] == lines[..i];
      i := i + 1;
    }
    assert lines[..i] == lines;
    att := Attitude(roll, pitch, yaw);
  }

  /** Malformed lines are skipped and nothing else: replaying the lines is
      filtering exactly the samples of the well-formed ones. */
  lemma {:induction false} ReplayFiltersDecoded(att: Attitude, lines: seq<string>, parse: Parser, trig: Trig)
    ensures Replay(att, lines, parse, trig) == FilterAll(att, Decoded(lines, parse), trig)
    decreases |lines|
  {
    if lines != [] {
      var init := lines[..|lines| - 1];
      ReplayFiltersDecoded(att, init, parse, trig);
      var d := Decoded(init, parse);
      match Decode(lines[|lines| - 1], parse)
      case Ok(s) =>
        assert Decoded(lines, parse) == d + [s];
        assert (d + [s])[..|d|] == d;
      case Err(_) =>
    }
  }

  /** The total turn the gyroscope reports about z over the samples. */
  function YawTurn(ss: seq<Sample>): real
    decreases |ss|
  {
    if ss == [] then 0.0 else YawTurn(ss[..|ss| - 1]) + GyroIncrement(ss[|ss| - 1].gz)
  }

  /** Yaw is dead reckoning: the start plus the gyroscope's turn, with no
      accelerometer correction whatever the tilt functions are. */
  lemma {:induction false} YawIsGyroTurn(att: Attitude, ss: seq<Sample>, trig: Trig)
    ensures FilterAll(att, ss, trig).yaw == att.yaw + YawTurn(ss)
    decreases |ss|
  {
    if ss != [] {
      YawIsGyroTurn(att, ss[..|ss| - 1], trig);
    }
  }

  /** The yaw after any run of lines: the gyroscope's turn over the
      well-formed ones. */
  lemma YawOfLines(lines: seq<string>, parse: Parser, trig: Trig)
    ensures Replay(Level, lines, parse, trig).yaw == YawTurn(Decoded(lines, parse))
  {
    ReplayFiltersDecoded(Level, lines, parse, trig);
    YawIsGyroTurn(Level, Decoded(lines, parse), trig);
  }

  function Pow(x: real, n: nat): real
    decreases n
  {
    if n == 0 then 1.0 else x * Pow(x, n - 1)
  }

  lemma {:induction false} PowAlphaBounds(n: nat)
    ensures 0.0 < Pow(Alpha, n) <= 1.0
    decreases n
  {
    if n > 0 {
      PowAlphaBounds(n - 1);
    }
  }

  lemma ContractOnce(d: real, n: nat)
    ensures Alpha * (Pow(Alpha, n) * d) == Pow(Alpha, n + 1) * d
  {
  }

  /** An error `d` after `n` blends that each keep 0.8 of it. */
  function Shrunk(d: real, n: nat): real
    decreases n
  {
    if n == 0 then d else Alpha * Shrunk(d, n - 1)
  }

  /** n contractions by 0.8 multiply the error by 0.8^n. */
  lemma {:induction false} ShrunkIsPow(d: real, n: nat)
    ensures Shrunk(d, n) == Pow(Alpha, n) * d
    decreases n
  {
    if n > 0 {
      ShrunkIsPow(d, n - 1);
      ContractOnce(d, n - 1);
    }
  }

  /** After n contractions the error's magnitude is exactly 0.8^n times
      the initial magnitude, a factor in (0, 1]. */
  lemma ShrunkMagnitude(d: real, n: nat)
    ensures Abs(Shrunk(d, n)) == Pow(Alpha, n) * Abs(d)
    ensures 0.0 < Pow(Alpha, n) <= 1.0
  {
    ShrunkIsPow(d, n);
    PowAlphaBounds(n);
    AbsOfPositiveMultiple(Pow(Alpha, n), d);
  }

  lemma AbsOfPositiveMultiple(q: real, d: real)
    requires 0.0 < q
    ensures Abs(q * d) == q * Abs(d)
  {
    if d < 0.0 {
      assert q * d < 0.0;
      assert -(q * d) == q * -d;
    } else {
      assert 0.0 <= q * d;
    }
  }

  /** Contracting never moves the error away from zero, nor across it. */
  lemma {:induction false} ShrunkNeverGrows(d: real, n: nat)
    ensures Abs(Shrunk(d, n)) <= Abs(d)
    ensures 0.0 <= d ==> 0.0 <= Shrunk(d, n)
    ensures d <= 0.0 ==> Shrunk(d, n) <= 0.0
    decreases n
  {
    if n > 0 {
      ShrunkNeverGrows(d, n - 1);
    }
  }

  lemma RollStep(att: Attitude, s: Sample, trig: Trig, c: real)
    requires s.gx == 0.0 && RollTilt(s, trig) == c
    ensures Filtered(att, s, trig).roll - c == Alpha * (att.roll - c)
  {
  }

  lemma PitchStep(att: Attitude, s: Sample, trig: Trig, c: real)
    requires s.gy == 0.0 && PitchTilt(s, trig) == c
    ensures Filtered(att, s, trig).pitch - c == Alpha * (att.pitch - c)
  {
  }

  /** Held still on the gyroscope's x axis, with the accelerometer
      reporting the same roll `c` each time, the roll error shrinks by the
      factor 0.8 per sample: after n samples it is the initial error
      contracted n times, that is 0.8^n times it (`ShrunkIsPow`), so its
      distance to `c` is 0.8^n times the initial distance
      (`ShrunkMagnitude`) and never grows. */
  lemma {:induction false} RollSettles(att: Attitude, ss: seq<Sample>, trig: Trig, c: real)
    requires forall i :: 0 <= i < |ss| ==> ss[i].gx == 0.0 && RollTilt(ss[i], trig) == c
    ensures FilterAll(att, ss, trig).roll - c == Shrunk(att.roll - c, |ss|)
    decreases |ss|
  {
    if ss != [] {
      var init := ss[..|ss| - 1];
      var last := ss[|ss| - 1];
      RollSettles(att, init, trig, c);
      assert last.gx == 0.0 && RollTilt(last, trig) == c;
      RollStep(FilterAll(att, init, trig), last, trig, c);
    }
  }

  /** The same for pitch, with the gyroscope's y axis still. */
  lemma {:induction false} PitchSettles(att: Attitude, ss: seq<Sample>, trig: Trig, c: real)
    requires forall i :: 0 <= i < |ss| ==> ss[i].gy == 0.0 && PitchTilt(ss[i], trig) == c
    ensures FilterAll(att, ss, trig).pitch - c == Shrunk(att.pitch - c, |ss|)
    decreases |ss|
  {
    if ss != [] {
      var init := ss[..|ss| - 1];
      var last := ss[|ss| - 1];
      PitchSettles(att, init, trig, c);
      assert last.gy == 0.0 && PitchTilt(last, trig) == c;
      PitchStep(FilterAll(att, init, trig), last, trig, c);
    }
  }

  /** The consequence the filter is built for: under a steady tilt with
      the gyroscope still, roll and pitch errors never grow. */
  lemma SteadyTiltNeverDiverges(att: Attitude, ss: seq<Sample>, trig: Trig, r: real, p: real)
    requires forall i :: 0 <= i < |ss| ==> ss[i].gx == 0.0 && RollTilt(ss[i], trig) == r
    requires forall i :: 0 <= i < |ss| ==> ss[i].gy == 0.0 && PitchTilt(ss[i], trig) == p
    ensures var out := FilterAll(att, ss, trig);
            && Abs(out.roll - r) <= Abs(att.roll - r)
            && Abs(out.pitch - p) <= Abs(att.pitch - p)
  {
    RollSettles(att, ss, trig, r);
    PitchSettles(att, ss, trig, p);
    ShrunkNeverGrows(att.roll - r, |ss|);
    ShrunkNeverGrows(att.pitch - p, |ss|);
  }

  /** The start-up wait (lines 116-127): it ends at the first poll that
      reads exactly `DATA_BEGIN` and has no timeout, so without the marker
      it waits forever. */
  method AwaitMarker(polls: seq<Option<string>>) returns (started: Option<nat>)
    ensures started.Some? ==>
              && started.value < |polls|
              && polls[started.value] == Some(StartMarker)
              && forall j :: 0 <= j < started.value ==> polls[j] != Some(StartMarker)
    ensures started.None? <==> forall j :: 0 <= j < |polls| ==> polls[j] != Some(StartMarker)
  {
    var i := 0;
    while i < |polls|
      invariant 0 <= i <= |polls|
      invariant forall j :: 0 <= j < i ==> polls[j] != Some(StartMarker)
    {
      if polls[i] == Some(StartMarker) {
        return Some(i);
      }
      i := i + 1;
    }
    return None;
  }
}
