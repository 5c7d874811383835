/** Decoding of one transport line into a six-axis sample, shared by the
    position tracker and the cube view: a line is used only when it holds a
    comma, every comma-separated field converts with `float`, and there are
    exactly six fields. `float` itself is a parameter (`Parser`): its
    decimal and IEEE semantics are not modelled. */
module SampleLine {
  import opened Wrappers

  /** Python's `float(text)`: a value, or None where it raises. */
  type Parser = string -> Option<real>

  const Separator: char := ','
  const FieldCount: nat := 6
  /** The exact line the sensor sends once its data stream begins. */
  const StartMarker: string := "DATA_BEGIN"

  /** Accelerometer (g) and gyroscope (degrees per second) readings. */
  datatype Sample = Sample(ax: real, ay: real, az: real, gx: real, gy: real, gz: real)

  datatype DecodeError =
    | NoSeparator              // the line holds no ','
    | NotNumeric(field: nat)   // `float` raised on this field (the first such)
    | WrongFieldCount(count: nat)

  /** The six readings in wire order. */
  function Values(s: Sample): seq<real> {
    [s.ax, s.ay, s.az, s.gx, s.gy, s.gz]
  }

  /** `sep.join(fields)`. */
  function Join(fields: seq<string>, sep: char): string
    requires |fields| >= 1
  {
    if |fields| == 1 then fields[0] else fields[0] + [sep] + Join(fields[1..], sep)
  }

  /** `s.split(sep)`: the separator-free pieces between separators, never
      fewer than one; JoinSplit and SplitJoin show it inverts Join. */
  function Split(s: string, sep: char): (r: seq<string>)
    ensures |r| >= 1
    ensures forall i :: 0 <= i < |r| ==> sep !in r[i]
    ensures |r| == 1 <==> sep !in s
  {
    if s == [] then [[]]
    else
      var rest := Split(s[1..], sep);
      if s[0] == sep then [[]] + rest
      else [[s[0]] + rest[0]] + rest[1..]
  }

  /** Joining the pieces of a split gives back the line. */
  lemma {:induction false} JoinSplit(s: string, sep: char)
    ensures Join(Split(s, sep), sep) == s
    decreases |s|
  {
    if s != [] {
      var rest := Split(s[1..], sep);
      JoinSplit(s[1..], sep);
      if s[0] == sep {
        JoinAfterEmpty(rest, sep);
      } else {
        JoinExtendFirst(s[0], rest, sep);
      }
      assert s == [s[0]] + s[1..];
    }
  }

  /** An empty first piece contributes only its separator. */
  lemma JoinAfterEmpty(rest: seq<string>, sep: char)
    requires |rest| >= 1
    ensures Join([[]] + rest, sep) == [sep] + Join(rest, sep)
  {
    assert ([[]] + rest)[1..] == rest;
  }

  /** A character put in front of the first piece comes first in the line. */
  lemma JoinExtendFirst(c: char, rest: seq<string>, sep: char)
    requires |rest| >= 1
    ensures Join([[c] + rest[0]] + rest[1..], sep) == [c] + Join(rest, sep)
  {
    var r := [[c] + rest[0]] + rest[1..];
    if |rest| > 1 {
      assert r[1..] == rest[1..];
    }
  }

  lemma {:induction false} SplitPrefix(f: string, t: string, sep: char)
    requires sep !in f
    ensures Split(f + t, sep) == [f + Split(t, sep)[0]] + Split(t, sep)[1..]
    decreases |f|
  {
    var st := Split(t, sep);
    if f == [] {
      assert f + t == t;
      assert f + st[0] == st[0];
      assert st == [st[0]] + st[1..];
    } else {
      var tail := f[1..] + t;
      SplitPrefix(f[1..], t, sep);
      var rest := Split(tail, sep);
      assert rest == [f[1..] + st[0]] + st[1..];
      assert (f + t)[0] == f[0] && f[0] != sep;
      assert (f + t)[1..] == tail;
      assert Split(f + t, sep) == [[f[0]] + rest[0]] + rest[1..];
      assert rest[0] == f[1..] + st[0];
      assert rest[1..] == st[1..];
      assert [f[0]] + (f[1..] + st[0]) == f + st[0];
    }
  }

  /** Splitting undoes joining whenever no piece holds the separator. */
  lemma {:induction false} SplitJoin(fields: seq<string>, sep: char)
    requires |fields| >= 1
    requires forall i :: 0 <= i < |fields| ==> sep !in fields[i]
    ensures Split(Join(fields, sep), sep) == fields
  {
    if |fields| == 1 {
      SplitPrefix(fields[0], [], sep);
      assert fields[0] + [] == fields[0];
    } else {
      var rest := Join(fields[1..], sep);
      SplitJoin(fields[1..], sep);
      SplitPrefix(fields[0], [sep] + rest, sep);
      assert fields[0] + [sep] + rest == fields[0] + ([sep] + rest);
      var x := Split([sep] + rest, sep);
      assert x == [[]] + fields[1..] by {
        assert ([sep] + rest)[1..] == rest;
      }
      assert x[0] == [] && x[1..] == fields[1..];
      assert fields[0] + x[0] == fields[0];
      assert fields == [fields[0]] + fields[1..];
    }
  }

  /** The list comprehension `[float(x) for x in fields]`: all values, or the
      index of the first field on which `float` raises. */
  function ParseFields(fields: seq<string>, parse: Parser): (r: Result<seq<real>, nat>)
    ensures r.Ok? ==> |r.value| == |fields|
    ensures r.Ok? ==> forall i :: 0 <= i < |fields| ==> parse(fields[i]) == Some(r.value[i])
    ensures r.Err? ==> r.error < |fields| && parse(fields[r.error]).None?
    ensures r.Err? ==> forall i :: 0 <= i < r.error ==> parse(fields[i]).Some?
  {
    if fields == [] then Ok([])
    else
      match parse(fields[0])
      case None => Err(0)
      case Some(v) =>
        match ParseFields(fields[1..], parse)
        case Ok(vs) => Ok([v] + vs)
        case Err(k) => Err(k + 1)
  }

  /** Lines 426-431 of position_tracking.py and 145-150 of
      cube_visualization.py: a line yields a sample exactly when it holds a
      comma, has six fields and every field converts; the sample's readings
      are the converted fields in order. */
  function Decode(line: string, parse: Parser): (r: Result<Sample, DecodeError>)
    ensures r.Ok? <==>
              && Separator in line
              && |Split(line, Separator)| == FieldCount
              && forall i :: 0 <= i < |Split(line, Separator)| ==> parse(Split(line, Separator)[i]).Some?
    ensures r.Ok? ==>
              forall i :: 0 <= i < FieldCount ==> parse(Split(line, Separator)[i]) == Some(Values(r.value)[i])
    ensures r == Err(NoSeparator) <==> Separator !in line
  {
    if Separator !in line then Err(NoSeparator)
    else
      var fields := Split(line, Separator);
      match ParseFields(fields, parse)
      case Err(k) => Err(NotNumeric(k))
      case Ok(vs) =>
        if |vs| == FieldCount then Ok(Sample(vs[0], vs[1], vs[2], vs[3], vs[4], vs[5]))
        else Err(WrongFieldCount(|vs|))
  }

  /** The sensor's side of the wire: the six readings printed with `show`
      and separated by commas. */
  function Encode(s: Sample, show: real -> string): string {
    Join(seq(FieldCount, i requires 0 <= i < FieldCount => show(Values(s)[i])), Separator)
  }

  /** A sample whose six readings are each printed by `show` without a
      comma, and read back exactly by `float`, is decoded to itself. */
  lemma DecodeEncode(s: Sample, parse: Parser, show: real -> string)
    requires forall i :: 0 <= i < FieldCount ==> parse(show(Values(s)[i])) == Some(Values(s)[i])
    requires forall i :: 0 <= i < FieldCount ==> Separator !in show(Values(s)[i])
    ensures Decode(Encode(s, show), parse) == Ok(s)
  {
    var fields := seq(FieldCount, i requires 0 <= i < FieldCount => show(Values(s)[i]));
    var line := Encode(s, show);
    SplitJoin(fields, Separator);
    assert line[|fields[0]|] == Separator;
    var r := Decode(line, parse);
    assert r.Ok?;
    var v := Values(r.value);
    assert forall i :: 0 <= i < FieldCount ==> v[i] == Values(s)[i] by {
      forall i | 0 <= i < FieldCount ensures v[i] == Values(s)[i] {
        assert parse(fields[i]) == Some(Values(s)[i]);
      }
    }
  }

  /** The sensor at rest printing each zero reading as "0": the line it
      sends decodes back to the same sample. */
  lemma ZeroSampleRoundTrips(parse: Parser)
    requires parse("0") == Some(0.0)
    ensures Decode(Encode(Sample(0.0, 0.0, 0.0, 0.0, 0.0, 0.0), x => "0"), parse)
            == Ok(Sample(0.0, 0.0, 0.0, 0.0, 0.0, 0.0))
  {
    var s := Sample(0.0, 0.0, 0.0, 0.0, 0.0, 0.0);
    assert forall i :: 0 <= i < FieldCount ==> Values(s)[i] == 0.0;
    DecodeEncode(s, parse, x => "0");
  }
}
