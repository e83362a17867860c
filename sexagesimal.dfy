/**
 * Sexagesimal notation for angles: hours or degrees, minutes and seconds,
 * parsed from and printed as "(sign)xx:yy:ss.ss". One sign governs the whole
 * triple: a triple with any negative field stands for a negative angle.
 */
module Sexagesimal {
  import opened Wrappers
  import opened Numeric
  import opened Constants
  import opened Angles
  import opened Text

  datatype DMS = DMS(deg: real, min: real, sec: real)

  datatype HMS = HMS(hr: real, min: real, sec: real)

  datatype SexagesimalError = BadTokenCount | NotNumeric

  /** The sign the first token carries for the whole triple. */
  function SignFactor(tok: string): (f: real)
    requires tok != []
    ensures f == -1.0 <==> tok[0] == '-'
    ensures f == 1.0 <==> tok[0] != '-'
  {
    if tok[0] == '-' then -1.0 else 1.0
  }

  /** The first token without its sign character. */
  function Unsigned(tok: string): (u: string)
    requires tok != []
    ensures tok[0] == '+' || tok[0] == '-' ==> tok == [tok[0]] + u
    ensures tok[0] != '+' && tok[0] != '-' ==> u == tok
  {
    if tok[0] == '+' || tok[0] == '-' then tok[1..] else tok
  }

  /**
   * Splits on ':' and parses three numbers with parseFloat (strconv.ParseFloat),
   * applying the sign of the first token to all three. Go indexes the first
   * character of the first token unchecked, so an empty first token is excluded.
   */
  function ParseSexagesimal(s: string, parseFloat: string -> Option<real>)
    : (r: Result<(real, real, real), SexagesimalError>)
    requires |Split(s, ':')| == 3 ==> Split(s, ':')[0] != []
    ensures |Split(s, ':')| != 3 <==> r == Err(BadTokenCount)
    ensures var t := Split(s, ':');
      r.Ok? <==> |t| == 3 && parseFloat(Unsigned(t[0])).Some? &&
                 parseFloat(t[1]).Some? && parseFloat(t[2]).Some?
    ensures var t := Split(s, ':');
      r.Ok? ==> && r.value.0 == SignFactor(t[0]) * parseFloat(Unsigned(t[0])).value
                && r.value.1 == SignFactor(t[0]) * parseFloat(t[1]).value
                && r.value.2 == SignFactor(t[0]) * parseFloat(t[2]).value
  {
    var tokens := Split(s, ':');
    if |tokens| != 3 then Err(BadTokenCount)
    else
      var fac := SignFactor(tokens[0]);
      var hrstr := Unsigned(tokens[0]);
      match parseFloat(hrstr)
      case None => Err(NotNumeric)
      case Some(hr) =>
        match parseFloat(tokens[1])
        case None => Err(NotNumeric)
        case Some(min) =>
          match parseFloat(tokens[2])
          case None => Err(NotNumeric)
          case Some(sec) => Ok((fac * hr, fac * min, fac * sec))
  }

  function NewHMS(s: string, parseFloat: string -> Option<real>): (r: Result<HMS, SexagesimalError>)
    requires |Split(s, ':')| == 3 ==> Split(s, ':')[0] != []
    ensures r.Ok? <==> ParseSexagesimal(s, parseFloat).Ok?
    ensures r.Ok? ==> var (x, y, z) := ParseSexagesimal(s, parseFloat).value; r.value == HMS(x, y, z)
  {
    match ParseSexagesimal(s, parseFloat)
    case Err(e) => Err(e)
    case Ok((hr, min, sec)) => Ok(HMS(hr, min, sec))
  }

  function NewDMS(s: string, parseFloat: string -> Option<real>): (r: Result<DMS, SexagesimalError>)
    requires |Split(s, ':')| == 3 ==> Split(s, ':')[0] != []
    ensures r.Ok? <==> ParseSexagesimal(s, parseFloat).Ok?
    ensures r.Ok? ==> var (x, y, z) := ParseSexagesimal(s, parseFloat).value; r.value == DMS(x, y, z)
  {
    match ParseSexagesimal(s, parseFloat)
    case Err(e) => Err(e)
    case Ok((deg, min, sec)) => Ok(DMS(deg, min, sec))
  }

  // The whole-triple sign rule.

  predicate AnyNegative(x: real, y: real, z: real)
  {
    x < 0.0 || y < 0.0 || z < 0.0
  }

  /** The signed value of a triple in its leading unit, by the whole-triple sign rule. */
  function SignedValue(x: real, y: real, z: real): (v: real)
    ensures AnyNegative(x, y, z) ==> v <= 0.0
    ensures !AnyNegative(x, y, z) ==> v >= 0.0
  {
    var mag := Abs(x) + Abs(y) / 60.0 + Abs(z) / 3600.0;
    if AnyNegative(x, y, z) then -mag else mag
  }

  /** A Radian angle from degrees, arcminutes and arcseconds. */
  function DMSToAngle(d: DMS): (r: Angle)
    ensures r.unit == Radian && Deg(r) == SignedValue(d.deg, d.min, d.sec)
  {
    var v :=
      if d.deg < 0.0 || d.min < 0.0 || d.sec < 0.0 then
        -(Abs(d.deg) * RadianPerDegree + Abs(d.min) * RadianPerMinute + Abs(d.sec) * RadianPerSecond)
      else
        d.deg * RadianPerDegree + d.min * RadianPerMinute + d.sec * RadianPerSecond;
    Angle(Radian, v)
  }

  /** A Radian angle from hours, minutes and seconds of time. */
  function HMSToAngle(h: HMS): (r: Angle)
    ensures r.unit == Radian && Deg(r) == DegreePerHour * SignedValue(h.hr, h.min, h.sec)
  {
    var v :=
      if h.hr < 0.0 || h.min < 0.0 || h.sec < 0.0 then
        var decHrs := Abs(h.hr) + Abs(h.min) / MinutePerHour + Abs(h.sec) / SecondPerHour;
        -decHrs * DegreePerHour * RadianPerDegree
      else
        var decHrs := h.hr + h.min / MinutePerHour + h.sec / SecondPerHour;
        decHrs * DegreePerHour * RadianPerDegree;
    Angle(Radian, v)
  }

  /** One negative field makes the whole triple negative: {-1, 1, 1.1} is {-1, -1, -1.1}. */
  lemma WholeTripleSign(d: DMS, h: HMS)
    requires AnyNegative(d.deg, d.min, d.sec) && AnyNegative(h.hr, h.min, h.sec)
    ensures DMSToAngle(d) == DMSToAngle(DMS(-Abs(d.deg), -Abs(d.min), -Abs(d.sec)))
    ensures HMSToAngle(h) == HMSToAngle(HMS(-Abs(h.hr), -Abs(h.min), -Abs(h.sec)))
  {
  }

  predicate IsWhole(x: real)
  {
    x == x.Floor as real
  }

  /** Truncating a whole number, or its magnitude, loses nothing. */
  lemma WholeTrunc(x: real)
    requires IsWhole(x)
    ensures Trunc(x) as real == x && Trunc(Abs(x)) as real == Abs(x)
  {
    var k := x.Floor;
    assert x == k as real;
    assert (-x).Floor == -k;
  }

  /** A triple in normal form: whole leading field and minutes, one shared sign, minutes and seconds below 60. */
  predicate Normal(x: real, y: real, z: real)
  {
    && IsWhole(x) && IsWhole(y)
    && ((x >= 0.0 && y >= 0.0 && z >= 0.0) || (x <= 0.0 && y <= 0.0 && z <= 0.0))
    && Abs(y) < 60.0 && Abs(z) < 60.0
  }

  /** Splits a value into whole units, whole sixtieths and the remaining 3600ths, truncating toward zero. */
  function Split60(v: real): (t: (real, real, real))
    ensures Normal(t.0, t.1, t.2)
    ensures t.0 + t.1 / 60.0 + t.2 / 3600.0 == v
    ensures Abs(v) < Abs(t.0) + 1.0
  {
    var whole := Trunc(v) as real;
    var min := Trunc((v - whole) * 60.0) as real;
    var sec := (v - whole) * 3600.0 - min * 60.0;
    assert IsWhole(whole) && IsWhole(min);
    (whole, min, sec)
  }

  /** A normal triple is what Split60 makes of its own value. */
  lemma Split60Unique(x: real, y: real, z: real)
    requires Normal(x, y, z)
    ensures Split60(x + y / 60.0 + z / 3600.0) == (x, y, z)
  {
    var v := x + y / 60.0 + z / 3600.0;
    var f := y / 60.0 + z / 3600.0;
    if x >= 0.0 && y >= 0.0 && z >= 0.0 {
      assert y <= 59.0 by { assert y.Floor as real == y; }
      assert 0.0 <= f < 1.0;
      assert Trunc(v) == x.Floor;
      assert Trunc(f * 60.0) == y.Floor;
    } else {
      assert y >= -59.0 by { assert y.Floor as real == y; }
      assert -1.0 < f <= 0.0;
      assert Trunc(v) == x.Floor;
      assert Trunc(f * 60.0) == y.Floor;
    }
  }

  function AngleToDMS(a: Angle): (d: DMS)
    ensures Normal(d.deg, d.min, d.sec)
    ensures d.deg + d.min / 60.0 + d.sec / 3600.0 == Deg(a)
    ensures Abs(Deg(a)) < Abs(d.deg) + 1.0
  {
    var ad := ToDegree(a);
    var deg := Trunc(ad.value) as real;
    var min := Trunc((ad.value - deg) * MinutePerDegree) as real;
    var sec := (ad.value - deg) * SecondPerDegree - min * SecondPerMinute;
    assert (deg, min, sec) == Split60(ad.value);
    DMS(deg, min, sec)
  }

  function AngleToHMS(a: Angle): (h: HMS)
    ensures Normal(h.hr, h.min, h.sec)
    ensures DegreePerHour * (h.hr + h.min / 60.0 + h.sec / 3600.0) == Deg(a)
    ensures Abs(Deg(a)) < DegreePerHour * (Abs(h.hr) + 1.0)
  {
    var ah := ToHour(a);
    assert ah.value * DegreePerHour == Deg(a);
    var hr := Trunc(ah.value) as real;
    var min := Trunc((ah.value - hr) * MinutePerHour) as real;
    var sec := (ah.value - hr) * SecondPerHour - min * SecondPerMinute;
    assert (hr, min, sec) == Split60(ah.value);
    HMS(hr, min, sec)
  }

  /** For a normal triple the sign rule agrees with plain positional addition. */
  lemma NormalSignedValue(x: real, y: real, z: real)
    requires Normal(x, y, z)
    ensures SignedValue(x, y, z) == x + y / 60.0 + z / 3600.0
  {
  }

  /** Angle to DMS and back gives the angle in radians. */
  lemma DMSRoundTrip(a: Angle)
    ensures DMSToAngle(AngleToDMS(a)) == ToRadian(a)
  {
    var d := AngleToDMS(a);
    NormalSignedValue(d.deg, d.min, d.sec);
    assert Deg(DMSToAngle(d)) == Deg(a);
    assert Deg(ToRadian(a)) == Deg(a);
    SameUnitSameDegrees(DMSToAngle(d), ToRadian(a));
  }

  /** Angle to HMS and back gives the angle in radians. */
  lemma HMSRoundTrip(a: Angle)
    ensures HMSToAngle(AngleToHMS(a)) == ToRadian(a)
  {
    var h := AngleToHMS(a);
    NormalSignedValue(h.hr, h.min, h.sec);
    assert Deg(HMSToAngle(h)) == Deg(a);
    assert Deg(ToRadian(a)) == Deg(a);
    SameUnitSameDegrees(HMSToAngle(h), ToRadian(a));
  }

  /** A normal DMS triple is what the conversion from its angle produces. */
  lemma DMSNormalForm(d: DMS)
    requires Normal(d.deg, d.min, d.sec)
    ensures AngleToDMS(DMSToAngle(d)) == d
  {
    NormalSignedValue(d.deg, d.min, d.sec);
    Split60Unique(d.deg, d.min, d.sec);
    assert (d.deg, d.min, d.sec) == Split60(Deg(DMSToAngle(d)));
  }

  function DMSToHMS(d: DMS): (h: HMS)
    ensures Normal(h.hr, h.min, h.sec)
    ensures DegreePerHour * (h.hr + h.min / 60.0 + h.sec / 3600.0) == SignedValue(d.deg, d.min, d.sec)
  {
    AngleToHMS(DMSToAngle(d))
  }

  function HMSToDMS(h: HMS): (d: DMS)
    ensures Normal(d.deg, d.min, d.sec)
    ensures d.deg + d.min / 60.0 + d.sec / 3600.0 == DegreePerHour * SignedValue(h.hr, h.min, h.sec)
  {
    AngleToDMS(HMSToAngle(h))
  }

  /** DMS{-15, 1, 1.1} is HMS{-1, 0, -4.0733...}: the sign rule, then truncation. */
  lemma DMSToHMSExample()
    ensures DMSToHMS(DMS(-15.0, 1.0, 1.1)) == HMS(-1.0, 0.0, -61.1 / 15.0)
  {
    var a := DMSToAngle(DMS(-15.0, 1.0, 1.1));
    assert Deg(a) == -(15.0 + 1.0 / 60.0 + 1.1 / 3600.0);
    var ah := ToHour(a);
    assert ah.value == -1.0 - 61.1 / 54000.0;
    assert Trunc(ah.value) == -1;
    assert Trunc((ah.value + 1.0) * 60.0) == 0;
  }

  function NewAngleDMS(s: string, parseFloat: string -> Option<real>): (r: Result<Angle, SexagesimalError>)
    requires |Split(s, ':')| == 3 ==> Split(s, ':')[0] != []
    ensures r.Ok? <==> NewDMS(s, parseFloat).Ok?
    ensures r.Ok? ==> r.value.unit == Radian
    ensures r.Ok? ==> var d := NewDMS(s, parseFloat).value; Deg(r.value) == SignedValue(d.deg, d.min, d.sec)
  {
    match NewDMS(s, parseFloat)
    case Err(e) => Err(e)
    case Ok(dms) => Ok(DMSToAngle(dms))
  }

  function NewAngleHMS(s: string, parseFloat: string -> Option<real>): (r: Result<Angle, SexagesimalError>)
    requires |Split(s, ':')| == 3 ==> Split(s, ':')[0] != []
    ensures r.Ok? <==> NewHMS(s, parseFloat).Ok?
    ensures r.Ok? ==> r.value.unit == Radian
    ensures r.Ok? ==> var h := NewHMS(s, parseFloat).value; Deg(r.value) == DegreePerHour * SignedValue(h.hr, h.min, h.sec)
  {
    match NewHMS(s, parseFloat)
    case Err(e) => Err(e)
    case Ok(hms) => Ok(HMSToAngle(hms))
  }

  // Printing.

  /**
   * The "%.2d:%.2d:%07.4f" layout shared by DMS and HMS, with secFmt standing
   * for the seconds field; a triple with any negative field prints as '-'
   * followed by the absolute values.
   */
  function TripleString(x: real, y: real, z: real, secFmt: real -> string): (s: string)
    ensures |s| > 0
    ensures s[0] == '-' <==> AnyNegative(x, y, z)
  {
    if x < 0.0 || y < 0.0 || z < 0.0 then
      "-" + Pad2(Trunc(Abs(x))) + ":" + Pad2(Trunc(Abs(y))) + ":" + secFmt(Abs(z))
    else
      Pad2(Trunc(x)) + ":" + Pad2(Trunc(y)) + ":" + secFmt(z)
  }

  function DMSUnitString(d: DMS, secFmt: real -> string): (s: string)
    ensures |s| > 0 && (s[0] == '-' <==> AnyNegative(d.deg, d.min, d.sec))
  {
    TripleString(d.deg, d.min, d.sec, secFmt)
  }

  function HMSUnitString(h: HMS, secFmt: real -> string): (s: string)
    ensures |s| > 0 && (s[0] == '-' <==> AnyNegative(h.hr, h.min, h.sec))
  {
    TripleString(h.hr, h.min, h.sec, secFmt)
  }

  function SexagesimalDMS(a: Angle, secFmt: real -> string): (s: string)
    ensures |s| > 0 && (s[0] == '-' <==> Deg(a) < 0.0 || AngleToDMS(a).sec < 0.0)
  {
    DMSUnitString(AngleToDMS(a), secFmt)
  }

  function SexagesimalHMS(a: Angle, secFmt: real -> string): (s: string)
    ensures |s| > 0 && (s[0] == '-' <==> Deg(a) < 0.0 || AngleToHMS(a).sec < 0.0)
  {
    HMSUnitString(AngleToHMS(a), secFmt)
  }

  /** The parser reads every zero-padded whole field back as its number. */
  ghost predicate ReadsWholeFields(parseFloat: string -> Option<real>)
  {
    forall n: nat :: parseFloat(Pad2(n)) == Some(n as real)
  }

  /** The seconds field of a printed triple: separator-free, and parsing back as r. */
  ghost predicate SecondsRead(parseFloat: string -> Option<real>, secFmt: real -> string, z: real, r: real)
  {
    ':' !in secFmt(Abs(z)) && parseFloat(secFmt(Abs(z))) == Some(r)
  }

  /** The seconds a printed triple reads back with: r, under the triple's sign. */
  function SignedSeconds(x: real, y: real, z: real, r: real): (s: real)
    ensures AnyNegative(x, y, z) ==> s == -r
    ensures !AnyNegative(x, y, z) ==> s == r
  {
    if AnyNegative(x, y, z) then -r else r
  }

  lemma Pad2Field(n: nat)
    ensures ':' !in Pad2(n) && Pad2(n)[0] != '+' && Pad2(n)[0] != '-'
  {
    var p := Pad2(n);
    assert forall i :: 0 <= i < |p| ==> p[i] != ':';
  }

  /** The pieces of a printed triple and the text they make. */
  lemma TriplePieces(x: real, y: real, z: real, secFmt: real -> string)
    requires ':' !in secFmt(Abs(z))
    ensures var s := TripleString(x, y, z, secFmt);
      if AnyNegative(x, y, z) then
        Split(s, ':') == ["-" + Pad2(Trunc(Abs(x))), Pad2(Trunc(Abs(y))), secFmt(Abs(z))]
      else
        Split(s, ':') == [Pad2(Trunc(x)), Pad2(Trunc(y)), secFmt(z)]
  {
    var s := TripleString(x, y, z, secFmt);
    if AnyNegative(x, y, z) {
      var a, b, c := "-" + Pad2(Trunc(Abs(x))), Pad2(Trunc(Abs(y))), secFmt(Abs(z));
      Pad2Field(Trunc(Abs(x)));
      Pad2Field(Trunc(Abs(y)));
      assert ':' !in a;
      assert s == a + [':'] + b + [':'] + c;
      SplitThree(a, b, c, ':');
    } else {
      var a, b, c := Pad2(Trunc(x)), Pad2(Trunc(y)), secFmt(z);
      assert Abs(z) == z;
      Pad2Field(Trunc(x));
      Pad2Field(Trunc(y));
      assert s == a + [':'] + b + [':'] + c;
      SplitThree(a, b, c, ':');
    }
  }

  /** s splits into three fields that parse, with the first token's sign, to x, y and z. */
  ghost predicate FieldsRead(s: string, parseFloat: string -> Option<real>, x: real, y: real, z: real)
  {
    var t := Split(s, ':');
    && |t| == 3 && t[0] != []
    && parseFloat(Unsigned(t[0])) == Some(SignFactor(t[0]) * x)
    && parseFloat(t[1]) == Some(SignFactor(t[0]) * y)
    && parseFloat(t[2]) == Some(SignFactor(t[0]) * z)
  }

  /**
   * The fields of a printed triple, as ParseSexagesimal reads them: the
   * whole fields give x and y back, the seconds field gives what its text
   * parses to.
   */
  lemma TripleFieldsRead(x: real, y: real, z: real, parseFloat: string -> Option<real>, secFmt: real -> string, r: real)
    requires ReadsWholeFields(parseFloat) && SecondsRead(parseFloat, secFmt, z, r)
    requires Normal(x, y, z)
    ensures FieldsRead(TripleString(x, y, z, secFmt), parseFloat, x, y, SignedSeconds(x, y, z, r))
  {
    if AnyNegative(x, y, z) {
      NegativeFieldsRead(x, y, z, parseFloat, secFmt, r);
    } else {
      PositiveFieldsRead(x, y, z, parseFloat, secFmt, r);
    }
  }

  lemma NegativeFieldsRead(x: real, y: real, z: real, parseFloat: string -> Option<real>, secFmt: real -> string, r: real)
    requires ReadsWholeFields(parseFloat) && SecondsRead(parseFloat, secFmt, z, r)
    requires Normal(x, y, z) && AnyNegative(x, y, z)
    ensures FieldsRead(TripleString(x, y, z, secFmt), parseFloat, x, y, -r)
  {
    var m, n := Trunc(Abs(x)), Trunc(Abs(y));
    TriplePieces(x, y, z, secFmt);
    WholeTrunc(x);
    WholeTrunc(y);
    assert m as real == -x && n as real == -y;
    assert parseFloat(Pad2(m)) == Some(-x);
    assert parseFloat(Pad2(n)) == Some(-y);
    MinusFieldsRead(TripleString(x, y, z, secFmt), Pad2(m), Pad2(n), secFmt(Abs(z)), parseFloat, x, y, -r);
  }

  lemma PositiveFieldsRead(x: real, y: real, z: real, parseFloat: string -> Option<real>, secFmt: real -> string, r: real)
    requires ReadsWholeFields(parseFloat) && SecondsRead(parseFloat, secFmt, z, r)
    requires Normal(x, y, z) && !AnyNegative(x, y, z)
    ensures FieldsRead(TripleString(x, y, z, secFmt), parseFloat, x, y, r)
  {
    var m, n := Trunc(x), Trunc(y);
    TriplePieces(x, y, z, secFmt);
    Pad2Field(m);
    WholeTrunc(x);
    WholeTrunc(y);
    assert Abs(z) == z;
    assert parseFloat(Pad2(m)) == Some(m as real);
    assert parseFloat(Pad2(n)) == Some(n as real);
    PlainFieldsRead(TripleString(x, y, z, secFmt), Pad2(m), Pad2(n), secFmt(z), parseFloat, x, y, r);
  }

  /** A token printed with a minus sign: its sign factor is -1 and the rest is what was printed. */
  lemma MinusToken(p: string)
    ensures SignFactor("-" + p) == -1.0 && Unsigned("-" + p) == p
  {
    assert ("-" + p)[1..] == p;
  }

  /** Three tokens, the first printed with a minus sign, whose numbers are -x, -y and -z. */
  lemma MinusFieldsRead(s: string, a: string, b: string, c: string, parseFloat: string -> Option<real>, x: real, y: real, z: real)
    requires Split(s, ':') == ["-" + a, b, c]
    requires parseFloat(a) == Some(-x) && parseFloat(b) == Some(-y) && parseFloat(c) == Some(-z)
    ensures FieldsRead(s, parseFloat, x, y, z)
  {
    MinusToken(a);
    assert -1.0 * x == -x && -1.0 * y == -y && -1.0 * z == -z;
  }

  /** Three tokens, the first unsigned and non-empty, whose numbers are x, y and z. */
  lemma PlainFieldsRead(s: string, a: string, b: string, c: string, parseFloat: string -> Option<real>, x: real, y: real, z: real)
    requires Split(s, ':') == [a, b, c] && a != [] && a[0] != '+' && a[0] != '-'
    requires parseFloat(a) == Some(x) && parseFloat(b) == Some(y) && parseFloat(c) == Some(z)
    ensures FieldsRead(s, parseFloat, x, y, z)
  {
    assert SignFactor(a) == 1.0 && Unsigned(a) == a;
    assert 1.0 * x == x && 1.0 * y == y && 1.0 * z == z;
  }

  /** Three fields that parse, carrying the first token's sign, read back as the triple. */
  lemma ParseSexagesimalFields(s: string, parseFloat: string -> Option<real>, x: real, y: real, z: real)
    requires FieldsRead(s, parseFloat, x, y, z)
    ensures ParseSexagesimal(s, parseFloat) == Ok((x, y, z))
  {
    var t := Split(s, ':');
    var f := SignFactor(t[0]);
    assert f * (f * x) == x && f * (f * y) == y && f * (f * z) == z;
    var r := ParseSexagesimal(s, parseFloat);
    assert r.value.0 == x && r.value.1 == y && r.value.2 == z;
  }

  /**
   * A normal triple printed and parsed again: the whole fields come back
   * as they were, the seconds as their printed text reads, under the
   * triple's sign; seconds that read back exactly give the same triple.
   */
  lemma TripleRoundTrip(x: real, y: real, z: real, parseFloat: string -> Option<real>, secFmt: real -> string, r: real)
    requires ReadsWholeFields(parseFloat) && SecondsRead(parseFloat, secFmt, z, r)
    requires Normal(x, y, z)
    ensures var s := TripleString(x, y, z, secFmt);
      |Split(s, ':')| == 3 && Split(s, ':')[0] != []
      && ParseSexagesimal(s, parseFloat) == Ok((x, y, SignedSeconds(x, y, z, r)))
    ensures r == Abs(z) ==> ParseSexagesimal(TripleString(x, y, z, secFmt), parseFloat) == Ok((x, y, z))
  {
    TripleFieldsRead(x, y, z, parseFloat, secFmt, r);
    ParseSexagesimalFields(TripleString(x, y, z, secFmt), parseFloat, x, y, SignedSeconds(x, y, z, r));
  }

  /**
   * Printing an angle in DMS and parsing it back gives its degrees and
   * arcminutes, and the arcseconds its seconds text reads as; when that
   * text reads back exactly, the same DMS and the same angle.
   */
  lemma SexagesimalDMSRoundTrip(a: Angle, parseFloat: string -> Option<real>, secFmt: real -> string, r: real)
    requires ReadsWholeFields(parseFloat) && SecondsRead(parseFloat, secFmt, AngleToDMS(a).sec, r)
    ensures var s := SexagesimalDMS(a, secFmt);
      |Split(s, ':')| == 3 && Split(s, ':')[0] != []
    ensures var d := AngleToDMS(a);
      NewDMS(SexagesimalDMS(a, secFmt), parseFloat) == Ok(DMS(d.deg, d.min, SignedSeconds(d.deg, d.min, d.sec, r)))
    ensures r == Abs(AngleToDMS(a).sec) ==>
      && NewDMS(SexagesimalDMS(a, secFmt), parseFloat) == Ok(AngleToDMS(a))
      && NewAngleDMS(SexagesimalDMS(a, secFmt), parseFloat) == Ok(ToRadian(a))
  {
    var d := AngleToDMS(a);
    TripleRoundTrip(d.deg, d.min, d.sec, parseFloat, secFmt, r);
    DMSRoundTrip(a);
  }

  /**
   * Printing an angle in HMS and parsing it back gives its hours and
   * minutes, and the seconds its seconds text reads as; when that text
   * reads back exactly, the same HMS and the same angle.
   */
  lemma SexagesimalHMSRoundTrip(a: Angle, parseFloat: string -> Option<real>, secFmt: real -> string, r: real)
    requires ReadsWholeFields(parseFloat) && SecondsRead(parseFloat, secFmt, AngleToHMS(a).sec, r)
    ensures var s := SexagesimalHMS(a, secFmt);
      |Split(s, ':')| == 3 && Split(s, ':')[0] != []
    ensures var h := AngleToHMS(a);
      NewHMS(SexagesimalHMS(a, secFmt), parseFloat) == Ok(HMS(h.hr, h.min, SignedSeconds(h.hr, h.min, h.sec, r)))
    ensures r == Abs(AngleToHMS(a).sec) ==>
      && NewHMS(SexagesimalHMS(a, secFmt), parseFloat) == Ok(AngleToHMS(a))
      && NewAngleHMS(SexagesimalHMS(a, secFmt), parseFloat) == Ok(ToRadian(a))
  {
    var h := AngleToHMS(a);
    TripleRoundTrip(h.hr, h.min, h.sec, parseFloat, secFmt, r);
    HMSRoundTrip(a);
  }

  // The round trips with the %07.4f formatter and the decimal parser.

  lemma ParseDecimalReadsWholeFields()
    ensures ReadsWholeFields(ParseDecimal)
  {
    forall n: nat
      ensures ParseDecimal(Pad2(n)) == Some(n as real)
    {
      ParseDecimalPad2(n);
    }
  }

  /** Printed with %07.4f, the seconds field reads back as the seconds' magnitude rounded to four decimals. */
  lemma Fixed4SecondsRead(z: real)
    ensures SecondsRead(ParseDecimal, Fixed4, z, Round4(Abs(z)))
  {
    Fixed4ReadsBack(Abs(z));
  }

  /** The printed seconds are within half a unit of the fourth decimal of the seconds, and exact at four decimals. */
  lemma RoundedSecondsClose(x: real, y: real, z: real)
    requires Normal(x, y, z)
    ensures var s := SignedSeconds(x, y, z, Round4(Abs(z)));
      -0.00005 <= s - z <= 0.00005
      && ((x >= 0.0 && y >= 0.0 && s >= 0.0) || (x <= 0.0 && y <= 0.0 && s <= 0.0))
    ensures FourPlaces(z) ==> SignedSeconds(x, y, z, Round4(Abs(z))) == z
  {
    if FourPlaces(z) && z < 0.0 {
      FourPlacesNegate(z);
    }
  }

  lemma FourPlacesNegate(z: real)
    requires FourPlaces(z)
    ensures FourPlaces(-z)
  {
    var t := z * 10000.0;
    assert (-z) * 10000.0 == -t;
    assert (-t).Floor == -(t.Floor);
  }

  /** A triple whose fields share one sign has the signed value of its plain sum. */
  lemma SharedSignValue(x: real, y: real, z: real)
    requires (x >= 0.0 && y >= 0.0 && z >= 0.0) || (x <= 0.0 && y <= 0.0 && z <= 0.0)
    ensures SignedValue(x, y, z) == x + y / 60.0 + z / 3600.0
  {
  }

  /**
   * An angle printed in DMS with %07.4f seconds and parsed with the
   * decimal parser: degrees and arcminutes come back, the arcseconds
   * within 0.00005 (exactly when they have four decimals), and the angle
   * within 0.00005 arcseconds.
   */
  lemma PrintedDMSReadsBack(a: Angle)
    ensures var d, s := AngleToDMS(a), SexagesimalDMS(a, Fixed4);
      && |Split(s, ':')| == 3 && Split(s, ':')[0] != []
      && NewDMS(s, ParseDecimal).Ok?
      && var e := NewDMS(s, ParseDecimal).value;
      && e.deg == d.deg && e.min == d.min && -0.00005 <= e.sec - d.sec <= 0.00005
      && (FourPlaces(d.sec) ==> e == d)
    ensures var s := SexagesimalDMS(a, Fixed4);
      NewAngleDMS(s, ParseDecimal).Ok?
      && -0.00005 / 3600.0 <= Deg(NewAngleDMS(s, ParseDecimal).value) - Deg(a) <= 0.00005 / 3600.0
  {
    var d := AngleToDMS(a);
    var r := Round4(Abs(d.sec));
    ParseDecimalReadsWholeFields();
    Fixed4SecondsRead(d.sec);
    SexagesimalDMSRoundTrip(a, ParseDecimal, Fixed4, r);
    RoundedSecondsClose(d.deg, d.min, d.sec);
    var e := SignedSeconds(d.deg, d.min, d.sec, r);
    SharedSignValue(d.deg, d.min, e);
    assert SignedValue(d.deg, d.min, e) - Deg(a) == (e - d.sec) / 3600.0;
  }

  /**
   * An angle printed in HMS with %07.4f seconds and parsed with the
   * decimal parser: hours and minutes come back, the seconds within
   * 0.00005 (exactly when they have four decimals), and the angle within
   * 0.00005 seconds of time.
   */
  lemma PrintedHMSReadsBack(a: Angle)
    ensures var h, s := AngleToHMS(a), SexagesimalHMS(a, Fixed4);
      && |Split(s, ':')| == 3 && Split(s, ':')[0] != []
      && NewHMS(s, ParseDecimal).Ok?
      && var e := NewHMS(s, ParseDecimal).value;
      && e.hr == h.hr && e.min == h.min && -0.00005 <= e.sec - h.sec <= 0.00005
      && (FourPlaces(h.sec) ==> e == h)
    ensures var s := SexagesimalHMS(a, Fixed4);
      NewAngleHMS(s, ParseDecimal).Ok?
      && -DegreePerHour * 0.00005 / 3600.0 <= Deg(NewAngleHMS(s, ParseDecimal).value) - Deg(a)
         <= DegreePerHour * 0.00005 / 3600.0
  {
    var h := AngleToHMS(a);
    var r := Round4(Abs(h.sec));
    ParseDecimalReadsWholeFields();
    Fixed4SecondsRead(h.sec);
    SexagesimalHMSRoundTrip(a, ParseDecimal, Fixed4, r);
    RoundedSecondsClose(h.hr, h.min, h.sec);
    var e := SignedSeconds(h.hr, h.min, h.sec, r);
    SharedSignValue(h.hr, h.min, e);
    assert SignedValue(h.hr, h.min, e) - Deg(a) / DegreePerHour == (e - h.sec) / 3600.0;
  }

  lemma ParseDecimalSeconds()
    ensures ParseDecimal("03.123") == Some(3.123)
  {
    var s := "03.123";
    assert IndexOf(s, '.') == 2;
    assert s[..2] == "03" && s[3..] == "123";
    assert ParseNat("03") == 3 by {
      assert "03"[..1] == "0";
    }
    assert FracValue("123") == 0.123 by {
      assert "123"[1..] == "23" && "23"[1..] == "3" && "3"[1..] == [];
    }
  }

  lemma ParseDecimalTwoDigits()
    ensures ParseDecimal("01") == Some(1.0) && ParseDecimal("02") == Some(2.0)
  {
    ParseDecimalPad2(1);
    ParseDecimalPad2(2);
    assert Pad2(1) == "01" && Pad2(2) == "02";
  }

  lemma NegativeExampleSplit()
    ensures Split("-01:02:03.123", ':') == ["-01", "02", "03.123"]
  {
    assert "-01:02:03.123" == "-01" + [':'] + "02" + [':'] + "03.123";
    SplitThree("-01", "02", "03.123", ':');
  }

  lemma PositiveExampleSplit()
    ensures Split("+01:02:03.123", ':') == ["+01", "02", "03.123"]
  {
    assert "+01:02:03.123" == "+01" + [':'] + "02" + [':'] + "03.123";
    SplitThree("+01", "02", "03.123", ':');
  }

  /** "-01:02:03.123" reads as {-1, -2, -3.123}: the leading '-' negates every field. */
  lemma NewHMSNegativeExample(s: string)
    requires s == "-01:02:03.123"
    ensures NewHMS(s, ParseDecimal) == Ok(HMS(-1.0, -2.0, -3.123))
  {
    NegativeExampleSplit();
    ParseDecimalSeconds();
    ParseDecimalTwoDigits();
    var t := Split(s, ':');
    assert t[0] == "-01" && t[1] == "02" && t[2] == "03.123";
    assert SignFactor(t[0]) == -1.0 && Unsigned(t[0]) == "01";
    assert FieldsRead(s, ParseDecimal, -1.0, -2.0, -3.123);
    ParseSexagesimalFields(s, ParseDecimal, -1.0, -2.0, -3.123);
  }

  /** "+01:02:03.123" reads as {1, 2, 3.123}: a leading '+' is dropped. */
  lemma NewHMSPositiveExample(s: string)
    requires s == "+01:02:03.123"
    ensures NewHMS(s, ParseDecimal) == Ok(HMS(1.0, 2.0, 3.123))
  {
    PositiveExampleSplit();
    ParseDecimalSeconds();
    ParseDecimalTwoDigits();
    var t := Split(s, ':');
    assert t[0] == "+01" && t[1] == "02" && t[2] == "03.123";
    assert SignFactor(t[0]) == 1.0 && Unsigned(t[0]) == "01";
    assert FieldsRead(s, ParseDecimal, 1.0, 2.0, 3.123);
    ParseSexagesimalFields(s, ParseDecimal, 1.0, 2.0, 3.123);
  }
}
