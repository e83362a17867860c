/**
 * The angle algebra of astrounit: a value tagged with a unit, conversions
 * that all go through radians, radian arithmetic, degree comparisons,
 * in-place clamping, and the mapping of an azimuth onto cable-wrap planes.
 */
module Angles {
  import opened Wrappers
  import opened Numeric
  import opened Constants

  /** The Go AngleUnit enumeration; UnsetUnit is the zero value and every code no switch names. */
  datatype AngleUnit =
    | UnsetUnit
    | Radian
    | Degree
    | MilliRadian
    | ArcMinute
    | ArcSecond
    | MilliArcSecond
    | Hour

  datatype Angle = Angle(unit: AngleUnit, value: real)

  datatype AngleError = DivisionByZero

  /**
   * Reference measure of each unit in radians, written from the unit
   * definitions rather than from the conversion code.
   */
  function RadiansPerUnit(u: AngleUnit): (f: real)
    ensures u != UnsetUnit <==> f > 0.0
    ensures u == UnsetUnit ==> f == 0.0
  {
    match u
    case UnsetUnit => 0.0
    case Radian => 1.0
    case Degree => Pi / 180.0
    case MilliRadian => 1.0 / 1000.0
    case ArcMinute => Pi / 10800.0
    case ArcSecond => Pi / 648000.0
    case MilliArcSecond => Pi / 648000000.0
    case Hour => Pi / 12.0
  }

  /** The size of an angle in radians, by the reference measure. */
  function Rad(a: Angle): (r: real)
    ensures r == a.value * RadiansPerUnit(a.unit)
  {
    match a.unit
    case UnsetUnit => 0.0
    case Radian => a.value
    case Degree => a.value * (Pi / 180.0)
    case MilliRadian => a.value * (1.0 / 1000.0)
    case ArcMinute => a.value * (Pi / 10800.0)
    case ArcSecond => a.value * (Pi / 648000.0)
    case MilliArcSecond => a.value * (Pi / 648000000.0)
    case Hour => a.value * (Pi / 12.0)
  }

  /** The size of an angle in degrees, by the reference measure. */
  function Deg(a: Angle): (d: real)
    ensures d * RadianPerDegree == Rad(a)
  {
    Rad(a) / RadianPerDegree
  }

  /** A Degree angle measures its own value in degrees. */
  lemma DegreeValue(x: real)
    ensures Deg(Angle(Degree, x)) == x
  {
    var d := Deg(Angle(Degree, x));
    assert d * RadianPerDegree == x * RadianPerDegree;
    assert (d - x) * RadianPerDegree == 0.0;
  }

  function NewAngle(au: AngleUnit, v: real): (a: Angle)
    ensures a.unit == au && a.value == v
  {
    Angle(au, v)
  }

  function ToRadian(a: Angle): (r: Angle)
    ensures r.unit == Radian && r.value == Rad(a)
  {
    var v :=
      match a.unit
      case Radian => a.value
      case MilliRadian => a.value / MilliRadianPerRadian
      case Degree => a.value * RadianPerDegree
      case ArcMinute => a.value / ArcMinutePerDegree * RadianPerDegree
      case ArcSecond => a.value / ArcSecondPerDegree * RadianPerDegree
      case MilliArcSecond => a.value / ArcSecondPerDegree * RadianPerDegree / 1000.0
      case Hour => a.value * DegreePerHour * RadianPerDegree
      case UnsetUnit => 0.0;
    Angle(Radian, v)
  }

  function ToMilliRadian(a: Angle): (r: Angle)
    ensures r.unit == MilliRadian && Rad(r) == Rad(a)
  {
    var ar := ToRadian(a);
    Angle(MilliRadian, ar.value * MilliRadianPerRadian)
  }

  function ToDegree(a: Angle): (r: Angle)
    ensures r.unit == Degree && Rad(r) == Rad(a) && r.value == Deg(a)
  {
    var ar := ToRadian(a);
    Angle(Degree, ar.value / RadianPerDegree)
  }

  function ToHour(a: Angle): (r: Angle)
    ensures r.unit == Hour && Rad(r) == Rad(a)
  {
    var ad := ToDegree(a);
    Angle(Hour, ad.value / DegreePerHour)
  }

  function ToArcMinute(a: Angle): (r: Angle)
    ensures r.unit == ArcMinute && Rad(r) == Rad(a)
  {
    var ad := ToDegree(a);
    Angle(ArcMinute, ad.value * ArcMinutePerDegree)
  }

  function ToArcSecond(a: Angle): (r: Angle)
    ensures r.unit == ArcSecond && Rad(r) == Rad(a)
  {
    var ad := ToDegree(a);
    Angle(ArcSecond, ad.value * ArcSecondPerDegree)
  }

  function ToMilliArcSecond(a: Angle): (r: Angle)
    ensures r.unit == MilliArcSecond && Rad(r) == Rad(a)
  {
    var ad := ToDegree(a);
    Angle(MilliArcSecond, ad.value * MilliArcSecondPerDegree)
  }

  /** Dispatches to the conversion method of the named unit. */
  function ConvertTo(a: Angle, u: AngleUnit): (r: Angle)
    requires u != UnsetUnit
    ensures r.unit == u && Rad(r) == Rad(a)
  {
    match u
    case Radian => ToRadian(a)
    case Degree => ToDegree(a)
    case MilliRadian => ToMilliRadian(a)
    case ArcMinute => ToArcMinute(a)
    case ArcSecond => ToArcSecond(a)
    case MilliArcSecond => ToMilliArcSecond(a)
    case Hour => ToHour(a)
  }

  /** Two angles of the same set unit with the same radian size are the same angle. */
  lemma SameUnitSameRadians(a: Angle, b: Angle)
    requires a.unit == b.unit && a.unit != UnsetUnit
    requires Rad(a) == Rad(b)
    ensures a == b
  {
  }

  /** Two angles of the same set unit with the same degree size are the same angle. */
  lemma SameUnitSameDegrees(a: Angle, b: Angle)
    requires a.unit == b.unit && a.unit != UnsetUnit
    requires Deg(a) == Deg(b)
    ensures a == b
  {
    assert Rad(a) == Deg(a) * RadianPerDegree;
    assert Rad(b) == Deg(b) * RadianPerDegree;
    SameUnitSameRadians(a, b);
  }

  /** Converting to any unit and back gives the original angle. */
  lemma ConversionRoundTrip(a: Angle, u: AngleUnit)
    requires a.unit != UnsetUnit && u != UnsetUnit
    ensures ConvertTo(ConvertTo(a, u), a.unit) == a
  {
    SameUnitSameRadians(ConvertTo(ConvertTo(a, u), a.unit), a);
  }

  /** An angle of the unset unit converts to zero in every unit. */
  lemma UnsetConvertsToZero(a: Angle, u: AngleUnit)
    requires a.unit == UnsetUnit && u != UnsetUnit
    ensures ConvertTo(a, u).value == 0.0
  {
    var r := ConvertTo(a, u);
    assert r.value * RadiansPerUnit(u) == 0.0;
  }

  function UnitString(a: Angle): (s: string)
    ensures s == "" <==> a.unit == UnsetUnit
  {
    match a.unit
    case Radian => "rad"
    case Degree => "deg"
    case MilliRadian => "mrad"
    case ArcMinute => "arcmin"
    case ArcSecond => "arcsec"
    case MilliArcSecond => "mas"
    case Hour => "hr"
    case UnsetUnit => ""
  }

  /** Distinct units print distinct names. */
  lemma UnitStringInjective(a: Angle, b: Angle)
    requires UnitString(a) == UnitString(b)
    ensures a.unit == b.unit
  {
  }

  // Arithmetic: every result is a Radian angle computed on radian values.

  function Add(a: Angle, b: Angle): (r: Angle)
    ensures r.unit == Radian && Rad(r) == Rad(a) + Rad(b)
  {
    NewAngle(Radian, ToRadian(a).value + ToRadian(b).value)
  }

  function Sub(a: Angle, b: Angle): (r: Angle)
    ensures r.unit == Radian && Rad(r) == Rad(a) - Rad(b)
  {
    NewAngle(Radian, ToRadian(a).value - ToRadian(b).value)
  }

  /** Degrees of a difference are the difference of the degrees. */
  lemma DegreeDifference(a: Angle, b: Angle)
    ensures Deg(Sub(a, b)) == Deg(a) - Deg(b)
  {
    var d := Sub(a, b);
    assert Deg(d) * RadianPerDegree == Rad(a) - Rad(b);
    assert (Deg(a) - Deg(b)) * RadianPerDegree == Rad(a) - Rad(b);
    assert (Deg(d) - (Deg(a) - Deg(b))) * RadianPerDegree == 0.0;
  }

  /** Comparing radians is comparing degrees. */
  lemma DegreeOrder(a: Angle, b: Angle)
    ensures Rad(a) > Rad(b) <==> Deg(a) > Deg(b)
    ensures Rad(a) < Rad(b) <==> Deg(a) < Deg(b)
  {
    assert Rad(a) == Deg(a) * RadianPerDegree && Rad(b) == Deg(b) * RadianPerDegree;
    assert Rad(a) - Rad(b) == (Deg(a) - Deg(b)) * RadianPerDegree;
  }

  /** Subtracting what was added gives back the first angle in radians. */
  lemma AddSubInverse(a: Angle, b: Angle)
    ensures Sub(Add(a, b), b) == ToRadian(a)
  {
  }

  function Scale(a: Angle, k: real): (r: Angle)
    ensures r.unit == Radian && Rad(r) == Rad(a) * k
  {
    NewAngle(Radian, ToRadian(a).value * k)
  }

  /** A quotient of reals, which multiplied by the divisor gives the dividend back. */
  function Ratio(x: real, y: real): (q: real)
    requires y != 0.0
    ensures q * y == x
  {
    x / y
  }

  /** The ratio of two angles; Go yields an infinity or NaN for a zero divisor, which is left out. */
  function Normalize(a: Angle, b: Angle): (q: real)
    requires Rad(b) != 0.0
    ensures q * Rad(b) == Rad(a)
  {
    Ratio(ToRadian(a).value, ToRadian(b).value)
  }

  function Div(a: Angle, k: real): (r: Result<Angle, AngleError>)
    ensures r.Err? <==> k == 0.0
    ensures r.Ok? ==> r.value.unit == Radian && Rad(r.value) * k == Rad(a)
  {
    if k == 0.0 then Err(DivisionByZero)
    else Ok(NewAngle(Radian, ToRadian(a).value / k))
  }

  /** Dividing by k undoes scaling by k. */
  lemma ScaleDivInverse(a: Angle, k: real)
    requires k != 0.0
    ensures Div(Scale(a, k), k) == Ok(ToRadian(a))
  {
    var r := Div(Scale(a, k), k);
    assert r.value.value * k == ToRadian(a).value * k;
  }

  function AbsAngle(a: Angle): (r: Angle)
    ensures r.unit == Radian && r.value >= 0.0
    ensures r.value == Rad(a) || r.value == -Rad(a)
  {
    NewAngle(Radian, Abs(ToRadian(a).value))
  }

  /** The magnitude of a with the sign of b (a zero b counts as positive). */
  function Sign(a: Angle, b: real): (r: Angle)
    ensures r.unit == Radian
    ensures Abs(r.value) == Abs(Rad(a))
    ensures b < 0.0 ==> r.value <= 0.0
    ensures b >= 0.0 ==> r.value >= 0.0
  {
    var absv := Abs(ToRadian(a).value);
    var sign := if b < 0.0 then -1.0 else 1.0;
    NewAngle(Radian, absv * sign)
  }

  /** The reduction function m, or Go's nil function value as None. */
  function AddModulo(a: Angle, b: Angle, m: Option<real -> real>): (r: Angle)
    ensures r.unit == Radian
    ensures m.None? ==> r.value == 0.0
    ensures m.Some? ==> r.value == m.value(Rad(a) + Rad(b))
  {
    var v := ToRadian(Add(a, b)).value;
    var vv := if m.Some? then m.value(v) else 0.0;
    NewAngle(Radian, vv)
  }

  function SubModulo(a: Angle, b: Angle, m: Option<real -> real>): (r: Angle)
    ensures r.unit == Radian
    ensures m.None? ==> r.value == 0.0
    ensures m.Some? ==> r.value == m.value(Rad(a) - Rad(b))
  {
    var v := ToRadian(Sub(a, b)).value;
    var vv := if m.Some? then m.value(v) else 0.0;
    NewAngle(Radian, vv)
  }

  // Comparisons are made on degree values; they agree with the radian sizes.

  predicate GreaterThan(a: Angle, b: Angle)
    ensures GreaterThan(a, b) <==> Rad(a) > Rad(b)
  {
    ToDegree(a).value > ToDegree(b).value
  }

  predicate GreaterThanEqual(a: Angle, b: Angle)
    ensures GreaterThanEqual(a, b) <==> Rad(a) >= Rad(b)
  {
    ToDegree(a).value >= ToDegree(b).value
  }

  predicate LessThan(a: Angle, b: Angle)
    ensures LessThan(a, b) <==> Rad(a) < Rad(b)
  {
    ToDegree(a).value < ToDegree(b).value
  }

  predicate LessThanEqual(a: Angle, b: Angle)
    ensures LessThanEqual(a, b) <==> Rad(a) <= Rad(b)
  {
    ToDegree(a).value <= ToDegree(b).value
  }

  predicate Equal(a: Angle, b: Angle)
    ensures Equal(a, b) <==> Rad(a) == Rad(b)
  {
    ToDegree(a).value == ToDegree(b).value
  }

  /** Exactly one of less, equal and greater holds between two angles. */
  lemma Trichotomy(a: Angle, b: Angle)
    ensures LessThan(a, b) || Equal(a, b) || GreaterThan(a, b)
    ensures !(LessThan(a, b) && GreaterThan(a, b))
    ensures Equal(a, b) <==> LessThanEqual(a, b) && GreaterThanEqual(a, b)
  {
  }

  // Clamping in place.

  /** The angle a clamp of a into [mina, maxa] leaves behind. */
  function Constrained(a: Angle, mina: Angle, maxa: Angle): (r: Angle)
    ensures Deg(a) > Deg(maxa) ==> r == maxa
    ensures Deg(a) <= Deg(maxa) && Deg(a) < Deg(mina) ==> r == mina
    ensures Deg(mina) <= Deg(a) <= Deg(maxa) ==> r == a
  {
    if ToDegree(a).value > ToDegree(maxa).value then maxa
    else if ToDegree(a).value < ToDegree(mina).value then mina
    else a
  }

  /** With ordered limits the clamped angle lies between them, and clamping twice changes nothing. */
  lemma ConstrainedWithinLimits(a: Angle, mina: Angle, maxa: Angle)
    requires Deg(mina) <= Deg(maxa)
    ensures Deg(mina) <= Deg(Constrained(a, mina, maxa)) <= Deg(maxa)
    ensures Constrained(Constrained(a, mina, maxa), mina, maxa) == Constrained(a, mina, maxa)
  {
  }

  /** An angle variable, for the operations that change an angle through a pointer receiver. */
  class AngleRef {
    var angle: Angle

    constructor (a: Angle)
      ensures angle == a
    {
      angle := a;
    }

    /** Replaces the angle by maxa above the maximum, by mina below the minimum. */
    method Constrain(mina: Angle, maxa: Angle)
      modifies this
      ensures angle == Constrained(old(angle), mina, maxa)
      ensures Deg(old(angle)) > Deg(maxa) ==> angle == maxa
      ensures Deg(mina) <= Deg(old(angle)) <= Deg(maxa) ==> angle == old(angle)
    {
      if ToDegree(angle).value > ToDegree(maxa).value {
        angle := maxa;
        return;
      }
      if ToDegree(angle).value < ToDegree(mina).value {
        angle := mina;
      }
    }
  }

  // Wrap planes.

  /** The angle on wrap plane wc: its degree value moved by whole revolutions. */
  function Map(a: Angle, wc: Int32): (r: Angle)
    ensures r.unit == Degree
    ensures r.value == Deg(a) + 360.0 * wc as real
  {
    var fac := wc as real * DegreePerRevolution;
    var v := ToDegree(a).value;
    NewAngle(Degree, if wc != 0 then v + fac else v)
  }

  /** Mapping a mapped angle again adds the wrap counts. */
  lemma MapCompose(a: Angle, w1: Int32, w2: Int32)
    requires MinInt32 <= w1 as int + w2 as int <= MaxInt32
    ensures Map(Map(a, w1), w2) == Map(a, (w1 as int + w2 as int) as Int32)
  {
  }

  /** Neighbouring wrap planes are one revolution apart. */
  lemma MapPlanesOneRevolutionApart(a: Angle, wc: Int32)
    requires wc < 0x7fff_ffff
    ensures Map(a, wc + 1).value == Map(a, wc).value + 360.0
  {
  }

  /** The plane above wc, unless it would reach maxwc (Go's int32 wc+1 wraps). */
  function PlusPlane(wc: Int32, maxwc: Int32): (p: Int32)
    ensures p == wc || (p == Inc32(wc) && p < maxwc)
    ensures wc as int + 1 < maxwc as int ==> p as int == wc as int + 1
    ensures wc == 0x7fff_ffff ==> (p == -0x8000_0000 <==> -0x8000_0000 < maxwc)
  {
    if Inc32(wc) >= maxwc then wc else Inc32(wc)
  }

  /** The plane below wc, unless it would reach -maxwc (Go's int32 negation and wc-1 wrap). */
  function MinusPlane(wc: Int32, maxwc: Int32): (p: Int32)
    ensures p == wc || (p == Dec32(wc) && p > Neg32(maxwc))
    ensures 0 < maxwc && -(maxwc as int) < wc as int - 1 ==> p as int == wc as int - 1
    ensures wc == -0x8000_0000 ==> (p == 0x7fff_ffff <==> 0x7fff_ffff > Neg32(maxwc))
  {
    if Dec32(wc) <= Neg32(maxwc) then wc else Dec32(wc)
  }

  /** How far, in degrees, the candidate x lies from the current angle c. */
  function Distance(c: Angle, x: Angle): (d: real)
    ensures d >= 0.0
    ensures d == Abs(Deg(c) - Deg(x))
  {
    Abs(ToDegree(Sub(c, x)).value)
  }

  /**
   * Chooses the wrap plane for the desired angle: the base plane wc, the
   * plane below or the plane above, whichever lies nearest the current
   * angle; ties go to the base plane, then to the plane below.
   */
  method Closest(currentA: Angle, desAngle: Angle, wc: Int32, maxwc: Int32) returns (r: Angle)
    ensures var base, minus, plus := Map(desAngle, wc), Map(desAngle, MinusPlane(wc, maxwc)),
        Map(desAngle, PlusPlane(wc, maxwc));
      && (r == base || r == minus || r == plus)
      && Distance(currentA, r) <= Distance(currentA, base)
      && Distance(currentA, r) <= Distance(currentA, minus)
      && Distance(currentA, r) <= Distance(currentA, plus)
    ensures var base, minus, plus := Map(desAngle, wc), Map(desAngle, MinusPlane(wc, maxwc)),
        Map(desAngle, PlusPlane(wc, maxwc));
      (Distance(currentA, base) <= Distance(currentA, minus)
       && Distance(currentA, base) <= Distance(currentA, plus)) ==> r == base
    ensures var base, minus, plus := Map(desAngle, wc), Map(desAngle, MinusPlane(wc, maxwc)),
        Map(desAngle, PlusPlane(wc, maxwc));
      (Distance(currentA, minus) < Distance(currentA, base)
       && Distance(currentA, minus) <= Distance(currentA, plus)) ==> r == minus
  {
    var wcp1 := Inc32(wc);
    if wcp1 >= maxwc {
      wcp1 := wc;
    }
    var wcm1 := Dec32(wc);
    if wcm1 <= Neg32(maxwc) {
      wcm1 := wc;
    }
    var desAngleMap := Map(desAngle, wc);
    var desAnglePlusOne := Map(desAngle, wcp1);
    var desAngleMinusOne := Map(desAngle, wcm1);

    var minDiffv := Abs(ToDegree(Sub(currentA, desAngleMap)).value);
    var diffPv := Abs(ToDegree(Sub(currentA, desAnglePlusOne)).value);
    var diffMv := Abs(ToDegree(Sub(currentA, desAngleMinusOne)).value);

    if diffMv < minDiffv {
      minDiffv := diffMv;
      desAngleMap := desAngleMinusOne;
    }
    if diffPv < minDiffv {
      desAngleMap := desAnglePlusOne;
    }
    r := desAngleMap;
  }
}
