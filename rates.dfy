/**
 * AngularRate: an angle per second. Durations are whole nanoseconds, as
 * Go's time.Duration; NewAngularRate normalises to a one-second timebase.
 */
module AngularRates {
  import opened Numeric
  import opened Constants
  import opened Angles

  /** time.Second in nanoseconds. */
  const Second: int := 1_000_000_000

  /** A duration in seconds. */
  function Seconds(t: int): real
  {
    t as real / Second as real
  }

  /** The Go AngularRateUnit enumeration; RadianPerSec is its zero value. */
  datatype RateUnit =
    | RadianPerSec
    | DegreePerSec
    | MilliRadianPerSec
    | ArcMinutePerSec
    | ArcSecondPerSec
    | MilliArcSecondPerSec
    | HourPerSec

  /**
   * The Go struct: a unit, an embedded Angle (which the constructor and
   * the conversions leave at its zero value), a timebase in nanoseconds
   * and the value.
   */
  datatype AngularRate = AngularRate(unit: RateUnit, angle: Angle, timebase: int, value: real)

  /** The zero Angle: unset unit, value 0. */
  const ZeroAngle: Angle := Angle(UnsetUnit, 0.0)

  /** The angle unit a rate unit measures per second. */
  function AngleUnitOf(u: RateUnit): (au: AngleUnit)
    ensures au != UnsetUnit
  {
    match u
    case RadianPerSec => Radian
    case DegreePerSec => Degree
    case MilliRadianPerSec => MilliRadian
    case ArcMinutePerSec => ArcMinute
    case ArcSecondPerSec => ArcSecond
    case MilliArcSecondPerSec => MilliArcSecond
    case HourPerSec => Hour
  }

  /** The rate in radians per second, by the reference measure of its unit. */
  function RadPerSec(r: AngularRate): (v: real)
    ensures v == Rad(Angle(AngleUnitOf(r.unit), r.value))
  {
    match r.unit
    case RadianPerSec => r.value
    case DegreePerSec => r.value * (Pi / 180.0)
    case MilliRadianPerSec => r.value * (1.0 / 1000.0)
    case ArcMinutePerSec => r.value * (Pi / 10800.0)
    case ArcSecondPerSec => r.value * (Pi / 648000.0)
    case MilliArcSecondPerSec => r.value * (Pi / 648000000.0)
    case HourPerSec => r.value * (Pi / 12.0)
  }

  /** The rate in degrees per second, by the reference measure of its unit. */
  function DegPerSec(r: AngularRate): real
  {
    Deg(Angle(AngleUnitOf(r.unit), r.value))
  }

  /** The angle covered in t nanoseconds, per second (t is not zero: Go would divide by zero). */
  function NewAngularRate(a: Angle, t: int): (r: AngularRate)
    requires t != 0
    ensures r.unit == RadianPerSec && r.timebase == Second && r.angle == ZeroAngle
    ensures RadPerSec(r) * Seconds(t) == Rad(a)
  {
    var factor := t as real / Second as real;
    AngularRate(RadianPerSec, ZeroAngle, Second, ToRadian(a).value / factor)
  }

  /** The unit's symbol. */
  function RateUnitString(r: AngularRate): (s: string)
    ensures |s| > 4 && s[|s| - 4..] == "/sec"
  {
    match r.unit
    case RadianPerSec => "rad/sec"
    case DegreePerSec => "deg/sec"
    case MilliRadianPerSec => "mrad/sec"
    case ArcMinutePerSec => "arcmin/sec"
    case ArcSecondPerSec => "arcsec/sec"
    case MilliArcSecondPerSec => "mas/sec"
    case HourPerSec => "hr/sec"
  }

  /** Distinct units print differently. */
  lemma RateUnitStringInjective(a: AngularRate, b: AngularRate)
    requires RateUnitString(a) == RateUnitString(b)
    ensures a.unit == b.unit
  {
    var s, t := RateUnitString(a), RateUnitString(b);
    assert |s| == |t| && s[0] == t[0] && s[1] == t[1] && s[3] == t[3];
  }

  /** A fresh rate in the given unit: the Angle and the timebase are left at zero. */
  function Fresh(u: RateUnit, v: real): AngularRate
  {
    AngularRate(u, ZeroAngle, 0, v)
  }

  function ToRadianRate(a: AngularRate): (r: AngularRate)
    ensures r.unit == RadianPerSec && r.value == RadPerSec(a)
    ensures r.angle == ZeroAngle && r.timebase == 0
  {
    var v :=
      match a.unit
      case RadianPerSec => a.value
      case MilliRadianPerSec => a.value / MilliRadianPerRadian
      case DegreePerSec => a.value * RadianPerDegree
      case ArcMinutePerSec => a.value / ArcMinutePerDegree * RadianPerDegree
      case ArcSecondPerSec => a.value / ArcSecondPerDegree * RadianPerDegree
      case MilliArcSecondPerSec => a.value / ArcSecondPerDegree * RadianPerDegree / 1000.0
      case HourPerSec => a.value * DegreePerHour * RadianPerDegree;
    Fresh(RadianPerSec, v)
  }

  function ToMilliRadianRate(a: AngularRate): (r: AngularRate)
    ensures r.unit == MilliRadianPerSec && RadPerSec(r) == RadPerSec(a)
  {
    var aa := ToRadianRate(a);
    aa.(unit := MilliRadianPerSec, value := aa.value * MilliRadianPerRadian)
  }

  function ToDegreeRate(a: AngularRate): (r: AngularRate)
    ensures r.unit == DegreePerSec && RadPerSec(r) == RadPerSec(a)
    ensures r.value == DegPerSec(a)
  {
    var ar := ToRadianRate(a);
    Fresh(DegreePerSec, ar.value / RadianPerDegree)
  }

  function ToHourRate(a: AngularRate): (r: AngularRate)
    ensures r.unit == HourPerSec && RadPerSec(r) == RadPerSec(a)
  {
    var ar := ToDegreeRate(a);
    Fresh(HourPerSec, ar.value / DegreePerHour)
  }

  function ToArcMinuteRate(a: AngularRate): (r: AngularRate)
    ensures r.unit == ArcMinutePerSec && RadPerSec(r) == RadPerSec(a)
  {
    var ad := ToDegreeRate(a);
    ad.(unit := ArcMinutePerSec, value := ad.value * ArcMinutePerDegree)
  }

  function ToArcSecondRate(a: AngularRate): (r: AngularRate)
    ensures r.unit == ArcSecondPerSec && RadPerSec(r) == RadPerSec(a)
  {
    var ad := ToDegreeRate(a);
    ad.(unit := ArcSecondPerSec, value := ad.value * ArcSecondPerDegree)
  }

  function ToMilliArcSecondRate(a: AngularRate): (r: AngularRate)
    ensures r.unit == MilliArcSecondPerSec && RadPerSec(r) == RadPerSec(a)
  {
    var ad := ToDegreeRate(a);
    ad.(unit := MilliArcSecondPerSec, value := ad.value * MilliArcSecondPerDegree)
  }

  /** The rate of angle a over t nanoseconds, read in degrees per second, is a's degrees over the seconds. */
  lemma DegreeRateOf(a: Angle, t: int)
    requires t != 0
    ensures ToDegreeRate(NewAngularRate(a, t)).value == Deg(a) / Seconds(t)
  {
    var r := NewAngularRate(a, t);
    var s := Seconds(t);
    assert r.value == Rad(a) / s;
    assert ToDegreeRate(r).value == (Rad(a) / s) / RadianPerDegree;
    assert Deg(a) == Rad(a) / RadianPerDegree;
  }

  /** The angle turned in t seconds at this rate, in radians. */
  function MultTime(a: AngularRate, t: real): (r: Angle)
    ensures r.unit == Radian && Rad(r) == RadPerSec(a) * t
  {
    NewAngle(Radian, ToRadianRate(a).value * t)
  }

  /** A rate of a per second turns a in one second. */
  lemma MultTimeInverse(a: Angle)
    ensures MultTime(NewAngularRate(a, Second), 1.0) == ToRadian(a)
  {
  }

  function RateSub(a: AngularRate, b: AngularRate): (r: AngularRate)
    ensures r.unit == RadianPerSec && r.timebase == Second
    ensures RadPerSec(r) == RadPerSec(a) - RadPerSec(b)
  {
    var v := NewAngle(Radian, ToRadianRate(a).value - ToRadianRate(b).value);
    NewAngularRate(v, Second)
  }

  function RateScale(a: AngularRate, f: real): (r: AngularRate)
    ensures r.unit == RadianPerSec && r.timebase == Second
    ensures RadPerSec(r) == RadPerSec(a) * f
  {
    var nv := NewAngle(Radian, ToRadianRate(a).value * f);
    NewAngularRate(nv, Second)
  }

  /** The ratio of two rates (b is not zero: Go would divide by zero). */
  function RateNormalize(a: AngularRate, b: AngularRate): (q: real)
    requires RadPerSec(b) != 0.0
    ensures q == RadPerSec(a) / RadPerSec(b)
  {
    Ratio(ToRadianRate(a).value, ToRadianRate(b).value)
  }

  /** A rate scaled by k, normalized by the unscaled rate, gives k back. */
  lemma RateNormalizeOfScale(a: AngularRate, k: real)
    requires RadPerSec(a) != 0.0
    ensures RateNormalize(RateScale(a, k), a) == k
  {
    var x := RadPerSec(a);
    assert RadPerSec(RateScale(a, k)) == x * k;
    assert (x * k) / x == k;
  }

  /** The magnitude of a with the sign of b (zero counts as positive). */
  function RateSign(a: AngularRate, b: real): (r: AngularRate)
    ensures r.unit == RadianPerSec
    ensures Abs(RadPerSec(r)) == Abs(RadPerSec(a))
    ensures b < 0.0 ==> RadPerSec(r) <= 0.0
    ensures b >= 0.0 ==> RadPerSec(r) >= 0.0
  {
    var absv := Abs(ToRadianRate(a).value);
    var sign := if b < 0.0 then -1.0 else 1.0;
    NewAngularRate(NewAngle(Radian, absv * sign), Second)
  }

  function RateAbs(a: AngularRate): (r: AngularRate)
    ensures r.unit == RadianPerSec
    ensures RadPerSec(r) >= 0.0
    ensures RadPerSec(r) == RadPerSec(a) || RadPerSec(r) == -RadPerSec(a)
  {
    NewAngularRate(NewAngle(Radian, Abs(ToRadianRate(a).value)), Second)
  }

  // The comparisons look only at the embedded Angle field.

  predicate RateGreaterThan(a: AngularRate, b: AngularRate)
    ensures RateGreaterThan(a, b) <==> Rad(a.angle) > Rad(b.angle)
  {
    GreaterThan(a.angle, b.angle)
  }

  predicate RateGreaterThanEqual(a: AngularRate, b: AngularRate)
    ensures RateGreaterThanEqual(a, b) <==> Rad(a.angle) >= Rad(b.angle)
  {
    GreaterThanEqual(a.angle, b.angle)
  }

  predicate RateLessThan(a: AngularRate, b: AngularRate)
    ensures RateLessThan(a, b) <==> Rad(a.angle) < Rad(b.angle)
  {
    LessThan(a.angle, b.angle)
  }

  predicate RateLessThanEqual(a: AngularRate, b: AngularRate)
    ensures RateLessThanEqual(a, b) <==> Rad(a.angle) <= Rad(b.angle)
  {
    LessThanEqual(a.angle, b.angle)
  }

  predicate RateEqual(a: AngularRate, b: AngularRate)
    ensures RateEqual(a, b) <==> Rad(a.angle) == Rad(b.angle)
  {
    Equal(a.angle, b.angle)
  }

  /**
   * As written, two rates built by NewAngularRate always compare equal and
   * neither is greater or less, whatever their values: one radian per
   * second and two radians per second are "equal".
   */
  lemma ComparisonsIgnoreValue(a: Angle, b: Angle, t: int, u: int)
    requires t != 0 && u != 0
    ensures var ra, rb := NewAngularRate(a, t), NewAngularRate(b, u);
      RateEqual(ra, rb) && !RateGreaterThan(ra, rb) && !RateLessThan(ra, rb)
  {
  }

  lemma ComparisonCounterexample()
    ensures var one, two := NewAngularRate(Angle(Radian, 1.0), Second), NewAngularRate(Angle(Radian, 2.0), Second);
      RadPerSec(one) < RadPerSec(two) && RateEqual(one, two) && !RateLessThan(one, two)
  {
  }

  // The comparisons evidently intended: on the rates' own magnitudes.

  predicate RateLessThanByValue(a: AngularRate, b: AngularRate)
  {
    ToRadianRate(a).value < ToRadianRate(b).value
  }

  predicate RateEqualByValue(a: AngularRate, b: AngularRate)
  {
    ToRadianRate(a).value == ToRadianRate(b).value
  }

  /** By value, every pair of rates is ordered one way, equal, or ordered the other way, and unit changes do not matter. */
  lemma ByValueComparisons(a: AngularRate, b: AngularRate)
    ensures RateLessThanByValue(a, b) <==> RadPerSec(a) < RadPerSec(b)
    ensures RateEqualByValue(a, b) <==> RadPerSec(a) == RadPerSec(b)
    ensures RateLessThanByValue(a, b) || RateEqualByValue(a, b) || RateLessThanByValue(b, a)
    ensures RateEqualByValue(ToDegreeRate(a), a) && RateEqualByValue(ToHourRate(a), a)
  {
  }
}
