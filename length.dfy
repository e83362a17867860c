/**
 * Lengths tagged with one of eight units or the unset zero unit. Every
 * conversion goes through Meter. The Meter table scales Decimeter by 1e2
 * and has no Femtometer row; the corrected table beside it uses the
 * factors the unit names stand for.
 */
module Lengths {
  import opened Constants

  /** The Go LengthUnit enumeration; UnsetLength stands for the zero value `none` and every unnamed code. */
  datatype LengthUnit =
    | UnsetLength | Meter | Centimeter | Millimeter | Micrometer | Nanometer | Femtometer | Decimeter | Kilometer

  datatype Length = Length(unit: LengthUnit, value: real)

  function NewLength(lu: LengthUnit, v: real): (l: Length)
    ensures l.unit == lu && l.value == v
  {
    Length(lu, v)
  }

  /** The unit symbol; the switch has no Micrometer or Decimeter row, so those print as nothing. */
  function UnitString(l: Length): (s: string)
    ensures s == "" <==> l.unit in {UnsetLength, Micrometer, Decimeter}
  {
    match l.unit
    case Meter => "m"
    case Centimeter => "cm"
    case Millimeter => "mm"
    case Nanometer => "nm"
    case Femtometer => "fm"
    case Kilometer => "km"
    case _ => ""
  }

  /** The units whose symbol is printed are told apart by it. */
  lemma UnitStringInjective(a: Length, b: Length)
    requires UnitString(a) == UnitString(b) != ""
    ensures a.unit == b.unit
  {
    var s, t := UnitString(a), UnitString(b);
    assert s[0] == t[0];
  }

  /** Meter() as written: one factor per unit, 1e2 for Decimeter, and 0 for Femtometer and the unset unit. */
  function ToMeter(l: Length): (r: Length)
    ensures r.unit == Meter
    ensures l.unit == Meter ==> r == l
    ensures l.unit in {UnsetLength, Femtometer} ==> r.value == 0.0
  {
    var v :=
      match l.unit
      case Meter => l.value
      case Centimeter => l.value * 1e-2
      case Millimeter => l.value * 1e-3
      case Micrometer => l.value * 1e-6
      case Nanometer => l.value * 1e-9
      case Decimeter => l.value * 1e2
      case Kilometer => l.value * 1e3
      case _ => 0.0;
    Length(Meter, v)
  }

  function ToCentimeter(l: Length): (r: Length)
    ensures r.unit == Centimeter && ToMeter(r) == ToMeter(l)
  {
    Length(Centimeter, ToMeter(l).value * HectoF)
  }

  function ToMillimeter(l: Length): (r: Length)
    ensures r.unit == Millimeter && ToMeter(r) == ToMeter(l)
  {
    Length(Millimeter, ToMeter(l).value * KiloF)
  }

  function ToMicrometer(l: Length): (r: Length)
    ensures r.unit == Micrometer && ToMeter(r) == ToMeter(l)
  {
    Length(Micrometer, ToMeter(l).value * MegaF)
  }

  function ToNanometer(l: Length): (r: Length)
    ensures r.unit == Nanometer && ToMeter(r) == ToMeter(l)
  {
    Length(Nanometer, ToMeter(l).value * GigaF)
  }

  function ToKilometer(l: Length): (r: Length)
    ensures r.unit == Kilometer && ToMeter(r) == ToMeter(l)
  {
    Length(Kilometer, ToMeter(l).value * MilliF)
  }

  /** Femtometer(): the value the source computes, which Meter() cannot read back. */
  function ToFemtometer(l: Length): (r: Length)
    ensures r.unit == Femtometer
  {
    Length(Femtometer, ToMeter(l).value * TeraF)
  }

  /** Decimeter(): the value the source computes, which Meter() reads back a hundredfold too large. */
  function ToDecimeter(l: Length): (r: Length)
    ensures r.unit == Decimeter
  {
    Length(Decimeter, ToMeter(l).value * DekaF)
  }

  /**
   * The two round trips that fail as written: back from Decimeter a
   * length is 1000 times its size, back from Femtometer it is 0, and
   * the Femtometer value itself is 1e12 per metre instead of 1e15.
   */
  lemma MeterRoundTripFails(l: Length)
    ensures ToMeter(ToDecimeter(l)).value == 1000.0 * ToMeter(l).value
    ensures ToMeter(ToFemtometer(l)).value == 0.0
    ensures ToFemtometer(l).value == 1e12 * ToMeter(l).value
  {
    var m := ToMeter(l).value;
    assert ToDecimeter(l).value == m * 10.0;
  }

  /** One metre goes to 10 dm and comes back as 1000 m; it goes to 1e12 fm and comes back as 0 m. */
  lemma OneMeterCounterexample()
    ensures ToDecimeter(Length(Meter, 1.0)) == Length(Decimeter, 10.0)
    ensures ToMeter(ToDecimeter(Length(Meter, 1.0))) == Length(Meter, 1000.0)
    ensures ToFemtometer(Length(Meter, 1.0)) == Length(Femtometer, 1e12)
    ensures ToMeter(ToFemtometer(Length(Meter, 1.0))) == Length(Meter, 0.0)
  {
  }

  /** Metres per unit, as the unit names define them (section 3 of the BIPM SI Brochure, 9th edition). */
  function MetersPer(u: LengthUnit): (f: real)
    requires u != UnsetLength
    ensures f > 0.0
  {
    match u
    case Meter => OneF
    case Centimeter => CentiF
    case Millimeter => MilliF
    case Micrometer => MicroF
    case Nanometer => NanoF
    case Femtometer => FemtoF
    case Decimeter => DeciF
    case Kilometer => KiloF
  }

  /** The corrected Meter(): every named unit scaled by its own factor, the unset unit still 0. */
  function MetersOf(l: Length): (r: Length)
    ensures r.unit == Meter
    ensures l.unit == Meter ==> r == l
  {
    if l.unit == UnsetLength then Length(Meter, 0.0)
    else Length(Meter, l.value * MetersPer(l.unit))
  }

  /** The corrected conversion into any named unit. */
  function ConvertLength(l: Length, u: LengthUnit): (r: Length)
    requires u != UnsetLength
    ensures r.unit == u
    ensures MetersOf(r) == MetersOf(l)
  {
    Length(u, MetersOf(l).value / MetersPer(u))
  }

  /**
   * Where the source's table is right, the two agree: Meter() gives the
   * corrected metres for every unit but Decimeter and Femtometer, and the
   * Centimeter, Millimeter, Micrometer, Nanometer and Kilometer conversions
   * of such a length are the corrected ones.
   */
  lemma AsWrittenAgreesOutsideFaultyRows(l: Length)
    requires l.unit !in {Decimeter, Femtometer}
    ensures ToMeter(l) == MetersOf(l)
    ensures ToCentimeter(l) == ConvertLength(l, Centimeter)
    ensures ToMillimeter(l) == ConvertLength(l, Millimeter)
    ensures ToMicrometer(l) == ConvertLength(l, Micrometer)
    ensures ToNanometer(l) == ConvertLength(l, Nanometer)
    ensures ToKilometer(l) == ConvertLength(l, Kilometer)
  {
    var m := MetersOf(l).value;
    assert m * HectoF == m / CentiF;
    assert m * KiloF == m / MilliF;
    assert m * MegaF == m / MicroF;
    assert m * GigaF == m / NanoF;
    assert m * MilliF == m / KiloF;
  }

  /** The corrected table reads 1 m back from 10 dm and from 1e15 fm. */
  lemma CorrectedRoundTrips()
    ensures ConvertLength(Length(Meter, 1.0), Decimeter) == Length(Decimeter, 10.0)
    ensures ConvertLength(Length(Meter, 1.0), Femtometer) == Length(Femtometer, 1e15)
    ensures MetersOf(Length(Decimeter, 10.0)) == Length(Meter, 1.0)
    ensures MetersOf(Length(Femtometer, 1e15)) == Length(Meter, 1.0)
  {
  }
}
