/**
 * Pressures tagged with one of four units. Every conversion goes through
 * Pascal, dividing by the unit's per-pascal constant on the way in and
 * multiplying by the target's on the way out.
 */
module Pressures {
  import opened Constants

  datatype PressureUnit = Pascal | Millibar | MillimeterHg | MilliPascal

  datatype Pressure = Pressure(unit: PressureUnit, value: real)

  function NewPressure(pu: PressureUnit, v: real): (p: Pressure)
    ensures p.unit == pu && p.value == v
  {
    Pressure(pu, v)
  }

  function UnitString(p: Pressure): (s: string)
    ensures |s| >= 2
  {
    match p.unit
    case Pascal => "Pa"
    case MilliPascal => "mPa"
    case Millibar => "mb"
    case MillimeterHg => "mmHg"
  }

  lemma UnitStringInjective(a: Pressure, b: Pressure)
    requires UnitString(a) == UnitString(b)
    ensures a.unit == b.unit
  {
    var s, t := UnitString(a), UnitString(b);
    assert |s| == |t| && s[0] == t[0] && s[1] == t[1];
  }

  /** The constant the source divides by to reach Pascal. */
  function PerPascal(u: PressureUnit): (c: real)
    ensures c >= 1.0
  {
    match u
    case Pascal => 1.0
    case MilliPascal => MilliPascalPerPascal
    case Millibar => MillibarPerPascal
    case MillimeterHg => MillimeterHgPerPascal
  }

  function ToPascal(p: Pressure): (r: Pressure)
    ensures r.unit == Pascal
    ensures r.value * PerPascal(p.unit) == p.value
    ensures p.unit == Pascal ==> r == p
  {
    var v :=
      match p.unit
      case Pascal => p.value
      case MilliPascal => p.value / MilliPascalPerPascal
      case Millibar => p.value / MillibarPerPascal
      case MillimeterHg => p.value / MillimeterHgPerPascal;
    Pressure(Pascal, v)
  }

  function ToMilliPascal(p: Pressure): (r: Pressure)
    ensures r.unit == MilliPascal
    ensures ToPascal(r) == ToPascal(p)
    ensures p.unit == MilliPascal ==> r == p
  {
    Pressure(MilliPascal, ToPascal(p).value * 1000.0)
  }

  function ToMillibar(p: Pressure): (r: Pressure)
    ensures r.unit == Millibar
    ensures ToPascal(r) == ToPascal(p)
    ensures p.unit == Millibar ==> r == p
  {
    Pressure(Millibar, ToPascal(p).value * MillibarPerPascal)
  }

  function ToMillimeterHg(p: Pressure): (r: Pressure)
    ensures r.unit == MillimeterHg
    ensures ToPascal(r) == ToPascal(p)
    ensures p.unit == MillimeterHg ==> r == p
  {
    Pressure(MillimeterHg, ToPascal(p).value * MillimeterHgPerPascal)
  }

  /** Conversion to any unit by its name. */
  function ConvertTo(p: Pressure, u: PressureUnit): Pressure
  {
    match u
    case Pascal => ToPascal(p)
    case MilliPascal => ToMilliPascal(p)
    case Millibar => ToMillibar(p)
    case MillimeterHg => ToMillimeterHg(p)
  }

  /** Whatever the starting and the target unit, a conversion keeps the Pascal value. */
  lemma ConvertToKeepsPascal(p: Pressure, u: PressureUnit)
    ensures ConvertTo(p, u).unit == u
    ensures ToPascal(ConvertTo(p, u)) == ToPascal(p)
  {
  }

  /**
   * The values the conversions give: 10.3 mb is 0.103 Pa and 10.1 Pa is
   * 1010 mb, since the millibar constant is applied as mb per Pa.
   */
  lemma PressureExamples()
    ensures ToPascal(Pressure(Millibar, 10.3)) == Pressure(Pascal, 0.103)
    ensures ToPascal(Pressure(MilliPascal, 10.2)) == Pressure(Pascal, 0.0102)
    ensures ToMillibar(Pressure(Pascal, 10.1)) == Pressure(Millibar, 1010.0)
    ensures ToMilliPascal(Pressure(Millibar, 10.3)) == Pressure(MilliPascal, 103.0)
    ensures ToMillimeterHg(Pressure(Pascal, 10.1)) == Pressure(MillimeterHg, 1346.5522)
  {
  }
}
