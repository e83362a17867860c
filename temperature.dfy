/**
 * Temperatures tagged with one of four units. The constructor rejects a
 * negative Kelvin value; conversions go through Kelvin, except that
 * Fahrenheit is reached through Celsius.
 */
module Temperatures {
  import opened Wrappers
  import opened Constants

  datatype TemperatureUnit = Kelvin | MilliKelvin | Celsius | Fahrenheit

  datatype Temperature = Temperature(unit: TemperatureUnit, value: real)

  datatype TemperatureError = NegativeKelvin

  /** Only a negative Kelvin value is refused; negative Celsius, Fahrenheit and milli-Kelvin pass. */
  function NewTemperature(tu: TemperatureUnit, v: real): (r: Result<Temperature, TemperatureError>)
    ensures r.Err? <==> tu == Kelvin && v < 0.0
    ensures r.Ok? ==> r.value.unit == tu && r.value.value == v
  {
    if tu == Kelvin && v < 0.0 then Err(NegativeKelvin) else Ok(Temperature(tu, v))
  }

  function UnitString(t: Temperature): (s: string)
    ensures |s| > 0
  {
    match t.unit
    case Kelvin => "K"
    case MilliKelvin => "mK"
    case Celsius => "C"
    case Fahrenheit => "F"
  }

  /** Different units print differently. */
  lemma UnitStringInjective(a: Temperature, b: Temperature)
    requires UnitString(a) == UnitString(b)
    ensures a.unit == b.unit
  {
    var s, t := UnitString(a), UnitString(b);
    assert |s| == |t| && s[0] == t[0];
  }

  /** Fahrenheit to Celsius; Ctof undoes it. */
  function Ftoc(f: real): (c: real)
    ensures Ctof(c) == f
  {
    (f - WaterFreezeFahrenheit) / FahrenheitPerCelsius
  }

  /** Celsius to Fahrenheit. */
  function Ctof(c: real): (f: real)
    ensures (f - WaterFreezeFahrenheit) / FahrenheitPerCelsius == c
    ensures c == 100.0 ==> f == 212.0
  {
    c * FahrenheitPerCelsius + WaterFreezeFahrenheit
  }

  lemma FtocInvertsCtof(c: real)
    ensures Ftoc(Ctof(c)) == c
  {
    assert Ctof(c) - WaterFreezeFahrenheit == c * FahrenheitPerCelsius;
  }

  function ToKelvin(t: Temperature): (r: Temperature)
    ensures r.unit == Kelvin
    ensures t.unit == Kelvin ==> r == t
  {
    var v :=
      match t.unit
      case Kelvin => t.value
      case MilliKelvin => t.value / MilliKelvinPerKelvin
      case Celsius => t.value - AbsoluteZeroCelsius
      case Fahrenheit => Ftoc(t.value) - AbsoluteZeroCelsius;
    Temperature(Kelvin, v)
  }

  /** Milli-Kelvin by way of Kelvin; it reads back to the same Kelvin value. */
  function ToMilliKelvin(t: Temperature): (r: Temperature)
    ensures r.unit == MilliKelvin
    ensures ToKelvin(r) == ToKelvin(t)
    ensures t.unit == MilliKelvin ==> r == t
  {
    Temperature(MilliKelvin, ToKelvin(t).value * MilliKelvinPerKelvin)
  }

  /** A Celsius value is returned as it is; any other goes through Kelvin. */
  function ToCelsius(t: Temperature): (r: Temperature)
    ensures r.unit == Celsius
    ensures ToKelvin(r) == ToKelvin(t)
    ensures t.unit == Celsius ==> r == t
  {
    if t.unit == Celsius then t
    else Temperature(Celsius, ToKelvin(t).value + AbsoluteZeroCelsius)
  }

  /**
   * Fahrenheit straight from each unit; it agrees with converting the
   * Celsius value, and it reads back to the same Kelvin value.
   */
  function ToFahrenheit(t: Temperature): (r: Temperature)
    ensures r.unit == Fahrenheit
    ensures r.value == Ctof(ToCelsius(t).value)
    ensures ToKelvin(r) == ToKelvin(t)
    ensures t.unit == Fahrenheit ==> r == t
  {
    var v :=
      match t.unit
      case Fahrenheit => t.value
      case Kelvin => Ctof(t.value + AbsoluteZeroCelsius)
      case MilliKelvin => Ctof(t.value / MilliKelvinPerKelvin + AbsoluteZeroCelsius)
      case Celsius => Ctof(t.value);
    FtocInvertsCtof(ToCelsius(t).value);
    Temperature(Fahrenheit, v)
  }

  /** Every conversion is Kelvin-preserving, so converting twice is converting once. */
  lemma ConversionsCompose(t: Temperature)
    ensures ToCelsius(ToFahrenheit(t)) == ToCelsius(t)
    ensures ToFahrenheit(ToCelsius(t)) == ToFahrenheit(t)
    ensures ToMilliKelvin(ToCelsius(t)) == ToMilliKelvin(t)
  {
    var f := ToFahrenheit(t);
    assert ToKelvin(f) == ToKelvin(t);
    assert ToCelsius(t).unit == Celsius;
  }

  /** The freezing point and a room temperature in the other units. */
  lemma TemperatureExamples()
    ensures ToKelvin(Temperature(Fahrenheit, 32.0)) == Temperature(Kelvin, 273.15)
    ensures ToKelvin(Temperature(Celsius, 10.3)) == Temperature(Kelvin, 283.45)
    ensures ToKelvin(Temperature(MilliKelvin, 10.2)) == Temperature(Kelvin, 0.0102)
    ensures ToCelsius(Temperature(Fahrenheit, 32.0)) == Temperature(Celsius, 0.0)
    ensures ToFahrenheit(Temperature(Celsius, 0.0)) == Temperature(Fahrenheit, 32.0)
    ensures ToMilliKelvin(Temperature(Celsius, 10.3)) == Temperature(MilliKelvin, 283450.0)
  {
  }
}
