/**
 * The conversion constants of the package and the SI decimal prefixes
 * (section 3 of the BIPM SI Brochure, 9th edition, including the 2022
 * prefixes ronna, quetta, ronto and quecto).
 */
module Constants {
  import opened Wrappers

  /** The float64 value of Go's math.Pi; proofs only rely on it being positive. */
  const Pi: real := 3.141592653589793

  // Time constants of the astrotime package.
  const SecondPerMinute: real := 60.0
  const SecondPerHour: real := 3600.0
  const MinutePerHour: real := 60.0
  const HourPerDay: real := 24.0

  // SI prefix factors.
  const QuettaF: real := 1e30
  const RonnaF: real := 1e27
  const YottaF: real := 1e24
  const ZettaF: real := 1e21
  const ExaF: real := 1e18
  const PetaF: real := 1e15
  const TeraF: real := 1e12
  const GigaF: real := 1e9
  const MegaF: real := 1e6
  const KiloF: real := 1e3
  const HectoF: real := 1e2
  const DekaF: real := 1e1
  const OneF: real := 1.0
  const DeciF: real := 1e-1
  const CentiF: real := 1e-2
  const MilliF: real := 1e-3
  const MicroF: real := 1e-6
  const NanoF: real := 1e-9
  const PicoF: real := 1e-12
  const FemtoF: real := 1e-15
  const AttoF: real := 1e-18
  const ZeptoF: real := 1e-21
  const YoctoF: real := 1e-24
  const RontoF: real := 1e-27
  const QuectoF: real := 1e-30

  // Angle conversion rates.
  const MinutePerDegree: real := 60.0
  const SecondPerDegree: real := 3600.0
  const RadianPerDegree: real := Pi / 180.0
  const ArcMinutePerDegree: real := 60.0
  const ArcSecondPerDegree: real := 3600.0
  const MilliArcSecondPerDegree: real := 3600000.0
  const RadianPerMinute: real := Pi / (180.0 * 60.0)
  const RadianPerSecond: real := Pi / (180.0 * 3600.0)
  const MilliRadianPerRadian: real := KiloF
  const MilliArcSecondPerArcSecond: real := KiloF
  const DegreePerHour: real := 15.0
  const DegreePerRevolution: real := 360.0

  // Other physical conversion constants.
  const AbsoluteZeroCelsius: real := -273.15
  const MillimeterHgPerPascal: real := 133.322
  const MillibarPerPascal: real := HectoF
  const MilliPascalPerPascal: real := KiloF
  const FahrenheitPerCelsius: real := 1.8
  const WaterFreezeFahrenheit: real := 32.0
  const MilliKelvinPerKelvin: real := KiloF
  const JoulePerElectronvolt: real := 1.602176634e-19
  const JoulePerErg: real := 1.0e-7

  /** The angle rates agree with each other: the sexagesimal sub-units of a degree. */
  lemma AngleConstantsConsistent()
    ensures RadianPerDegree > 0.0
    ensures RadianPerMinute == RadianPerDegree / MinutePerDegree
    ensures RadianPerSecond == RadianPerDegree / SecondPerDegree
    ensures MilliArcSecondPerDegree == MilliArcSecondPerArcSecond * ArcSecondPerDegree
    ensures ArcSecondPerDegree == ArcMinutePerDegree * SecondPerMinute
    ensures SecondPerHour == MinutePerHour * SecondPerMinute
    ensures DegreePerHour * HourPerDay == DegreePerRevolution
  {
  }

  /** 10 raised to an integer power. */
  function Pow10(e: int): (r: real)
    ensures r > 0.0
    decreases if e < 0 then -e else e
  {
    if e == 0 then 1.0
    else if e > 0 then 10.0 * Pow10(e - 1)
    else Pow10(e + 1) / 10.0
  }

  /** The Go SIPrefix enumeration; Unset stands for the zero value and every other unnamed code. */
  datatype SIPrefix =
    | UnsetPrefix
    | Quetta | Ronna | Yotta | Zetta | Exa | Peta | Tera | Giga | Mega | Kilo | Hecto | Deka
    | One
    | Deci | Centi | Milli | Micro | Nano | Pico | Femto | Atto | Zepto | Yocto | Ronto | Quecto

  datatype SI = SI(enum: SIPrefix, symbol: string, factor: real, name: string)

  datatype SIError = UnknownPrefix

  /** The decimal exponent BIPM assigns to each named prefix. */
  function Exponent(p: SIPrefix): int
    requires p != UnsetPrefix
  {
    match p
    case Quetta => 30  case Ronna => 27  case Yotta => 24  case Zetta => 21
    case Exa => 18     case Peta => 15   case Tera => 12   case Giga => 9
    case Mega => 6     case Kilo => 3    case Hecto => 2   case Deka => 1
    case One => 0
    case Deci => -1    case Centi => -2  case Milli => -3  case Micro => -6
    case Nano => -9    case Pico => -12  case Femto => -15 case Atto => -18
    case Zepto => -21  case Yocto => -24 case Ronto => -27 case Quecto => -30
  }

  /** The switch table of the source: prefix record for each named prefix, an error otherwise. */
  function NewSI(sip: SIPrefix): (r: Result<SI, SIError>)
    ensures r.Ok? <==> sip != UnsetPrefix
    ensures r.Ok? ==> r.value.enum == sip && r.value.factor > 0.0
    ensures r.Ok? ==> (|r.value.symbol| == 0 <==> sip == One)
  {
    match sip
    case UnsetPrefix => Err(UnknownPrefix)
    case Quetta => Ok(SI(sip, "Q", QuettaF, "Q"))
    case Ronna => Ok(SI(sip, "R", RonnaF, "R"))
    case Yotta => Ok(SI(sip, "Y", YottaF, "Y"))
    case Zetta => Ok(SI(sip, "Z", ZettaF, "Z"))
    case Exa => Ok(SI(sip, "E", ExaF, "E"))
    case Peta => Ok(SI(sip, "P", PetaF, "P"))
    case Tera => Ok(SI(sip, "T", TeraF, "T"))
    case Giga => Ok(SI(sip, "G", GigaF, "G"))
    case Mega => Ok(SI(sip, "M", MegaF, "million"))
    case Kilo => Ok(SI(sip, "k", KiloF, "thousand"))
    case Hecto => Ok(SI(sip, "h", HectoF, "h"))
    case Deka => Ok(SI(sip, "da", DekaF, "da"))
    case One => Ok(SI(sip, "", OneF, ""))
    case Deci => Ok(SI(sip, "d", DeciF, "d"))
    case Centi => Ok(SI(sip, "c", CentiF, "c"))
    case Milli => Ok(SI(sip, "m", MilliF, "thousandths"))
    case Micro => Ok(SI(sip, "u", MicroF, "u"))
    case Nano => Ok(SI(sip, "n", NanoF, "n"))
    case Pico => Ok(SI(sip, "p", PicoF, "p"))
    case Femto => Ok(SI(sip, "f", FemtoF, "f"))
    case Atto => Ok(SI(sip, "a", AttoF, "a"))
    case Zepto => Ok(SI(sip, "z", ZeptoF, "z"))
    case Yocto => Ok(SI(sip, "y", YoctoF, "y"))
    case Ronto => Ok(SI(sip, "r", RontoF, "r"))
    case Quecto => Ok(SI(sip, "q", QuectoF, "q"))
  }

  /** The record of the unit prefix, which Go's callers obtain by discarding NewSI's error. */
  function OneSI(): (r: SI)
    ensures NewSI(One) == Ok(r) && r.factor == 1.0 && r.symbol == ""
  {
    SI(One, "", OneF, "")
  }

  /** The factor of a prefix, or the zero value's factor 0 when NewSI fails. */
  function FactorOf(sip: SIPrefix): real
  {
    match NewSI(sip)
    case Ok(si) => si.factor
    case Err(_) => 0.0
  }

  /** The i-th entry of the prefix list, largest factor first. */
  function PrefixAt(i: int): (p: SIPrefix)
    requires 0 <= i < 25
    ensures p != UnsetPrefix
  {
    match i
    case 0 => Quetta
    case 1 => Ronna
    case 2 => Yotta
    case 3 => Zetta
    case 4 => Exa
    case 5 => Peta
    case 6 => Tera
    case 7 => Giga
    case 8 => Mega
    case 9 => Kilo
    case 10 => Hecto
    case 11 => Deka
    case 12 => One
    case 13 => Deci
    case 14 => Centi
    case 15 => Milli
    case 16 => Micro
    case 17 => Nano
    case 18 => Pico
    case 19 => Femto
    case 20 => Atto
    case 21 => Zepto
    case 22 => Yocto
    case 23 => Ronto
    case _ => Quecto
  }

  /** The fixed list of prefixes offered to user interfaces. */
  function SIPrefixes(): (r: seq<SIPrefix>)
    ensures |r| == 25
    ensures forall i :: 0 <= i < |r| ==> NewSI(r[i]).Ok?
  {
    seq(25, i requires 0 <= i < 25 => PrefixAt(i))
  }

  lemma Pow10Step(e: int)
    ensures Pow10(e + 1) == 10.0 * Pow10(e)
  {
  }

  lemma {:induction false} Pow10Monotonic(a: int, b: int)
    requires a < b
    ensures Pow10(a) < Pow10(b)
    decreases b - a
  {
    Pow10Step(b - 1);
    if b > a + 1 {
      Pow10Monotonic(a, b - 1);
    }
  }

  /** The neighbouring named prefix one step closer to One. */
  function TowardOne(p: SIPrefix): (q: SIPrefix)
    requires p != UnsetPrefix && p != One
    ensures q != UnsetPrefix
  {
    match p
    case Quetta => Ronna  case Ronna => Yotta  case Yotta => Zetta  case Zetta => Exa
    case Exa => Peta      case Peta => Tera    case Tera => Giga    case Giga => Mega
    case Mega => Kilo     case Kilo => Hecto   case Hecto => Deka   case Deka => One
    case Deci => One      case Centi => Deci   case Milli => Centi  case Micro => Milli
    case Nano => Micro    case Pico => Nano    case Femto => Pico   case Atto => Femto
    case Zepto => Atto    case Yocto => Zepto  case Ronto => Yocto  case Quecto => Ronto
  }

  function AbsInt(x: int): nat { if x < 0 then -x else x }

  lemma Pow10StepThree(e: int)
    ensures Pow10(e + 3) == 1000.0 * Pow10(e)
  {
    Pow10Step(e);
    Pow10Step(e + 1);
    Pow10Step(e + 2);
  }

  /** Neighbouring prefixes differ by one or three decades, and so do their factors. */
  lemma TowardOneStep(p: SIPrefix)
    requires p != UnsetPrefix && p != One
    ensures var q := TowardOne(p);
      AbsInt(Exponent(q)) < AbsInt(Exponent(p)) &&
      ((Exponent(p) == Exponent(q) + 1 && FactorOf(p) == 10.0 * FactorOf(q)) ||
       (Exponent(p) == Exponent(q) + 3 && FactorOf(p) == 1000.0 * FactorOf(q)) ||
       (Exponent(p) + 1 == Exponent(q) && 10.0 * FactorOf(p) == FactorOf(q)) ||
       (Exponent(p) + 3 == Exponent(q) && 1000.0 * FactorOf(p) == FactorOf(q)))
  {
    match p
    case Quetta => case Ronna => case Yotta => case Zetta => case Exa => case Peta =>
    case Tera => case Giga => case Mega => case Kilo => case Hecto => case Deka =>
    case Deci => case Centi => case Milli => case Micro => case Nano => case Pico =>
    case Femto => case Atto => case Zepto => case Yocto => case Ronto => case Quecto =>
  }

  /** Each factor NewSI stores is ten to the BIPM exponent of its prefix. */
  lemma {:induction false} NewSIFactorIsPowerOfTen(p: SIPrefix)
    requires p != UnsetPrefix
    ensures NewSI(p).Ok? && FactorOf(p) == Pow10(Exponent(p))
    decreases AbsInt(Exponent(p))
  {
    if p != One {
      var q := TowardOne(p);
      TowardOneStep(p);
      NewSIFactorIsPowerOfTen(q);
      var e := Exponent(q);
      if Exponent(p) == e + 1 {
        Pow10Step(e);
      } else if Exponent(p) == e + 3 {
        Pow10StepThree(e);
      } else if Exponent(p) == e - 1 {
        Pow10Step(e - 1);
      } else {
        Pow10StepThree(e - 3);
      }
    }
  }

  /** The position of a named prefix in the list. */
  function PrefixIndex(p: SIPrefix): (i: int)
    requires p != UnsetPrefix
    ensures 0 <= i < 25 && PrefixAt(i) == p
  {
    match p
    case Quetta => 0
    case Ronna => 1
    case Yotta => 2
    case Zetta => 3
    case Exa => 4
    case Peta => 5
    case Tera => 6
    case Giga => 7
    case Mega => 8
    case Kilo => 9
    case Hecto => 10
    case Deka => 11
    case One => 12
    case Deci => 13
    case Centi => 14
    case Milli => 15
    case Micro => 16
    case Nano => 17
    case Pico => 18
    case Femto => 19
    case Atto => 20
    case Zepto => 21
    case Yocto => 22
    case Ronto => 23
    case Quecto => 24
  }

  /** SIPrefixes offers exactly the named prefixes. */
  lemma SIPrefixesComplete(p: SIPrefix)
    ensures p in SIPrefixes() <==> p != UnsetPrefix
  {
    if p != UnsetPrefix {
      assert SIPrefixes()[PrefixIndex(p)] == p;
    }
  }

  /** Neighbouring entries of the prefix list descend in exponent. */
  lemma AdjacentExponents(k: int)
    requires 0 <= k < 24
    ensures Exponent(PrefixAt(k)) > Exponent(PrefixAt(k + 1))
  {
  }

  lemma {:induction false} ExponentsDecrease(i: int, j: int)
    requires 0 <= i < j < 25
    ensures Exponent(PrefixAt(i)) > Exponent(PrefixAt(j))
    decreases j - i
  {
    AdjacentExponents(j - 1);
    if j > i + 1 {
      ExponentsDecrease(i, j - 1);
    }
  }

  /** SIPrefixes lists each named prefix once, largest factor first. */
  lemma SIPrefixesStrictlyDecreasing(i: int, j: int)
    requires 0 <= i < j < |SIPrefixes()|
    ensures SIPrefixes()[i] != SIPrefixes()[j]
    ensures FactorOf(SIPrefixes()[i]) > FactorOf(SIPrefixes()[j])
  {
    var p, q := SIPrefixes()[i], SIPrefixes()[j];
    assert p == PrefixAt(i) && q == PrefixAt(j);
    ExponentsDecrease(i, j);
    Pow10Monotonic(Exponent(q), Exponent(p));
    NewSIFactorIsPowerOfTen(p);
    NewSIFactorIsPowerOfTen(q);
  }
}
