/**
 * Energies: a unit (Joule, Erg or Electronvolt), an SI prefix record and
 * a value. Joule() is the common ground: it folds the unit and the prefix
 * into a plain joule value, and every other conversion keeps it.
 */
module Energies {
  import opened Wrappers
  import opened Constants

  /** The Go EnergyUnit enumeration; UnsetEnergy stands for the blank zero value and every unnamed code. */
  datatype EnergyUnit = UnsetEnergy | Joule | Erg | Electronvolt

  datatype Energy = Energy(unit: EnergyUnit, si: SI, value: real)

  datatype EnergyError = UnknownEnergyUnit | UnknownSIPrefix

  /** checkEnergyUnit: the three named units pass. */
  function CheckEnergyUnit(u: EnergyUnit): (r: Result<(), EnergyError>)
    ensures r.Ok? <==> u in {Joule, Erg, Electronvolt}
  {
    match u
    case Joule | Erg | Electronvolt => Ok(())
    case UnsetEnergy => Err(UnknownEnergyUnit)
  }

  /** The unit is checked first, then the prefix; on success the prefix record is NewSI's. */
  function NewEnergy(eu: EnergyUnit, sip: SIPrefix, v: real): (r: Result<Energy, EnergyError>)
    ensures r.Ok? <==> eu != UnsetEnergy && sip != UnsetPrefix
    ensures eu == UnsetEnergy ==> r == Err(UnknownEnergyUnit)
    ensures eu != UnsetEnergy && sip == UnsetPrefix ==> r == Err(UnknownSIPrefix)
    ensures r.Ok? ==> r.value.unit == eu && Ok(r.value.si) == NewSI(sip) && r.value.value == v
  {
    if CheckEnergyUnit(eu).Err? then Err(UnknownEnergyUnit)
    else match NewSI(sip)
      case Err(_) => Err(UnknownSIPrefix)
      case Ok(si) => Ok(Energy(eu, si, v))
  }

  /** The units offered to user interfaces: exactly those checkEnergyUnit accepts, each once. */
  function EnergyUnits(): (r: seq<EnergyUnit>)
    ensures |r| == 3
    ensures forall u :: u in r <==> CheckEnergyUnit(u).Ok?
    ensures forall i, j :: 0 <= i < j < |r| ==> r[i] != r[j]
  {
    [Joule, Erg, Electronvolt]
  }

  function UnitSymbol(u: EnergyUnit): string
  {
    match u
    case Joule => "J"
    case Erg => "erg"
    case Electronvolt => "eV"
    case UnsetEnergy => ""
  }

  /** The prefix symbol followed by the unit symbol. */
  function UnitString(e: Energy): (s: string)
    ensures |s| >= |e.si.symbol| && s[..|e.si.symbol|] == e.si.symbol
    ensures s[|e.si.symbol|..] == UnitSymbol(e.unit)
  {
    e.si.symbol + UnitSymbol(e.unit)
  }

  /** A kilojoule prints as "kJ". */
  lemma KilojouleString()
    ensures NewEnergy(Joule, Kilo, 12.23).Ok?
    ensures UnitString(NewEnergy(Joule, Kilo, 12.23).value) == "kJ"
    ensures NewEnergy(Joule, Kilo, 12.23).value.value == 12.23
  {
  }

  /** Joules per unit as the source's switch has it; the unset unit has no row and gives 0. */
  function JoulesPer(u: EnergyUnit): real
  {
    match u
    case Joule => 1.0
    case Erg => JoulePerErg
    case Electronvolt => JoulePerElectronvolt
    case UnsetEnergy => 0.0
  }

  /** Joule(): unit Joule with prefix One, the value scaled by the unit's joules and the prefix factor. */
  function ToJoule(e: Energy): (r: Energy)
    ensures r.unit == Joule && r.si == OneSI()
    ensures r.value == e.value * JoulesPer(e.unit) * e.si.factor
  {
    var v :=
      match e.unit
      case Joule => e.value
      case Erg => e.value * JoulePerErg
      case Electronvolt => e.value * JoulePerElectronvolt
      case UnsetEnergy => 0.0;
    Energy(Joule, OneSI(), v * e.si.factor)
  }

  /** An energy already in plain joules is its own Joule(). */
  lemma ToJouleIdempotent(e: Energy)
    ensures ToJoule(ToJoule(e)) == ToJoule(e)
  {
  }

  /** Two prefixed values that agree after scaling agree after scaling by a unit factor as well. */
  lemma ScaledAgree(a: real, f: real, b: real, g: real, k: real)
    requires a * f == b * g
    ensures a * k * f == b * k * g
  {
    calc {
      a * k * f;
      (a * f) * k;
      (b * g) * k;
      b * k * g;
    }
  }

  /** Electronvolt(): unit Electronvolt with prefix One, the same energy in joules. */
  function ToElectronvolt(e: Energy): (r: Energy)
    ensures r.unit == Electronvolt && r.si == OneSI()
    ensures ToJoule(r) == ToJoule(e)
  {
    Energy(Electronvolt, OneSI(), ToJoule(e).value / JoulePerElectronvolt)
  }

  /**
   * ConvertTo(eu): unit eu with prefix One and the same energy in joules;
   * an unnamed target unit has no row and leaves the value at 0.
   */
  function ConvertTo(e: Energy, eu: EnergyUnit): (r: Energy)
    ensures r.unit == eu && r.si == OneSI()
    ensures eu != UnsetEnergy ==> ToJoule(r) == ToJoule(e)
    ensures eu == UnsetEnergy ==> r.value == 0.0
  {
    var v :=
      match eu
      case Joule => ToJoule(e).value
      case Erg => ToJoule(e).value / JoulePerErg
      case Electronvolt => ToJoule(e).value / JoulePerElectronvolt
      case UnsetEnergy => 0.0;
    Energy(eu, OneSI(), v)
  }

  /** Electronvolt() and ConvertTo(Electronvolt) are the same conversion. */
  lemma ElectronvoltIsConvertTo(e: Energy)
    ensures ToElectronvolt(e) == ConvertTo(e, Electronvolt)
  {
  }

  /** ConvertTo into the unit and prefix a value already has gives it back. */
  lemma ConvertToOwnUnit(e: Energy)
    requires e.unit != UnsetEnergy && e.si == OneSI()
    ensures ConvertTo(e, e.unit) == e
  {
    var j := ToJoule(e).value;
    assert j == e.value * JoulesPer(e.unit);
    assert j / JoulesPer(e.unit) == e.value;
  }

  /** The value re-expressed under the prefix record si, keeping value times factor. */
  function Rescale(e: Energy, si: SI): (r: Energy)
    requires si.factor > 0.0
    ensures r.unit == e.unit && r.si == si
    ensures r.value * si.factor == e.value * e.si.factor
    ensures ToJoule(r) == ToJoule(e)
  {
    var r := Energy(e.unit, si, e.value * e.si.factor / si.factor);
    ScaledAgree(r.value, si.factor, e.value, e.si.factor, JoulesPer(e.unit));
    r
  }

  /**
   * Convert(sip): the same unit under another prefix, the value rescaled
   * by old factor over new factor so that the energy is unchanged.
   */
  function Convert(e: Energy, sip: SIPrefix): (r: Energy)
    requires sip != UnsetPrefix
    ensures r.unit == e.unit && Ok(r.si) == NewSI(sip)
    ensures r.value * r.si.factor == e.value * e.si.factor
    ensures ToJoule(r) == ToJoule(e)
  {
    Rescale(e, NewSI(sip).value)
  }

  /** One kilojoule is a million millijoules, and converting back gives the kilojoule again. */
  lemma KiloToMilli()
    ensures var e := NewEnergy(Joule, Kilo, 1.0).value;
      Convert(e, Milli).value == 1e6 && Convert(Convert(e, Milli), Kilo) == e
  {
    var e := NewEnergy(Joule, Kilo, 1.0).value;
    assert Convert(e, Milli).value == 1000.0 / 0.001;
  }
}
