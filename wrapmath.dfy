/**
 * The azimuth cable wrap in volts and in wrap planes: the junction-box
 * voltage of an azimuth on a wrap plane, its inverse, the mapping of an
 * angle onto a plane, and the deprecated voltage-to-wrap-count search.
 */
module WrapMath {
  import opened Wrappers
  import opened Numeric
  import opened Angles

  /** Volts per degree of azimuth (0.06467 V per revolution). */
  const VoltsPerDeg: real := 0.06467 / 360.0
  /** The voltage at azimuth 0 on wrap plane 0. */
  const VoltZero: real := 2.73

  /** The voltage the junction box should show for azimuth az on wrap plane wc. */
  function WrapVoltage(az: Angle, wc: Int32): (v: real)
    ensures (v - VoltZero) / VoltsPerDeg == Deg(az) + 360.0 * wc as real
  {
    VoltZero + VoltsPerDeg * 360.0 * wc as real + VoltsPerDeg * ToDegree(az).value
  }

  /** The wrap angle, in degrees, that a voltage stands for. */
  function WrapAngle(v: real): (a: Angle)
    ensures a.unit == Degree
  {
    NewAngle(Degree, (v - VoltZero) / VoltsPerDeg)
  }

  /** The voltage of azimuth az on plane wc reads back as az plus wc revolutions, and a voltage reads back from plane 0. */
  lemma WrapAngleInvertsWrapVoltage(az: Angle, wc: Int32, v: real)
    ensures Deg(WrapAngle(WrapVoltage(az, wc))) == Deg(az) + 360.0 * wc as real
    ensures WrapVoltage(WrapAngle(v), 0) == v
  {
    var d := Deg(az) + 360.0 * wc as real;
    assert WrapVoltage(az, wc) - VoltZero == VoltsPerDeg * d;
    assert (VoltsPerDeg * d) / VoltsPerDeg == d;
    DegreeValue(d);
    var w := (v - VoltZero) / VoltsPerDeg;
    DegreeValue(w);
    assert VoltsPerDeg * w == v - VoltZero;
  }

  /** The angle ca on wrap plane wc, as a Radian angle. */
  function MapAngle(wc: Int32, ca: Angle): (r: Angle)
    ensures r.unit == Radian
    ensures Deg(r) == Deg(ca) + 360.0 * wc as real
  {
    var a := NewAngle(Degree, 360.0 * wc as real);
    DegreeValue(360.0 * wc as real);
    Add(ca, a)
  }

  /** MapAngle and Map place an angle on the same plane; only the unit differs. */
  lemma MapAngleAgreesWithMap(wc: Int32, ca: Angle)
    ensures Equal(MapAngle(wc, ca), Map(ca, wc))
    ensures Map(ca, wc) == ToDegree(MapAngle(wc, ca))
  {
    var m := Map(ca, wc);
    DegreeValue(m.value);
    SameUnitSameDegrees(m, ToDegree(MapAngle(wc, ca)));
  }

  /** The degree value of a voltage's wrap angle, as WrapCount reads it. */
  function WrapDegrees(volts: real): (wa: real)
    ensures wa == (volts - VoltZero) / VoltsPerDeg
  {
    DegreeValue((volts - VoltZero) / VoltsPerDeg);
    ToDegree(WrapAngle(volts)).value
  }

  /** The 1-based revolution an absolute angle x lies in: the k with 360(k-1) <= x < 360k. */
  function RevolutionIndex(x: real): (k: int)
    requires x >= 0.0
    ensures k >= 1
    ensures 360.0 * (k - 1) as real <= x < 360.0 * k as real
  {
    (x / 360.0).Floor + 1
  }

  lemma RevolutionIndexUnique(x: real, k: int)
    requires x >= 0.0
    requires 360.0 * (k - 1) as real <= x < 360.0 * k as real
    ensures k == RevolutionIndex(x)
  {
  }

  datatype WrapCountError = UnableToDetermineWrapCount

  /**
   * Searches the planes 0..mwc for the first whose half-width idx*360
   * exceeds the wrap angle's magnitude, and signs that index like the
   * wrap angle (zero counts as negative). The voltage-per-revolution and
   * tolerance arguments are unused.
   */
  method WrapCount(volts: real, voltsPerRev: real, tol: real, mwc: Int32) returns (r: Result<Int32, WrapCountError>)
    ensures r.Ok? <==> Abs(WrapDegrees(volts)) < 360.0 * mwc as real
    ensures r.Ok? ==> var wa := WrapDegrees(volts);
      r.value as int == (if wa > 0.0 then 1 else -1) * RevolutionIndex(Abs(wa))
  {
    var wa := ToDegree(WrapAngle(volts)).value;
    var si: int := if wa > 0.0 then 1 else -1;
    var idx: int := 0;
    while idx <= mwc as int
      invariant 0 <= idx
      invariant idx <= mwc as int + 1 || idx == 0
      invariant idx == 0 || Abs(wa) >= 360.0 * (idx - 1) as real
    {
      var ca := idx as real * 360.0;
      var maxA := ca + ToDegree(NewAngle(Degree, 0.0)).value;
      var minA := -maxA;
      if wa > minA && wa < maxA {
        RevolutionIndexUnique(Abs(wa), idx);
        return Ok((idx * si) as Int32);
      }
      idx := idx + 1;
    }
    return Err(UnableToDetermineWrapCount);
  }

  /**
   * The search names the 1-based revolution: an azimuth strictly inside
   * (0, 360) on a plane wc >= 0 is found on plane wc + 1.
   */
  lemma WrapCountOfWrapVoltage(az: Angle, wc: Int32)
    requires 0.0 < Deg(az) < 360.0 && wc >= 0
    ensures RevolutionIndex(Abs(WrapDegrees(WrapVoltage(az, wc)))) == wc as int + 1
  {
    WrapAngleInvertsWrapVoltage(az, wc, 0.0);
    var wa := WrapDegrees(WrapVoltage(az, wc));
    DegreeValue(wa);
    assert wa == Deg(az) + 360.0 * wc as real;
    RevolutionIndexUnique(Abs(wa), wc as int + 1);
  }
}
