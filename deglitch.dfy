/**
 * DeGlitch: a rate-bounded filter for encoder readings. A reading whose
 * rate against the last accepted one exceeds the bound is replaced by an
 * extrapolation and not remembered; any other reading is passed through
 * and becomes the new reference.
 */
module DeGlitching {
  import opened Numeric
  import opened Angles
  import opened AngularRates

  /** What the DeGlitch closure captures besides the bound: the last accepted angle and its time (ns). */
  datatype GlitchState = GlitchState(prevAngle: Angle, prevTime: int)

  /** The closure's rate: the angle moved since the reference, in degrees per second. */
  function RateSince(s: GlitchState, cura: Angle, t: int): (v: real)
    requires t > s.prevTime
    ensures v == (Deg(cura) - Deg(s.prevAngle)) / Seconds(t - s.prevTime)
  {
    var diffA := Sub(cura, s.prevAngle);
    var diffT := t - s.prevTime;
    var rate := NewAngularRate(diffA, diffT);
    DegreeRateOf(diffA, diffT);
    DegreeDifference(cura, s.prevAngle);
    ToDegreeRate(rate).value
  }

  /**
   * One call of the closure with bound maxRate (degrees per second): the
   * answer and the new state. A reading is rejected exactly when it moved
   * more than maxRate times the elapsed seconds; a rejected reading is
   * answered by the reference advanced at the full rate and leaves the
   * state alone, an accepted one is answered by itself and becomes the
   * reference.
   */
  function DeGlitchStep(maxRate: real, s: GlitchState, cura: Angle, t: int): (r: (Angle, GlitchState))
    requires t > s.prevTime
    ensures var secs := Seconds(t - s.prevTime);
      r.1 == s <==> Abs(Deg(cura) - Deg(s.prevAngle)) > maxRate * secs
    ensures var secs := Seconds(t - s.prevTime);
      r.1 == s ==> r.0.unit == Degree && Deg(r.0) == Deg(s.prevAngle) + maxRate * secs
    ensures r.1 != s ==> r.0 == cura && r.1 == GlitchState(cura, t)
  {
    RejectionTest(maxRate, s, cura, t);
    if Abs(RateSince(s, cura, t)) > maxRate then
      (Extrapolate(maxRate, s, t), s)
    else
      (cura, GlitchState(cura, t))
  }

  /** The closure's rate test, restated on the distance moved. */
  lemma RejectionTest(maxRate: real, s: GlitchState, cura: Angle, t: int)
    requires t > s.prevTime
    ensures Abs(RateSince(s, cura, t)) > maxRate <==>
      Abs(Deg(cura) - Deg(s.prevAngle)) > maxRate * Seconds(t - s.prevTime)
  {
    var secs := Seconds(t - s.prevTime);
    var diff := Deg(cura) - Deg(s.prevAngle);
    assert secs > 0.0 && RateSince(s, cura, t) == diff / secs;
    QuotientExceeds(diff, secs, maxRate);
  }

  /** The closure's substitute: the reference advanced by maxRate over the elapsed seconds, in degrees. */
  function Extrapolate(maxRate: real, s: GlitchState, t: int): (a: Angle)
    ensures a.unit == Degree && Deg(a) == Deg(s.prevAngle) + maxRate * Seconds(t - s.prevTime)
  {
    DegreeValue(Deg(s.prevAngle) + maxRate * Seconds(t - s.prevTime));
    NewAngle(Degree, ToDegree(s.prevAngle).value + maxRate * Seconds(t - s.prevTime))
  }

  /** A rejected reading: the answer is the extrapolation and the state stays. */
  lemma RejectedStep(maxRate: real, s: GlitchState, cura: Angle, t: int)
    requires t > s.prevTime && Abs(RateSince(s, cura, t)) > maxRate
    ensures DeGlitchStep(maxRate, s, cura, t) == (Extrapolate(maxRate, s, t), s)
  {
    var step := DeGlitchStep(maxRate, s, cura, t);
    assert step.0 == Extrapolate(maxRate, s, t) && step.1 == s;
    assert step == (step.0, step.1);
  }

  /** An accepted reading: the answer is the reading and it becomes the reference. */
  lemma AcceptedStep(maxRate: real, s: GlitchState, cura: Angle, t: int)
    requires t > s.prevTime && !(Abs(RateSince(s, cura, t)) > maxRate)
    ensures DeGlitchStep(maxRate, s, cura, t) == (cura, GlitchState(cura, t))
  {
  }

  /**
   * The substitute always lies at or above the reference, whichever way the
   * rejected reading went: the extrapolation uses +maxRate, never the
   * reading's own direction.
   */
  lemma SubstituteNeverBelowReference(maxRate: real, s: GlitchState, cura: Angle, t: int)
    requires t > s.prevTime && maxRate >= 0.0
    ensures var r := DeGlitchStep(maxRate, s, cura, t);
      r.1 == s ==> Deg(r.0) >= Deg(s.prevAngle)
  {
    var secs := Seconds(t - s.prevTime);
    assert maxRate * secs >= 0.0;
  }

  /** A reading far below the reference is answered by a value above it. */
  lemma DownwardGlitchExtrapolatesUpward()
    ensures var s := GlitchState(Angle(Degree, 100.0), 0);
      var r := DeGlitchStep(2.0, s, Angle(Degree, 50.0), 1_000_000_000);
      r.1 == s && Deg(r.0) == 102.0
  {
    DegreeValue(100.0);
    DegreeValue(50.0);
    assert Seconds(1_000_000_000) == 1.0;
  }

  /**
   * DeGlitch(a, ti, maxr): the bound in degrees per second, fixed at
   * construction, and the reference reading.
   */
  class DeGlitch {
    const maxrateV: real
    var prevAngle: Angle
    var prevTime: int

    function State(): GlitchState
      reads this
    {
      GlitchState(prevAngle, prevTime)
    }

    constructor (a: Angle, ti: int, maxr: AngularRate)
      ensures maxrateV == DegPerSec(maxr)
      ensures State() == GlitchState(a, ti)
    {
      maxrateV := ToDegreeRate(maxr).value;
      prevAngle := a;
      prevTime := ti;
    }

    /** The closure's body; t is strictly later than the reference reading. */
    method Update(cura: Angle, t: int) returns (r: Angle)
      requires t > prevTime
      modifies this
      ensures (r, State()) == DeGlitchStep(maxrateV, old(State()), cura, t)
    {
      var s := State();
      var ratev := RateSince(s, cura, t);
      if Abs(ratev) > maxrateV {
        r := Extrapolate(maxrateV, s, t);
        RejectedStep(maxrateV, s, cura, t);
        assert State() == s;
      } else {
        prevAngle := cura;
        prevTime := t;
        r := cura;
        AcceptedStep(maxrateV, s, cura, t);
        assert State() == GlitchState(cura, t);
      }
    }
  }
}
