/**
 * The wrap counters: WrapCounter tracks the azimuth cable wrap from
 * successive encoder angles and their timestamps; AngleWrapCount is the
 * deprecated boundary-crossing counter with a first-sample sentinel.
 */
module WrapCounters {
  import opened Wrappers
  import opened Numeric
  import opened Constants
  import opened Angles
  import opened AngularRates
  import opened Modulo

  // WrapCounter.

  /** What the WrapCounter closure captures: the count, the previous angle and its time (ns). */
  datatype WrapState = WrapState(count: Int32, prevAngle: Angle, prevTime: int)

  /**
   * The seam window: with secs the elapsed seconds, the previous reading lies
   * within secs degrees below 360 and the new one within secs above 0, or
   * the other way round.
   */
  predicate InSeam(prevDeg: real, encDeg: real, secs: real)
  {
    (prevDeg > 360.0 - secs && encDeg < secs) || (prevDeg < secs && encDeg > 360.0 - secs)
  }

  /** Going the short way across the seam would need more than 2 degrees per second. */
  predicate TooFast(prevDeg: real, encDeg: real, secs: real)
  {
    360.0 - Abs(encDeg - prevDeg) > 2.0 * secs
  }

  /** The closure's rate test is the TooFast condition. */
  lemma SeamRate(prev: Angle, encA: Angle, delT: int)
    requires delT > 0
    ensures var delAv := 360.0 - Abs(ToDegree(Sub(encA, prev)).value);
      ToDegreeRate(NewAngularRate(NewAngle(Degree, delAv), delT)).value > 2.0
      <==> TooFast(Deg(prev), Deg(encA), Seconds(delT))
  {
    var d := ToDegree(Sub(encA, prev)).value;
    DegreeDifference(encA, prev);
    assert d == Deg(encA) - Deg(prev);
    var delAv := 360.0 - Abs(d);
    var secs := Seconds(delT);
    assert secs > 0.0;
    DegreeRateOf(NewAngle(Degree, delAv), delT);
    DegreeValue(delAv);
    var rate := ToDegreeRate(NewAngularRate(NewAngle(Degree, delAv), delT)).value;
    assert rate == delAv / secs;
    QuotientExceeds(delAv, secs, 2.0);
    assert rate > 2.0 <==> delAv > 2.0 * secs;
    assert TooFast(Deg(prev), Deg(encA), secs) <==> delAv > 2.0 * secs;
  }

  /** One call of the WrapCounter closure with encoder angle encA read at time now. */
  function WrapStep(s: WrapState, encA: Angle, now: int): (r: WrapState)
    requires now > s.prevTime
    ensures var secs, p, e := Seconds(now - s.prevTime), Deg(s.prevAngle), Deg(encA);
      r.count == s.count
      || (InSeam(p, e, secs) && !TooFast(p, e, secs) && (r.count == Inc32(s.count) || r.count == Dec32(s.count)))
    ensures var secs, p, e := Seconds(now - s.prevTime), Deg(s.prevAngle), Deg(encA);
      InSeam(p, e, secs) && TooFast(p, e, secs) ==> r == s
    ensures var secs, p, e := Seconds(now - s.prevTime), Deg(s.prevAngle), Deg(encA);
      !(InSeam(p, e, secs) && TooFast(p, e, secs)) ==> r.prevAngle == encA && r.prevTime == now
    ensures var secs, p, e := Seconds(now - s.prevTime), Deg(s.prevAngle), Deg(encA);
      InSeam(p, e, secs) && !TooFast(p, e, secs) && e > p ==> r.count == Dec32(s.count)
    ensures var secs, p, e := Seconds(now - s.prevTime), Deg(s.prevAngle), Deg(encA);
      InSeam(p, e, secs) && !TooFast(p, e, secs) && e < p ==> r.count == Inc32(s.count)
    ensures Deg(encA) == Deg(s.prevAngle) ==> r.count == s.count
  {
    var delT := now - s.prevTime;
    var upperDeg := 360.0 - Seconds(delT);
    var lowerDeg := Seconds(delT);
    var prevAv := ToDegree(s.prevAngle).value;
    var encAv := ToDegree(encA).value;
    if (prevAv > upperDeg && encAv < lowerDeg) || (prevAv < lowerDeg && encAv > upperDeg) then
      var delA := Sub(encA, s.prevAngle);
      var delAv := 360.0 - Abs(ToDegree(delA).value);
      var rate := NewAngularRate(NewAngle(Degree, delAv), delT);
      SeamRate(s.prevAngle, encA, delT);
      if ToDegreeRate(rate).value > 2.0 then s
      else
        DegreeOrder(encA, s.prevAngle);
        var count :=
          if GreaterThan(encA, s.prevAngle) then Dec32(s.count)
          else if LessThan(encA, s.prevAngle) then Inc32(s.count)
          else s.count;
        WrapState(count, encA, now)
    else
      WrapState(s.count, encA, now)
  }

  /**
   * The sequence of six readings 100.1 ms apart, starting from 359.9 degrees
   * on plane 1: 0, 359.9, 359.8, 0.2, 359.9, 0 give the counts 2, 1, 1, 1, 1, 2.
   */
  lemma WrapCounterSequence()
    ensures var dt := 100_100_000;
      var s0 := WrapState(1, Angle(Degree, 359.9), 0);
      var s1 := WrapStep(s0, Angle(Degree, 0.0), dt);
      var s2 := WrapStep(s1, Angle(Degree, 359.9), 2 * dt);
      var s3 := WrapStep(s2, Angle(Degree, 359.8), 3 * dt);
      var s4 := WrapStep(s3, Angle(Degree, 0.2), 4 * dt);
      var s5 := WrapStep(s4, Angle(Degree, 359.9), 5 * dt);
      var s6 := WrapStep(s5, Angle(Degree, 0.0), 6 * dt);
      [s1.count, s2.count, s3.count, s4.count, s5.count, s6.count] == [2, 1, 1, 1, 1, 2]
  {
    var dt := 100_100_000;
    var secs := Seconds(dt);
    assert secs == 0.1001;
    DegreeValue(359.9);
    DegreeValue(0.0);
    DegreeValue(359.8);
    DegreeValue(0.2);
    var s0 := WrapState(1, Angle(Degree, 359.9), 0);
    var s1 := WrapStep(s0, Angle(Degree, 0.0), dt);
    assert InSeam(359.9, 0.0, secs) && !TooFast(359.9, 0.0, secs);
    assert s1 == WrapState(2, Angle(Degree, 0.0), dt);
    var s2 := WrapStep(s1, Angle(Degree, 359.9), 2 * dt);
    assert Seconds(2 * dt - dt) == secs;
    assert InSeam(0.0, 359.9, secs) && !TooFast(0.0, 359.9, secs);
    assert s2 == WrapState(1, Angle(Degree, 359.9), 2 * dt);
    var s3 := WrapStep(s2, Angle(Degree, 359.8), 3 * dt);
    assert Seconds(3 * dt - 2 * dt) == secs;
    assert !InSeam(359.9, 359.8, secs);
    assert s3 == WrapState(1, Angle(Degree, 359.8), 3 * dt);
    var s4 := WrapStep(s3, Angle(Degree, 0.2), 4 * dt);
    assert Seconds(4 * dt - 3 * dt) == secs;
    assert !InSeam(359.8, 0.2, secs);
    assert s4 == WrapState(1, Angle(Degree, 0.2), 4 * dt);
    var s5 := WrapStep(s4, Angle(Degree, 359.9), 5 * dt);
    assert Seconds(5 * dt - 4 * dt) == secs;
    assert !InSeam(0.2, 359.9, secs);
    assert s5 == WrapState(1, Angle(Degree, 359.9), 5 * dt);
    var s6 := WrapStep(s5, Angle(Degree, 0.0), 6 * dt);
    assert Seconds(6 * dt - 5 * dt) == secs;
    assert InSeam(359.9, 0.0, secs) && !TooFast(359.9, 0.0, secs);
    assert s6.count == 2;
  }

  /**
   * WrapCounter(encoderAngle, wc): the closure's captured variables as
   * fields. The wall clock the closure reads is the now argument of Update,
   * and start is the time of construction.
   */
  class WrapCounter {
    var wrapCount: Int32
    var prevAngle: Angle
    var prevAngleT: int

    function State(): WrapState
      reads this
    {
      WrapState(wrapCount, prevAngle, prevAngleT)
    }

    constructor (encoderAngle: Angle, wc: Int32, start: int)
      ensures State() == WrapState(wc, encoderAngle, start)
    {
      wrapCount := wc;
      prevAngle := encoderAngle;
      prevAngleT := start;
    }

    /** The closure's body; now is strictly later than the previous accepted reading. */
    method Update(encA: Angle, now: int) returns (wc: Int32)
      requires now > prevAngleT
      modifies this
      ensures State() == WrapStep(old(State()), encA, now)
      ensures wc == wrapCount
    {
      var delT := now - prevAngleT;
      var upperDeg := 360.0 - Seconds(delT);
      var lowerDeg := Seconds(delT);
      var prevAv := ToDegree(prevAngle).value;
      var encAv := ToDegree(encA).value;
      if (prevAv > upperDeg && encAv < lowerDeg) || (prevAv < lowerDeg && encAv > upperDeg) {
        var delA := Sub(encA, prevAngle);
        var delAv := 360.0 - Abs(ToDegree(delA).value);
        var rate := NewAngularRate(NewAngle(Degree, delAv), delT);
        if ToDegreeRate(rate).value > 2.0 {
          return wrapCount;
        }
        if GreaterThan(encA, prevAngle) {
          wrapCount := Dec32(wrapCount);
        } else if LessThan(encA, prevAngle) {
          wrapCount := Inc32(wrapCount);
        }
      }
      prevAngle := encA;
      prevAngleT := now;
      return wrapCount;
    }
  }

  // AngleWrapCount.

  /** The high threshold as the source computes it: Modulo360 applied to the radian difference, read in degrees. */
  function HighThreshold(boundry: Angle, thresh: Angle): (h: real)
    ensures h * RadianPerDegree == ModReal(Rad(boundry) - Rad(thresh), 360.0)
    ensures 0.0 <= h * RadianPerDegree < 360.0
  {
    ModRealRange(Rad(boundry) - Rad(thresh), 360.0);
    var reduce := x => ModReal(x, 360.0);
    var m := SubModulo(boundry, thresh, Some(reduce));
    assert m.value == reduce(Rad(boundry) - Rad(thresh)) == ModReal(Rad(boundry) - Rad(thresh), 360.0);
    assert Rad(m) == m.value;
    assert ToDegree(m).value * RadianPerDegree == m.value;
    ToDegree(m).value
  }

  /** The low threshold as the source computes it: Modulo360 applied to the radian sum, read in degrees. */
  function LowThreshold(boundry: Angle, thresh: Angle): (l: real)
    ensures l * RadianPerDegree == ModReal(Rad(boundry) + Rad(thresh), 360.0)
    ensures 0.0 <= l * RadianPerDegree < 360.0
  {
    ModRealRange(Rad(boundry) + Rad(thresh), 360.0);
    var reduce := x => ModReal(x, 360.0);
    var m := AddModulo(boundry, thresh, Some(reduce));
    assert m.value == reduce(Rad(boundry) + Rad(thresh)) == ModReal(Rad(boundry) + Rad(thresh), 360.0);
    assert Rad(m) == m.value;
    assert ToDegree(m).value * RadianPerDegree == m.value;
    ToDegree(m).value
  }

  /** One counted sample: +1 for a high-to-low crossing, -1 for a low-to-high one. */
  function CountStep(wc: Int32, prev: real, curr: real, high: real, low: real): (r: Int32)
    ensures prev > high && curr < low ==> r == Inc32(wc)
    ensures !(prev > high && curr < low) && prev < low && curr > high ==> r == Dec32(wc)
    ensures !(prev > high && curr < low) && !(prev < low && curr > high) ==> r == wc
  {
    if prev > high && curr < low then Inc32(wc)
    else if prev < low && curr > high then Dec32(wc)
    else wc
  }

  /** AngleWrapCount(boundry, thresh): the sentinel-initialised previous value, the count and the two thresholds. */
  class AngleWrapCount {
    var prev: real
    var wrapCount: Int32
    const high: real
    const low: real

    constructor (boundry: Angle, thresh: Angle)
      ensures prev == -1.0 && wrapCount == 0
      ensures high == HighThreshold(boundry, thresh) && low == LowThreshold(boundry, thresh)
    {
      prev := -1.0;
      wrapCount := 0;
      high := HighThreshold(boundry, thresh);
      low := LowThreshold(boundry, thresh);
    }

    /** The closure's body: the first sample (prev still -1) is only recorded. */
    method Update(v: Angle) returns (r: Int32)
      modifies this
      ensures prev == Deg(v)
      ensures old(prev) == -1.0 ==> r == 0 && wrapCount == old(wrapCount)
      ensures old(prev) != -1.0 ==> wrapCount == CountStep(old(wrapCount), old(prev), Deg(v), high, low)
      ensures old(prev) != -1.0 ==> r == wrapCount
    {
      var curr := ToDegree(v).value;
      if prev == -1.0 {
        prev := curr;
        return 0;
      }
      if prev > high && curr < low {
        wrapCount := Inc32(wrapCount);
      } else if prev < low && curr > high {
        wrapCount := Dec32(wrapCount);
      }
      prev := curr;
      return wrapCount;
    }
  }

  /**
   * As written the high threshold is not a degree in [0, 360): for a
   * boundary at 0 degrees and a 10 degree threshold it lies above 16000
   * degrees, so no pair of readings in [0, 360) ever counts up.
   */
  lemma HighThresholdOutOfRange(prev: real, curr: real, wc: Int32)
    requires prev < 360.0
    ensures var b, t := Angle(Degree, 0.0), Angle(Degree, 10.0);
      HighThreshold(b, t) > 16000.0
      && CountStep(wc, prev, curr, HighThreshold(b, t), LowThreshold(b, t)) != Inc32(wc)
  {
    var b, t := Angle(Degree, 0.0), Angle(Degree, 10.0);
    var x := Rad(b) - Rad(t);
    assert x == -(10.0 * (Pi / 180.0));
    ModRealUnique(x, 360.0, 1);
    var m := SubModulo(b, t, Some(y => ModReal(y, 360.0)));
    assert m == Angle(Radian, x + 360.0);
    assert HighThreshold(b, t) == (x + 360.0) / RadianPerDegree;
    QuotientExceeds(x + 360.0, RadianPerDegree, 16000.0);
    assert Inc32(wc) != wc;
  }

  /** The thresholds evidently intended: boundary minus and plus threshold, reduced to [0, 360) in degrees. */
  function HighThresholdDegrees(boundry: Angle, thresh: Angle): (h: real)
    ensures 0.0 <= h < 360.0
  {
    ModRealRange(Deg(boundry) - Deg(thresh), 360.0);
    ModReal(Deg(boundry) - Deg(thresh), 360.0)
  }

  function LowThresholdDegrees(boundry: Angle, thresh: Angle): (l: real)
    ensures 0.0 <= l < 360.0
  {
    ModRealRange(Deg(boundry) + Deg(thresh), 360.0);
    ModReal(Deg(boundry) + Deg(thresh), 360.0)
  }

  /**
   * With the degree thresholds, a boundary at 0 and a 10 degree threshold
   * give 350 and 10, and the crossing 355 -> 5 counts up while 5 -> 355
   * counts down.
   */
  lemma DegreeThresholdsCount(wc: Int32)
    requires MinInt32 < wc as int < MaxInt32
    ensures var b, t := Angle(Degree, 0.0), Angle(Degree, 10.0);
      var h, l := HighThresholdDegrees(b, t), LowThresholdDegrees(b, t);
      && h == 350.0 && l == 10.0
      && CountStep(wc, 355.0, 5.0, h, l) as int == wc as int + 1
      && CountStep(wc, 5.0, 355.0, h, l) as int == wc as int - 1
  {
    DegreeValue(0.0);
    DegreeValue(10.0);
    ModRealUnique(-10.0, 360.0, 1);
    ModRealUnique(10.0, 360.0, 0);
  }

  /** Each counted sample moves the count by at most one. */
  lemma CountStepAtMostOne(wc: Int32, prev: real, curr: real, high: real, low: real)
    requires MinInt32 < wc as int < MaxInt32
    ensures -1 <= CountStep(wc, prev, curr, high, low) as int - wc as int <= 1
  {
  }
}
