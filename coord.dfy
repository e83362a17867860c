/**
 * Coordinate pairs of angles: azimuth/elevation, right ascension/
 * declination and latitude/longitude all share one record, the first
 * angle in A1 and the second in A2, optionally stamped with an epoch
 * (integer nanoseconds).
 */
module Coordinates {
  import opened Angles

  datatype AngleCoord = AngleCoord(a1: Angle, a2: Angle)

  datatype AngleCoordEpoch = AngleCoordEpoch(epoch: int, ac: AngleCoord)

  function Az(ac: AngleCoord): Angle { ac.a1 }
  function El(ac: AngleCoord): Angle { ac.a2 }
  function Ra(ac: AngleCoord): Angle { ac.a1 }
  function Dec(ac: AngleCoord): Angle { ac.a2 }
  function Lat(ac: AngleCoord): Angle { ac.a1 }
  function Lon(ac: AngleCoord): Angle { ac.a2 }

  function EpochAz(ae: AngleCoordEpoch): Angle { ae.ac.a1 }
  function EpochEl(ae: AngleCoordEpoch): Angle { ae.ac.a2 }
  function EpochAzEl(ae: AngleCoordEpoch): AngleCoord { ae.ac }
  function EpochRa(ae: AngleCoordEpoch): Angle { ae.ac.a1 }
  function EpochDec(ae: AngleCoordEpoch): Angle { ae.ac.a2 }
  function EpochRaDec(ae: AngleCoordEpoch): AngleCoord { ae.ac }

  /** Both components in the one unit; they read back as given. */
  function NewAzElCoord(au: AngleUnit, az: real, el: real): (c: AngleCoord)
    ensures Az(c) == Angle(au, az) && El(c) == Angle(au, el)
  {
    AngleCoord(NewAngle(au, az), NewAngle(au, el))
  }

  function NewAzElCoordA(az: Angle, el: Angle): (c: AngleCoord)
    ensures Az(c) == az && El(c) == el
  {
    AngleCoord(az, el)
  }

  /** Right ascension and declination each in its own unit, usually hours and degrees. */
  function NewRaDecCoord(rau: AngleUnit, ra: real, dau: AngleUnit, dec: real): (c: AngleCoord)
    ensures Ra(c) == Angle(rau, ra) && Dec(c) == Angle(dau, dec)
  {
    AngleCoord(NewAngle(rau, ra), NewAngle(dau, dec))
  }

  function NewRaDecCoordA(ra: Angle, dec: Angle): (c: AngleCoord)
    ensures Ra(c) == ra && Dec(c) == dec
  {
    AngleCoord(ra, dec)
  }

  function NewLatLonCoord(au: AngleUnit, lat: real, lon: real): (c: AngleCoord)
    ensures Lat(c) == Angle(au, lat) && Lon(c) == Angle(au, lon)
  {
    AngleCoord(NewAngle(au, lat), NewAngle(au, lon))
  }

  function NewLatLonCoordA(lat: Angle, lon: Angle): (c: AngleCoord)
    ensures Lat(c) == lat && Lon(c) == lon
  {
    AngleCoord(lat, lon)
  }

  /** The epoch is kept; the pair is the one NewAzElCoord builds. */
  function NewAzElCoordEpoch(au: AngleUnit, az: real, el: real, epoch: int): (ae: AngleCoordEpoch)
    ensures ae.epoch == epoch && EpochAzEl(ae) == NewAzElCoord(au, az, el)
    ensures EpochAz(ae) == Angle(au, az) && EpochEl(ae) == Angle(au, el)
  {
    AngleCoordEpoch(epoch, NewAzElCoord(au, az, el))
  }

  /** The epoch is kept; the pair is the one NewRaDecCoord builds. */
  function NewRaDecCoordEpoch(rau: AngleUnit, ra: real, dau: AngleUnit, dec: real, epoch: int): (ae: AngleCoordEpoch)
    ensures ae.epoch == epoch && EpochRaDec(ae) == NewRaDecCoord(rau, ra, dau, dec)
    ensures EpochRa(ae) == Angle(rau, ra) && EpochDec(ae) == Angle(dau, dec)
  {
    AngleCoordEpoch(epoch, NewRaDecCoord(rau, ra, dau, dec))
  }

  /**
   * Each accessor reads its own component: a pair rebuilt from its
   * accessors is the pair, and the epoch accessors read through to the
   * stamped pair.
   */
  lemma AccessorsRebuild(ac: AngleCoord, ae: AngleCoordEpoch)
    ensures NewAzElCoordA(Az(ac), El(ac)) == ac
    ensures NewRaDecCoordA(Ra(ac), Dec(ac)) == ac
    ensures NewLatLonCoordA(Lat(ac), Lon(ac)) == ac
    ensures AngleCoordEpoch(ae.epoch, EpochAzEl(ae)) == ae && EpochRaDec(ae) == EpochAzEl(ae)
    ensures EpochAz(ae) == Az(EpochAzEl(ae)) && EpochEl(ae) == El(EpochAzEl(ae))
    ensures EpochRa(ae) == Ra(EpochRaDec(ae)) && EpochDec(ae) == Dec(EpochRaDec(ae))
  {
  }

  /**
   * The three kinds of pair are one record: the same two numbers in the
   * same unit give the same coordinate whichever constructor built it,
   * and the first-angle and second-angle accessors coincide.
   */
  lemma PairsShareOneRecord(au: AngleUnit, x: real, y: real, c: AngleCoord)
    ensures NewAzElCoord(au, x, y) == NewRaDecCoord(au, x, au, y) == NewLatLonCoord(au, x, y)
    ensures NewAzElCoordA(Angle(au, x), Angle(au, y)) == NewAzElCoord(au, x, y)
    ensures Az(c) == Ra(c) == Lat(c) && El(c) == Dec(c) == Lon(c)
  {
  }
}
