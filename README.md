# astrounit in Dafny

A model of the `astrounit` Go package. The package gives radio-telescope
control software its angles and physical quantities. It has:

- an `Angle` type tagged with one of seven units (plus the unset zero
  unit), converted through radians, with arithmetic, comparisons,
  clamping (`Constrain`) and the cable-wrap plane mapping (`Map`,
  `Closest`);
- the sexagesimal codec: `"-01:02:03.123"` to `HMS`/`DMS` triples and
  back, with one sign for the whole triple;
- the streaming filters that keep a cable-wrapped azimuth axis safe:
  `WrapCounter`, `DeGlitch`, the median filters and the deprecated
  `AngleWrapCount`, and the modulo reductions and `reverse8Bits` loop;
- the unit types `AngularRate`, `Temperature`, `Pressure`, `Length`,
  `Energy` with the SI prefix table (section 3 of the BIPM SI Brochure,
  9th edition, quetta down to quecto) and the coordinate records.

`float64` is modelled as `real`, so all lemmas hold in exact arithmetic.
`time.Duration` and `time.Time` are integer nanoseconds. `int32` wrap
counts are a 32-bit newtype with explicit wrap-around (`Inc32`, `Dec32`,
`Neg32`). Go's `int(x)` on a float is `Trunc`, which rounds toward zero.
Enumerations whose zero value names no unit carry an explicit unset
constructor (`UnsetUnit`, `UnsetPrefix`, `UnsetLength`, `UnsetEnergy`).
That constructor stands for every code that hits no `switch` case.

Pure code (conversions, arithmetic, parsing, printing) is written as
functions. The closures with captured mutable state are classes whose
`Update` method is proved equal to a step function:

- `WrapCounters.WrapCounter`
- `WrapCounters.AngleWrapCount`
- `DeGlitching.DeGlitch`
- `Medians.MedianFilter`, whose ring buffer is an `array`

The lemmas are proved about those step functions. The loops
(`Modulo*`, `WrapCount`, `reverse8Bits`) and `Closest` are methods with
loop invariants or local reassignment. `Constrain`, which writes through
its pointer receiver, is `Angles.AngleRef.Constrain`.

Two things the package does are kept as it does them, not as their
comments suggest:

- The pressure constants (`MillibarPerPascal` = 100,
  `MillimeterHgPerPascal` = 133.322) are used as divisors into pascal, so
  10.3 mb becomes 0.103 Pa. Every conversion still keeps the pascal value.
- `Modulo24`, `Modulo360` and `ModuloN` return values in [0, n), not the
  (0, n] their comments state.

`WrapCount` returns the 1-based revolution index, signed.

## Model

| member | source | states |
|---|---|---|
| Numeric.Wrap32 | astrounit/math.go:155-192 | the result is congruent to the input modulo 2^32 and equals it inside the int32 range |
| Numeric.Inc32 | astrounit/math.go:182-186 | `++` on an int32 count adds one, and wraps MaxInt32 to MinInt32 |
| Numeric.Dec32 | astrounit/math.go:182-186 | `--` on an int32 count subtracts one, and wraps MinInt32 to MaxInt32 |
| Numeric.Neg32 | astrounit/angle.go:481-484 | `-maxwc` negates, except that MinInt32 stays itself |
| Numeric.Trunc | astrounit/angle.go:219-237 | `int(x)` rounds toward zero: the result is the whole number between 0 and x within distance 1 of x |
| Constants.AngleConstantsConsistent | astrounit/astroConstants.go:101-114 | the angle constants agree with each other: radians per minute and per second derive from radians per degree; mas, arcseconds, arcminutes, hours and the revolution are consistent |
| Constants.Pow10 | astrounit/astroConstants.go:13-37 | every power of ten is positive |
| Constants.NewSI | astrounit/astroConstants.go:201-333 | succeeds exactly for the 25 named prefixes; on success it keeps the enum, the factor is positive, and the symbol is empty exactly for One |
| Constants.OneSI | astrounit/astroConstants.go:201-333 | the record NewSI gives for One has factor 1 and an empty symbol |
| Constants.SIPrefixes | astrounit/astroConstants.go:337-365 | 25 prefixes, each accepted by NewSI |
| Constants.Pow10Monotonic | astrounit/astroConstants.go:13-37 | powers of ten increase strictly with the exponent |
| Constants.NewSIFactorIsPowerOfTen | astrounit/astroConstants.go:13-37 | every factor NewSI returns is exactly ten to the prefix's exponent (1e30 down to 1e-30) |
| Constants.PrefixIndex | astrounit/astroConstants.go:337-365 | every named prefix appears in the list at some position |
| Constants.SIPrefixesComplete | astrounit/astroConstants.go:337-365 | a prefix is in the list exactly when NewSI accepts it |
| Constants.AdjacentExponents | astrounit/astroConstants.go:337-365 | the exponent falls from each list entry to the next |
| Constants.ExponentsDecrease | astrounit/astroConstants.go:337-365 | the exponent falls strictly along the whole list |
| Constants.SIPrefixesStrictlyDecreasing | astrounit/astroConstants.go:337-365 | the 25 prefixes are distinct and in strictly decreasing factor order |
| Angles.RadiansPerUnit | astrounit/angle.go:296-316 | the radians per unit are positive for the seven units and 0 for the unset unit |
| Angles.Rad | astrounit/angle.go:296-316 | the radian value of an angle is its value times its unit's factor |
| Angles.Deg | astrounit/angle.go:329-335 | the degree value times radians-per-degree is the radian value |
| Angles.DegreeValue | astrounit/angle.go:329-335 | a Degree angle's degree value is its own value |
| Angles.NewAngle | astrounit/angle.go:136-141 | stores unit and value unchanged |
| Angles.ToRadian | astrounit/angle.go:296-316 | unit Radian, value the radian value (0 for the unset unit) |
| Angles.ToMilliRadian | astrounit/angle.go:320-325 | unit MilliRadian, same radian value |
| Angles.ToDegree | astrounit/angle.go:329-335 | unit Degree, same radian value, value the degree value |
| Angles.ToHour | astrounit/angle.go:339-345 | unit Hour, same radian value |
| Angles.ToArcMinute | astrounit/angle.go:349-354 | unit ArcMinute, same radian value |
| Angles.ToArcSecond | astrounit/angle.go:358-363 | unit ArcSecond, same radian value |
| Angles.ToMilliArcSecond | astrounit/angle.go:367-372 | unit MilliArcSecond, same radian value |
| Angles.ConvertTo | astrounit/angle.go:296-372 | conversion to any named unit tags that unit and keeps the radian value |
| Angles.SameUnitSameRadians | astrounit/angle.go:296-316 | two angles in the same named unit with equal radian values are equal |
| Angles.SameUnitSameDegrees | astrounit/angle.go:329-335 | the same, for equal degree values |
| Angles.ConversionRoundTrip | astrounit/angle.go:296-372 | converting to any named unit and back returns the original angle exactly |
| Angles.UnsetConvertsToZero | astrounit/angle.go:296-316 | an angle with the unset unit converts to value 0 |
| Angles.UnitString | astrounit/angle.go:164-183 | the unit symbol is empty exactly for the unset unit |
| Angles.UnitStringInjective | astrounit/angle.go:164-183 | different units print different symbols |
| Angles.Add | astrounit/angle.go:375-378 | a Radian angle whose radian value is the sum |
| Angles.Sub | astrounit/angle.go:381-384 | a Radian angle whose radian value is the difference |
| Angles.DegreeDifference | astrounit/angle.go:381-384 | the degree value of a difference is the difference of the degree values |
| Angles.DegreeOrder | astrounit/angle.go:524-542 | comparing radian values and comparing degree values agree |
| Angles.AddSubInverse | astrounit/angle.go:375-384 | subtracting what was added gives back the angle in radians |
| Angles.Scale | astrounit/angle.go:387-390 | a Radian angle whose radian value is scaled by the factor |
| Angles.Normalize | astrounit/angle.go:393-395 | the ratio of the radian values: times b's radians it gives a's radians |
| Angles.Div | astrounit/angle.go:398-405 | errors exactly for divisor 0; otherwise a Radian angle that times the divisor gives the original radians |
| Angles.ScaleDivInverse | astrounit/angle.go:387-405 | dividing a scaled angle by the nonzero factor gives back the angle in radians |
| Angles.AbsAngle | astrounit/angle.go:408-410 | a Radian angle with non-negative value equal to plus or minus the radian value |
| Angles.Sign | astrounit/angle.go:413-420 | a Radian angle with the same magnitude, non-positive when b < 0 and non-negative otherwise |
| Angles.AddModulo | astrounit/angle.go:424-432 | the sum in radians passed through m, or a zero Radian angle when m is nil |
| Angles.SubModulo | astrounit/angle.go:437-445 | the difference in radians passed through m, or a zero Radian angle when m is nil |
| Angles.GreaterThan | astrounit/angle.go:524-526 | holds exactly when a's angle is larger |
| Angles.GreaterThanEqual | astrounit/angle.go:528-530 | holds exactly when a's angle is at least b's |
| Angles.LessThan | astrounit/angle.go:532-534 | holds exactly when a's angle is smaller |
| Angles.LessThanEqual | astrounit/angle.go:536-538 | holds exactly when a's angle is at most b's |
| Angles.Equal | astrounit/angle.go:540-542 | holds exactly when the angles are the same |
| Angles.Trichotomy | astrounit/angle.go:524-542 | exactly one ordering holds, and Equal is LessThanEqual plus GreaterThanEqual |
| Angles.Constrained | astrounit/angle.go:448-458 | above max gives maxa with its unit; below min gives mina; otherwise the angle itself |
| Angles.ConstrainedWithinLimits | astrounit/angle.go:448-458 | for ordered limits the clamped angle lies between them, and clamping twice changes nothing |
| Angles.AngleRef.constructor | astrounit/angle.go:448-458 | the referenced angle is the one given |
| Angles.AngleRef.Constrain | astrounit/angle.go:448-458 | the receiver becomes the clamped angle: maxa above max, itself within the limits |
| Angles.Map | astrounit/angle.go:464-471 | a Degree angle of degree value plus 360 times the wrap count, for every count |
| Angles.MapCompose | astrounit/angle.go:464-471 | mapping by two wrap counts is mapping by their sum |
| Angles.MapPlanesOneRevolutionApart | astrounit/angle.go:464-471 | neighbouring planes are 360 degrees apart |
| Angles.PlusPlane | astrounit/angle.go:477-480 | the +1 plane is wc+1 when that stays below maxwc, and otherwise falls back to wc; at wc = MaxInt32 the increment wraps to MinInt32, which is taken exactly when it is below maxwc |
| Angles.MinusPlane | astrounit/angle.go:481-484 | the -1 plane is wc-1 when that stays above -maxwc, and otherwise falls back to wc; at wc = MinInt32 the decrement wraps to MaxInt32, which is taken exactly when it is above the int32 negation of maxwc |
| Angles.Distance | astrounit/angle.go:491-496 | the absolute degree difference, never negative |
| Angles.Closest | astrounit/angle.go:475-507 | one of the three candidates and no farther than any of them; ties go to the base plane, then the minus plane |
| Text.Split | astrounit/angle.go:68 | `strings.Split`: at least one token, none containing the separator, the whole string when no separator occurs |
| Text.JoinSplit | astrounit/angle.go:68 | joining the tokens with the separator gives back the string |
| Text.SplitThree | astrounit/angle.go:68-72 | three separator-free pieces joined by ':' split back into exactly those three |
| Text.Pad2Value | astrounit/angle.go:198-215 | a `%.2d` field reads back as its number |
| Text.ParseDecimalPad2 | astrounit/angle.go:198-215 | the decimal parser reads a `%.2d` field as its number |
| Text.Pad2 | astrounit/angle.go:35-38 | `%.2d`: at least two digits, exactly two below 100 |
| Text.Pad4 | astrounit/angle.go:35-38 | the four decimals of `%07.4f`: exactly four digits |
| Text.FracValue | astrounit/angle.go:97 | the digits after the point are a fraction in [0, 1) |
| Text.FracFour | astrounit/angle.go:97 | four decimals are their number over 10000 |
| Text.ParseUnsignedDecimal | astrounit/angle.go:89-97 | a parsed unsigned decimal is never negative |
| Text.ParseDecimal | astrounit/angle.go:89-97 | a text starting with a digit parses as the unsigned decimal it spells |
| Text.ParseFixed | astrounit/angle.go:89-97 | digits w, a point and four digits f parse to w + f/10000 |
| Text.RoundHalfEven | astrounit/angle.go:35-38 | the nearest integer, within 1/2; an exact half goes to the even neighbour; whole numbers are kept; never negative for a non-negative input |
| Text.Round4 | astrounit/angle.go:35-38 | rounding to four decimals: within 0.00005, a value with four decimals, unchanged when the value already has four, non-negative for a non-negative value |
| Text.Fixed4 | astrounit/angle.go:35-38 | `%07.4f`: at least 7 characters, no ':', and a leading '-' exactly for a negative value |
| Text.Fixed4ReadsBack | astrounit/angle.go:35-38 | the decimal parser reads a non-negative value's `%07.4f` text as the value rounded to four places |
| Text.NegativeFixed4ReadsBack | astrounit/angle.go:35-38 | it reads a negative value's `%07.4f` text as minus the magnitude rounded to four places |
| Text.Fixed4Example | astrounit/angle.go:35-38 | 3.123 prints as "03.1230" |
| Text.Fixed4TieExample | astrounit/angle.go:35-38 | 0.03125 prints as "00.0312": a tie rounds to even |
| Text.Fixed4NegativeExample | astrounit/angle.go:35-38 | -3.123 prints as "-3.1230": the sign uses up the padding |
| Sexagesimal.SignFactor | astrounit/angle.go:74-86 | -1 exactly when the first token starts with '-', and 1 otherwise |
| Sexagesimal.Unsigned | astrounit/angle.go:74-86 | a leading '+' or '-' is dropped; otherwise the token is kept whole |
| Sexagesimal.ParseSexagesimal | astrounit/angle.go:67-103 | errors exactly unless there are 3 tokens that all parse; the one sign of the first token multiplies all three fields |
| Sexagesimal.NewHMS | astrounit/angle.go:108-118 | succeeds exactly when parsing does, with the parsed triple as hours, minutes and seconds |
| Sexagesimal.NewDMS | astrounit/angle.go:123-133 | succeeds exactly when parsing does, with the parsed triple as degrees, minutes and seconds |
| Sexagesimal.SignedValue | astrounit/angle.go:244-255 | any negative field makes the whole value non-positive; otherwise it is non-negative |
| Sexagesimal.DMSToAngle | astrounit/angle.go:244-255 | a Radian angle whose degree value is the whole-triple signed sum |
| Sexagesimal.HMSToAngle | astrounit/angle.go:279-292 | a Radian angle of 15 degrees per hour of the whole-triple signed sum |
| Sexagesimal.WholeTripleSign | astrounit/angle.go:244-292 | with any field negative, {-1,1,1.1} means the same angle as {-1,-1,-1.1} |
| Sexagesimal.Split60 | astrounit/angle.go:219-237 | whole and minutes truncated toward zero, all fields share the sign, minutes and seconds below 60 in magnitude, and the parts sum back to the value |
| Sexagesimal.Split60Unique | astrounit/angle.go:219-237 | a triple already in that normal form is what splitting its sum gives |
| Sexagesimal.AngleToDMS | astrounit/angle.go:230-237 | a normal triple summing to the degree value |
| Sexagesimal.AngleToHMS | astrounit/angle.go:219-226 | a normal triple summing to the hour value |
| Sexagesimal.NormalSignedValue | astrounit/angle.go:244-255 | on a normal triple the whole-triple sign rule gives the plain sum |
| Sexagesimal.DMSRoundTrip | astrounit/angle.go:230-255 | `a.DMS().Angle()` is a in radians |
| Sexagesimal.HMSRoundTrip | astrounit/angle.go:219-226 | `a.HMS().Angle()` is a in radians |
| Sexagesimal.DMSNormalForm | astrounit/angle.go:230-255 | a normal DMS triple survives a trip through Angle |
| Sexagesimal.DMSToHMS | astrounit/angle.go:261-263 | a normal HMS triple for the same angle |
| Sexagesimal.HMSToDMS | astrounit/angle.go:270-272 | a normal DMS triple for the same angle |
| Sexagesimal.DMSToHMSExample | astrounit/angle_test.go:297-310 | {-15, 1, 1.1} degrees is {-1, 0, -61.1/15} hours |
| Sexagesimal.NewAngleDMS | astrounit/angle.go:144-151 | succeeds exactly when NewDMS does; a Radian angle with the triple's signed degree value |
| Sexagesimal.NewAngleHMS | astrounit/angle.go:154-161 | succeeds exactly when NewHMS does; a Radian angle with the triple's signed hour value |
| Sexagesimal.TripleString | astrounit/angle.go:198-215 | never empty; starts with '-' exactly when some field is negative |
| Sexagesimal.DMSUnitString | astrounit/angle.go:198-205 | one leading '-' exactly when some field is negative |
| Sexagesimal.HMSUnitString | astrounit/angle.go:208-215 | one leading '-' exactly when some field is negative |
| Sexagesimal.SexagesimalDMS | astrounit/angle.go:186-189 | negative exactly when the angle's DMS form has a negative field |
| Sexagesimal.SexagesimalHMS | astrounit/angle.go:192-195 | negative exactly when the angle's HMS form has a negative field |
| Sexagesimal.TriplePieces | astrounit/angle.go:198-215 | the printed triple splits into the sign-prefixed degrees, the minutes and the seconds |
| Sexagesimal.TripleFieldsRead | astrounit/angle.go:198-215 | for a parser that reads `%.2d` fields as their numbers and a seconds text that parses to r: the printed whole fields of a normal triple parse back to their values, and the seconds field to r under the triple's sign |
| Sexagesimal.SignedSeconds | astrounit/angle.go:74-86 | the seconds read back carry the whole triple's sign: -r when some field is negative, r otherwise |
| Sexagesimal.ParseSexagesimalFields | astrounit/angle.go:67-103 | three readable tokens parse to their values |
| Sexagesimal.TripleRoundTrip | astrounit/angle.go:67-103 | a printed normal triple parses to its degrees and minutes and to the signed value r its seconds text reads as; when that text reads back exactly, to the triple itself |
| Sexagesimal.SexagesimalDMSRoundTrip | astrounit/angle.go:186-189 | for any seconds formatter: printing an angle as DMS and parsing it gives its degrees and minutes and the signed seconds the text reads as; when that is exact, its DMS triple and the angle in radians |
| Sexagesimal.SexagesimalHMSRoundTrip | astrounit/angle.go:192-195 | the same for HMS: hours and minutes kept, seconds as read; when exact, the HMS triple and the angle in radians |
| Sexagesimal.ParseDecimalReadsWholeFields | astrounit/angle.go:89-97 | the decimal parser reads every `%.2d` field as its number |
| Sexagesimal.Fixed4SecondsRead | astrounit/angle.go:35-38 | a `%07.4f` seconds text holds no ':' and parses back to the seconds rounded to four places |
| Sexagesimal.RoundedSecondsClose | astrounit/angle.go:198-215 | the seconds read back from a `%07.4f` field are within 0.00005 of the seconds, keep the triple's shared sign, and are exact when the seconds have four decimals |
| Sexagesimal.PrintedDMSReadsBack | astrounit/angle.go:186-205 | printing an angle with `%.2d:%.2d:%07.4f` and parsing it as DMS succeeds with the same degrees and minutes and seconds within 0.00005 (exact at four decimals); the angle read back is within 0.00005 arcseconds |
| Sexagesimal.PrintedHMSReadsBack | astrounit/angle.go:192-215 | the same for HMS: hours and minutes kept, seconds within 0.00005, the angle within 0.00005 seconds of time |
| Sexagesimal.NewHMSNegativeExample | astrounit/angle_test.go:525-547 | "-01:02:03.123" gives {-1, -2, -3.123} |
| Sexagesimal.NewHMSPositiveExample | astrounit/angle_test.go:525-547 | "+01:02:03.123" gives {1, 2, 3.123} |
| Modulo.ModRealRange | astrounit/math.go:276-287 | the reduced value lies in [0, n) |
| Modulo.ModRealUnique | astrounit/math.go:276-287 | the only shift by a whole number of n into [0, n) is the reduced value |
| Modulo.ModuloN | astrounit/math.go:276-287 | the loop ends in [0, n) and differs from the input by a whole number of n |
| Modulo.Modulo24 | astrounit/math.go:237-256 | the loop ends in [0, 24), congruent to the input |
| Modulo.Modulo360 | astrounit/math.go:259-267 | the loop ends in [0, 360), congruent to the input |
| Modulo.Modulo2Pi | astrounit/math.go:270-273 | a Degree angle in [0, 360), congruent to the degree value |
| Modulo.Modulo24Examples | astrounit/math_test.go:15-51 | 25 gives 1, -1 gives 23, 24 and -24 give 0, -23.9 gives 0.1, 49.1 gives 1.1 |
| Modulo.ModRealIdempotent | astrounit/math.go:276-287 | reducing twice is reducing once |
| Modulo.Reversed | astrounit/math.go:305-312 | bit j of the result is bit 7-j of the input |
| Modulo.Reverse8Bits | astrounit/math.go:305-312 | the 8-step loop computes the bit reversal |
| Modulo.ReversedInvolution | astrounit/math.go:305-312 | reversing twice gives the byte back |
| AngularRates.AngleUnitOf | astrounit/angularRate.go:75-95 | every rate unit measures a named angle unit per second |
| AngularRates.RadPerSec | astrounit/angularRate.go:75-95 | the rad/s magnitude is the value read as an angle of the rate's unit |
| AngularRates.NewAngularRate | astrounit/angularRate.go:42-49 | unit RadianPerSec, timebase one second, embedded Angle left zero; value times the seconds is the angle in radians |
| AngularRates.RateUnitString | astrounit/angularRate.go:52-71 | every symbol ends in "/sec" |
| AngularRates.RateUnitStringInjective | astrounit/angularRate.go:52-71 | different units print different symbols |
| AngularRates.ToRadianRate | astrounit/angularRate.go:75-95 | unit RadianPerSec with the rad/s magnitude as value |
| AngularRates.ToMilliRadianRate | astrounit/angularRate.go:99-104 | unit MilliRadianPerSec, same rad/s |
| AngularRates.ToDegreeRate | astrounit/angularRate.go:108-114 | unit DegreePerSec, same rad/s, value the deg/s rate |
| AngularRates.ToHourRate | astrounit/angularRate.go:118-124 | unit HourPerSec, same rad/s |
| AngularRates.ToArcMinuteRate | astrounit/angularRate.go:128-133 | unit ArcMinutePerSec, same rad/s |
| AngularRates.ToArcSecondRate | astrounit/angularRate.go:137-142 | unit ArcSecondPerSec, same rad/s |
| AngularRates.ToMilliArcSecondRate | astrounit/angularRate.go:146-151 | unit MilliArcSecondPerSec, same rad/s |
| AngularRates.DegreeRateOf | astrounit/angularRate.go:42-49 | a rate built from an angle and a duration reads in deg/s as degrees over seconds |
| AngularRates.MultTime | astrounit/angularRate.go:154-157 | a Radian angle of rad/s times t |
| AngularRates.MultTimeInverse | astrounit/angularRate.go:154-157 | a rate over one second, times one second, gives back the angle in radians |
| AngularRates.RateSub | astrounit/angularRate.go:160-163 | a RadianPerSec rate of the rad/s difference |
| AngularRates.RateScale | astrounit/angularRate.go:166-169 | a RadianPerSec rate of the rad/s times the factor |
| AngularRates.RateNormalize | astrounit/angularRate.go:172-174 | the quotient of the rad/s magnitudes |
| AngularRates.RateNormalizeOfScale | astrounit/angularRate.go:166-174 | a scaled rate normalised by the original gives the factor back |
| AngularRates.RateSign | astrounit/angularRate.go:177-186 | a RadianPerSec rate with the same magnitude, non-positive when b < 0 and non-negative otherwise |
| AngularRates.RateAbs | astrounit/angularRate.go:189-192 | a RadianPerSec rate, non-negative, plus or minus the original |
| AngularRates.RateGreaterThan | astrounit/angularRate.go:195-197 | compares only the embedded Angle fields |
| AngularRates.RateGreaterThanEqual | astrounit/angularRate.go:200-202 | compares only the embedded Angle fields |
| AngularRates.RateLessThan | astrounit/angularRate.go:205-207 | compares only the embedded Angle fields |
| AngularRates.RateLessThanEqual | astrounit/angularRate.go:210-212 | compares only the embedded Angle fields |
| AngularRates.RateEqual | astrounit/angularRate.go:215-217 | compares only the embedded Angle fields |
| AngularRates.ComparisonsIgnoreValue | astrounit/angularRate.go:42-49 | any two rates from NewAngularRate compare Equal and neither is greater nor less |
| AngularRates.ComparisonCounterexample | astrounit/angularRate.go:195-217 | 1 rad/s and 2 rad/s compare Equal and not LessThan |
| AngularRates.ByValueComparisons | astrounit/angularRate.go:195-217 | comparisons on the rad/s magnitude order rates by speed, are total, and ignore the unit |
| WrapMath.WrapVoltage | astrounit/math.go:48-50 | the voltage above voltZero, over volts per degree, is the azimuth in degrees plus 360 per wrap |
| WrapMath.WrapAngle | astrounit/math.go:58-60 | a Degree angle |
| WrapMath.WrapAngleInvertsWrapVoltage | astrounit/math.go:48-60 | the voltage of (az, wc) reads back as az + 360·wc degrees, and a voltage survives the trip |
| WrapMath.MapAngle | astrounit/math.go:63-66 | a Radian angle of degree value plus 360 times the wrap count |
| WrapMath.MapAngleAgreesWithMap | astrounit/math.go:63-66 | MapAngle and Map are the same angle in different units |
| WrapMath.WrapDegrees | astrounit/math.go:83-102 | the wrapped degrees are the voltage offset over volts per degree |
| WrapMath.RevolutionIndex | astrounit/math.go:83-102 | the 1-based revolution k with 360(k-1) <= x < 360k |
| WrapMath.RevolutionIndexUnique | astrounit/math.go:83-102 | that k is the only one |
| WrapMath.WrapCount | astrounit/math.go:83-102 | errors exactly when the wrap reaches mwc revolutions; otherwise the signed 1-based revolution |
| WrapMath.WrapCountOfWrapVoltage | astrounit/math.go:48-102 | the voltage for plane wc reads back as revolution wc+1 |
| Medians.Insert | astrounit/math.go:106-150 | inserting into a sorted sequence keeps it sorted and adds exactly that element |
| Medians.SortSeq | astrounit/math.go:106-150 | a sorted permutation of the samples |
| Medians.SortedUnique | astrounit/math.go:106-150 | two sorted permutations of the same samples are equal |
| Medians.MedianOf | astrounit/math.go:115-117 | errors exactly for no samples |
| Medians.MedianIgnoresOrder | astrounit/math.go:115-117 | the median depends only on the multiset of samples |
| Medians.MedianWithinSamples | astrounit/math.go:115-117 | the median lies between two of the samples |
| Medians.Zeros | astrounit/math.go:107 | the fresh buffer is N zeros |
| Medians.ZerosWithSorts | astrounit/math.go:106-118 | after one write into the zero buffer, the sorted slots are known |
| Medians.FirstSampleMasked | astrounit/math.go:106-118 | with 3 or more slots the first sample's median is 0, whatever the sample |
| Medians.MiddleOfZerosWith | astrounit/math.go:106-118 | the middle of one value among zeros is 0 |
| Medians.MedianFilter.constructor | astrounit/math.go:106-108 | N slots, all zero, cursor 0 |
| Medians.MedianFilter.Write | astrounit/math.go:110-114 | writes only the slot at the cursor and advances the cursor modulo N |
| Medians.MedianFilter.Update | astrounit/math.go:122-134 | the write, then the median of all N slots including unwritten zeros |
| Medians.MedianFilter.UpdateInt | astrounit/math.go:106-118 | the write, then the median truncated to int |
| Medians.MedianFilter.UpdateAngle | astrounit/math.go:138-150 | stores the degree value and returns a Degree angle of the median |
| WrapCounters.SeamRate | astrounit/math.go:172-180 | the closure's rate test is exactly the TooFast condition |
| WrapCounters.WrapStep | astrounit/math.go:162-190 | the count changes by one only inside the seam window and not too fast: up when crossing to a smaller value, down when crossing to a larger one; a too-fast crossing leaves the state untouched; otherwise the sample and its time are recorded; a sample at the previous angle never changes the count |
| WrapCounters.WrapCounterSequence | astrounit/math_test.go:93-133 | 359.9, 0, 359.9, 359.8, 0.2, 359.9, 0 yields 2, 1, 1, 1, 1, 2 |
| WrapCounters.WrapCounter.constructor | astrounit/math.go:155-158 | the count, the first angle and the start time are captured |
| WrapCounters.WrapCounter.Update | astrounit/math.go:159-191 | the new state is the step function's, and the count is returned |
| WrapCounters.CountStep | astrounit/math.go:209-213 | +1 for high-to-low, -1 for low-to-high, otherwise unchanged |
| WrapCounters.AngleWrapCount.constructor | astrounit/math.go:198-202 | prev starts at the -1 sentinel, count 0, thresholds computed |
| WrapCounters.AngleWrapCount.Update | astrounit/math.go:203-217 | the first sample only records and returns 0; later samples count one step; the sample is always recorded |
| WrapCounters.HighThreshold | astrounit/math.go:201 | as written: boundary minus threshold in radians, reduced by Modulo360 into [0, 360), then read as degrees (that reduced number over radians per degree) |
| WrapCounters.LowThreshold | astrounit/math.go:202 | as written: boundary plus threshold in radians, reduced into [0, 360), then read as degrees |
| WrapCounters.HighThresholdOutOfRange | astrounit/math.go:201-202 | as written, a 0-degree boundary with a 10-degree threshold gives a high threshold above 16000, so no count up ever happens |
| WrapCounters.HighThresholdDegrees | astrounit/math.go:201 | the corrected high threshold lies in [0, 360) |
| WrapCounters.LowThresholdDegrees | astrounit/math.go:202 | the corrected low threshold lies in [0, 360) |
| WrapCounters.DegreeThresholdsCount | astrounit/math.go:198-217 | with the corrected thresholds, 355 to 5 counts up and 5 to 355 counts down |
| WrapCounters.CountStepAtMostOne | astrounit/math.go:209-213 | each sample moves the count by at most one |
| DeGlitching.RateSince | astrounit/deglitch.go:15-18 | the degree change over the elapsed seconds |
| DeGlitching.DeGlitchStep | astrounit/deglitch.go:15-28 | rejects exactly when the change exceeds the bound times the time; a rejection returns prev + bound·Δt in degrees and freezes the state; an acceptance returns the sample and records it |
| DeGlitching.Extrapolate | astrounit/deglitch.go:21-23 | a Degree angle at the reference's degrees plus maxRate times the elapsed seconds |
| DeGlitching.SubstituteNeverBelowReference | astrounit/deglitch.go:21-23 | the substitute is never below the reference, whichever way the glitch went |
| DeGlitching.DownwardGlitchExtrapolatesUpward | astrounit/deglitch.go:21-23 | a drop from 100 to 50 degrees in one second at 2 deg/s returns 102 degrees |
| DeGlitching.DeGlitch.constructor | astrounit/deglitch.go:10-13 | the bound is maxr in deg/s; the reference is the given angle and time |
| DeGlitching.DeGlitch.Update | astrounit/deglitch.go:14-29 | the returned angle and the new state are the step function's |
| Temperatures.NewTemperature | astrounit/temperature.go:31-52 | fails exactly for negative Kelvin; otherwise stores unit and value |
| Temperatures.UnitString | astrounit/temperature.go:54-67 | every unit prints a non-empty symbol |
| Temperatures.UnitStringInjective | astrounit/temperature.go:54-67 | different units print different symbols |
| Temperatures.Ctof | astrounit/temperature.go:75-77 | Celsius to Fahrenheit: the Fahrenheit value less 32, over 1.8, is the Celsius value; 100 C is 212 F |
| Temperatures.Ftoc | astrounit/temperature.go:70-72 | the inverse of ctof |
| Temperatures.FtocInvertsCtof | astrounit/temperature.go:70-77 | ftoc undoes ctof |
| Temperatures.ToKelvin | astrounit/temperature.go:80-94 | unit Kelvin; a Kelvin value is unchanged |
| Temperatures.ToMilliKelvin | astrounit/temperature.go:97-103 | unit MilliKelvin, same temperature |
| Temperatures.ToCelsius | astrounit/temperature.go:125-136 | unit Celsius, same temperature; Celsius unchanged |
| Temperatures.ToFahrenheit | astrounit/temperature.go:106-122 | unit Fahrenheit, ctof of the Celsius value, same temperature |
| Temperatures.ConversionsCompose | astrounit/temperature.go:97-136 | converting through another unit first makes no difference |
| Temperatures.TemperatureExamples | astrounit/temperature_test.go:49-135 | 32 F is 273.15 K and 0 C, 10.3 C is 283.45 K and 283450 mK, 10.2 mK is 0.0102 K, 0 C is 32 F |
| Pressures.NewPressure | astrounit/pressure.go:23-28 | stores unit and value unchanged |
| Pressures.UnitString | astrounit/pressure.go:30-43 | symbols of at least two characters |
| Pressures.UnitStringInjective | astrounit/pressure.go:30-43 | different units print different symbols |
| Pressures.ToPascal | astrounit/pressure.go:45-59 | unit Pascal; the value times the unit's per-pascal constant is the input value |
| Pressures.ToMilliPascal | astrounit/pressure.go:61-66 | unit MilliPascal, same pascal value |
| Pressures.ToMillibar | astrounit/pressure.go:68-73 | unit Millibar, same pascal value |
| Pressures.ToMillimeterHg | astrounit/pressure.go:75-80 | unit MillimeterHg, same pascal value |
| Pressures.ConvertToKeepsPascal | astrounit/pressure.go:45-80 | any conversion tags its unit and keeps the pascal value |
| Pressures.PressureExamples | astrounit/pressure_test.go:9-68 | 10.3 mb is 0.103 Pa and 103 mPa; 10.2 mPa is 0.0102 Pa; 10.1 Pa is 1010 mb and 1346.5522 mmHg |
| Lengths.NewLength | astrounit/length.go:37-42 | stores unit and value unchanged |
| Lengths.UnitString | astrounit/length.go:45-62 | empty exactly for the unset unit, Micrometer and Decimeter |
| Lengths.UnitStringInjective | astrounit/length.go:45-62 | printed symbols tell units apart |
| Lengths.ToMeter | astrounit/length.go:64-84 | unit Meter; metres unchanged; Femtometer and the unset unit give 0 |
| Lengths.ToCentimeter | astrounit/length.go:86-91 | unit Centimeter, same metres |
| Lengths.ToMillimeter | astrounit/length.go:93-98 | unit Millimeter, same metres |
| Lengths.ToMicrometer | astrounit/length.go:100-105 | unit Micrometer, same metres |
| Lengths.ToNanometer | astrounit/length.go:107-112 | unit Nanometer, same metres |
| Lengths.ToKilometer | astrounit/length.go:128-133 | unit Kilometer, same metres |
| Lengths.ToFemtometer | astrounit/length.go:114-119 | unit Femtometer |
| Lengths.ToDecimeter | astrounit/length.go:121-126 | unit Decimeter |
| Lengths.MeterRoundTripFails | astrounit/length.go:79 | back from Decimeter a length is 1000 times too large; back from Femtometer it is 0; the Femtometer value is 1e12 per metre |
| Lengths.OneMeterCounterexample | astrounit/length.go:64-126 | 1 m goes to 10 dm and back to 1000 m, and to 1e12 fm and back to 0 m |
| Lengths.MetersPer | astrounit/length.go:64-84 | every named unit has a positive metre factor |
| Lengths.MetersOf | astrounit/length.go:64-84 | the corrected Meter(): unit Meter, metres unchanged |
| Lengths.ConvertLength | astrounit/length.go:86-133 | the corrected conversion tags the target unit and keeps the metres |
| Lengths.AsWrittenAgreesOutsideFaultyRows | astrounit/length.go:64-133 | outside Decimeter and Femtometer the source's Meter() and conversions are the corrected ones |
| Lengths.CorrectedRoundTrips | astrounit/length.go:114-126 | corrected: 1 m is 10 dm and 1e15 fm, and both read back as 1 m |
| Energies.CheckEnergyUnit | astrounit/energy.go:60-68 | accepts exactly Joule, Erg and Electronvolt |
| Energies.NewEnergy | astrounit/energy.go:72-85 | fails unless unit and prefix are named, checking the unit first; on success stores unit, NewSI's record and value |
| Energies.EnergyUnits | astrounit/energy.go:89-95 | three distinct units, exactly those checkEnergyUnit accepts |
| Energies.UnitString | astrounit/energy.go:98-111 | the prefix symbol followed by the unit symbol |
| Energies.KilojouleString | astrounit/energy_test.go:10-19 | a kilojoule prints as "kJ" |
| Energies.ToJoule | astrounit/energy.go:113-128 | unit Joule with prefix One, value × joules per unit × prefix factor |
| Energies.ToJouleIdempotent | astrounit/energy.go:113-128 | Joule() of plain joules changes nothing |
| Energies.ToElectronvolt | astrounit/energy.go:130-136 | unit Electronvolt, prefix One, same joules |
| Energies.ConvertTo | astrounit/energy.go:141-154 | unit eu with prefix One and the same joules; an unnamed unit gives 0 |
| Energies.ElectronvoltIsConvertTo | astrounit/energy.go:130-154 | Electronvolt() is ConvertTo(Electronvolt) |
| Energies.ConvertToOwnUnit | astrounit/energy.go:141-154 | converting an unprefixed energy to its own unit changes nothing |
| Energies.Rescale | astrounit/energy.go:156-162 | the same unit under another prefix, keeping value × factor and the joules |
| Energies.Convert | astrounit/energy.go:156-162 | the same unit under NewSI's record, value rescaled by old over new factor, same joules |
| Energies.KiloToMilli | astrounit/energy_test.go:21-30 | 1 kJ is 1e6 mJ, and converting back gives 1 kJ |
| Coordinates.NewAzElCoord | astrounit/coord.go:15-21 | both components in the one unit; Az and El read them back |
| Coordinates.NewAzElCoordA | astrounit/coord.go:23-29 | Az and El read back the angles given |
| Coordinates.NewRaDecCoord | astrounit/coord.go:42-49 | each component in its own unit; Ra and Dec read them back |
| Coordinates.NewRaDecCoordA | astrounit/coord.go:54-60 | Ra and Dec read back the angles given |
| Coordinates.NewLatLonCoord | astrounit/coord.go:113-119 | both components in the one unit; Lat and Lon read them back |
| Coordinates.NewLatLonCoordA | astrounit/coord.go:121-127 | Lat and Lon read back the angles given |
| Coordinates.NewAzElCoordEpoch | astrounit/coord.go:31-37 | keeps the epoch and delegates the pair to NewAzElCoord; the epoch accessors read through it |
| Coordinates.NewRaDecCoordEpoch | astrounit/coord.go:62-68 | keeps the epoch and delegates the pair to NewRaDecCoord; the epoch accessors read through it |
| Coordinates.AccessorsRebuild | astrounit/coord.go:72-135 | each pair of accessors (Az/El, Ra/Dec, Lat/Lon) rebuilds the record; the epoch record's AzEl and RaDec are its one pair, and its Az, El, Ra, Dec read through it |
| Coordinates.PairsShareOneRecord | astrounit/coord.go:72-135 | the three kinds of pair are one record: Az, Ra and Lat coincide, as do El, Dec and Lon |

## Left out

- `Sin`, `Cos`, `Tan` and `Pow` (astrounit/angle.go:510-522, 544-546): transcendental floating-point functions with no discrete logic.
- `Solve` (astrounit/math.go:29-44): a call into the gonum linear-algebra library.
- `SecondsAfterBoundry` (astrounit/math.go:296-303): wall-clock calendar arithmetic.
- `WrapCouterByVolts` (astrounit/math.go:71-77): float32 arithmetic.
- `SanityCheckF` (astrounit/math.go:220-234) and all NaN/Inf handling, including the NaN/Inf checks of `NewTemperature`. IEEE rounding is not modelled either: every value is an exact real.
- All `fmt.Println` logging in `WrapCounter` and `DeGlitch`.
- `strconv.ParseFloat` is a parameter `parseFloat` of the parsers. `Text.ParseDecimal` is a concrete decimal-grammar instance (digits with at most one point, an optional sign; no exponents, no hexadecimal, no Inf or NaN).
- The `%07.4f` seconds format is a parameter `secFmt` of the printers. The general round trips (`TripleRoundTrip`, `SexagesimalDMSRoundTrip`, `SexagesimalHMSRoundTrip`) hold per value: they take the number r that this angle's seconds text parses to. `Text.Fixed4` is a concrete `%07.4f`, and `PrintedDMSReadsBack` and `PrintedHMSReadsBack` discharge that hypothesis for it with `ParseDecimal`.
- Text.Fixed4: rounds half to even on the exact decimal value. Go's `%f` rounds the binary float64, so a value such as 0.00005, which has no exact binary form, may round the other way.
- Text.Fixed4: seconds that round up to 60.0000 print as "60.0000". The parser accepts that field, so the text still reads back within 0.00005 seconds.
- `time.Now()` in `WrapCounter` (astrounit/math.go:158, 161) is the `start` and `now` arguments. Times are integer nanoseconds, and monotonic-clock details are not modelled.
- Sexagesimal.ParseSexagesimal: requires a non-empty first token when there are three tokens. The source indexes `tokens[0][0]` and panics on an empty one.
- Modulo.ModuloN: requires n > 0. For other n the source's loops never end.
- Medians.MedianFilter.constructor: requires at least one sample. With zero samples the Go slice is empty, and the first write (astrounit/math.go:110, 126, 142) panics with an index out of range.
- DeGlitching.RateSince: requires a time after the reference time. With an earlier time Go computes a rate over negative seconds; with the same time it divides by zero and gets ±Inf or NaN.
- DeGlitching.DeGlitchStep: requires a time after the reference time. For an earlier time Go would extrapolate backwards; that case and a zero interval are not modelled.
- DeGlitching.DeGlitch.Update: the same requirement as DeGlitchStep.
- WrapCounters.SeamRate: requires a positive interval, for the same reason as WrapStep.
- WrapCounters.WrapStep: requires a time after the previous sample. With the same time Go's `delT` is 0: the seam window is then empty for degree values in [0, 360], and otherwise the rate at astrounit/math.go:175-177 divides by zero. An earlier time makes the window's bounds cross. Neither case is modelled.
- WrapCounters.WrapCounter.Update: the same requirement as WrapStep.
- Angles.Normalize: requires a nonzero divisor. Go returns ±Inf or NaN for a zero divisor, and reals have no such values.
- AngularRates.RateNormalize: requires a nonzero divisor, for the same reason. It states the quotient, not the product form `q * b == a`.
- AngularRates.NewAngularRate: requires a nonzero duration. Go divides by zero seconds.
- Energies.Convert: requires a named prefix. With an unset prefix Go divides by the zero factor.
- WrapMath.WrapCount: returns an error once the wrap reaches mwc revolutions. With mwc equal to MaxInt32 the Go loop's int32 index wraps and never ends.
- Out-of-range integer codes for the Temperature, Pressure and AngularRate unit enums, whose zero value is a real unit, are not modelled.
- Go's `int(x)` conversion overflow for floats beyond 64 bits is not modelled: `Trunc` returns the unbounded integer.
- `weather.go`, `dataFilename.go`, `monitorPoint.go`, and the `ephemeris` and `astrotime` packages are not part of this model.
- `stats.Median` is not part of this model. `Medians.MedianOf` stands for it: the middle of the sorted samples, or the mean of the two middles when their number is even.

## Findings

| source | as written | input that shows it | evidently intended | confidence | as-written member | corrected member |
|---|---|---|---|---|---|---|
| astrounit/math.go:198-203 | `AngleWrapCount` applies `Modulo360` to radian values and reads the result as degrees | boundary 0 degrees, threshold 10 degrees: the high threshold is over 16000, so no crossing ever counts up | thresholds of boundary minus and plus threshold, in degrees, reduced to [0, 360) | not executed | WrapCounters.HighThresholdOutOfRange | WrapCounters.DegreeThresholdsCount |
| astrounit/angularRate.go:195-217 | the comparisons read the embedded `Angle` field, which `NewAngularRate` never sets | 1 rad/s and 2 rad/s built by `NewAngularRate` compare Equal and not LessThan | compare the rad/s magnitudes | not executed | AngularRates.ComparisonCounterexample | AngularRates.ByValueComparisons |
| astrounit/length.go:64-126 | `Meter()` scales Decimeter by 1e2 and has no Femtometer case | 1 m goes to 10 dm and back to 1000 m, and to 1e12 fm and back to 0 m | Decimeter 1e-1 and Femtometer 1e-15 metres, both ways | not executed | Lengths.OneMeterCounterexample | Lengths.CorrectedRoundTrips |
