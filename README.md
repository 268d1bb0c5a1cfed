# Electric airplane geometry and flight arithmetic, in Dafny

This project models two parts of the electric airplane design scripts.

- **airfoils/airplane.py.**
  - The wing planform: spanwise stations, the dihedral break index, and the upper and lower envelopes.
  - The cantilever bending integration, which fills a 5×N table of deflection, slope, moment, shear and load.
  - The airfoil outline: it is closed and optionally flipped, and placed as one wing section (scale, twist, pitch, translate).
  - The nacelle: its ellipsoidal radius law and the rings of points it places.
- **flights.py.**
  - The per-sample arithmetic of a recorded `Flight`: altitude and velocity conversions, backward differences, the non-singular time step, the potential, kinetic and drag work, `work_addition` with its recovery factor, and the rate variants.
  - The first cleaning step, which drops rows whose timestamp repeats.

All quantities are Dafny `real`s. Transcendental values are parameters:
- an angle is a `Rotation(c, s)` with `c*c + s*s == 1`;
- a tangent is a real;
- `pi` is a real;
- a square root is a value whose square is given.

With that abstraction every property below is an exact algebraic fact.

Modules:
- `Wrappers`: Option and Result.
- `Series`: backward differences, running sums and their telescoping.
- `RealOrder`: monotonicity facts about products, squares and quotients.
- `Geometry`: points, rotations, and the row-vector × `[[c, s], [-s, c]]` product.
- `Wings`, `Airfoils`, `Nacelles` and `Flights`.

The source's in-place code is modelled as imperative Dafny, each method proved against a specification function:
- the bending table (`array2`, row helpers with loops);
- the airfoil placement loops (`array`);
- the ring writer;
- the backward-difference and in-place scaling of the flight tables;
- the row removal of `clean_data`, on the `Flight` class's `data` field.

Modelling choices, each following the code:
- The bending integration steps by `dx = L / resolution`, as written. The stations are `L / (resolution - 1)` apart.
- The slope at the root is `-(initial_angle * pi / 180)`: line 46 of airfoils/airplane.py subtracts the angle along with `derivatives[1, 0]`.
- The nacelle's squared local radius is written over the fraction `f = x / a` as `r0^2 (1 - f^2 (1 - k^2))`. `Nacelles.LocalRadiusSquaredIsSourceForm` proves it equal to the source's `r0^2 (1 - x^2 (1 - k^2) / a^2)` whenever `a != 0`.
- The work tables are defined for any sequence of heights (`PotentialWorkOfHeights`) or speeds (`KineticWorkOfSpeeds`). `PotentialWork` and `KineticWork` apply them to the flight's altitude and velocity.

## Model

| member | source | states |
|---|---|---|
| Wings.StationsEvenlySpaced | airfoils/airplane.py:18 | the stations start at 0, end at `L`, and consecutive stations differ by exactly `L / (N - 1)` |
| Wings.StationsIncrease | airfoils/airplane.py:18 | for `L > 0` the stations are strictly increasing |
| Wings.Linspace | airfoils/airplane.py:18 | `np.linspace(0, L, N)` has exactly N stations; their values are stated by `Wings.StationsEvenlySpaced` and `Wings.StationsIncrease` |
| Wings.Upper | airfoils/airplane.py:21 | one upper-envelope entry per station, `-tan1 x`; `Wings.NewWing` states it is 0 at the root |
| Wings.FirstAboveFrom | airfoils/airplane.py:19 | the first index from `from` whose station exceeds `R`, every station before it being `<= R` |
| Wings.ArgmaxAbove | airfoils/airplane.py:19 | `argmax(x > R)`: the smallest index whose station exceeds `R`, all earlier stations `<= R`, and 0 when no station exceeds `R` |
| Wings.OutboardLower | airfoils/airplane.py:23-25 | the outboard lower envelope is the inboard law bent by `(tan2 - tan3)(x - R)`, so both laws agree at `x = R` |
| Wings.KinkJump | airfoils/airplane.py:23-25 | between an inboard station and an outboard station, the lower envelope drops by `tan3` over the run to `R` plus `tan2` over the run after it |
| Wings.NewWing | airfoils/airplane.py:9-28 | a negative sample count fails, as does an empty station array (argmax of nothing); otherwise the wing holds the linspace stations, the argmax break index, the upper line, the lower envelope written slice by slice, the trapezoid area and the aspect ratio; when the break index is positive the root has `upr[0] = 0` and chord `upr[0] - lwr[0] = c0` |
| Wings.AspectRatio | airfoils/airplane.py:28 | `L^2 / S` is undefined exactly when the area is 0, and otherwise times the area gives `L^2` |
| Wings.TrapezoidOfConstant | airfoils/airplane.py:27 | the trapezoid rule of a constant is that constant times the covered length |
| Wings.Trapezoid | airfoils/airplane.py:27 | `np.trapz` as a sum of trapezoids, 0 over at most one station; `Wings.TrapezoidOfConstant` and `Wings.TrapezoidNonnegative` state its values |
| Wings.TrapezoidNonnegative | airfoils/airplane.py:27 | over ascending stations a non-negative row (such as `upr - lwr`) encloses a non-negative area |
| Wings.LowerEnvelopeAcrossBreak | airfoils/airplane.py:18-25 | across the break the two stations straddle `R` within one station step, and the lower envelope changes by `-tan3` over the part before `R` and `-tan2` over the part after it |
| Wings.SecondMoment | airfoils/airplane.py:37 | `b h^3/12 - (b - t)(h - t)^3/12` is 0 for zero wall thickness and the solid value `b h^3 / 12` whenever the wall thickness equals the depth `h` |
| Wings.SectionMoments | airfoils/airplane.py:37 | one second moment per station, each the `Wings.SecondMoment` of that station |
| Wings.Load | airfoils/airplane.py:40 | each load entry is half of weight plus lift |
| Wings.Integrate | airfoils/airplane.py:41-47 | `cumsum(s) * dx` starts at `s[0] dx` and grows by `s[i] dx` at each station |
| Wings.AnchorAtTip | airfoils/airplane.py:42-44 | subtracting the last entry plus `c` puts `-c` at the tip and keeps every increment |
| Wings.AnchorAtRoot | airfoils/airplane.py:46-48 | subtracting the first entry plus `c` puts `-c` at the root and keeps every increment |
| Wings.Shear | airfoils/airplane.py:41-42 | shear is `-engine_shear` at the tip and grows by `load[i] dx` |
| Wings.Moment | airfoils/airplane.py:43-44 | moment is 0 at the tip and grows by `shear[i] dx` |
| Wings.Slope | airfoils/airplane.py:45-46 | slope is `-(initial_angle pi / 180)` at the root and grows by `(M / (E I))[i] dx` |
| Wings.Deflection | airfoils/airplane.py:47-48 | deflection is 0 at the root and grows by `slope[i] dx` |
| Wings.DeflectionState | airfoils/airplane.py:39-48 | the five rows have N entries each, row 4 is the load, and the four boundary values hold |
| Wings.DeflectionStateIncrements | airfoils/airplane.py:41-48 | for `i >= 1` each row's increment is its integrand times `dx`: shear from load, moment from shear, slope from `M/(E I)`, deflection from slope |
| Wings.CumSumRow | airfoils/airplane.py:41 | the loop writes the running sum of the source row into one table row and leaves every other row unchanged |
| Wings.ScaleRow | airfoils/airplane.py:41 | multiplies one table row by a scalar, other rows unchanged |
| Wings.AccumulateRow | airfoils/airplane.py:41-47 | one row becomes `cumsum(src) * dx`, other rows unchanged |
| Wings.ShiftRow | airfoils/airplane.py:42-48 | the in-place `-=` of a scalar on one row, other rows unchanged |
| Wings.IntegrateFromTip | airfoils/airplane.py:41-44 | a row becomes the tip-anchored integral of its source, other rows unchanged |
| Wings.IntegrateFromRoot | airfoils/airplane.py:45-48 | a row becomes the root-anchored integral of its source, other rows unchanged |
| Wings.ShearAndMomentRows | airfoils/airplane.py:41-44 | rows 3 and 2 become shear and moment of the load in row 4; rows 0, 1 and 4 are unchanged |
| Wings.SlopeAndDeflectionRows | airfoils/airplane.py:45-48 | rows 1 and 0 become slope and deflection of the moment in row 2; rows 2-4 are unchanged |
| Wings.BendingDeflection | airfoils/airplane.py:30-50 | returns the section moments and a fresh 5×N table equal entry by entry to the deflection state, with shear `-engine_shear` and moment 0 at the tip, slope `-(initial_angle pi/180)` and deflection 0 at the root |
| Wings.UnloadedWingStaysStraight | airfoils/airplane.py:37-48 | with no weight, no lift, no engine shear, no initial angle and `E I != 0`, all five rows are zero |
| Geometry.RowTimesRotation | airfoils/airplane.py:92-98 | the row vector times `[[c, s], [-s, c]]` keeps the length of the pair when `c^2 + s^2 = 1`, and is the identity for the zero angle |
| Geometry.RotationKeepsDistance | airfoils/airplane.py:92-98 | rotating two pairs by the same angle keeps their squared distance |
| Airfoils.Mirrored | airfoils/airplane.py:85 | the chordwise column is negated and the thickness column kept |
| Airfoils.Airfoil.constructor | airfoils/airplane.py:81-85 | the outline gains one point, every point is the given one (mirrored when `flip`), and the outline is closed |
| Airfoils.ScaledRows | airfoils/airplane.py:88-90 | a fresh table with one row per outline point, scaled by the chord and with z scaled by the thickness |
| Airfoils.TwistRows | airfoils/airplane.py:92-94 | the loop replaces every row's (y, z) by its twist rotation and nothing else |
| Airfoils.PitchRows | airfoils/airplane.py:96-98 | the loop replaces every row's (x, z) by its pitch rotation and nothing else |
| Airfoils.TranslateRows | airfoils/airplane.py:100 | every row is moved by `(x, y, z)` |
| Airfoils.Airfoil.Place | airfoils/airplane.py:87-102 | a fresh table, one placed point per outline point; a closed outline stays closed |
| Airfoils.Placed | airfoils/airplane.py:87-102 | where `place` puts one outline point, the placement point itself for a zero chord; `Airfoils.PlacedAtIdentity`, `Airfoils.PlacedDistanceFromOrigin` and `Airfoils.PlacementKeepsDistances` state its properties |
| Airfoils.PlacedAtIdentity | airfoils/airplane.py:87-102 | unit chord and thickness, no twist, no pitch, at the origin, point k is `(0, u_k, v_k)` |
| Airfoils.PlacedDistanceFromOrigin | airfoils/airplane.py:87-102 | a placed point lies as far from `(x, y, z)` as its scaled point lies from the origin |
| Airfoils.PlacementKeepsDistances | airfoils/airplane.py:92-100 | twist, pitch and translation keep the distance between any two scaled points |
| Nacelles.NewNacelle | airfoils/airplane.py:106-114 | given `R` with `R^2 = area/pi + r^2`, `pi (R^2 - r^2)` is the area and `R_outer - R` is the width |
| Nacelles.LocalRadiusSquared | airfoils/airplane.py:116-117 | the squared local radius, `r0^2` at the front; `Nacelles.LocalRadiusSquaredIsSourceForm` states it equals the source expression, and `Nacelles.LocalRadiusEnds` and `Nacelles.LocalRadiusNarrows` state its end values and monotonicity |
| Nacelles.LocalRadiusSquaredIsSourceForm | airfoils/airplane.py:116-117 | the law over `f = x / a` equals `r0^2 (1 - x^2 (1 - k^2) / a^2)`, the source's radicand, for every `x` when `a != 0` |
| Nacelles.RadicandEnds | airfoils/airplane.py:116-117 | the radius law over the fraction `f`: `r0^2` at `f = 0`, `r0^2 k^2` at `f = 1`, and `r0^2` everywhere when `k = 1` |
| Nacelles.LocalRadiusEnds | airfoils/airplane.py:116-117 | the squared local radius is `r0^2` at `x = 0`, `r0^2 k^2` at `x = a`, and `r0^2` for all `x` when `k = 1` |
| Nacelles.RadicandNarrows | airfoils/airplane.py:116-117 | for `0 <= k <= 1` the squared radius shrinks as `f` runs from 0 to 1 and stays between 0 and `r0^2` |
| Nacelles.LocalRadiusNarrows | airfoils/airplane.py:116-117 | along the nacelle, `0 <= x <= x' <= a`, the squared local radius is non-increasing, non-negative and at most `r0^2` |
| Nacelles.RadicandGrows | airfoils/airplane.py:116-117 | a larger base radius gives a larger local radius at the same station |
| Nacelles.OuterEnclosesInner | airfoils/airplane.py:113-117 | with a non-negative width, the outer surface's local radius is never below the inner one's |
| Nacelles.RingOffset | airfoils/airplane.py:124-126 | the point columns before the offset, in the vertical plane along the toe-in heading; `Nacelles.RingOffsetLength` states its squared length is `r^2` |
| Nacelles.RingCentre | airfoils/airplane.py:128-130 | the offset `(xf + p a sin toe, yf - p a cos toe, zf)`, at the front point's height and moved at right angles to the toe-in heading; `Nacelles.RingPointOnCircle` and `Nacelles.Ring` state the points lie on the circle around it |
| Nacelles.RingOffsetLength | airfoils/airplane.py:123-126 | each ring offset `(r cos t cos toe, r cos t sin toe, r sin t)` has squared length `r^2` |
| Nacelles.RingPointOnCircle | airfoils/airplane.py:123-130 | an offset point lies at squared distance `r^2` from the centre it was offset by |
| Nacelles.Ring | airfoils/airplane.py:119-132 | a fresh array of `resolution` points, each the centre `(xf + p a sin toe, yf - p a cos toe, zf)` plus its offset, each at squared distance `r^2` from that centre, and the first point equals the last |
| Nacelles.PlaceOuter | airfoils/airplane.py:134-135 | `resolution` points, each the ring centre plus its offset at the outer local radius, each at squared distance equal to the squared local radius of the outer surface, and the ring closes |
| Nacelles.PlaceInner | airfoils/airplane.py:137-138 | the same for the inner surface of radius `R` |
| Series.DiffTelescopes | flights.py:67-70 | the backward differences summed through entry i give `x[i] - x[0]` |
| Series.RunningSumOfScaled | flights.py:123-133 | a running sum of a scaled table is the scaled running sum |
| Series.ScaledDiffTelescopes | flights.py:123-133 | a scaled difference table sums through entry i to `k (x[i] - x[0])` |
| Flights.AltitudeFactorAsWrittenIsNotAFoot | flights.py:63-64 | the mph factor 0.44704 is 0.3048 m per foot carried through 5280 ft and 3600 s; the factor 0.4038 is not, and turns 1000 ft into 403.8 m instead of 304.8 m |
| Flights.AltitudeAsWritten | flights.py:63-64 | one altitude per row, column 6 times 0.4038; `Flights.AltitudeAsWrittenIsRescaled` relates it and its differences to the corrected altitude |
| Flights.AltitudeAsWrittenIsRescaled | flights.py:63-70 | the as-written altitude, and each of its differences, is the corrected one times 0.4038 / 0.3048 |
| Flights.AltitudeInFeetOfTheMphFactor | flights.py:63-64 | the corrected altitude is in metres of the same foot the velocity factor uses, and altitude differences are foot differences times 0.3048 |
| Flights.Velocity | flights.py:97-99 | one speed per row; `Flights.VelocityAveragesReadings` states it is the mean of the two converted readings |
| Flights.TimeStep | flights.py:102-103 | one entry per row, requiring at least one row; `Flights.TimeStepAccumulatesDeltaT` states entry i is `delta_t` summed through i, and entry 0 is 0 |
| Flights.VelocityAveragesReadings | flights.py:97-99 | velocity is the mean of the knots and mph readings in m/s: equal to both when they agree, and between them otherwise |
| Flights.TimeStepAccumulatesDeltaT | flights.py:102-103 | `time_step[i]` is `delta_t` summed through i, and `time_step[0] = 0` |
| Flights.BackwardDifference | flights.py:80-83 | `x - roll(x, 1)` with entry 0 then set to 0 yields a fresh array equal to the backward differences of `x` |
| Flights.NonSingularDeltaT | flights.py:86-89 | the non-singular step is 1 at entry 0 and `t[i] - t[i-1]` elsewhere; it has no zero entry exactly when no two neighbouring samples share a time |
| Flights.PotentialWorkEntries | flights.py:123-125 | entry 0 is 0 and entry i is `9.81 m (h[i] - h[i-1])` |
| Flights.KineticWorkEntries | flights.py:130-133 | entry 0 is 0 and entry i is `0.5 m (v[i]^2 - v[i-1]^2)` |
| Flights.PotentialWorkTelescopes | flights.py:123-125 | the potential work summed through i is `9.81 m (h[i] - h[0])` |
| Flights.KineticWorkTelescopes | flights.py:130-133 | the kinetic work summed through i is `0.5 m (v[i]^2 - v[0]^2)` |
| Flights.PotentialWork | flights.py:123-125 | one entry per row; it is the potential work of the corrected altitude, so `Flights.PotentialWorkEntries` and `Flights.PotentialWorkTelescopes` state its entries and sums |
| Flights.KineticWork | flights.py:130-133 | one entry per row; it is the kinetic work of the velocity, so `Flights.KineticWorkEntries` and `Flights.KineticWorkTelescopes` state its entries and sums |
| Flights.DynamicPressure | flights.py:110-112 | one entry per row, `0.5 rho v^2` from the given density |
| Flights.Drag | flights.py:114-115 | one entry per row, the dynamic pressure times area and drag coefficient |
| Flights.DragWork | flights.py:117-118 | one entry per row; `Flights.DragWorkNonnegative` states it is non-negative for non-negative inputs |
| Flights.WorkRequired | flights.py:139-141 | one entry per row, potential plus kinetic plus drag work; `Flights.Flight.WorkAddition` states the recovered table built from it |
| Flights.DragWorkNonnegative | flights.py:110-118 | with non-negative density, area, drag coefficient and distances, each drag work entry is non-negative |
| Flights.Recovered | flights.py:142 | non-negative entries of the work are unchanged |
| Flights.NoRecoveryKeepsPositivePart | flights.py:138-143 | with the default recovery 0, negative entries become 0 and every entry is non-negative |
| Flights.PartialRecoveryBounds | flights.py:142 | for a recovery between 0 and 1, every entry lies between the original work and its positive part |
| Flights.Rate | flights.py:120-147 | each rate entry times its step gives back the work entry |
| Flights.Steps | flights.py:86-89 | when no neighbouring times repeat, the non-singular steps keep the row count and have no zero entry |
| Flights.Acceleration | flights.py:105-107 | the acceleration keeps the row count |
| Flights.PotentialWorkRate | flights.py:127-128 | the potential work rate keeps the row count |
| Flights.KineticWorkRate | flights.py:135-136 | the kinetic work rate keeps the row count |
| Flights.DragWorkRate | flights.py:120-121 | the drag work rate keeps the row count |
| Flights.RateIsWorkPerTimeStep | flights.py:127-128 | rate entry 0 is the work entry itself; entry i is the work divided by `t[i] - t[i-1]` |
| Flights.KeptPrefixDistinct | flights.py:22 | after the removal no two neighbouring rows share a time |
| Flights.KeptPrefixTimes | flights.py:22 | the removal keeps exactly the set of times present |
| Flights.DropRepeatedTimesProperties | flights.py:22 | row 0 is always kept, the last time survives, the set of times is unchanged, and no neighbours share a time, so `delta_t[i] != 0` for `i >= 1` |
| Flights.DistinctRowsAllKept | flights.py:22 | rows without repeated neighbouring times are all kept |
| Flights.DropRepeatedTimesIdempotent | flights.py:22 | a second removal changes nothing |
| Flights.DropRepeatedTimes | flights.py:22 | never longer than the table; `Flights.DropRepeatedTimesProperties`, `Flights.DistinctRowsAllKept` and `Flights.DropRepeatedTimesIdempotent` state what it keeps |
| Flights.ScaleInPlace | flights.py:133 | multiplies the table in place by a scalar |
| Flights.RecoverInPlace | flights.py:142 | the masked in-place multiplication is the recovered work |
| Flights.Flight.constructor | flights.py:12-18 | the flight holds the given rows |
| Flights.Flight.DeltaT | flights.py:79-83 | a fresh array of the time differences, entry 0 equal to 0 |
| Flights.Flight.DeltaAltitude | flights.py:66-70 | a fresh array of the altitude differences, entry 0 equal to 0 |
| Flights.Flight.DeltaV | flights.py:91-95 | a fresh array of the velocity differences, entry 0 equal to 0 |
| Flights.Flight.DeltaTNonSingular | flights.py:85-89 | a fresh array equal to the time differences with entry 0 set to 1; the flight's rows are not touched |
| Flights.Flight.KineticWorkTable | flights.py:130-133 | a fresh array equal to the kinetic work |
| Flights.Flight.WorkAddition | flights.py:138-143 | a fresh array equal to potential + kinetic + drag work with negative entries scaled by the recovery factor |
| Flights.Flight.WorkRateAddition | flights.py:145-147 | a fresh array equal to that work divided by the non-singular steps |
| Flights.Flight.CleanRepeatedTimes | flights.py:20-22 | the flight's rows become exactly those whose time differs from the previous row's, row 0 always kept |

## Findings

| source | as written | input that shows it | evidently intended | confidence | as-written member | corrected member |
|---|---|---|---|---|---|---|
| flights.py:64 | altitude is column 6 (feet) times 0.4038 | 1000 ft gives 403.8 m | times 0.3048 m per foot, the foot the mph factor 0.44704 = 0.3048 × 5280 / 3600 is built from; 1000 ft gives 304.8 m | not executed | Flights.AltitudeFactorAsWrittenIsNotAFoot | Flights.AltitudeInFeetOfTheMphFactor |

`Flights.AltitudeAsWritten` keeps the 0.4038 factor. `Flights.Altitude` uses 0.3048, and the rest of the model (altitude differences, potential work) uses the corrected altitude.

## Left out

- File and export I/O are not part of this model. That covers the outline file read by `np.genfromtxt` (the constructor takes the points), `Wing.save_files`, `Nacelle.save_files`, `Flight.save` and `Flight.open_file`.
- airfoils/solidworks.py is not part of this model. It only drives an external CAD program.
- `FlightAwareRecorder` is not part of this model. It scrapes web pages.
- The rolling-statistics outlier step of `clean_data` (flights.py:24-31) is not modelled. It relies on pandas rolling means and deviations.
- The atmosphere table is an input: `rho` is a given sequence.
- The distance flown is an input: `distance` is a given sequence. In the source it is `delta_distance` (flights.py:73-77), `sqrt(delta_altitude^2 + geodesic^2)`. Its dependence on the altitude differences and the geodesic computation are not modelled.
- Floating point: rounding, NaN and infinity are not modelled. All arithmetic is exact over the reals.
- `tan`, `sin`, `cos`, `sqrt`, `pi` and `np.linspace(0, 2 pi, N)` are parameters: tangents, `Rotation(c, s)` with `c^2 + s^2 = 1`, a root whose square is given, and the ring angles given as rotations whose first and last are the zero angle.
- `Flight` metadata (name, date, origin, destination, url) is not modelled. Only `data` enters the arithmetic.
- Flights.Steps, Flights.Rate, Flights.Acceleration, Flights.PotentialWorkRate, Flights.KineticWorkRate, Flights.DragWorkRate and Flights.Flight.WorkRateAddition require that no two neighbouring samples share a time. The source divides anyway and would produce infinities or NaN, which are floating-point values outside this model.
- Flights.TimeStep requires at least one row, since the source reads `data[0, 0]`.
- Flights.PotentialWork, Flights.KineticWork, Flights.DragWork and Flights.WorkRequired return an empty table for an empty flight. The source raises there, at `delta_alt[0] = 0` or `delta_k[0] = 0`.
- Wings.NewWing and Nacelles.NewNacelle take the sample count as an argument. The source's default of 1000 (`resolution=1000`) is not modelled; a caller passes 1000 explicitly.
- Flights.Flight.DeltaT, Flights.Flight.DeltaAltitude, Flights.Flight.DeltaV, Flights.Flight.DeltaTNonSingular, Flights.Flight.KineticWorkTable, Flights.Flight.WorkAddition and Flights.Flight.CleanRepeatedTimes require at least one row. On an empty table the source's `delta[0] = 0` raises.
- Airfoils.Airfoil.constructor requires a non-empty outline. On an empty one the source's `base_af[0]` raises.
- Wings.BendingDeflection requires `E I != 0` at every station and at least one station. The source would divide by zero or index an empty row.
- Nacelles.PlaceOuter and Nacelles.PlaceInner take the local radius `r` as a value whose square is the radius law, and require a nonzero nacelle length. The law divides by `a^2`.
- Nacelles.NewNacelle takes `R` as a value whose square is `area / pi + r^2`.
- Flights.KineticWorkTelescopes and Flights.PotentialWorkTelescopes are stated for any sequence of speeds or heights. For a flight they apply to `Velocity(data)` and `Altitude(data)`, because `KineticWork` and `PotentialWork` are defined as those tables.
- Flights.Flight.DeltaAltitude differences the corrected altitude (× 0.3048). The source's `delta_altitude` uses the 0.4038 factor; `Flights.AltitudeAsWrittenIsRescaled` relates the two: as written, each difference is 0.4038 / 0.3048 times the modelled one.
- Flights.PotentialWork uses the corrected altitude. The source's `potential_work` is `Flights.PotentialWorkOfHeights` applied to `Flights.AltitudeAsWritten`; the entry and telescoping lemmas hold for it unchanged, because they are stated for any heights.
- Flights.PotentialWorkRate divides the corrected potential work, not the 0.4038-based one, for the same reason.
- Flights.WorkRequired adds the corrected potential work, not the 0.4038-based one.
- Flights.Flight.WorkAddition returns the recovered work built from the corrected potential work, not the 0.4038-based one.
- Flights.Flight.WorkRateAddition divides that corrected work by the steps, not the 0.4038-based one.
