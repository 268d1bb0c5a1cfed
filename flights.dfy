/**
 * The per-sample flight arithmetic of flights.py: unit conversions of the
 * tracklog columns, backward differences between consecutive samples, the
 * work terms built from them, the recovery mask of work_addition, the
 * division by time steps, and the removal of samples that repeat the
 * previous timestamp.
 *
 * The air density (from the atmosphere table) and the distance flown
 * between samples enter as per-sample sequences. In the source that
 * distance is sqrt(delta_altitude^2 + geodesic^2); here it is an input,
 * so its link to the altitude differences is not part of this model.
 */
module Flights {
  import opened Series
  import opened RealOrder

  /** One tracklog row: the seven columns of `data`, in order. */
  datatype Sample = Sample(time: real, latitude: real, longitude: real, heading: real,
                           knots: real, mph: real, feet: real)

  /** Metres in a foot, the factor that converts column 6. */
  const FootInMetres := 0.3048
  /** The factor the source writes for column 6 (flights.py line 64). */
  const AltitudeFactorAsWritten := 0.4038
  /** Metres per second in a knot, as the source rounds it. */
  const KnotInMetresPerSecond := 0.51444
  /** Metres per second in a mile per hour. */
  const MphInMetresPerSecond := 0.44704
  /** The gravitational acceleration potential_work uses. */
  const Gravity := 9.81

  // ------------------------------------------------------------- columns

  /** Column 0: the sample times. */
  function Times(data: seq<Sample>): (t: seq<real>)
    ensures |t| == |data|
    ensures forall i :: 0 <= i < |data| ==> t[i] == data[i].time
  {
    seq(|data|, i requires 0 <= i < |data| => data[i].time)
  }

  /** `altitude` as the source writes it: column 6 times 0.4038. */
  function AltitudeAsWritten(data: seq<Sample>): (h: seq<real>)
    ensures |h| == |data|
  {
    seq(|data|, i requires 0 <= i < |data| => data[i].feet * AltitudeFactorAsWritten)
  }

  /** `altitude` in metres: column 6, in feet, times the length of a foot. */
  function Altitude(data: seq<Sample>): (h: seq<real>)
    ensures |h| == |data|
  {
    seq(|data|, i requires 0 <= i < |data| => data[i].feet * FootInMetres)
  }

  /**
   * The mile-per-hour factor the source uses for column 5 is the foot of
   * 0.3048 m carried through 5280 feet per mile and 3600 s per hour; the
   * altitude factor it writes for column 6 is not that foot, so a reading
   * of 1000 ft becomes 403.8 m instead of 304.8 m.
   */
  lemma AltitudeFactorAsWrittenIsNotAFoot()
    ensures FootInMetres * 5280.0 / 3600.0 == MphInMetresPerSecond
    ensures AltitudeFactorAsWritten * 5280.0 / 3600.0 != MphInMetresPerSecond
    ensures AltitudeAsWritten([Sample(0.0, 0.0, 0.0, 0.0, 0.0, 0.0, 1000.0)])[0] == 403.8
    ensures Altitude([Sample(0.0, 0.0, 0.0, 0.0, 0.0, 0.0, 1000.0)])[0] == 304.8
  {
  }

  /**
   * The altitude as written is the corrected altitude stretched by
   * 0.4038 / 0.3048, entry by entry and in every difference, so the work
   * tables built from it (PotentialWorkOfHeights of AltitudeAsWritten)
   * are stretched by the same ratio.
   */
  lemma AltitudeAsWrittenIsRescaled(data: seq<Sample>, i: nat)
    requires i < |data|
    ensures AltitudeAsWritten(data)[i] * FootInMetres == Altitude(data)[i] * AltitudeFactorAsWritten
    ensures Diff(AltitudeAsWritten(data))[i] * FootInMetres == Diff(Altitude(data))[i] * AltitudeFactorAsWritten
  {
    var hw, h := AltitudeAsWritten(data), Altitude(data);
    assert hw[i] * FootInMetres == h[i] * AltitudeFactorAsWritten;
    if i > 0 {
      assert hw[i - 1] * FootInMetres == h[i - 1] * AltitudeFactorAsWritten;
    }
  }

  /**
   * With the corrected factor every altitude is the reading in feet at the
   * foot length that also underlies the source's mph factor, and altitude
   * differences are foot differences at that scale.
   */
  lemma AltitudeInFeetOfTheMphFactor(data: seq<Sample>, i: nat, j: nat)
    requires i < |data| && j < |data|
    ensures Altitude(data)[i] * 5280.0 / 3600.0 == data[i].feet * MphInMetresPerSecond
    ensures Altitude(data)[j] - Altitude(data)[i] == (data[j].feet - data[i].feet) * FootInMetres
  {
  }

  /** `velocity`: the mean of the knots column and the mph column, each in m/s. */
  function Velocity(data: seq<Sample>): (v: seq<real>)
    ensures |v| == |data|
  {
    seq(|data|, i requires 0 <= i < |data| =>
      data[i].knots * KnotInMetresPerSecond / 2.0 + data[i].mph * MphInMetresPerSecond / 2.0)
  }

  /**
   * When the two speed columns report the same speed, velocity is that
   * speed; otherwise it lies between the two converted readings.
   */
  lemma VelocityAveragesReadings(data: seq<Sample>, i: nat)
    requires i < |data|
    ensures var a, b := data[i].knots * KnotInMetresPerSecond, data[i].mph * MphInMetresPerSecond;
      (a == b ==> Velocity(data)[i] == a) &&
      (a <= b ==> a <= Velocity(data)[i] <= b) &&
      (b <= a ==> b <= Velocity(data)[i] <= a)
  {
  }

  /** `time_step`: each time measured from the first sample. */
  function TimeStep(data: seq<Sample>): (t: seq<real>)
    requires |data| > 0
    ensures |t| == |data|
  {
    seq(|data|, i requires 0 <= i < |data| => data[i].time - data[0].time)
  }

  // ------------------------------------------------- backward differences

  /** `time_step` is the running total of `delta_t`; in particular it starts at 0. */
  lemma TimeStepAccumulatesDeltaT(data: seq<Sample>, i: nat)
    requires i < |data|
    ensures TimeStep(data)[i] == RunningSum(Diff(Times(data)), i)
    ensures TimeStep(data)[0] == 0.0
  {
    DiffTelescopes(Times(data), i);
  }

  /**
   * The body the delta properties share: the rolled array is x shifted one
   * place to the right with the last entry wrapped round to the front, the
   * difference is taken entry by entry, and entry 0 is then overwritten.
   * On an empty array the source's `[0] = 0` raises, so x is not empty.
   */
  method BackwardDifference(x: seq<real>) returns (d: array<real>)
    requires |x| > 0
    ensures fresh(d)
    ensures d[..] == Diff(x)
  {
    var n := |x|;
    var rolled := [x[n - 1]] + x[..n - 1];
    d := new real[n];
    forall i | 0 <= i < n {
      d[i] := x[i] - rolled[i];
    }
    d[0] := 0.0;
  }

  /** The entry-0 override of `_delta_t_non_singular`: 1 first, then the time differences. */
  function NonSingular(dt: seq<real>): (r: seq<real>)
    ensures |r| == |dt|
  {
    if |dt| == 0 then dt else [1.0] + dt[1..]
  }

  /** No sample repeats the time of the one before it. */
  predicate DistinctNeighbourTimes(data: seq<Sample>)
  {
    forall i :: 1 <= i < |data| ==> data[i].time != data[i - 1].time
  }

  /**
   * The divisor the rates use is 1 at entry 0 and `delta_t` elsewhere; it
   * has no zero entry exactly when no sample repeats its predecessor's time.
   */
  lemma NonSingularDeltaT(data: seq<Sample>)
    requires |data| > 0
    ensures NonSingular(Diff(Times(data)))[0] == 1.0
    ensures forall i :: 1 <= i < |data| ==> NonSingular(Diff(Times(data)))[i] == data[i].time - data[i - 1].time
    ensures DistinctNeighbourTimes(data) <==>
      forall i :: 0 <= i < |data| ==> NonSingular(Diff(Times(data)))[i] != 0.0
  {
    var dtn := NonSingular(Diff(Times(data)));
    assert forall i :: 1 <= i < |data| ==> dtn[i] == data[i].time - data[i - 1].time;
  }

  // ------------------------------------------------------------ work terms

  /** `potential_work`: the weight 9.81 m times each change of altitude. */
  function PotentialWork(data: seq<Sample>, mass: real): (w: seq<real>)
    ensures |w| == |data|
  {
    PotentialWorkOfHeights(Altitude(data), mass)
  }

  /** The potential work table for any sequence of heights. */
  function PotentialWorkOfHeights(h: seq<real>, mass: real): (w: seq<real>)
    ensures |w| == |h|
  {
    Scaled(Gravity * mass, Diff(h))
  }

  /** The squares of a sequence, entry by entry. */
  function Squares(v: seq<real>): (s: seq<real>)
    ensures |s| == |v|
  {
    seq(|v|, i requires 0 <= i < |v| => Sq(v[i]))
  }

  /** `kinetic_work`: half the mass times each change of squared velocity. */
  function KineticWork(data: seq<Sample>, mass: real): (w: seq<real>)
    ensures |w| == |data|
  {
    KineticWorkOfSpeeds(Velocity(data), mass)
  }

  /** The kinetic work table for any sequence of speeds. */
  function KineticWorkOfSpeeds(v: seq<real>, mass: real): (w: seq<real>)
    ensures |w| == |v|
  {
    Scaled(0.5 * mass, Diff(Squares(v)))
  }

  /** Entry 0 of the potential work is zero; entry i is the weight times the climb from sample i - 1. */
  lemma PotentialWorkEntries(h: seq<real>, mass: real, i: nat)
    requires i < |h|
    ensures PotentialWorkOfHeights(h, mass)[i] == if i == 0 then 0.0 else Gravity * mass * (h[i] - h[i - 1])
  {
  }

  /** Entry 0 of the kinetic work is zero; entry i is the change of 0.5 m v^2 from sample i - 1. */
  lemma KineticWorkEntries(v: seq<real>, mass: real, i: nat)
    requires i < |v|
    ensures KineticWorkOfSpeeds(v, mass)[i] == if i == 0 then 0.0 else 0.5 * mass * (Sq(v[i]) - Sq(v[i - 1]))
  {
    assert Diff(Squares(v))[i] == if i == 0 then 0.0 else Sq(v[i]) - Sq(v[i - 1]);
  }

  /**
   * The potential work summed through sample i is the weight times the
   * height gained since the first sample.
   */
  lemma PotentialWorkTelescopes(h: seq<real>, mass: real, i: nat)
    requires i < |h|
    ensures RunningSum(PotentialWorkOfHeights(h, mass), i) == Gravity * mass * (h[i] - h[0])
  {
    ScaledDiffTelescopes(Gravity * mass, h, i);
  }

  /**
   * The kinetic work summed through sample i is the change of kinetic
   * energy since the first sample: 0.5 m (v[i]^2 - v[0]^2).
   */
  lemma KineticWorkTelescopes(v: seq<real>, mass: real, i: nat)
    requires i < |v|
    ensures RunningSum(KineticWorkOfSpeeds(v, mass), i) == 0.5 * mass * (Sq(v[i]) - Sq(v[0]))
  {
    ScaledDiffTelescopes(0.5 * mass, Squares(v), i);
    assert Squares(v)[i] == Sq(v[i]) && Squares(v)[0] == Sq(v[0]);
  }

  /** `q_infinity`: the dynamic pressure 0.5 rho v^2 at each sample, with rho from the atmosphere table. */
  function DynamicPressure(data: seq<Sample>, rho: seq<real>): (q: seq<real>)
    requires |rho| == |data|
    ensures |q| == |data|
  {
    var v := Velocity(data);
    seq(|data|, i requires 0 <= i < |data| => 0.5 * rho[i] * Sq(v[i]))
  }

  /** `drag`: dynamic pressure times the reference area and the drag coefficient. */
  function Drag(data: seq<Sample>, rho: seq<real>, area: real, cd: real): (f: seq<real>)
    requires |rho| == |data|
    ensures |f| == |data|
  {
    var q := DynamicPressure(data, rho);
    seq(|data|, i requires 0 <= i < |data| => q[i] * area * cd)
  }

  /** `drag_work`: the drag at each sample times the distance flown since the previous one. */
  function DragWork(data: seq<Sample>, rho: seq<real>, distance: seq<real>, area: real, cd: real): (w: seq<real>)
    requires |rho| == |distance| == |data|
    ensures |w| == |data|
  {
    var f := Drag(data, rho, area, cd);
    seq(|data|, i requires 0 <= i < |data| => f[i] * distance[i])
  }

  /** With non-negative density, area, coefficient and distances, drag never returns work. */
  lemma DragWorkNonnegative(data: seq<Sample>, rho: seq<real>, distance: seq<real>, area: real, cd: real)
    requires |rho| == |distance| == |data|
    requires area >= 0.0 && cd >= 0.0
    requires forall i :: 0 <= i < |data| ==> rho[i] >= 0.0 && distance[i] >= 0.0
    ensures forall i :: 0 <= i < |data| ==> DragWork(data, rho, distance, area, cd)[i] >= 0.0
  {
    forall i | 0 <= i < |data|
      ensures DragWork(data, rho, distance, area, cd)[i] >= 0.0
    {
      var v := Velocity(data)[i];
      SqMonotone(0.0, if v >= 0.0 then v else -v);
      assert Sq(v) == Sq(if v >= 0.0 then v else -v);
      MulNonnegative(0.5 * rho[i], Sq(v));
      var q := DynamicPressure(data, rho)[i];
      MulNonnegative(q, area);
      MulNonnegative(q * area, cd);
      var f := Drag(data, rho, area, cd)[i];
      MulNonnegative(f, distance[i]);
    }
  }

  /** The work the flight needs per sample before recovery: potential plus kinetic plus drag. */
  function WorkRequired(data: seq<Sample>, mass: real, rho: seq<real>, distance: seq<real>,
                        area: real, cd: real): (w: seq<real>)
    requires |rho| == |distance| == |data|
    ensures |w| == |data|
  {
    var p, k, d := PotentialWork(data, mass), KineticWork(data, mass), DragWork(data, rho, distance, area, cd);
    seq(|data|, i requires 0 <= i < |data| => p[i] + k[i] + d[i])
  }

  /**
   * `work_required[work_required < 0] *= recovery_percentage`: negative
   * entries (work given back) scaled by the share that is recovered,
   * non-negative entries unchanged.
   */
  function Recovered(w: seq<real>, recovery: real): (r: seq<real>)
    ensures |r| == |w|
    ensures forall i :: 0 <= i < |w| && w[i] >= 0.0 ==> r[i] == w[i]
  {
    seq(|w|, i requires 0 <= i < |w| => if w[i] < 0.0 then w[i] * recovery else w[i])
  }

  /**
   * With the default recovery of 0 no work is given back: every entry is
   * the positive part of the work required, so none is negative.
   */
  lemma NoRecoveryKeepsPositivePart(w: seq<real>)
    ensures forall i :: 0 <= i < |w| ==> Recovered(w, 0.0)[i] == (if w[i] < 0.0 then 0.0 else w[i])
    ensures forall i :: 0 <= i < |w| ==> Recovered(w, 0.0)[i] >= 0.0
  {
    forall i | 0 <= i < |w|
      ensures Recovered(w, 0.0)[i] == (if w[i] < 0.0 then 0.0 else w[i])
    {
      if w[i] < 0.0 {
        assert w[i] * 0.0 == 0.0;
      }
    }
  }

  /**
   * A recovery share in [0, 1] recovers part of the work given back: each
   * entry lies between the work required and its positive part.
   */
  lemma PartialRecoveryBounds(w: seq<real>, recovery: real)
    requires 0.0 <= recovery <= 1.0
    ensures forall i :: 0 <= i < |w| ==>
      w[i] <= Recovered(w, recovery)[i] <= (if w[i] < 0.0 then 0.0 else w[i])
  {
    forall i | 0 <= i < |w|
      ensures w[i] <= Recovered(w, recovery)[i] <= (if w[i] < 0.0 then 0.0 else w[i])
    {
      RecoveredEntryBounds(w, recovery, i);
    }
  }

  lemma RecoveredEntryBounds(w: seq<real>, recovery: real, i: nat)
    requires 0.0 <= recovery <= 1.0 && i < |w|
    ensures w[i] <= Recovered(w, recovery)[i] <= (if w[i] < 0.0 then 0.0 else w[i])
  {
    var x := w[i];
    if x < 0.0 {
      assert Recovered(w, recovery)[i] == x * recovery;
      PartOfLoss(x, recovery);
    }
  }

  /** A share in [0, 1] of a negative amount lies between the amount and zero. */
  lemma PartOfLoss(x: real, p: real)
    requires x < 0.0 && 0.0 <= p <= 1.0
    ensures x <= x * p <= 0.0
  {
    MulLeftMonotone(-x, p, 1.0);
    MulNonnegative(-x, p);
    assert (-x) * p == -(x * p);
  }

  // ----------------------------------------------------------------- rates

  /** Elementwise division by the non-singular time steps; each rate times its step gives back the work. */
  function Rate(work: seq<real>, dtn: seq<real>): (r: seq<real>)
    requires |work| == |dtn|
    requires forall i :: 0 <= i < |dtn| ==> dtn[i] != 0.0
    ensures |r| == |work|
    ensures forall i :: 0 <= i < |r| ==> r[i] * dtn[i] == work[i]
  {
    seq(|work|, i requires 0 <= i < |work| => work[i] / dtn[i])
  }

  /** The divisor every rate uses: `_delta_t_non_singular`. */
  function Steps(data: seq<Sample>): (dtn: seq<real>)
    requires |data| > 0 && DistinctNeighbourTimes(data)
    ensures |dtn| == |data|
    ensures forall i :: 0 <= i < |dtn| ==> dtn[i] != 0.0
  {
    NonSingularDeltaT(data);
    NonSingular(Diff(Times(data)))
  }

  /** `acceleration`: each velocity change over its time step (over 1 at entry 0). */
  function Acceleration(data: seq<Sample>): (a: seq<real>)
    requires |data| > 0 && DistinctNeighbourTimes(data)
    ensures |a| == |data|
  {
    Rate(Diff(Velocity(data)), Steps(data))
  }

  /** `potential_work_rate`. */
  function PotentialWorkRate(data: seq<Sample>, mass: real): (r: seq<real>)
    requires |data| > 0 && DistinctNeighbourTimes(data)
    ensures |r| == |data|
  {
    Rate(PotentialWork(data, mass), Steps(data))
  }

  /** `kinetic_work_rate`. */
  function KineticWorkRate(data: seq<Sample>, mass: real): (r: seq<real>)
    requires |data| > 0 && DistinctNeighbourTimes(data)
    ensures |r| == |data|
  {
    Rate(KineticWork(data, mass), Steps(data))
  }

  /** `drag_work_rate`. */
  function DragWorkRate(data: seq<Sample>, rho: seq<real>, distance: seq<real>, area: real, cd: real): (r: seq<real>)
    requires |data| > 0 && DistinctNeighbourTimes(data)
    requires |rho| == |distance| == |data|
    ensures |r| == |data|
  {
    Rate(DragWork(data, rho, distance, area, cd), Steps(data))
  }

  /**
   * Away from the first sample a rate is work per second: rate times the
   * time elapsed since the previous sample gives back the work; at the
   * first sample the divisor is 1, so the rate is the work itself.
   */
  lemma RateIsWorkPerTimeStep(data: seq<Sample>, work: seq<real>)
    requires |data| > 0 && DistinctNeighbourTimes(data) && |work| == |data|
    ensures Rate(work, Steps(data))[0] == work[0]
    ensures forall i :: 1 <= i < |data| ==>
      Rate(work, Steps(data))[i] == work[i] / (data[i].time - data[i - 1].time)
  {
    NonSingularDeltaT(data);
    assert work[0] / 1.0 == work[0];
  }

  // ------------------------------------------- removal of repeated times

  /** Row i survives line 22 of clean_data: it is the first, or its time differs from the previous row's. */
  predicate Kept(rows: seq<Sample>, i: nat)
    requires i < |rows|
  {
    i == 0 || rows[i].time != rows[i - 1].time
  }

  /** The rows among the first n that survive, in order. */
  function KeptPrefix(rows: seq<Sample>, n: nat): (kept: seq<Sample>)
    requires n <= |rows|
    ensures |kept| <= n
    ensures n > 0 ==> |kept| > 0
  {
    if n == 0 then []
    else KeptPrefix(rows, n - 1) + (if Kept(rows, n - 1) then [rows[n - 1]] else [])
  }

  /** `np.delete(data, np.argwhere(delta_t[1:] == 0) + 1, 0)`. */
  function DropRepeatedTimes(rows: seq<Sample>): (kept: seq<Sample>)
    ensures |kept| <= |rows|
  {
    KeptPrefix(rows, |rows|)
  }

  /** The surviving prefix ends at the time of the last row it has looked at. */
  lemma {:induction false} KeptPrefixEndsAtLastTime(rows: seq<Sample>, n: nat)
    requires 0 < n <= |rows|
    ensures KeptPrefix(rows, n)[|KeptPrefix(rows, n)| - 1].time == rows[n - 1].time
  {
    if n > 1 && !Kept(rows, n - 1) {
      KeptPrefixEndsAtLastTime(rows, n - 1);
    }
  }

  /** The surviving prefix starts with the first row. */
  lemma {:induction false} KeptPrefixStartsWithFirst(rows: seq<Sample>, n: nat)
    requires 0 < n <= |rows|
    ensures KeptPrefix(rows, n)[0] == rows[0]
  {
    if n > 1 {
      KeptPrefixStartsWithFirst(rows, n - 1);
    }
  }

  /** No two neighbouring surviving rows share a time. */
  lemma {:induction false} KeptPrefixDistinct(rows: seq<Sample>, n: nat)
    requires n <= |rows|
    ensures DistinctNeighbourTimes(KeptPrefix(rows, n))
  {
    if n > 0 {
      KeptPrefixDistinct(rows, n - 1);
      if Kept(rows, n - 1) && n > 1 {
        KeptPrefixEndsAtLastTime(rows, n - 1);
      }
    }
  }

  /** The times present before and after the removal. */
  function TimeSet(rows: seq<Sample>): set<real>
  {
    set i | 0 <= i < |rows| :: rows[i].time
  }

  /** The surviving prefix has exactly the times of the rows it has looked at. */
  lemma {:induction false} KeptPrefixTimes(rows: seq<Sample>, n: nat)
    requires n <= |rows|
    ensures TimeSet(KeptPrefix(rows, n)) == TimeSet(rows[..n])
  {
    if n > 0 {
      KeptPrefixTimes(rows, n - 1);
      var before, after := KeptPrefix(rows, n - 1), KeptPrefix(rows, n);
      assert rows[..n] == rows[..n - 1] + [rows[n - 1]];
      assert TimeSet(rows[..n]) == TimeSet(rows[..n - 1]) + {rows[n - 1].time} by {
        forall t | t in TimeSet(rows[..n])
          ensures t in TimeSet(rows[..n - 1]) + {rows[n - 1].time}
        {
          var i :| 0 <= i < n && rows[..n][i].time == t;
          if i < n - 1 {
            assert rows[..n - 1][i].time == t;
          }
        }
        forall t | t in TimeSet(rows[..n - 1])
          ensures t in TimeSet(rows[..n])
        {
          var i :| 0 <= i < n - 1 && rows[..n - 1][i].time == t;
          assert rows[..n][i].time == t;
        }
        assert rows[..n][n - 1].time == rows[n - 1].time;
      }
      if Kept(rows, n - 1) {
        assert after == before + [rows[n - 1]];
        assert TimeSet(after) == TimeSet(before) + {rows[n - 1].time} by {
          forall t | t in TimeSet(after)
            ensures t in TimeSet(before) + {rows[n - 1].time}
          {
            var i :| 0 <= i < |after| && after[i].time == t;
            if i < |before| {
              assert before[i].time == t;
            }
          }
          forall t | t in TimeSet(before)
            ensures t in TimeSet(after)
          {
            var i :| 0 <= i < |before| && before[i].time == t;
            assert after[i].time == t;
          }
          assert after[|before|].time == rows[n - 1].time;
        }
      } else {
        assert after == before;
        KeptPrefixEndsAtLastTime(rows, n - 1);
        assert before[|before| - 1].time == rows[n - 1].time;
        assert rows[n - 1].time in TimeSet(before);
      }
    }
  }

  /**
   * Line 22 of clean_data: the first row is always kept, the last time is
   * still present, no time is lost or invented, and no two neighbouring
   * rows share a time afterwards, so every later `delta_t` is nonzero.
   */
  lemma DropRepeatedTimesProperties(rows: seq<Sample>)
    requires |rows| > 0
    ensures |DropRepeatedTimes(rows)| > 0
    ensures DropRepeatedTimes(rows)[0] == rows[0]
    ensures DropRepeatedTimes(rows)[|DropRepeatedTimes(rows)| - 1].time == rows[|rows| - 1].time
    ensures TimeSet(DropRepeatedTimes(rows)) == TimeSet(rows)
    ensures DistinctNeighbourTimes(DropRepeatedTimes(rows))
  {
    KeptPrefixStartsWithFirst(rows, |rows|);
    KeptPrefixEndsAtLastTime(rows, |rows|);
    KeptPrefixTimes(rows, |rows|);
    assert rows[..|rows|] == rows;
    KeptPrefixDistinct(rows, |rows|);
  }

  /** Rows whose times already differ from their predecessors' are all kept. */
  lemma {:induction false} DistinctRowsAllKept(rows: seq<Sample>, n: nat)
    requires n <= |rows| && DistinctNeighbourTimes(rows)
    ensures KeptPrefix(rows, n) == rows[..n]
  {
    if n > 0 {
      DistinctRowsAllKept(rows, n - 1);
      assert rows[..n] == rows[..n - 1] + [rows[n - 1]];
    }
  }

  /** Cleaning twice removes nothing more than cleaning once. */
  lemma DropRepeatedTimesIdempotent(rows: seq<Sample>)
    ensures DropRepeatedTimes(DropRepeatedTimes(rows)) == DropRepeatedTimes(rows)
  {
    var once := DropRepeatedTimes(rows);
    if |rows| > 0 {
      DropRepeatedTimesProperties(rows);
    } else {
      assert once == [];
    }
    DistinctRowsAllKept(once, |once|);
    assert once[..|once|] == once;
  }

  // ---------------------------------------------------------- the flight

  /** `w = k * w` on a fresh array: every entry scaled by one factor. */
  method ScaleInPlace(w: array<real>, k: real)
    modifies w
    ensures w[..] == Scaled(k, old(w[..]))
  {
    forall i | 0 <= i < w.Length {
      w[i] := k * w[i];
    }
    assert forall i :: 0 <= i < w.Length ==> w[i] == Scaled(k, old(w[..]))[i];
  }

  /** `w[w < 0] *= recovery`: the masked in-place product. */
  method RecoverInPlace(w: array<real>, recovery: real)
    modifies w
    ensures w[..] == Recovered(old(w[..]), recovery)
  {
    forall i | 0 <= i < w.Length && w[i] < 0.0 {
      w[i] := w[i] * recovery;
    }
    assert forall i :: 0 <= i < w.Length ==> w[i] == Recovered(old(w[..]), recovery)[i];
  }

  /** A recorded flight: the tracklog table, one Sample per row. */
  class Flight {
    var data: seq<Sample>

    constructor (data: seq<Sample>)
      ensures this.data == data
    {
      this.data := data;
    }

    /** `delta_t`. */
    method DeltaT() returns (d: array<real>)
      requires |data| > 0
      ensures fresh(d)
      ensures d[..] == Diff(Times(data))
    {
      d := BackwardDifference(Times(data));
    }

    /** `delta_altitude`. */
    method DeltaAltitude() returns (d: array<real>)
      requires |data| > 0
      ensures fresh(d)
      ensures d[..] == Diff(Altitude(data))
    {
      d := BackwardDifference(Altitude(data));
    }

    /** `delta_v`. */
    method DeltaV() returns (d: array<real>)
      requires |data| > 0
      ensures fresh(d)
      ensures d[..] == Diff(Velocity(data))
    {
      d := BackwardDifference(Velocity(data));
    }

    /**
     * `_delta_t_non_singular`: `delta_t` with entry 0 overwritten by 1.
     * The array written is the fresh one `delta_t` returns, so the flight's
     * data stays as it was.
     */
    method DeltaTNonSingular() returns (d: array<real>)
      requires |data| > 0
      ensures fresh(d)
      ensures d[..] == NonSingular(Diff(Times(data)))
    {
      d := DeltaT();
      d[0] := 1.0;
    }

    /** `kinetic_work`: the squared-velocity difference, entry 0 zeroed, times half the mass. */
    method KineticWorkTable(mass: real) returns (w: array<real>)
      requires |data| > 0
      ensures fresh(w)
      ensures w[..] == KineticWork(data, mass)
    {
      w := BackwardDifference(Squares(Velocity(data)));
      ScaleInPlace(w, 0.5 * mass);
    }

    /**
     * `work_addition`: potential, kinetic and drag work added up, then the
     * negative entries scaled in place by the recovery share.
     */
    method WorkAddition(mass: real, rho: seq<real>, distance: seq<real>, area: real, cd: real,
                        recovery: real)
      returns (w: array<real>)
      requires |data| > 0 && |rho| == |distance| == |data|
      ensures fresh(w)
      ensures w[..] == Recovered(WorkRequired(data, mass, rho, distance, area, cd), recovery)
    {
      var k := KineticWorkTable(mass);
      var p := PotentialWork(data, mass);
      var dw := DragWork(data, rho, distance, area, cd);
      w := new real[|data|];
      forall i | 0 <= i < w.Length {
        w[i] := p[i] + k[i] + dw[i];
      }
      assert w[..] == WorkRequired(data, mass, rho, distance, area, cd);
      RecoverInPlace(w, recovery);
    }

    /** `work_rate_addition`: the recovered work over the non-singular time steps. */
    method WorkRateAddition(mass: real, rho: seq<real>, distance: seq<real>, area: real, cd: real,
                            recovery: real)
      returns (r: array<real>)
      requires |data| > 0 && |rho| == |distance| == |data| && DistinctNeighbourTimes(data)
      ensures fresh(r)
      ensures r[..] == Rate(Recovered(WorkRequired(data, mass, rho, distance, area, cd), recovery), Steps(data))
    {
      var w := WorkAddition(mass, rho, distance, area, cd, recovery);
      var dtn := DeltaTNonSingular();
      r := new real[w.Length];
      forall i | 0 <= i < r.Length {
        r[i] := w[i] / dtn[i];
      }
    }

    /**
     * Line 22 of clean_data: `delta_t` is taken on the data as it is, and
     * every row i >= 1 whose entry is zero is deleted at once.
     */
    method CleanRepeatedTimes()
      requires |data| > 0
      modifies this
      ensures data == DropRepeatedTimes(old(data))
    {
      var dt := DeltaT();
      var kept: seq<Sample> := [];
      var i := 0;
      while i < |data|
        invariant 0 <= i <= |data|
        invariant kept == KeptPrefix(data, i)
      {
        if i == 0 || dt[i] != 0.0 {
          kept := kept + [data[i]];
        }
        i := i + 1;
      }
      data := kept;
    }
  }
}
