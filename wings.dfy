/**
 * The wing of airfoils/airplane.py: the planform built by the constructor
 * (spanwise stations, dihedral break, upper and lower envelopes, area) and
 * the cantilever bending integration that turns spanwise loads into a
 * five-row table of deflection, slope, moment, shear and load.
 *
 * Angles enter through their tangents (tan(theta * pi / 180) is a
 * parameter), and pi itself is a parameter where the source multiplies by it.
 */
module Wings {
  import opened Wrappers
  import opened Series
  import RealOrder

  /** Why the constructor cannot produce a wing. */
  datatype WingError =
    | NegativeSampleCount  // np.linspace refuses a negative number of samples
    | EmptyArgmax          // np.argmax over zero stations raises

  /**
   * A wing as its constructor leaves it; nothing changes it afterwards.
   * tan1, tan2, tan3 are the tangents of theta1, theta2, theta3.
   */
  datatype Wing = Wing(
    span: real, rootChord: real, breakStation: real,
    tan1: real, tan2: real, tan3: real,
    resolution: nat,
    stations: seq<real>,
    breakIndex: nat,
    upper: seq<real>,
    lower: seq<real>,
    area: real,
    aspectRatio: Option<real>)

  // ---------------------------------------------------------------- planform

  /**
   * np.linspace(0, stop, num): num stations, the i-th at i times the step
   * stop / (num - 1); a single station sits at 0.
   */
  function Linspace(stop: real, num: nat): (xs: seq<real>)
    ensures |xs| == num
  {
    seq(num, i requires 0 <= i < num => if num > 1 then i as real * (stop / (num - 1) as real) else 0.0)
  }

  /** Station i sits at i station steps from the root. */
  lemma StationAt(stop: real, num: nat, i: nat)
    requires i < num
    ensures num >= 2 ==> Linspace(stop, num)[i] == i as real * (stop / (num - 1) as real)
    ensures num < 2 ==> Linspace(stop, num)[i] == 0.0
  {
  }

  /** Neighbouring stations are one step stop / (num - 1) apart. */
  lemma StationStep(stop: real, num: nat, i: nat)
    requires 1 <= i < num
    ensures Linspace(stop, num)[i] - Linspace(stop, num)[i - 1] == stop / (num - 1) as real
  {
    var step := stop / (num - 1) as real;
    StationAt(stop, num, i);
    StationAt(stop, num, i - 1);
    assert i as real * step == (i - 1) as real * step + step;
  }

  /** The stations start at the root and end at the tip, evenly spaced in between. */
  lemma StationsEvenlySpaced(stop: real, num: nat)
    ensures num >= 1 ==> Linspace(stop, num)[0] == 0.0
    ensures num >= 2 ==> Linspace(stop, num)[num - 1] == stop
    ensures forall i :: 1 <= i < num ==>
      Linspace(stop, num)[i] - Linspace(stop, num)[i - 1] == stop / (num - 1) as real
  {
    if num >= 1 {
      StationAt(stop, num, 0);
    }
    if num >= 2 {
      StationAt(stop, num, num - 1);
      assert (num - 1) as real * (stop / (num - 1) as real) == stop;
    }
    forall i | 1 <= i < num
      ensures Linspace(stop, num)[i] - Linspace(stop, num)[i - 1] == stop / (num - 1) as real
    {
      StationStep(stop, num, i);
    }
  }

  /** Over a positive span the stations strictly increase from root to tip. */
  lemma StationsIncrease(stop: real, num: nat)
    requires stop > 0.0
    ensures forall i, j :: 0 <= i < j < num ==> Linspace(stop, num)[i] < Linspace(stop, num)[j]
  {
    forall i, j | 0 <= i < j < num
      ensures Linspace(stop, num)[i] < Linspace(stop, num)[j]
    {
      var step := stop / (num - 1) as real;
      StationAt(stop, num, i);
      StationAt(stop, num, j);
      assert step > 0.0;
      assert j as real * step - i as real * step == (j - i) as real * step;
      assert (j - i) as real * step > 0.0;
    }
  }

  /**
   * The first index of the search range [from, |xs|) whose station exceeds
   * r, or |xs| when there is none.
   */
  function FirstAboveFrom(xs: seq<real>, r: real, from: nat): (k: nat)
    requires from <= |xs|
    ensures from <= k <= |xs|
    ensures forall i :: from <= i < k ==> xs[i] <= r
    ensures k < |xs| ==> xs[k] > r
    decreases |xs| - from
  {
    if from == |xs| then |xs|
    else if xs[from] > r then from
    else FirstAboveFrom(xs, r, from + 1)
  }

  /**
   * np.argmax(xs > r): the first station beyond r, or 0 when the mask is
   * all false; every station before it is at most r.
   */
  function ArgmaxAbove(xs: seq<real>, r: real): (k: nat)
    requires |xs| > 0
    ensures k < |xs|
    ensures forall i :: 0 <= i < k ==> xs[i] <= r
    ensures (exists i :: 0 <= i < |xs| && xs[i] > r) ==> xs[k] > r
    ensures (forall i :: 0 <= i < |xs| ==> xs[i] <= r) ==> k == 0
  {
    var k := FirstAboveFrom(xs, r, 0);
    if k == |xs| then 0 else k
  }

  /** The upper envelope -tan(theta1) * x at every station: a straight line through the root. */
  function Upper(xs: seq<real>, tan1: real): (u: seq<real>)
    ensures |u| == |xs|
  {
    seq(|xs|, i requires 0 <= i < |xs| => -1.0 * tan1 * xs[i])
  }

  /** The lower envelope inboard of the break: slope -tan3, offset by the root chord. */
  function InboardLower(x: real, tan3: real, c0: real): real
  {
    -tan3 * x - c0
  }

  /**
   * The lower envelope outboard of the break: the inboard law bent at x = r
   * from slope -tan3 to slope -tan2, so the two laws meet at the break.
   */
  function OutboardLower(x: real, r: real, tan2: real, tan3: real, c0: real): (y: real)
    ensures y == InboardLower(x, tan3, c0) - (tan2 - tan3) * (x - r)
    ensures x == r ==> y == InboardLower(r, tan3, c0)
  {
    -tan3 * r - tan2 * (x - r) - c0
  }

  /** upr - lwr: the local chord at every station. */
  function Chords(upper: seq<real>, lower: seq<real>): (c: seq<real>)
    requires |upper| == |lower|
    ensures |c| == |upper|
  {
    seq(|upper|, i requires 0 <= i < |upper| => upper[i] - lower[i])
  }

  /** np.trapz(y, xs): trapezoid rule over consecutive stations. */
  function Trapezoid(y: seq<real>, xs: seq<real>): (area: real)
    requires |y| == |xs|
    ensures |xs| <= 1 ==> area == 0.0
  {
    if |xs| <= 1 then 0.0
    else
      var n := |xs| - 1;
      Trapezoid(y[..n], xs[..n]) + (xs[n] - xs[n - 1]) * (y[n] + y[n - 1]) / 2.0
  }

  predicate NonnegativeRow(y: seq<real>)
  {
    forall i :: 0 <= i < |y| ==> 0.0 <= y[i]
  }

  predicate Ascending(xs: seq<real>)
  {
    forall i :: 0 < i < |xs| ==> xs[i - 1] <= xs[i]
  }

  /** Over ascending stations, a non-negative row encloses a non-negative area. */
  lemma {:induction false} TrapezoidNonnegative(y: seq<real>, xs: seq<real>)
    requires |y| == |xs|
    requires NonnegativeRow(y) && Ascending(xs)
    ensures 0.0 <= Trapezoid(y, xs)
  {
    if |xs| > 1 {
      var n := |xs| - 1;
      var width, sum := xs[n] - xs[n - 1], y[n] + y[n - 1];
      assert 0.0 <= width && 0.0 <= sum;
      assert NonnegativeRow(y[..n]) && Ascending(xs[..n]);
      TrapezoidNonnegative(y[..n], xs[..n]);
      RealOrder.MulNonnegative(width, sum);
      assert Trapezoid(y, xs) == Trapezoid(y[..n], xs[..n]) + width * sum / 2.0;
    }
  }

  /** The trapezoid rule is exact for a constant: height times covered length. */
  lemma {:induction false} TrapezoidOfConstant(y: seq<real>, xs: seq<real>, h: real)
    requires |y| == |xs| > 0
    requires forall i :: 0 <= i < |y| ==> y[i] == h
    ensures Trapezoid(y, xs) == h * (xs[|xs| - 1] - xs[0])
  {
    if |xs| > 1 {
      var n := |xs| - 1;
      var a, b, c, sum := xs[0], xs[n - 1], xs[n], y[n] + y[n - 1];
      var before := Trapezoid(y[..n], xs[..n]);
      TrapezoidOfConstant(y[..n], xs[..n], h);
      assert before == h * (b - a) by {
        assert xs[..n][n - 1] == b && xs[..n][0] == a;
      }
      assert Trapezoid(y, xs) == before + (c - b) * sum / 2.0;
      ConstantStrip(a, b, c, h, sum);
    }
  }

  /** One more strip of a constant row extends the covered length. */
  lemma ConstantStrip(a: real, b: real, c: real, h: real, sum: real)
    requires sum == h + h
    ensures h * (b - a) + (c - b) * sum / 2.0 == h * (c - a)
  {
  }

  /**
   * Wing.__init__: the stations, the break index, the upper envelope and
   * the lower envelope written slice by slice into a zeroed array, then the
   * planform area and the aspect ratio (absent when the area is zero, where
   * numpy produces a non-finite value).
   */
  method NewWing(span: real, c0: real, r: real, tan1: real, tan2: real, tan3: real, resolution: int)
    returns (res: Result<Wing, WingError>)
    ensures resolution < 0 <==> res == Failure(NegativeSampleCount)
    ensures resolution == 0 <==> res == Failure(EmptyArgmax)
    ensures resolution > 0 ==> res.Success?
    ensures res.Success? ==>
      var w := res.value;
      w.span == span && w.rootChord == c0 && w.breakStation == r &&
      w.tan1 == tan1 && w.tan2 == tan2 && w.tan3 == tan3 &&
      w.resolution == resolution &&
      w.stations == Linspace(span, w.resolution) &&
      w.breakIndex == ArgmaxAbove(w.stations, r) &&
      |w.upper| == |w.lower| == w.resolution &&
      w.upper == Upper(w.stations, tan1) &&
      (forall i :: 0 <= i < w.breakIndex ==> w.lower[i] == InboardLower(w.stations[i], tan3, c0)) &&
      (forall i :: w.breakIndex <= i < w.resolution ==>
         w.lower[i] == OutboardLower(w.stations[i], r, tan2, tan3, c0)) &&
      w.area == Trapezoid(Chords(w.upper, w.lower), w.stations) &&
      w.aspectRatio == AspectRatio(span, w.area)
    ensures res.Success? && res.value.breakIndex > 0 ==>
      res.value.upper[0] == 0.0 && res.value.upper[0] - res.value.lower[0] == c0
  {
    if resolution < 0 {
      return Failure(NegativeSampleCount);
    }
    if resolution == 0 {
      return Failure(EmptyArgmax);
    }
    var n := resolution as nat;
    var xs := Linspace(span, n);
    var k := ArgmaxAbove(xs, r);
    var upr := Upper(xs, tan1);
    var lwr := new real[n](_ => 0.0);
    forall i | 0 <= i < k {
      lwr[i] := InboardLower(xs[i], tan3, c0);
    }
    forall i | k <= i < n {
      lwr[i] := OutboardLower(xs[i], r, tan2, tan3, c0);
    }
    var lower := lwr[..];
    StationsEvenlySpaced(span, n);
    assert upr[0] == -1.0 * tan1 * 0.0;
    var s := Trapezoid(Chords(upr, lower), xs);
    res := Success(Wing(span, c0, r, tan1, tan2, tan3, n, xs, k, upr, lower, s, AspectRatio(span, s)));
  }

  /**
   * span^2 / area, which numpy leaves non-finite for a zero area: absent
   * exactly then, and otherwise the ratio whose product with the area is
   * the squared span.
   */
  function AspectRatio(span: real, area: real): (ar: Option<real>)
    ensures ar.None? <==> area == 0.0
    ensures ar.Some? ==> ar.value * area == span * span
  {
    if area == 0.0 then None else Some(span * span / area)
  }

  /**
   * Across the break the lower envelope jumps by what a curve with a kink
   * at r does over one station step: the inboard slope over the part of the
   * step before r and the outboard slope over the part after it.
   */
  lemma LowerEnvelopeAcrossBreak(w: Wing)
    requires w.resolution >= 2 && 0 < w.breakIndex < w.resolution
    requires w.stations == Linspace(w.span, w.resolution)
    requires w.breakIndex == ArgmaxAbove(w.stations, w.breakStation)
    requires |w.lower| == w.resolution
    requires forall i :: 0 <= i < w.breakIndex ==>
      w.lower[i] == InboardLower(w.stations[i], w.tan3, w.rootChord)
    requires forall i :: w.breakIndex <= i < w.resolution ==>
      w.lower[i] == OutboardLower(w.stations[i], w.breakStation, w.tan2, w.tan3, w.rootChord)
    ensures
      var k := w.breakIndex;
      var before := w.breakStation - w.stations[k - 1];
      var after := w.stations[k] - w.breakStation;
      0.0 <= before && 0.0 < after &&
      before + after == w.span / (w.resolution - 1) as real &&
      w.lower[k] - w.lower[k - 1] == -w.tan3 * before - w.tan2 * after
  {
    var k := w.breakIndex;
    var xs := w.stations;
    StationStep(w.span, w.resolution, k);
    assert w.lower[k - 1] == InboardLower(xs[k - 1], w.tan3, w.rootChord);
    assert w.lower[k] == OutboardLower(xs[k], w.breakStation, w.tan2, w.tan3, w.rootChord);
    KinkJump(xs[k - 1], xs[k], w.breakStation, w.tan2, w.tan3, w.rootChord);
  }

  /** Going from an inboard point xa to an outboard point xb, the lower envelope changes slope at r. */
  lemma KinkJump(xa: real, xb: real, r: real, tan2: real, tan3: real, c0: real)
    ensures OutboardLower(xb, r, tan2, tan3, c0) - InboardLower(xa, tan3, c0)
      == -tan3 * (r - xa) - tan2 * (xb - r)
  {
    assert -tan3 * r - -tan3 * xa == -tan3 * (r - xa);
  }

  // ------------------------------------------------------- bending integration

  /** Second moment of area of a thin-walled box: the outer b x h section minus the (b - t) x (h - t) void. */
  function SecondMoment(b: real, h: real, t: real): (i: real)
    ensures t == 0.0 ==> i == 0.0
    ensures t == h ==> i == b * h * h * h / 12.0
  {
    b * h * h * h / 12.0 - (b - t) * (h - t) * (h - t) * (h - t) / 12.0
  }

  /** I_yy at every station. */
  function SectionMoments(b: seq<real>, h: seq<real>, t: seq<real>): (iyy: seq<real>)
    requires |b| == |h| == |t|
    ensures |iyy| == |b|
  {
    seq(|b|, i requires 0 <= i < |b| => SecondMoment(b[i], h[i], t[i]))
  }

  /** The distributed load row: weight and lift averaged station by station. */
  function Load(weight: seq<real>, lift: seq<real>): (q: seq<real>)
    requires |weight| == |lift|
    ensures |q| == |weight|
    ensures forall i :: 0 <= i < |q| ==> q[i] + q[i] == weight[i] + lift[i]
  {
    seq(|weight|, i requires 0 <= i < |weight| => (weight[i] + lift[i]) / 2.0)
  }

  /**
   * np.cumsum(s) * dx: a left-Riemann running integral from the root; its
   * first entry is s[0] * dx and each later entry adds s[i] * dx.
   */
  function Integrate(s: seq<real>, dx: real): (row: seq<real>)
    ensures |row| == |s|
    ensures |s| > 0 ==> row[0] == s[0] * dx
    ensures forall i {:trigger Delta(row, i)} :: 1 <= i < |s| ==> Delta(row, i) == s[i] * dx
  {
    var row := seq(|s|, i requires 0 <= i < |s| => RunningSum(s, i) * dx);
    assert forall i {:trigger Delta(row, i)} :: 1 <= i < |s| ==> Delta(row, i) == s[i] * dx by {
      forall i | 1 <= i < |s| ensures Delta(row, i) == s[i] * dx {
        assert row[i] - row[i - 1] == (RunningSum(s, i) - RunningSum(s, i - 1)) * dx;
      }
    }
    row
  }

  /**
   * `row -= row[-1] + c`: a constant shift that leaves the last (tip) entry
   * at -c and keeps every difference between entries.
   */
  function AnchorAtTip(row: seq<real>, c: real): (r: seq<real>)
    requires |row| > 0
    ensures |r| == |row|
    ensures r[|r| - 1] == -c
    ensures forall i {:trigger Delta(r, i)} :: 1 <= i < |r| ==> Delta(r, i) == Delta(row, i)
  {
    var k := row[|row| - 1] + c;
    seq(|row|, i requires 0 <= i < |row| => row[i] - k)
  }

  /**
   * `row -= row[0] + c`: a constant shift that leaves the first (root) entry
   * at -c and keeps every difference between entries.
   */
  function AnchorAtRoot(row: seq<real>, c: real): (r: seq<real>)
    requires |row| > 0
    ensures |r| == |row|
    ensures r[0] == -c
    ensures forall i {:trigger Delta(r, i)} :: 1 <= i < |r| ==> Delta(r, i) == Delta(row, i)
  {
    var k := row[0] + c;
    seq(|row|, i requires 0 <= i < |row| => row[i] - k)
  }

  /** Row 3: shear, integrated from the load and freed at the tip net of the engine's point shear. */
  function Shear(load: seq<real>, dx: real, engineShear: real): (v: seq<real>)
    requires |load| > 0
    ensures |v| == |load|
    ensures v[|v| - 1] == -engineShear
    ensures forall i {:trigger Delta(v, i)} :: 1 <= i < |v| ==> Delta(v, i) == load[i] * dx
  {
    AnchorAtTip(Integrate(load, dx), engineShear)
  }

  /** Row 2: bending moment, integrated from the shear and zero at the free tip. */
  function Moment(shear: seq<real>, dx: real): (m: seq<real>)
    requires |shear| > 0
    ensures |m| == |shear|
    ensures m[|m| - 1] == 0.0
    ensures forall i {:trigger Delta(m, i)} :: 1 <= i < |m| ==> Delta(m, i) == shear[i] * dx
  {
    AnchorAtTip(Integrate(shear, dx), 0.0)
  }

  /**
   * Flexural rigidity E * I is nonzero at every station, that is, neither
   * the modulus nor any second moment of area is zero.
   */
  predicate Stiff(youngsModulus: real, iyy: seq<real>)
  {
    youngsModulus != 0.0 && forall i :: 0 <= i < |iyy| ==> iyy[i] != 0.0
  }

  /** M / (E * I) station by station. */
  function Curvature(moment: seq<real>, youngsModulus: real, iyy: seq<real>): (k: seq<real>)
    requires |moment| == |iyy| && Stiff(youngsModulus, iyy)
    ensures |k| == |moment|
  {
    seq(|moment|, i requires 0 <= i < |moment| => moment[i] / (youngsModulus * iyy[i]))
  }

  /**
   * Row 1: slope, integrated from the curvature and clamped at the root to
   * minus the initial angle in radians (the sign the source subtracts with).
   */
  function Slope(moment: seq<real>, youngsModulus: real, iyy: seq<real>, dx: real,
                 initialAngle: real, pi: real): (s: seq<real>)
    requires |moment| == |iyy| > 0 && Stiff(youngsModulus, iyy)
    ensures |s| == |moment|
    ensures s[0] == -(initialAngle * pi / 180.0)
    ensures forall i {:trigger Delta(s, i)} :: 1 <= i < |s| ==>
      Delta(s, i) == Curvature(moment, youngsModulus, iyy)[i] * dx
  {
    AnchorAtRoot(Integrate(Curvature(moment, youngsModulus, iyy), dx), initialAngle * pi / 180.0)
  }

  /** Row 0: deflection, integrated from the slope and clamped at the root to zero. */
  function Deflection(slope: seq<real>, dx: real): (w: seq<real>)
    requires |slope| > 0
    ensures |w| == |slope|
    ensures w[0] == 0.0
    ensures forall i {:trigger Delta(w, i)} :: 1 <= i < |w| ==> Delta(w, i) == slope[i] * dx
  {
    AnchorAtRoot(Integrate(slope, dx), 0.0)
  }

  /** The integration step the source uses: span over the number of stations. */
  function Dx(w: Wing): real
    requires w.resolution > 0
  {
    w.span / w.resolution as real
  }

  /**
   * The deflection state, rows indexed by derivative order: deflection,
   * slope, moment, shear, load. The cantilever conditions hold exactly:
   * free tip for shear (net of the engine shear) and moment, clamped root
   * for slope and deflection.
   */
  function DeflectionState(load: seq<real>, dx: real, engineShear: real,
                           youngsModulus: real, iyy: seq<real>, initialAngle: real, pi: real)
    : (rows: seq<seq<real>>)
    requires |load| == |iyy| > 0 && Stiff(youngsModulus, iyy)
    ensures |rows| == 5
    ensures forall k :: 0 <= k < 5 ==> |rows[k]| == |load|
    ensures rows[4] == load
    ensures rows[3][|load| - 1] == -engineShear
    ensures rows[2][|load| - 1] == 0.0
    ensures rows[1][0] == -(initialAngle * pi / 180.0)
    ensures rows[0][0] == 0.0
  {
    var v := Shear(load, dx, engineShear);
    var m := Moment(v, dx);
    var s := Slope(m, youngsModulus, iyy, dx, initialAngle, pi);
    var w := Deflection(s, dx);
    var rows := [w, s, m, v, load];
    assert rows[0] == w && rows[1] == s && rows[2] == m && rows[3] == v && rows[4] == load;
    rows
  }

  /**
   * Between neighbouring stations each row of the deflection state grows
   * by the row below it times dx (the curvature M / (E * I) for the slope):
   * the anchoring shifts leave every increment of the running integrals intact.
   */
  lemma DeflectionStateIncrements(load: seq<real>, dx: real, engineShear: real,
                                  youngsModulus: real, iyy: seq<real>, initialAngle: real, pi: real, i: nat)
    requires |load| == |iyy| > 0 && Stiff(youngsModulus, iyy)
    requires 1 <= i < |load|
    ensures
      var rows := DeflectionState(load, dx, engineShear, youngsModulus, iyy, initialAngle, pi);
      Delta(rows[3], i) == rows[4][i] * dx &&
      Delta(rows[2], i) == rows[3][i] * dx &&
      Delta(rows[1], i) == Curvature(rows[2], youngsModulus, iyy)[i] * dx &&
      Delta(rows[0], i) == rows[1][i] * dx
  {
    var rows := DeflectionState(load, dx, engineShear, youngsModulus, iyy, initialAngle, pi);
    DeflectionStateRows(load, dx, engineShear, youngsModulus, iyy, initialAngle, pi);
    ShearIncrement(rows[4], dx, engineShear, i);
    MomentIncrement(rows[3], dx, i);
    SlopeIncrement(rows[2], youngsModulus, iyy, dx, initialAngle, pi, i);
    DeflectionIncrement(rows[1], dx, i);
  }

  /** Each row of the deflection state is the anchored integral of the row below it. */
  lemma DeflectionStateRows(load: seq<real>, dx: real, engineShear: real,
                            youngsModulus: real, iyy: seq<real>, initialAngle: real, pi: real)
    requires |load| == |iyy| > 0 && Stiff(youngsModulus, iyy)
    ensures
      var rows := DeflectionState(load, dx, engineShear, youngsModulus, iyy, initialAngle, pi);
      rows[4] == load &&
      rows[3] == Shear(rows[4], dx, engineShear) &&
      rows[2] == Moment(rows[3], dx) &&
      rows[1] == Slope(rows[2], youngsModulus, iyy, dx, initialAngle, pi) &&
      rows[0] == Deflection(rows[1], dx)
  {
  }

  lemma ShearIncrement(load: seq<real>, dx: real, engineShear: real, i: nat)
    requires 1 <= i < |load|
    ensures Delta(Shear(load, dx, engineShear), i) == load[i] * dx
  {
  }

  lemma MomentIncrement(shear: seq<real>, dx: real, i: nat)
    requires 1 <= i < |shear|
    ensures Delta(Moment(shear, dx), i) == shear[i] * dx
  {
  }

  lemma SlopeIncrement(moment: seq<real>, youngsModulus: real, iyy: seq<real>, dx: real,
                       initialAngle: real, pi: real, i: nat)
    requires |moment| == |iyy| && Stiff(youngsModulus, iyy)
    requires 1 <= i < |moment|
    ensures Delta(Slope(moment, youngsModulus, iyy, dx, initialAngle, pi), i)
      == Curvature(moment, youngsModulus, iyy)[i] * dx
  {
  }

  lemma DeflectionIncrement(slope: seq<real>, dx: real, i: nat)
    requires 1 <= i < |slope|
    ensures Delta(Deflection(slope, dx), i) == slope[i] * dx
  {
  }

  /** The row of a table as a sequence. */
  function RowOf(d: array2<real>, r: nat): (s: seq<real>)
    requires r < d.Length0
    reads d
    ensures |s| == d.Length1
    ensures forall i :: 0 <= i < d.Length1 ==> s[i] == d[r, i]
  {
    seq(d.Length1, i requires 0 <= i < d.Length1 reads d => d[r, i])
  }

  /** `d[row, :] = np.cumsum(src)`, accumulated from the root; other rows untouched. */
  method CumSumRow(d: array2<real>, row: nat, src: seq<real>)
    requires row < d.Length0 && |src| == d.Length1
    modifies d
    ensures forall i :: 0 <= i < d.Length1 ==> d[row, i] == RunningSum(src, i)
    ensures forall r, i :: 0 <= r < d.Length0 && r != row && 0 <= i < d.Length1 ==> d[r, i] == old(d[r, i])
  {
    var acc := 0.0;
    var i := 0;
    while i < d.Length1
      invariant 0 <= i <= d.Length1
      invariant acc == if i == 0 then 0.0 else RunningSum(src, i - 1)
      invariant forall j :: 0 <= j < i ==> d[row, j] == RunningSum(src, j)
      invariant forall r, j :: 0 <= r < d.Length0 && r != row && 0 <= j < d.Length1 ==> d[r, j] == old(d[r, j])
    {
      acc := acc + src[i];
      d[row, i] := acc;
      i := i + 1;
    }
  }

  /** `d[row, :] *= k`: one row scaled by a scalar; other rows untouched. */
  method ScaleRow(d: array2<real>, row: nat, k: real)
    requires row < d.Length0
    modifies d
    ensures forall i :: 0 <= i < d.Length1 ==> d[row, i] == old(d[row, i]) * k
    ensures forall r, i :: 0 <= r < d.Length0 && r != row && 0 <= i < d.Length1 ==> d[r, i] == old(d[r, i])
  {
    forall i | 0 <= i < d.Length1 {
      d[row, i] := d[row, i] * k;
    }
  }

  /** `d[row, :] = np.cumsum(src) * dx`: the running sum, then the step. */
  method AccumulateRow(d: array2<real>, row: nat, src: seq<real>, dx: real)
    requires row < d.Length0 && |src| == d.Length1
    modifies d
    ensures forall i :: 0 <= i < d.Length1 ==> d[row, i] == Integrate(src, dx)[i]
    ensures forall r, i :: 0 <= r < d.Length0 && r != row && 0 <= i < d.Length1 ==> d[r, i] == old(d[r, i])
  {
    CumSumRow(d, row, src);
    ScaleRow(d, row, dx);
  }

  /** `d[row, :] -= k`: one row moves by a scalar; other rows untouched. */
  method ShiftRow(d: array2<real>, row: nat, k: real)
    requires row < d.Length0
    modifies d
    ensures forall i :: 0 <= i < d.Length1 ==> d[row, i] == old(d[row, i]) - k
    ensures forall r, i :: 0 <= r < d.Length0 && r != row && 0 <= i < d.Length1 ==> d[r, i] == old(d[r, i])
  {
    forall i | 0 <= i < d.Length1 {
      d[row, i] := d[row, i] - k;
    }
  }

  /** Row r of the table holds s entry by entry. */
  predicate RowIs(d: array2<real>, r: nat, s: seq<real>)
    requires r < d.Length0
    reads d
  {
    |s| == d.Length1 && forall i :: 0 <= i < d.Length1 ==> d[r, i] == s[i]
  }

  /** `d[row] = np.cumsum(src) * dx; d[row] -= d[row, -1] + c`: integrated and anchored at the tip. */
  method IntegrateFromTip(d: array2<real>, row: nat, src: seq<real>, dx: real, c: real)
    requires row < d.Length0 && |src| == d.Length1 > 0
    modifies d
    ensures RowIs(d, row, AnchorAtTip(Integrate(src, dx), c))
    ensures forall r, i :: 0 <= r < d.Length0 && r != row && 0 <= i < d.Length1 ==> d[r, i] == old(d[r, i])
  {
    AccumulateRow(d, row, src, dx);
    ShiftRow(d, row, d[row, d.Length1 - 1] + c);
  }

  /** `d[row] = np.cumsum(src) * dx; d[row] -= d[row, 0] + c`: integrated and anchored at the root. */
  method IntegrateFromRoot(d: array2<real>, row: nat, src: seq<real>, dx: real, c: real)
    requires row < d.Length0 && |src| == d.Length1 > 0
    modifies d
    ensures RowIs(d, row, AnchorAtRoot(Integrate(src, dx), c))
    ensures forall r, i :: 0 <= r < d.Length0 && r != row && 0 <= i < d.Length1 ==> d[r, i] == old(d[r, i])
  {
    AccumulateRow(d, row, src, dx);
    ShiftRow(d, row, d[row, 0] + c);
  }

  /**
   * Wing.bending_deflection. The load callables are given as their
   * per-station values, the engine shear as its scalar. Returns the second
   * moments of area and a fresh 5 x N table equal to DeflectionState.
   */
  method BendingDeflection(w: Wing, weight: seq<real>, lift: seq<real>, engineShear: real,
                           t: seq<real>, h: seq<real>, b: seq<real>,
                           youngsModulus: real, initialAngle: real, pi: real)
    returns (iyy: seq<real>, d: array2<real>)
    requires w.resolution > 0
    requires |weight| == |lift| == |t| == |h| == |b| == w.resolution
    requires Stiff(youngsModulus, SectionMoments(b, h, t))
    ensures fresh(d)
    ensures iyy == SectionMoments(b, h, t)
    ensures d.Length0 == 5 && d.Length1 == w.resolution
    ensures forall r, i :: 0 <= r < 5 && 0 <= i < w.resolution ==>
      d[r, i] == DeflectionState(Load(weight, lift), Dx(w), engineShear, youngsModulus, iyy, initialAngle, pi)[r][i]
    ensures d[3, w.resolution - 1] == -engineShear && d[2, w.resolution - 1] == 0.0
    ensures d[1, 0] == -(initialAngle * pi / 180.0) && d[0, 0] == 0.0
  {
    var n := w.resolution;
    var dx := w.span / n as real;
    iyy := SectionMoments(b, h, t);
    ghost var load := Load(weight, lift);
    ghost var v := Shear(load, dx, engineShear);
    ghost var m := Moment(v, dx);
    ghost var s := Slope(m, youngsModulus, iyy, dx, initialAngle, pi);
    ghost var defl := Deflection(s, dx);
    ghost var rows := DeflectionState(load, dx, engineShear, youngsModulus, iyy, initialAngle, pi);
    assert rows == [defl, s, m, v, load];

    d := new real[5, n]((_, _) => 0.0);
    forall i | 0 <= i < n {
      d[4, i] := (weight[i] + lift[i]) / 2.0;
    }
    assert RowIs(d, 4, load);
    ShearAndMomentRows(d, load, dx, engineShear);
    assert RowOf(d, 2) == m;
    SlopeAndDeflectionRows(d, dx, youngsModulus, iyy, initialAngle, pi);
    assert RowIs(d, 0, defl) && RowIs(d, 1, s) && RowIs(d, 2, m) && RowIs(d, 3, v) && RowIs(d, 4, load);
    assert dx == Dx(w);
    forall r, i | 0 <= r < 5 && 0 <= i < n
      ensures d[r, i] == rows[r][i]
    {
      if r == 0 { assert RowIs(d, 0, rows[0]); }
      else if r == 1 { assert RowIs(d, 1, rows[1]); }
      else if r == 2 { assert RowIs(d, 2, rows[2]); }
      else if r == 3 { assert RowIs(d, 3, rows[3]); }
      else { assert RowIs(d, 4, rows[4]); }
    }
  }

  /** Rows 3 and 2 of bending_deflection: shear from the load in row 4, moment from the shear. */
  method ShearAndMomentRows(d: array2<real>, ghost load: seq<real>, dx: real, engineShear: real)
    requires d.Length0 == 5 && d.Length1 > 0 && RowIs(d, 4, load)
    modifies d
    ensures RowIs(d, 4, load)
    ensures RowIs(d, 3, Shear(load, dx, engineShear))
    ensures RowIs(d, 2, Moment(Shear(load, dx, engineShear), dx))
    ensures forall r, i :: 0 <= r < 2 && 0 <= i < d.Length1 ==> d[r, i] == old(d[r, i])
  {
    ghost var v := Shear(load, dx, engineShear);
    assert RowOf(d, 4) == load;
    IntegrateFromTip(d, 3, RowOf(d, 4), dx, engineShear);
    assert RowOf(d, 3) == v;
    IntegrateFromTip(d, 2, RowOf(d, 3), dx, 0.0);
    assert RowIs(d, 4, load) && RowIs(d, 3, v);
  }

  /**
   * Rows 1 and 0 of bending_deflection: slope from M / (E * I) of the
   * moment in row 2, deflection from the slope; rows 2 to 4 stay.
   */
  method SlopeAndDeflectionRows(d: array2<real>, dx: real, youngsModulus: real, iyy: seq<real>,
                                initialAngle: real, pi: real)
    requires d.Length0 == 5 && d.Length1 > 0 && |iyy| == d.Length1 && Stiff(youngsModulus, iyy)
    modifies d
    ensures forall r, i :: 2 <= r < 5 && 0 <= i < d.Length1 ==> d[r, i] == old(d[r, i])
    ensures RowIs(d, 1, Slope(old(RowOf(d, 2)), youngsModulus, iyy, dx, initialAngle, pi))
    ensures RowIs(d, 0, Deflection(Slope(old(RowOf(d, 2)), youngsModulus, iyy, dx, initialAngle, pi), dx))
  {
    var moment := RowOf(d, 2);
    ghost var s := Slope(moment, youngsModulus, iyy, dx, initialAngle, pi);
    var k := Curvature(moment, youngsModulus, iyy);
    IntegrateFromRoot(d, 1, k, dx, initialAngle * pi / 180.0);
    assert RowOf(d, 1) == s;
    IntegrateFromRoot(d, 0, RowOf(d, 1), dx, 0.0);
  }

  /**
   * No load, no engine shear and no initial angle: every row of the table
   * is zero (no shear, no moment, no slope, no deflection).
   */
  lemma UnloadedWingStaysStraight(n: nat, dx: real, youngsModulus: real, iyy: seq<real>, pi: real)
    requires n > 0 && |iyy| == n && Stiff(youngsModulus, iyy)
    ensures
      var zeros := seq(n, _ => 0.0);
      var rows := DeflectionState(Load(zeros, zeros), dx, 0.0, youngsModulus, iyy, 0.0, pi);
      forall k, i :: 0 <= k < 5 && 0 <= i < n ==> rows[k][i] == 0.0
  {
    var zeros := seq(n, _ => 0.0);
    var load := Load(zeros, zeros);
    assert AllZero(load);
    var v := Shear(load, dx, 0.0);
    TipAnchoredIntegralOfZeros(load, dx);
    var m := Moment(v, dx);
    TipAnchoredIntegralOfZeros(v, dx);
    CurvatureOfZeros(m, youngsModulus, iyy);
    var s := Slope(m, youngsModulus, iyy, dx, 0.0, pi);
    assert 0.0 * pi / 180.0 == 0.0;
    RootAnchoredIntegralOfZeros(Curvature(m, youngsModulus, iyy), dx);
    RootAnchoredIntegralOfZeros(s, dx);
    var rows := DeflectionState(load, dx, 0.0, youngsModulus, iyy, 0.0, pi);
    assert AllZero(rows[0]) && AllZero(rows[1]) && AllZero(rows[2]) && AllZero(rows[3]) && AllZero(rows[4]);
  }

  predicate AllZero(s: seq<real>)
  {
    forall i :: 0 <= i < |s| ==> s[i] == 0.0
  }

  lemma IntegratedZerosAreZero(s: seq<real>, dx: real)
    requires AllZero(s)
    ensures AllZero(Integrate(s, dx))
  {
    forall i | 0 <= i < |s|
      ensures Integrate(s, dx)[i] == 0.0
    {
      RunningSumOfZeros(s, i);
    }
  }

  lemma TipAnchoredIntegralOfZeros(s: seq<real>, dx: real)
    requires |s| > 0 && AllZero(s)
    ensures AllZero(AnchorAtTip(Integrate(s, dx), 0.0))
  {
    IntegratedZerosAreZero(s, dx);
  }

  lemma RootAnchoredIntegralOfZeros(s: seq<real>, dx: real)
    requires |s| > 0 && AllZero(s)
    ensures AllZero(AnchorAtRoot(Integrate(s, dx), 0.0))
  {
    IntegratedZerosAreZero(s, dx);
  }

  lemma CurvatureOfZeros(m: seq<real>, youngsModulus: real, iyy: seq<real>)
    requires |m| == |iyy| && Stiff(youngsModulus, iyy) && AllZero(m)
    ensures AllZero(Curvature(m, youngsModulus, iyy))
  {
  }
}
