/**
 * The engine nacelle of airfoils/airplane.py: an annular intake sized from
 * the swept area and the hub radius, a half-ellipsoid radius law along its
 * length, and rings of points placed around a toed-in axis.
 *
 * Square roots enter as their values together with the squared identity
 * they satisfy, and the ring's angles as (cosine, sine) pairs.
 */
module Nacelles {
  import opened Geometry
  import opened RealOrder

  /** A nacelle as its constructor leaves it; nothing changes it afterwards. */
  datatype Nacelle = Nacelle(
    area: real, length: real, width: real, hubRadius: real, percentDrop: real,
    resolution: nat,
    radius: real,       // R: the inner radius that leaves `area` of annulus around the hub
    outerRadius: real)  // R_outer = R + width

  /**
   * Nacelle.__init__: R = sqrt(area / pi + r^2), given as `root` with its
   * square; R_outer adds the wall width. The annulus between hub and R has
   * exactly the requested area.
   */
  function NewNacelle(area: real, hubRadius: real, length: real, width: real, percentDrop: real,
                      resolution: nat, pi: real, root: real): (n: Nacelle)
    requires pi > 0.0
    requires root >= 0.0 && root * root == area / pi + hubRadius * hubRadius
    ensures n.area == area && n.length == length && n.width == width && n.hubRadius == hubRadius
    ensures n.percentDrop == percentDrop && n.resolution == resolution
    ensures n.radius >= 0.0 && n.outerRadius - n.radius == width
    ensures pi * (n.radius * n.radius - hubRadius * hubRadius) == area
  {
    assert pi * (area / pi) == area;
    Nacelle(area, length, width, hubRadius, percentDrop, resolution, root, root + width)
  }

  /**
   * The radicand of _local_radius written over the fraction f = x / a of
   * the length: r0^2 (1 - f^2 (1 - k^2)). Over the reals this is the
   * source's r^2 (1 - x^2 (1 - k^2) / a^2).
   */
  function Radicand(r0: real, f: real, k: real): real
  {
    Sq(r0) * Remaining(f, k)
  }

  /** The share of r0^2 left at fraction f of the length: 1 - f^2 (1 - k^2). */
  function Remaining(f: real, k: real): real
  {
    1.0 - Sq(f) * (1.0 - Sq(k))
  }

  /** _local_radius squared, at distance x behind the front of the nacelle. */
  function LocalRadiusSquared(n: Nacelle, x: real, r0: real): (r2: real)
    requires n.length != 0.0
    ensures x == 0.0 ==> r2 == Sq(r0)
  {
    Radicand(r0, x / n.length, n.percentDrop)
  }

  /** The fraction form is the source's radicand r^2 (1 - x^2 (1 - k^2) / a^2), with a^2 divided out one factor at a time. */
  lemma LocalRadiusSquaredIsSourceForm(n: Nacelle, x: real, r0: real)
    requires n.length != 0.0
    ensures LocalRadiusSquared(n, x, r0)
      == Sq(r0) * (1.0 - Sq(x) * (1.0 - Sq(n.percentDrop)) / n.length / n.length)
  {
    RemainingIsSourceForm(x, n.length, n.percentDrop);
  }

  /** The share of r0^2 left at x, written over x / a and over a^2. */
  lemma RemainingIsSourceForm(x: real, a: real, k: real)
    requires a != 0.0
    ensures Remaining(x / a, k) == 1.0 - Sq(x) * (1.0 - Sq(k)) / a / a
  {
    var c, u, s := 1.0 - Sq(k), Sq(x), Sq(x / a);
    SqOfQuotient(x, a);
    QuotientTwiceTimes(u, a, c);
    assert s == u / a / a;
    assert s * c == u * c / a / a;
    assert u * c == Sq(x) * (1.0 - Sq(k));
    assert Remaining(x / a, k) == 1.0 - s * c;
    assert u * c / a / a == Sq(x) * (1.0 - Sq(k)) / a / a;
  }

  /** (x / a)^2 = x^2 / a / a. */
  lemma SqOfQuotient(x: real, a: real)
    requires a != 0.0
    ensures Sq(x / a) == Sq(x) / a / a
  {
    var f := x / a;
    assert f * a == x;
    var fx, ff, xx := f * x, f * f, x * x;
    assert fx * a == xx;
    DivisionUndoes(fx, xx, a);
    assert ff * a == fx;
    DivisionUndoes(ff, fx, a);
  }

  /** A factor of a undone by dividing by a. */
  lemma DivisionUndoes(z: real, y: real, a: real)
    requires a != 0.0 && z * a == y
    ensures z == y / a
  {
  }

  /** (u / a / a) c = u c / a / a. */
  lemma QuotientTwiceTimes(u: real, a: real, c: real)
    requires a != 0.0
    ensures (u / a / a) * c == u * c / a / a
  {
    var q := u / a;
    QuotientTimes(q, a, c);
    QuotientTimes(u, a, c);
  }

  /** (u / w) c = u c / w. */
  lemma QuotientTimes(u: real, w: real, c: real)
    requires w != 0.0
    ensures (u / w) * c == u * c / w
  {
    assert (u / w) * w == u;
    assert ((u / w) * c) * w == ((u / w) * w) * c;
  }

  /** The law's end values: r0 at the front, k r0 at the full length, r0 throughout when k = 1. */
  lemma RadicandEnds(r0: real, k: real)
    ensures Radicand(r0, 0.0, k) == Sq(r0)
    ensures Radicand(r0, 1.0, k) == Sq(r0) * Sq(k)
    ensures forall f :: Radicand(r0, f, 1.0) == Sq(r0)
  {
    assert Sq(0.0) == 0.0 && Sq(1.0) == 1.0;
    assert Remaining(1.0, k) == Sq(k);
  }

  /** The ellipse's end values on the nacelle itself: r0 at x = 0, k r0 at x = a, r0 all along when k = 1. */
  lemma LocalRadiusEnds(n: Nacelle, r0: real)
    requires n.length != 0.0
    ensures LocalRadiusSquared(n, 0.0, r0) == Sq(r0)
    ensures LocalRadiusSquared(n, n.length, r0) == Sq(r0) * Sq(n.percentDrop)
    ensures n.percentDrop == 1.0 ==> forall x :: LocalRadiusSquared(n, x, r0) == Sq(r0)
  {
    assert 0.0 / n.length == 0.0;
    assert n.length / n.length == 1.0;
    RadicandEnds(r0, n.percentDrop);
  }

  /** With the drop k in [0, 1], the share left is in [0, 1] along the nacelle and only shrinks going aft. */
  lemma RemainingNarrows(f: real, f': real, k: real)
    requires 0.0 <= k <= 1.0 && 0.0 <= f <= f' <= 1.0
    ensures 0.0 <= Remaining(f', k) <= Remaining(f, k) <= 1.0
  {
    SqAtMostOne(k);
    SqMonotone(f, f');
    SqAtMostOne(f');
    ScaledFractions(Sq(f), Sq(f'), 1.0 - Sq(k));
  }

  /**
   * With the drop k in [0, 1] and 0 <= f <= f' <= 1 the radicand is never
   * negative, never exceeds r0^2, and only shrinks going aft.
   */
  lemma RadicandNarrows(r0: real, f: real, f': real, k: real)
    requires 0.0 <= k <= 1.0 && 0.0 <= f <= f' <= 1.0
    ensures 0.0 <= Radicand(r0, f', k)
    ensures Radicand(r0, f', k) <= Radicand(r0, f, k) <= Sq(r0)
  {
    RemainingNarrows(f, f', k);
    MulNonnegative(Sq(r0), Remaining(f', k));
    MulLeftMonotone(Sq(r0), Remaining(f', k), Remaining(f, k));
    MulLeftMonotone(Sq(r0), Remaining(f, k), 1.0);
    assert Sq(r0) * 1.0 == Sq(r0);
  }

  /** Along the nacelle (0 <= x <= x' <= a) the local radius only narrows, from at most r0 to no less than zero. */
  lemma LocalRadiusNarrows(n: Nacelle, x: real, x': real, r0: real)
    requires n.length > 0.0 && 0.0 <= n.percentDrop <= 1.0
    requires 0.0 <= x <= x' <= n.length
    ensures 0.0 <= LocalRadiusSquared(n, x', r0)
    ensures LocalRadiusSquared(n, x', r0) <= LocalRadiusSquared(n, x, r0) <= Sq(r0)
  {
    DivNonnegative(x, n.length);
    DivMonotone(x, x', n.length);
    DivAtMostOne(x', n.length);
    RadicandNarrows(r0, x / n.length, x' / n.length, n.percentDrop);
  }

  /** A larger starting radius gives a larger radicand wherever the radicand's factor is non-negative. */
  lemma RadicandGrows(r0: real, r1: real, f: real, k: real)
    requires 0.0 <= r0 <= r1 && 0.0 <= k <= 1.0 && 0.0 <= f <= 1.0
    ensures Radicand(r0, f, k) <= Radicand(r1, f, k)
  {
    RemainingNarrows(f, f, k);
    SqMonotone(r0, r1);
    MulLeftMonotone(Remaining(f, k), Sq(r0), Sq(r1));
  }

  /**
   * For a wall of non-negative width the outer surface encloses the inner
   * one at every station: both follow the same law from R and R + width.
   */
  lemma OuterEnclosesInner(n: Nacelle, x: real)
    requires n.length > 0.0 && 0.0 <= n.percentDrop <= 1.0
    requires n.radius >= 0.0 && n.width >= 0.0 && n.outerRadius == n.radius + n.width
    requires 0.0 <= x <= n.length
    ensures LocalRadiusSquared(n, x, n.radius) <= LocalRadiusSquared(n, x, n.outerRadius)
  {
    DivNonnegative(x, n.length);
    DivAtMostOne(x, n.length);
    RadicandGrows(n.radius, n.outerRadius, x / n.length, n.percentDrop);
  }

  /** The centre of the ring placed at fraction p of the length: the front point moved back along the toed-in axis. */
  function RingCentre(n: Nacelle, p: real, xf: real, yf: real, zf: real, toe: Rotation): (c: Point3)
    ensures c.z == zf
    ensures (c.x - xf) * toe.c + (c.y - yf) * toe.s == 0.0
  {
    Point3(xf + p * n.length * toe.s, yf - p * n.length * toe.c, zf)
  }

  /** Point i of a ring of radius r around the toed-in axis, before the offset. */
  function RingOffset(r: real, theta: Rotation, toe: Rotation): (o: Point3)
    ensures o.x * toe.s == o.y * toe.c
  {
    Point3(r * theta.c * toe.c, r * theta.c * toe.s, r * theta.s)
  }

  lemma RingOffsetLength(r: real, theta: Rotation, toe: Rotation)
    requires IsUnit(theta) && IsUnit(toe)
    ensures SquaredDistance(RingOffset(r, theta, toe), Point3(0.0, 0.0, 0.0)) == r * r
  {
    var a := r * theta.c;
    calc {
      (a * toe.c) * (a * toe.c) + (a * toe.s) * (a * toe.s);
      a * a * (toe.c * toe.c + toe.s * toe.s);
      a * a;
    }
    calc {
      a * a + (r * theta.s) * (r * theta.s);
      r * r * (theta.c * theta.c + theta.s * theta.s);
      r * r;
    }
  }

  /** `points[:, k] += offset[k]` for every column. */
  function OffsetBy(q: Point3, c: Point3): Point3
  {
    Point3(q.x + c.x, q.y + c.y, q.z + c.z)
  }

  /** A ring point lies at distance r from the centre it is offset to. */
  lemma RingPointOnCircle(r: real, theta: Rotation, toe: Rotation, c: Point3)
    requires IsUnit(theta) && IsUnit(toe)
    ensures SquaredDistance(OffsetBy(RingOffset(r, theta, toe), c), c) == r * r
  {
    RingOffsetLength(r, theta, toe);
    var q := RingOffset(r, theta, toe);
    var p := OffsetBy(q, c);
    assert p.x - c.x == q.x - 0.0 && p.y - c.y == q.y - 0.0 && p.z - c.z == q.z - 0.0;
  }

  /**
   * Nacelle._place: `resolution` points, one per angle of
   * np.linspace(0, 2 pi, resolution) (given as unit pairs whose first and
   * last are the zero angle), filled column by column and then offset to
   * the ring centre. r is the local radius, the square root the source takes.
   * Every point lies on the circle of radius r about the centre, and the
   * ring closes on itself.
   */
  method Ring(n: Nacelle, p: real, xf: real, yf: real, zf: real, toe: Rotation,
              r: real, angles: seq<Rotation>)
    returns (points: array<Point3>)
    requires IsUnit(toe)
    requires |angles| == n.resolution && forall i :: 0 <= i < |angles| ==> IsUnit(angles[i])
    requires |angles| > 0 ==> angles[0] == NoRotation && angles[|angles| - 1] == NoRotation
    ensures fresh(points)
    ensures points.Length == n.resolution
    ensures forall i :: 0 <= i < points.Length ==>
      points[i] == OffsetBy(RingOffset(r, angles[i], toe), RingCentre(n, p, xf, yf, zf, toe))
    ensures forall i :: 0 <= i < points.Length ==>
      SquaredDistance(points[i], RingCentre(n, p, xf, yf, zf, toe)) == r * r
    ensures points.Length > 0 ==> points[0] == points[points.Length - 1]
  {
    var m := n.resolution;
    points := new Point3[m](_ => Point3(0.0, 0.0, 0.0));
    forall i | 0 <= i < m {
      points[i] := RingOffset(r, angles[i], toe);
    }
    var centre := RingCentre(n, p, xf, yf, zf, toe);
    forall i | 0 <= i < m {
      points[i] := OffsetBy(points[i], centre);
    }
    forall i | 0 <= i < m
      ensures SquaredDistance(points[i], centre) == r * r
    {
      RingPointOnCircle(r, angles[i], toe, centre);
    }
  }

  /** Nacelle.place_outer: a ring on the outer surface, from R_outer. */
  method PlaceOuter(n: Nacelle, p: real, xf: real, yf: real, zf: real, toe: Rotation,
                    r: real, angles: seq<Rotation>)
    returns (points: array<Point3>)
    requires n.length != 0.0
    requires r >= 0.0 && r * r == LocalRadiusSquared(n, p * n.length, n.outerRadius)
    requires IsUnit(toe)
    requires |angles| == n.resolution && forall i :: 0 <= i < |angles| ==> IsUnit(angles[i])
    requires |angles| > 0 ==> angles[0] == NoRotation && angles[|angles| - 1] == NoRotation
    ensures fresh(points)
    ensures points.Length == n.resolution
    ensures forall i :: 0 <= i < points.Length ==>
      points[i] == OffsetBy(RingOffset(r, angles[i], toe), RingCentre(n, p, xf, yf, zf, toe))
    ensures forall i :: 0 <= i < points.Length ==>
      SquaredDistance(points[i], RingCentre(n, p, xf, yf, zf, toe)) == LocalRadiusSquared(n, p * n.length, n.outerRadius)
    ensures points.Length > 0 ==> points[0] == points[points.Length - 1]
  {
    points := Ring(n, p, xf, yf, zf, toe, r, angles);
  }

  /** Nacelle.place_inner: a ring on the inner surface, from R. */
  method PlaceInner(n: Nacelle, p: real, xf: real, yf: real, zf: real, toe: Rotation,
                    r: real, angles: seq<Rotation>)
    returns (points: array<Point3>)
    requires n.length != 0.0
    requires r >= 0.0 && r * r == LocalRadiusSquared(n, p * n.length, n.radius)
    requires IsUnit(toe)
    requires |angles| == n.resolution && forall i :: 0 <= i < |angles| ==> IsUnit(angles[i])
    requires |angles| > 0 ==> angles[0] == NoRotation && angles[|angles| - 1] == NoRotation
    ensures fresh(points)
    ensures points.Length == n.resolution
    ensures forall i :: 0 <= i < points.Length ==>
      points[i] == OffsetBy(RingOffset(r, angles[i], toe), RingCentre(n, p, xf, yf, zf, toe))
    ensures forall i :: 0 <= i < points.Length ==>
      SquaredDistance(points[i], RingCentre(n, p, xf, yf, zf, toe)) == LocalRadiusSquared(n, p * n.length, n.radius)
    ensures points.Length > 0 ==> points[0] == points[points.Length - 1]
  {
    points := Ring(n, p, xf, yf, zf, toe, r, angles);
  }
}
