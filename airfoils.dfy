/**
 * The airfoil section of airfoils/airplane.py: a closed outline of
 * (chordwise, thickness) points, and its placement in space as one
 * spanwise section of the wing (scale, twist, pitch, translate).
 */
module Airfoils {
  import opened Geometry

  /** One row of the outline file: chordwise position and thickness, both per unit chord. */
  datatype Point2 = Point2(chordwise: real, thickness: real)

  /** `base_af[:, 0] *= -1`: the chordwise column negated, thickness kept. */
  function Mirrored(p: Point2): (q: Point2)
    ensures q.thickness == p.thickness && q.chordwise + p.chordwise == 0.0
  {
    Point2(-1.0 * p.chordwise, p.thickness)
  }

  /** `coords[:, 1:] = base_af * chord; coords[:, 2] *= thickness`: the section in the y-z plane at x = 0. */
  function Scaled(p: Point2, chord: real, thickness: real): Point3
  {
    Thickened(ChordScaled(p, chord), thickness)
  }

  /** `coords[:, 1:] = base_af * chord` on one row of zeros. */
  function ChordScaled(p: Point2, chord: real): Point3
  {
    Point3(0.0, p.chordwise * chord, p.thickness * chord)
  }

  /** `coords[:, 2] *= thickness` on one row. */
  function Thickened(q: Point3, thickness: real): Point3
  {
    q.(z := q.z * thickness)
  }

  /** The twist: columns (y, z) of the row times the twist matrix. */
  function Twisted(q: Point3, twist: Rotation): Point3
  {
    var yz := RowTimesRotation(q.y, q.z, twist);
    Point3(q.x, yz.0, yz.1)
  }

  /** The pitch: columns (x, z) of the row times the rotation matrix. */
  function Pitched(q: Point3, angle: Rotation): Point3
  {
    var xz := RowTimesRotation(q.x, q.z, angle);
    Point3(xz.0, q.y, xz.1)
  }

  /** `coords += [x, y, z]`. */
  function Translated(q: Point3, x: real, y: real, z: real): Point3
  {
    Point3(q.x + x, q.y + y, q.z + z)
  }

  /** Where Airfoil.place puts one outline point. */
  function Placed(p: Point2, chord: real, thickness: real, twist: Rotation, angle: Rotation,
                  x: real, y: real, z: real): (q: Point3)
    ensures chord == 0.0 ==> q == Point3(x, y, z)
  {
    Translated(Pitched(Twisted(Scaled(p, chord, thickness), twist), angle), x, y, z)
  }

  /** Unit chord and thickness, no twist, no pitch, at the origin: the outline itself in the y-z plane. */
  lemma PlacedAtIdentity(p: Point2)
    ensures Placed(p, 1.0, 1.0, NoRotation, NoRotation, 0.0, 0.0, 0.0) == Point3(0.0, p.chordwise, p.thickness)
  {
    var s := Scaled(p, 1.0, 1.0);
    assert s == Point3(0.0, p.chordwise, p.thickness);
    assert Twisted(s, NoRotation) == s;
    assert Pitched(s, NoRotation) == s;
  }

  /**
   * Twist and pitch are rotations about the placement point: a placed
   * point lies at squared distance chord^2 (u^2 + thickness^2 v^2) from
   * (x, y, z), as the scaled point lies from the origin.
   */
  lemma PlacedDistanceFromOrigin(p: Point2, chord: real, thickness: real, twist: Rotation, angle: Rotation,
                                 x: real, y: real, z: real)
    requires IsUnit(twist) && IsUnit(angle)
    ensures SquaredDistance(Placed(p, chord, thickness, twist, angle, x, y, z), Point3(x, y, z))
      == (p.chordwise * chord) * (p.chordwise * chord)
       + (p.thickness * chord * thickness) * (p.thickness * chord * thickness)
  {
    var s := Scaled(p, chord, thickness);
    var t := Twisted(s, twist);
    var q := Pitched(t, angle);
    assert t.y * t.y + t.z * t.z == s.y * s.y + s.z * s.z;
    assert q.x * q.x + q.z * q.z == t.x * t.x + t.z * t.z;
    var r := Translated(q, x, y, z);
    assert r.x - x == q.x && r.y - y == q.y && r.z - z == q.z;
  }

  /**
   * Placement is rigid once scaled: two outline points end up exactly as
   * far apart as their scaled images were.
   */
  lemma PlacementKeepsDistances(p: Point2, p': Point2, chord: real, thickness: real,
                                twist: Rotation, angle: Rotation, x: real, y: real, z: real)
    requires IsUnit(twist) && IsUnit(angle)
    ensures SquaredDistance(Placed(p, chord, thickness, twist, angle, x, y, z),
                            Placed(p', chord, thickness, twist, angle, x, y, z))
      == SquaredDistance(Scaled(p, chord, thickness), Scaled(p', chord, thickness))
  {
    var s, s' := Scaled(p, chord, thickness), Scaled(p', chord, thickness);
    var t, t' := Twisted(s, twist), Twisted(s', twist);
    RotationKeepsDistance(s.y, s.z, s'.y, s'.z, twist);
    assert (t.y - t'.y) * (t.y - t'.y) + (t.z - t'.z) * (t.z - t'.z)
        == (s.y - s'.y) * (s.y - s'.y) + (s.z - s'.z) * (s.z - s'.z);
    var q, q' := Pitched(t, angle), Pitched(t', angle);
    RotationKeepsDistance(t.x, t.z, t'.x, t'.z, angle);
    assert (q.x - q'.x) * (q.x - q'.x) + (q.z - q'.z) * (q.z - q'.z)
        == (t.x - t'.x) * (t.x - t'.x) + (t.z - t'.z) * (t.z - t'.z);
    var r, r' := Translated(q, x, y, z), Translated(q', x, y, z);
    assert r.x - r'.x == q.x - q'.x && r.y - r'.y == q.y - q'.y && r.z - r'.z == q.z - q'.z;
  }

  /** An airfoil outline, closed by repeating its first point at the end. */
  class Airfoil {
    const base: seq<Point2>

    /** The outline ends where it starts. */
    predicate Closed()
      reads this
    {
      |base| >= 2 && base[0] == base[|base| - 1]
    }

    /**
     * Airfoil.__init__ on the points the outline file holds: appends the
     * first point, then mirrors the chordwise column when flip is set.
     * The source indexes the first point, so the outline must not be empty.
     */
    constructor (points: seq<Point2>, flip: bool)
      requires |points| > 0
      ensures |base| == |points| + 1
      ensures forall i :: 0 <= i < |points| ==> base[i] == if flip then Mirrored(points[i]) else points[i]
      ensures Closed()
    {
      var closed := points + [points[0]];
      if flip {
        closed := seq(|closed|, i requires 0 <= i < |closed| => Mirrored(closed[i]));
      }
      base := closed;
    }

    /**
     * Airfoil.place: a fresh table with one placed point per outline point,
     * built column by column and row by row as the source rewrites it.
     */
    method Place(chord: real, thickness: real, twist: Rotation, angle: Rotation,
                 x: real, y: real, z: real)
      returns (coords: array<Point3>)
      ensures fresh(coords)
      ensures coords.Length == |base|
      ensures forall k :: 0 <= k < coords.Length ==>
        coords[k] == Placed(base[k], chord, thickness, twist, angle, x, y, z)
      ensures Closed() ==> coords[0] == coords[coords.Length - 1]
    {
      coords := ScaledRows(base, chord, thickness);
      TwistRows(coords, twist);
      PitchRows(coords, angle);
      TranslateRows(coords, x, y, z);
    }
  }

  /** The first lines of Airfoil.place: a table of zeros, then the outline scaled into columns y and z, then z scaled by the thickness. */
  method ScaledRows(b: seq<Point2>, chord: real, thickness: real) returns (coords: array<Point3>)
    ensures fresh(coords)
    ensures coords.Length == |b|
    ensures forall k :: 0 <= k < coords.Length ==> coords[k] == Scaled(b[k], chord, thickness)
  {
    coords := new Point3[|b|](_ => Point3(0.0, 0.0, 0.0));
    forall k | 0 <= k < |b| {
      coords[k] := ChordScaled(b[k], chord);
    }
    forall k | 0 <= k < |b| {
      coords[k] := Thickened(coords[k], thickness);
    }
  }

  /** `coords += [x, y, z]`, the last step of Airfoil.place. */
  method TranslateRows(coords: array<Point3>, x: real, y: real, z: real)
    modifies coords
    ensures forall k :: 0 <= k < coords.Length ==> coords[k] == Translated(old(coords[k]), x, y, z)
  {
    forall k | 0 <= k < coords.Length {
      coords[k] := Translated(coords[k], x, y, z);
    }
  }

  /** The twist loop of Airfoil.place: each row's (y, z) times the twist matrix, one row at a time. */
  method TwistRows(coords: array<Point3>, twist: Rotation)
    modifies coords
    ensures forall k :: 0 <= k < coords.Length ==> coords[k] == Twisted(old(coords[k]), twist)
  {
    var k := 0;
    while k < coords.Length
      invariant 0 <= k <= coords.Length
      invariant forall j :: 0 <= j < k ==> coords[j] == Twisted(old(coords[j]), twist)
      invariant forall j :: k <= j < coords.Length ==> coords[j] == old(coords[j])
    {
      var yz := RowTimesRotation(coords[k].y, coords[k].z, twist);
      coords[k] := coords[k].(y := yz.0, z := yz.1);
      k := k + 1;
    }
  }

  /** The pitch loop of Airfoil.place: each row's (x, z) times the rotation matrix, one row at a time. */
  method PitchRows(coords: array<Point3>, angle: Rotation)
    modifies coords
    ensures forall k :: 0 <= k < coords.Length ==> coords[k] == Pitched(old(coords[k]), angle)
  {
    var k := 0;
    while k < coords.Length
      invariant 0 <= k <= coords.Length
      invariant forall j :: 0 <= j < k ==> coords[j] == Pitched(old(coords[j]), angle)
      invariant forall j :: k <= j < coords.Length ==> coords[j] == old(coords[j])
    {
      var xz := RowTimesRotation(coords[k].x, coords[k].z, angle);
      coords[k] := coords[k].(x := xz.0, z := xz.1);
      k := k + 1;
    }
  }
}
