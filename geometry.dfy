/**
 * Points in space and plane rotations. A rotation angle is represented by
 * its (cosine, sine) pair, so that every identity used about it is exact
 * algebra on reals instead of trigonometry.
 */
module Geometry {

  /** A point in space: spanwise x, vertical y, fore-aft z (numpy columns 0, 1, 2). */
  datatype Point3 = Point3(x: real, y: real, z: real)

  /** An angle given by its cosine c and sine s. */
  datatype Rotation = Rotation(c: real, s: real)

  /** The pair is the cosine and sine of one real angle. */
  predicate IsUnit(r: Rotation)
  {
    r.c * r.c + r.s * r.s == 1.0
  }

  /** The zero angle: cos 0 = 1, sin 0 = 0. */
  const NoRotation := Rotation(1.0, 0.0)

  function SquaredDistance(p: Point3, q: Point3): real
  {
    (p.x - q.x) * (p.x - q.x) + (p.y - q.y) * (p.y - q.y) + (p.z - q.z) * (p.z - q.z)
  }

  /**
   * Row vector (u, v) times the matrix [[c, s], [-s, c]], the product the
   * source writes with np.matmul. A unit pair keeps the squared length of
   * (u, v), and the zero angle leaves (u, v) where it is.
   */
  function RowTimesRotation(u: real, v: real, r: Rotation): (p: (real, real))
    ensures IsUnit(r) ==> p.0 * p.0 + p.1 * p.1 == u * u + v * v
    ensures r == NoRotation ==> p == (u, v)
  {
    UnitKeepsLength(u, v, r);
    (u * r.c - v * r.s, u * r.s + v * r.c)
  }

  lemma UnitKeepsLength(u: real, v: real, r: Rotation)
    ensures IsUnit(r) ==>
      (u * r.c - v * r.s) * (u * r.c - v * r.s) + (u * r.s + v * r.c) * (u * r.s + v * r.c) == u * u + v * v
  {
    var a, b := u * r.c - v * r.s, u * r.s + v * r.c;
    calc {
      a * a + b * b;
      u * u * (r.c * r.c + r.s * r.s) + v * v * (r.s * r.s + r.c * r.c);
    }
  }

  /** The matrix product is linear: rotating a difference is the difference of the rotations. */
  lemma RotationOfDifference(u1: real, v1: real, u2: real, v2: real, r: Rotation)
    ensures RowTimesRotation(u1, v1, r).0 - RowTimesRotation(u2, v2, r).0 == RowTimesRotation(u1 - u2, v1 - v2, r).0
    ensures RowTimesRotation(u1, v1, r).1 - RowTimesRotation(u2, v2, r).1 == RowTimesRotation(u1 - u2, v1 - v2, r).1
  {
    assert (u1 - u2) * r.c == u1 * r.c - u2 * r.c;
    assert (v1 - v2) * r.s == v1 * r.s - v2 * r.s;
    assert (u1 - u2) * r.s == u1 * r.s - u2 * r.s;
    assert (v1 - v2) * r.c == v1 * r.c - v2 * r.c;
  }

  /** A unit rotation keeps the squared distance between two points of the plane. */
  lemma RotationKeepsDistance(u1: real, v1: real, u2: real, v2: real, r: Rotation)
    requires IsUnit(r)
    ensures
      var p, q := RowTimesRotation(u1, v1, r), RowTimesRotation(u2, v2, r);
      (p.0 - q.0) * (p.0 - q.0) + (p.1 - q.1) * (p.1 - q.1) == (u1 - u2) * (u1 - u2) + (v1 - v2) * (v1 - v2)
  {
    RotationOfDifference(u1, v1, u2, v2, r);
    var d := RowTimesRotation(u1 - u2, v1 - v2, r);
    assert d.0 * d.0 + d.1 * d.1 == (u1 - u2) * (u1 - u2) + (v1 - v2) * (v1 - v2);
  }
}
