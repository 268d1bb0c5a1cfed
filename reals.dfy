/**
 * Order facts about products and quotients of reals, stated one step at a
 * time so that the radius laws can be compared without nonlinear search.
 */
module RealOrder {

  /** The square, kept as one term so that facts about it carry over to every place it occurs. */
  function Sq(x: real): real
  {
    x * x
  }

  /** A product of non-negative factors is non-negative. */
  lemma MulNonnegative(u: real, v: real)
    requires u >= 0.0 && v >= 0.0
    ensures u * v >= 0.0
  {
  }

  /** Scaling by a non-negative factor keeps order. */
  lemma MulLeftMonotone(c: real, u: real, v: real)
    requires c >= 0.0 && u <= v
    ensures c * u <= c * v
  {
    assert c * v - c * u == c * (v - u);
    MulNonnegative(c, v - u);
  }

  /** Squaring keeps the order of non-negative numbers. */
  lemma SqMonotone(u: real, v: real)
    requires 0.0 <= u <= v
    ensures 0.0 <= Sq(u) <= Sq(v)
  {
    MulNonnegative(u, u);
    MulLeftMonotone(u, u, v);
    MulLeftMonotone(v, u, v);
    assert u * u <= u * v;
    assert v * u <= v * v;
  }

  /** A number in [0, 1] has its square in [0, 1] too. */
  lemma SqAtMostOne(u: real)
    requires 0.0 <= u <= 1.0
    ensures 0.0 <= Sq(u) <= 1.0
  {
    SqMonotone(u, 1.0);
  }

  /** Scaling two ordered fractions of one by a fraction d of one keeps them ordered fractions of one. */
  lemma ScaledFractions(g: real, g': real, d: real)
    requires 0.0 <= g <= g' <= 1.0 && 0.0 <= d <= 1.0
    ensures 0.0 <= g * d <= g' * d <= 1.0
  {
    MulNonnegative(g, d);
    MulLeftMonotone(d, g, g');
    MulLeftMonotone(g', d, 1.0);
    assert d * g <= d * g';
  }

  /** Dividing by a positive divisor keeps order. */
  lemma DivMonotone(u: real, v: real, w: real)
    requires w > 0.0 && u <= v
    ensures u / w <= v / w
  {
    assert v / w - u / w == (v - u) / w;
  }

  /** A part no larger than a positive whole is at most one whole. */
  lemma DivAtMostOne(u: real, w: real)
    requires w > 0.0 && u <= w
    ensures u / w <= 1.0
  {
    DivMonotone(u, w, w);
  }

  /** A non-negative part of a positive whole is non-negative. */
  lemma DivNonnegative(u: real, w: real)
    requires w > 0.0 && u >= 0.0
    ensures u / w >= 0.0
  {
    DivMonotone(0.0, u, w);
  }
}
