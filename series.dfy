/**
 * Running sums and backward differences of real sequences, accumulated
 * from the front the way numpy's `cumsum` accumulates them.
 */
module Series {

  /** The backward difference s[i] - s[i - 1]. */
  function Delta(s: seq<real>, i: nat): real
    requires 1 <= i < |s|
  {
    s[i] - s[i - 1]
  }

  /** s[0] + s[1] + ... + s[i]: the running total through index i. */
  function RunningSum(s: seq<real>, i: nat): real
    requires i < |s|
  {
    if i == 0 then s[0] else RunningSum(s, i - 1) + s[i]
  }

  /** A running sum of zeros stays zero. */
  lemma {:induction false} RunningSumOfZeros(s: seq<real>, i: nat)
    requires forall j :: 0 <= j < |s| ==> s[j] == 0.0
    requires i < |s|
    ensures RunningSum(s, i) == 0.0
  {
    if i > 0 {
      RunningSumOfZeros(s, i - 1);
    }
  }

  /**
   * Running sums telescope: summing the backward differences of x from
   * index 1 through i gives x[i] - x[0].
   */
  lemma {:induction false} RunningSumOfDeltas(x: seq<real>, d: seq<real>, i: nat)
    requires |d| == |x| && i < |x|
    requires d[0] == 0.0
    requires forall j :: 1 <= j < |x| ==> d[j] == Delta(x, j)
    ensures RunningSum(d, i) == x[i] - x[0]
  {
    if i > 0 {
      RunningSumOfDeltas(x, d, i - 1);
    }
  }

  /** Every element of a times one factor k. */
  function Scaled(k: real, a: seq<real>): (c: seq<real>)
    ensures |c| == |a|
  {
    seq(|a|, j requires 0 <= j < |a| => k * a[j])
  }

  /** Scaling every element scales every running total. */
  lemma {:induction false} RunningSumOfScaled(k: real, a: seq<real>, i: nat)
    requires i < |a|
    ensures RunningSum(Scaled(k, a), i) == k * RunningSum(a, i)
  {
    if i > 0 {
      RunningSumOfScaled(k, a, i - 1);
      assert k * RunningSum(a, i) == k * RunningSum(a, i - 1) + k * a[i];
    }
  }

  /** `x - np.roll(x, 1)` with entry 0 overwritten by 0. */
  function Diff(x: seq<real>): (d: seq<real>)
    ensures |d| == |x|
  {
    seq(|x|, i requires 0 <= i < |x| => if i == 0 then 0.0 else x[i] - x[i - 1])
  }

  /** The difference table starts at zero and then holds each backward difference. */
  lemma DiffEntries(x: seq<real>)
    ensures |x| > 0 ==> Diff(x)[0] == 0.0
    ensures forall i :: 1 <= i < |x| ==> Diff(x)[i] == Delta(x, i)
  {
  }

  /** Summing the differences telescopes: through index i they add up to x[i] - x[0]. */
  lemma DiffTelescopes(x: seq<real>, i: nat)
    requires i < |x|
    ensures RunningSum(Diff(x), i) == x[i] - x[0]
  {
    DiffEntries(x);
    RunningSumOfDeltas(x, Diff(x), i);
  }

  /** Scaled differences telescope to the scaled change: k (x[i] - x[0]). */
  lemma ScaledDiffTelescopes(k: real, x: seq<real>, i: nat)
    requires i < |x|
    ensures RunningSum(Scaled(k, Diff(x)), i) == k * (x[i] - x[0])
  {
    RunningSumOfScaled(k, Diff(x), i);
    DiffTelescopes(x, i);
  }
}
