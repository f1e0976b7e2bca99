/** Intensity grids: rectangular two-dimensional arrays of samples, addressed
    by (row, column), and the element-wise helpers that the repair and the
    compositing stages share. */
module Grids {

  /** One sample of a band as the image file delivers it: a finite value or
      NaN. Infinities are not part of this model. */
  datatype Sample = Finite(value: real) | NaN

  /** Number of columns of a grid (0 when it has no rows). */
  function Width<T>(g: seq<seq<T>>): nat {
    if |g| == 0 then 0 else |g[0]|
  }

  /** Every row has the same length. */
  predicate Rect<T>(g: seq<seq<T>>) {
    forall i | 0 <= i < |g| :: |g[i]| == Width(g)
  }

  /** Two rectangular grids with the same number of rows and columns. */
  predicate SameShape<T, U>(g: seq<seq<T>>, h: seq<seq<U>>) {
    Rect(g) && Rect(h) && |g| == |h| && Width(g) == Width(h)
  }

  /** The cells of a two-dimensional array as a grid value. */
  ghost function Cells<T>(a: array2<T>): (g: seq<seq<T>>)
    reads a
    ensures Rect(g) && |g| == a.Length0 && (|g| > 0 ==> Width(g) == a.Length1)
    ensures forall i, j | 0 <= i < a.Length0 && 0 <= j < a.Length1 :: g[i][j] == a[i, j]
  {
    seq(a.Length0, i requires 0 <= i < a.Length0 reads a =>
      seq(a.Length1, j requires 0 <= j < a.Length1 reads a => a[i, j]))
  }

  /** numpy's clip(x, lo, hi), which is min(max(x, lo), hi): when lo > hi
      every value becomes hi. */
  function Clip(x: real, lo: real, hi: real): (r: real)
    ensures lo <= hi ==> lo <= r <= hi
    ensures lo <= x <= hi ==> r == x
  {
    var m := if x < lo then lo else x;
    if m > hi then hi else m
  }

  /** Clipping keeps the order of its arguments. */
  lemma ClipMonotone(x: real, y: real, lo: real, hi: real)
    requires x <= y
    ensures Clip(x, lo, hi) <= Clip(y, lo, hi)
  {
  }

  /** The smallest element of a non-empty sequence. */
  function SeqMin(s: seq<real>): (m: real)
    requires |s| > 0
    ensures m in s
    ensures forall k | 0 <= k < |s| :: m <= s[k]
  {
    if |s| == 1 then s[0]
    else
      var rest := SeqMin(s[1..]);
      if s[0] <= rest then s[0] else rest
  }

  /** The largest element of a non-empty sequence. */
  function SeqMax(s: seq<real>): (m: real)
    requires |s| > 0
    ensures m in s
    ensures forall k | 0 <= k < |s| :: s[k] <= m
  {
    if |s| == 1 then s[0]
    else
      var rest := SeqMax(s[1..]);
      if s[0] >= rest then s[0] else rest
  }

  /** If n * lo <= a <= n * hi with n > 0, then a / n lies in [lo, hi]. */
  lemma DivisionBounds(a: real, n: real, lo: real, hi: real)
    requires n > 0.0 && n * lo <= a <= n * hi
    ensures lo <= a / n <= hi
  {
  }
}
