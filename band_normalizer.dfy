/** The band normaliser applied to each band as it is loaded: clip to
    [0, p] where p is the band's 99th percentile, then rescale min-max to
    [0, 1]. The percentile is a parameter of the model. */
module BandNormalizer {
  import opened Grids

  /** The cells of a grid, row after row. */
  function Flatten(g: seq<seq<real>>): (cells: seq<real>)
    ensures forall i, j | 0 <= i < |g| && 0 <= j < |g[i]| :: g[i][j] in cells
    ensures cells == [] <==> forall i | 0 <= i < |g| :: g[i] == []
  {
    if g == [] then [] else g[0] + Flatten(g[1..])
  }

  /** Every element of the flattened grid comes from some cell. */
  lemma {:induction false} FlattenedFromCell(g: seq<seq<real>>, x: real) returns (i: nat, j: nat)
    requires x in Flatten(g)
    ensures i < |g| && j < |g[i]| && g[i][j] == x
  {
    if x in g[0] {
      i := 0;
      j :| 0 <= j < |g[0]| && g[0][j] == x;
    } else {
      var i', j' := FlattenedFromCell(g[1..], x);
      i, j := i' + 1, j';
    }
  }

  /** np.clip applied to every cell. */
  function ClipBand(g: seq<seq<real>>, lo: real, hi: real): (c: seq<seq<real>>)
    requires Rect(g)
    ensures SameShape(g, c)
    ensures forall i, j | 0 <= i < |g| && 0 <= j < Width(g) :: c[i][j] == Clip(g[i][j], lo, hi)
  {
    seq(|g|, i requires 0 <= i < |g| =>
      seq(Width(g), j requires 0 <= j < Width(g) => Clip(g[i][j], lo, hi)))
  }

  /** (x - lo) / (hi - lo) applied to every cell. */
  function Rescale(c: seq<seq<real>>, lo: real, hi: real): (r: seq<seq<real>>)
    requires Rect(c) && lo < hi
    ensures SameShape(c, r)
    ensures forall i, j | 0 <= i < |c| && 0 <= j < Width(c) :: r[i][j] == (c[i][j] - lo) / (hi - lo)
  {
    seq(|c|, i requires 0 <= i < |c| =>
      seq(Width(c), j requires 0 <= j < Width(c) => (c[i][j] - lo) / (hi - lo)))
  }

  /** A normalised band, or the failure of taking the minimum of a band
      without cells (numpy raises, and the caller reports the error). */
  datatype Normalized = Band(values: seq<seq<real>>) | EmptyBand

  /** The clipped band has distinct minimum and maximum; the source divides
      by their difference without checking it. */
  predicate HasRange(g: seq<seq<real>>, p: real)
    requires Rect(g)
  {
    var cells := Flatten(ClipBand(g, 0.0, p));
    cells != [] ==> SeqMin(cells) < SeqMax(cells)
  }

  /** Clip to [0, p], then rescale by the clipped band's own minimum and
      maximum. */
  function Normalize(g: seq<seq<real>>, p: real): (r: Normalized)
    requires Rect(g) && HasRange(g, p)
    ensures r.EmptyBand? <==> Flatten(g) == []
    ensures r.Band? ==> SameShape(g, r.values)
  {
    var c := ClipBand(g, 0.0, p);
    var cells := Flatten(c);
    if cells == [] then EmptyBand
    else Band(Rescale(c, SeqMin(cells), SeqMax(cells)))
  }

  /** With a non-negative percentile, clipping keeps every cell in [0, p]
      and leaves the cells already in that range as they are. */
  lemma ClippedBandWithinPercentile(g: seq<seq<real>>, p: real)
    requires Rect(g) && 0.0 <= p
    ensures var c := ClipBand(g, 0.0, p);
      forall i, j | 0 <= i < |g| && 0 <= j < Width(g) ::
        0.0 <= c[i][j] <= p && (0.0 <= g[i][j] <= p ==> c[i][j] == g[i][j])
  {
  }

  /** Rescaling by bounds of the grid maps every cell into [0, 1]. */
  lemma RescaleWithinUnit(c: seq<seq<real>>, lo: real, hi: real)
    requires Rect(c) && lo < hi
    requires forall i, j | 0 <= i < |c| && 0 <= j < Width(c) :: lo <= c[i][j] <= hi
    ensures var r := Rescale(c, lo, hi);
      forall i, j | 0 <= i < |c| && 0 <= j < Width(c) :: 0.0 <= r[i][j] <= 1.0
  {
    var r := Rescale(c, lo, hi);
    forall i, j | 0 <= i < |c| && 0 <= j < Width(c)
      ensures 0.0 <= r[i][j] <= 1.0
    {
      DivisionBounds(c[i][j] - lo, hi - lo, 0.0, 1.0);
    }
  }

  /** Rescaling keeps the order of the cells. */
  lemma RescaleMonotone(c: seq<seq<real>>, lo: real, hi: real)
    requires Rect(c) && lo < hi
    ensures var r := Rescale(c, lo, hi);
      forall i, j, k, l | 0 <= i < |c| && 0 <= j < Width(c) && 0 <= k < |c| && 0 <= l < Width(c) ::
        c[i][j] <= c[k][l] ==> r[i][j] <= r[k][l]
  {
  }

  /** Rescaling sends lo to 0 and hi to 1. */
  lemma RescaleEnds(c: seq<seq<real>>, lo: real, hi: real, i: int, j: int)
    requires Rect(c) && lo < hi && 0 <= i < |c| && 0 <= j < |c[i]|
    ensures c[i][j] == lo ==> Rescale(c, lo, hi)[i][j] == 0.0
    ensures c[i][j] == hi ==> Rescale(c, lo, hi)[i][j] == 1.0
  {
    DivisionBounds(hi - lo, hi - lo, 1.0, 1.0);
  }

  /** Every cell of a grid lies between the minimum and the maximum of
      its cells. */
  lemma CellsWithinExtremes(c: seq<seq<real>>)
    requires Rect(c) && Flatten(c) != []
    ensures var cells := Flatten(c);
      forall i, j | 0 <= i < |c| && 0 <= j < Width(c) :: SeqMin(cells) <= c[i][j] <= SeqMax(cells)
  {
    var cells := Flatten(c);
    forall i, j | 0 <= i < |c| && 0 <= j < Width(c)
      ensures SeqMin(cells) <= c[i][j] <= SeqMax(cells)
    {
      assert c[i][j] in cells;
    }
  }

  /** The normalised band lies in [0, 1] and keeps the order of the
      clipped cells. */
  lemma NormalizedBandWithinUnit(g: seq<seq<real>>, p: real)
    requires Rect(g) && HasRange(g, p) && Flatten(g) != []
    ensures var c, r := ClipBand(g, 0.0, p), Normalize(g, p).values;
      (forall i, j | 0 <= i < |g| && 0 <= j < Width(g) :: 0.0 <= r[i][j] <= 1.0) &&
      (forall i, j, k, l | 0 <= i < |g| && 0 <= j < Width(g) && 0 <= k < |g| && 0 <= l < Width(g) ::
        c[i][j] <= c[k][l] ==> r[i][j] <= r[k][l])
  {
    NormalizedBandInUnitRange(g, p);
    NormalizedBandKeepsOrder(g, p);
  }

  lemma NormalizedBandInUnitRange(g: seq<seq<real>>, p: real)
    requires Rect(g) && HasRange(g, p) && Flatten(g) != []
    ensures var r := Normalize(g, p).values;
      forall i, j | 0 <= i < |g| && 0 <= j < Width(g) :: 0.0 <= r[i][j] <= 1.0
  {
    var c := ClipBand(g, 0.0, p);
    var lo, hi := NormalizeIsRescale(g, p);
    CellsWithinExtremes(c);
    RescaleWithinUnit(c, lo, hi);
  }

  lemma NormalizedBandKeepsOrder(g: seq<seq<real>>, p: real)
    requires Rect(g) && HasRange(g, p) && Flatten(g) != []
    ensures var c, r := ClipBand(g, 0.0, p), Normalize(g, p).values;
      forall i, j, k, l | 0 <= i < |g| && 0 <= j < Width(g) && 0 <= k < |g| && 0 <= l < Width(g) ::
        c[i][j] <= c[k][l] ==> r[i][j] <= r[k][l]
  {
    var c := ClipBand(g, 0.0, p);
    var lo, hi := NormalizeIsRescale(g, p);
    RescaleMonotone(c, lo, hi);
  }

  /** A band with cells is normalised by the minimum and maximum of its
      clipped cells, which bound every clipped cell. */
  lemma NormalizeIsRescale(g: seq<seq<real>>, p: real) returns (lo: real, hi: real)
    requires Rect(g) && HasRange(g, p) && Flatten(g) != []
    ensures var c := ClipBand(g, 0.0, p);
      lo < hi && Flatten(c) != [] && lo == SeqMin(Flatten(c)) && hi == SeqMax(Flatten(c)) &&
      Normalize(g, p) == Band(Rescale(c, lo, hi))
  {
    var cells := Flatten(ClipBand(g, 0.0, p));
    lo, hi := SeqMin(cells), SeqMax(cells);
  }

  /** The cells holding the clipped minimum become 0, those holding the
      clipped maximum become 1, and both occur. */
  lemma NormalizedBandAttainsZeroAndOne(g: seq<seq<real>>, p: real)
    requires Rect(g) && HasRange(g, p) && Flatten(g) != []
    ensures var r := Normalize(g, p).values;
      (exists i, j | 0 <= i < |g| && 0 <= j < Width(g) :: r[i][j] == 0.0) &&
      (exists i, j | 0 <= i < |g| && 0 <= j < Width(g) :: r[i][j] == 1.0)
  {
    var c := ClipBand(g, 0.0, p);
    var cells := Flatten(c);
    var lo, hi := SeqMin(cells), SeqMax(cells);
    var r := Rescale(c, lo, hi);
    assert Normalize(g, p).values == r;
    var i0, j0 := FlattenedFromCell(c, lo);
    var i1, j1 := FlattenedFromCell(c, hi);
    RescaleEnds(c, lo, hi, i0, j0);
    RescaleEnds(c, lo, hi, i1, j1);
  }
}
