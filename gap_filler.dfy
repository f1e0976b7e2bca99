/** The gap filler: repairs one intensity grid by replacing every interior
    cell that is exactly zero with the mean of its strictly positive
    8-connected neighbours, read from the sanitised input. */
module GapFiller {
  import opened Grids

  // ---------------------------------------------------------------------
  // Pointwise specification
  // ---------------------------------------------------------------------

  /** nan_to_num for one sample: NaN becomes 0, a finite value is kept. */
  function Sanitize(s: Sample): (r: real)
    ensures s.NaN? ==> r == 0.0
    ensures s.Finite? ==> r == s.value
  {
    match s
    case NaN => 0.0
    case Finite(v) => v
  }

  /** The sanitised grid, of the same shape as the raw one. */
  function NanToNum(g: seq<seq<Sample>>): (d: seq<seq<real>>)
    requires Rect(g)
    ensures SameShape(g, d)
    ensures forall i, j | 0 <= i < |g| && 0 <= j < Width(g) :: d[i][j] == Sanitize(g[i][j])
  {
    seq(|g|, i requires 0 <= i < |g| =>
      seq(Width(g), j requires 0 <= j < Width(g) => Sanitize(g[i][j])))
  }

  /** A cell off the outermost border ring, the only cells the loops visit. */
  predicate Interior(rows: int, cols: int, i: int, j: int) {
    0 < i < rows - 1 && 0 < j < cols - 1
  }

  /** The (row, column) offsets of the eight neighbours, in the order the
      source lists them: up, down, left, right, then the four diagonals. */
  const Offsets: seq<(int, int)> := [(-1, 0), (1, 0), (0, -1), (0, 1), (-1, -1), (-1, 1), (1, -1), (1, 1)]

  /** The offsets are the 3x3 window without its centre, each exactly once. */
  lemma OffsetsAreTheWindowOnce()
    ensures |Offsets| == 8
    ensures forall k, l | 0 <= k < l < 8 :: Offsets[k] != Offsets[l]
    ensures forall k | 0 <= k < 8 :: -1 <= Offsets[k].0 <= 1 && -1 <= Offsets[k].1 <= 1 && Offsets[k] != (0, 0)
    ensures forall a, b | -1 <= a <= 1 && -1 <= b <= 1 && (a, b) != (0, 0) :: (a, b) in Offsets
  {
  }

  /** The eight neighbours of an interior cell: entry k is the cell at
      offset Offsets[k], so each neighbour occurs exactly once. */
  function Neighbours(d: seq<seq<real>>, i: int, j: int): (n: seq<real>)
    requires Rect(d) && Interior(|d|, Width(d), i, j)
    ensures |n| == 8
    ensures forall k | 0 <= k < 8 :: n[k] == d[i + Offsets[k].0][j + Offsets[k].1]
  {
    [d[i - 1][j], d[i + 1][j], d[i][j - 1], d[i][j + 1],
     d[i - 1][j - 1], d[i - 1][j + 1], d[i + 1][j - 1], d[i + 1][j + 1]]
  }

  /** The strictly positive elements of s, in order (the list
      comprehension that keeps `v > 0`). */
  function Positives(s: seq<real>): (p: seq<real>)
    ensures |p| <= |s|
    ensures forall k | 0 <= k < |p| :: p[k] > 0.0
    ensures forall x :: x in p <==> x in s && x > 0.0
    ensures p == [] <==> forall k | 0 <= k < |s| :: s[k] <= 0.0
  {
    if s == [] then []
    else (if s[0] > 0.0 then [s[0]] else []) + Positives(s[1..])
  }

  /** The comprehension keeps every positive value as often as it occurs,
      which the mean depends on. */
  lemma {:induction false} PositivesKeepsMultiplicity(s: seq<real>)
    ensures forall x :: multiset(Positives(s))[x] == if x > 0.0 then multiset(s)[x] else 0
  {
    if s != [] {
      PositivesKeepsMultiplicity(s[1..]);
      assert s == [s[0]] + s[1..];
    }
  }

  function Sum(s: seq<real>): real {
    if s == [] then 0.0 else s[0] + Sum(s[1..])
  }

  /** The arithmetic mean of a non-empty list (np.mean). */
  function Mean(s: seq<real>): (m: real)
    requires |s| > 0
    ensures (|s| as real) * m == Sum(s)
  {
    Sum(s) / (|s| as real)
  }

  /** The value a gap at (i, j) is filled with, given the cell's current
      value v: the mean of the positive neighbours in d when v is exactly
      zero and there is at least one, otherwise v itself. */
  function CellFill(v: real, d: seq<seq<real>>, i: int, j: int): (r: real)
    requires Rect(d) && Interior(|d|, Width(d), i, j)
    ensures v != 0.0 ==> r == v
    ensures v == 0.0 ==> (r > 0.0 <==> exists k | 0 <= k < 8 :: Neighbours(d, i, j)[k] > 0.0)
    ensures v == 0.0 && (forall k | 0 <= k < 8 :: Neighbours(d, i, j)[k] <= 0.0) ==> r == 0.0
  {
    var positives := Positives(Neighbours(d, i, j));
    if v == 0.0 && |positives| > 0 then
      MeanBounds(positives, SeqMin(positives), SeqMax(positives));
      Mean(positives)
    else v
  }

  /** The repaired value of one cell of the sanitised grid d. */
  function RepairedCell(d: seq<seq<real>>, i: int, j: int): (r: real)
    requires Rect(d) && 0 <= i < |d| && 0 <= j < Width(d)
    ensures !Interior(|d|, Width(d), i, j) ==> r == d[i][j]
    ensures d[i][j] != 0.0 ==> r == d[i][j]
  {
    if Interior(|d|, Width(d), i, j) then CellFill(d[i][j], d, i, j) else d[i][j]
  }

  /** The repaired grid: every cell computed from the sanitised grid alone. */
  function Repair(d: seq<seq<real>>): (r: seq<seq<real>>)
    requires Rect(d)
    ensures SameShape(d, r)
    ensures forall i, j | 0 <= i < |d| && 0 <= j < Width(d) && !Interior(|d|, Width(d), i, j) ::
      r[i][j] == d[i][j]
    ensures forall i, j | 0 <= i < |d| && 0 <= j < Width(d) && d[i][j] != 0.0 ::
      r[i][j] == d[i][j]
  {
    seq(|d|, i requires 0 <= i < |d| =>
      seq(Width(d), j requires 0 <= j < Width(d) => RepairedCell(d, i, j)))
  }

  // ---------------------------------------------------------------------
  // Properties of the specification
  // ---------------------------------------------------------------------

  lemma {:induction false} SumBounds(s: seq<real>, lo: real, hi: real)
    requires forall k | 0 <= k < |s| :: lo <= s[k] <= hi
    ensures (|s| as real) * lo <= Sum(s) <= (|s| as real) * hi
  {
    if s != [] {
      SumBounds(s[1..], lo, hi);
    }
  }

  /** The mean of a non-empty list whose elements lie in [lo, hi] lies
      in [lo, hi]. */
  lemma MeanBounds(s: seq<real>, lo: real, hi: real)
    requires |s| > 0
    requires forall k | 0 <= k < |s| :: lo <= s[k] <= hi
    ensures lo <= Mean(s) <= hi
  {
    SumBounds(s, lo, hi);
    DivisionBounds(Sum(s), |s| as real, lo, hi);
  }

  /** The mean of a non-empty list lies between its minimum and maximum. */
  lemma MeanWithinRange(s: seq<real>)
    requires |s| > 0
    ensures SeqMin(s) <= Mean(s) <= SeqMax(s)
  {
    MeanBounds(s, SeqMin(s), SeqMax(s));
  }

  /** A filled gap holds the mean of its positive neighbours, which is
      strictly positive and lies between their minimum and maximum. */
  lemma FilledGapIsMeanOfPositiveNeighbours(d: seq<seq<real>>, i: int, j: int)
    requires Rect(d) && Interior(|d|, Width(d), i, j) && d[i][j] == 0.0
    requires exists k | 0 <= k < 8 :: Neighbours(d, i, j)[k] > 0.0
    ensures var p := Positives(Neighbours(d, i, j));
      |p| > 0 && Repair(d)[i][j] == Mean(p) &&
      0.0 < SeqMin(p) <= Repair(d)[i][j] <= SeqMax(p)
  {
    var n := Neighbours(d, i, j);
    var p := Positives(n);
    var k :| 0 <= k < 8 && n[k] > 0.0;
    assert n[k] in p;
    assert Repair(d)[i][j] == RepairedCell(d, i, j) == Mean(p);
    MeanWithinRange(p);
  }

  /** A gap none of whose neighbours is strictly positive stays at 0. */
  lemma GapWithoutPositiveNeighbourStaysZero(d: seq<seq<real>>, i: int, j: int)
    requires Rect(d) && Interior(|d|, Width(d), i, j) && d[i][j] == 0.0
    requires forall k | 0 <= k < 8 :: Neighbours(d, i, j)[k] <= 0.0
    ensures Repair(d)[i][j] == 0.0
  {
  }

  /** A single gap surrounded by eight cells of the same positive value
      c is filled with c (for instance a zero at the centre of a 5x5 grid
      of tens becomes 10). */
  lemma UniformRingFillsGap(d: seq<seq<real>>, i: int, j: int, c: real)
    requires Rect(d) && Interior(|d|, Width(d), i, j) && d[i][j] == 0.0 && c > 0.0
    requires forall k | 0 <= k < 8 :: Neighbours(d, i, j)[k] == c
    ensures Repair(d)[i][j] == c
  {
    var n := Neighbours(d, i, j);
    PositivesOfConstant(n, c);
    MeanOfConstant(n, c);
    assert Repair(d)[i][j] == RepairedCell(d, i, j);
  }

  lemma MeanOfConstant(s: seq<real>, c: real)
    requires |s| > 0 && forall k | 0 <= k < |s| :: s[k] == c
    ensures Mean(s) == c
  {
    SumOfConstant(s, c);
    DivisionBounds(Sum(s), |s| as real, c, c);
  }

  lemma {:induction false} PositivesOfConstant(s: seq<real>, c: real)
    requires c > 0.0 && forall k | 0 <= k < |s| :: s[k] == c
    ensures Positives(s) == s
  {
    if s != [] {
      PositivesOfConstant(s[1..], c);
    }
  }

  lemma {:induction false} SumOfConstant(s: seq<real>, c: real)
    requires forall k | 0 <= k < |s| :: s[k] == c
    ensures Sum(s) == (|s| as real) * c
  {
    if s != [] {
      SumOfConstant(s[1..], c);
    }
  }

  /** A grid with fewer than 3 rows or 3 columns has no interior, so it
      comes back equal to its sanitised self. */
  lemma SmallGridIsUnchanged(d: seq<seq<real>>)
    requires Rect(d) && (|d| < 3 || Width(d) < 3)
    ensures Repair(d) == d
  {
    var r := Repair(d);
    assert forall i | 0 <= i < |d| :: r[i] == d[i];
  }

  /** Without any gap the repair changes nothing: it is a fixpoint. */
  lemma GapFreeGridIsFixpoint(d: seq<seq<real>>)
    requires Rect(d)
    requires forall i, j | 0 <= i < |d| && 0 <= j < Width(d) :: d[i][j] != 0.0
    ensures Repair(d) == d
  {
    var r := Repair(d);
    assert forall i | 0 <= i < |d| :: r[i] == d[i];
  }

  /** Repairing twice changes only cells the first pass left at zero; in
      particular, once no zero is left, a second repair is the identity. */
  lemma RepairTwiceTouchesOnlyRemainingGaps(d: seq<seq<real>>)
    requires Rect(d)
    ensures var r := Repair(d);
      forall i, j | 0 <= i < |d| && 0 <= j < Width(d) && r[i][j] != 0.0 ::
        Repair(r)[i][j] == r[i][j]
    ensures var r := Repair(d);
      (forall i, j | 0 <= i < |d| && 0 <= j < Width(d) :: r[i][j] != 0.0) ==> Repair(r) == r
  {
    var r := Repair(d);
    if forall i, j | 0 <= i < |d| && 0 <= j < Width(d) :: r[i][j] != 0.0 {
      GapFreeGridIsFixpoint(r);
    }
  }

  /** The repaired value of a cell depends only on the cell and its eight
      neighbours: two grids that agree on that 3x3 window repair it alike. */
  lemma RepairIsLocal(d: seq<seq<real>>, e: seq<seq<real>>, i: int, j: int)
    requires SameShape(d, e) && 0 <= i < |d| && 0 <= j < Width(d)
    requires forall a, b | 0 <= a < |d| && 0 <= b < Width(d) && i - 1 <= a <= i + 1 && j - 1 <= b <= j + 1 ::
      d[a][b] == e[a][b]
    ensures Repair(d)[i][j] == Repair(e)[i][j]
  {
    if Interior(|d|, Width(d), i, j) {
      assert Neighbours(d, i, j) == Neighbours(e, i, j);
    }
  }

  // ---------------------------------------------------------------------
  // Order independence
  // ---------------------------------------------------------------------

  /** One step of the loop body at cell c: the cell's current value is read
      from f (the copy being filled), the neighbours from d. */
  function FillStep(f: seq<seq<real>>, d: seq<seq<real>>, c: (int, int)): (f': seq<seq<real>>)
    requires SameShape(f, d) && Interior(|d|, Width(d), c.0, c.1)
    ensures SameShape(f', d)
    ensures forall a, b | 0 <= a < |d| && 0 <= b < Width(d) && (a, b) != c :: f'[a][b] == f[a][b]
    ensures f'[c.0][c.1] == CellFill(f[c.0][c.1], d, c.0, c.1)
  {
    f[c.0 := f[c.0][c.1 := CellFill(f[c.0][c.1], d, c.0, c.1)]]
  }

  predicate AllInterior(d: seq<seq<real>>, order: seq<(int, int)>) {
    forall k | 0 <= k < |order| :: Interior(|d|, Width(d), order[k].0, order[k].1)
  }

  /** The loop body applied to the cells of order, one after the other. */
  function FillInOrder(f: seq<seq<real>>, d: seq<seq<real>>, order: seq<(int, int)>): (f': seq<seq<real>>)
    requires SameShape(f, d) && AllInterior(d, order)
    ensures SameShape(f', d)
    ensures forall a, b | 0 <= a < |d| && 0 <= b < Width(d) && (a, b) !in order :: f'[a][b] == f[a][b]
    decreases |order|
  {
    if order == [] then f else FillInOrder(FillStep(f, d, order[0]), d, order[1..])
  }

  /** Filling a cell a second time changes nothing, because a filled gap is
      no longer zero. */
  lemma CellFillIsIdempotent(v: real, d: seq<seq<real>>, i: int, j: int)
    requires Rect(d) && Interior(|d|, Width(d), i, j)
    ensures CellFill(CellFill(v, d, i, j), d, i, j) == CellFill(v, d, i, j)
  {
    var p := Positives(Neighbours(d, i, j));
    if v == 0.0 && |p| > 0 {
      MeanWithinRange(p);
    }
  }

  lemma {:induction false} FillInOrderAt(f: seq<seq<real>>, d: seq<seq<real>>, order: seq<(int, int)>, i: int, j: int)
    requires SameShape(f, d) && AllInterior(d, order)
    requires 0 <= i < |d| && 0 <= j < Width(d)
    ensures FillInOrder(f, d, order)[i][j] ==
      if (i, j) in order then CellFill(f[i][j], d, i, j) else f[i][j]
    decreases |order|
  {
    if order != [] {
      var f1 := FillStep(f, d, order[0]);
      FillInOrderAt(f1, d, order[1..], i, j);
      assert (i, j) in order <==> (i, j) == order[0] || (i, j) in order[1..];
      if (i, j) == order[0] {
        CellFillIsIdempotent(f[i][j], d, i, j);
      }
    }
  }

  /** Visiting the interior cells in ANY order, even with repetitions,
      gives the repaired grid: no step reads a value an earlier step wrote. */
  lemma AnyOrderGivesRepair(d: seq<seq<real>>, order: seq<(int, int)>)
    requires Rect(d) && AllInterior(d, order)
    requires forall i, j | Interior(|d|, Width(d), i, j) :: (i, j) in order
    ensures FillInOrder(d, d, order) == Repair(d)
  {
    var f, r := FillInOrder(d, d, order), Repair(d);
    forall i, j | 0 <= i < |d| && 0 <= j < Width(d)
      ensures f[i][j] == r[i][j]
    {
      FillInOrderAt(d, d, order, i, j);
    }
    assert forall i | 0 <= i < |d| :: f[i] == r[i];
  }

  // ---------------------------------------------------------------------
  // The imperative gap filler
  // ---------------------------------------------------------------------

  /** np.nan_to_num(data, nan=0.0): a new array, the input untouched. */
  method NanToNumArray(raw: array2<Sample>) returns (data: array2<real>)
    ensures fresh(data)
    ensures data.Length0 == raw.Length0 && data.Length1 == raw.Length1
    ensures forall i, j | 0 <= i < raw.Length0 && 0 <= j < raw.Length1 :: data[i, j] == Sanitize(raw[i, j])
  {
    data := new real[raw.Length0, raw.Length1]((i, j) requires 0 <= i < raw.Length0 && 0 <= j < raw.Length1 reads raw => Sanitize(raw[i, j]));
  }

  /** data.copy(). */
  method CopyGrid(data: array2<real>) returns (copy: array2<real>)
    ensures fresh(copy)
    ensures copy.Length0 == data.Length0 && copy.Length1 == data.Length1
    ensures forall i, j | 0 <= i < data.Length0 && 0 <= j < data.Length1 :: copy[i, j] == data[i, j]
  {
    copy := new real[data.Length0, data.Length1]((i, j) requires 0 <= i < data.Length0 && 0 <= j < data.Length1 reads data => data[i, j]);
  }

  /** Whether the array a holds the grid d. */
  ghost predicate Holds(a: array2<real>, d: seq<seq<real>>)
    reads a
  {
    Rect(d) && |d| == a.Length0 && (|d| > 0 ==> Width(d) == a.Length1) &&
    forall i, j | 0 <= i < a.Length0 && 0 <= j < a.Length1 :: a[i, j] == d[i][j]
  }

  lemma HoldsIsCells(a: array2<real>, d: seq<seq<real>>)
    requires Holds(a, d)
    ensures Cells(a) == d
  {
    var c := Cells(a);
    assert forall i | 0 <= i < |d| :: c[i] == d[i];
  }

  /** The inner loop (over j) for one interior row i of the copy. */
  method FillRow(data: array2<real>, filled: array2<real>, ghost d: seq<seq<real>>, i: int)
    requires Holds(data, d) && data != filled
    requires filled.Length0 == data.Length0 && filled.Length1 == data.Length1
    requires 0 < i < data.Length0 - 1
    requires forall b | 0 <= b < data.Length1 :: filled[i, b] == d[i][b]
    modifies filled
    ensures forall a, b | 0 <= a < data.Length0 && 0 <= b < data.Length1 ::
      filled[a, b] == if a == i then RepairedCell(d, a, b) else old(filled[a, b])
  {
    var cols := data.Length1;
    var j := 1;
    while j < cols - 1
      invariant 1 <= j && (cols >= 2 ==> j <= cols - 1)
      invariant forall a, b | 0 <= a < data.Length0 && 0 <= b < cols ::
        filled[a, b] == if a == i && b < j then RepairedCell(d, a, b) else old(filled[a, b])
    {
      if filled[i, j] == 0.0 {
        var neighbours := [data[i - 1, j], data[i + 1, j], data[i, j - 1], data[i, j + 1],
                           data[i - 1, j - 1], data[i - 1, j + 1], data[i + 1, j - 1], data[i + 1, j + 1]];
        assert neighbours == Neighbours(d, i, j);
        var positives := Positives(neighbours);
        if |positives| > 0 {
          filled[i, j] := Mean(positives);
        }
      }
      j := j + 1;
    }
  }

  /** remplir_pixels_manquants: sanitise, copy, then fill the zero interior
      cells of the copy row by row, reading neighbours from the sanitised
      grid. The result is the repaired grid; the input is not modified. */
  method FillMissingPixels(raw: array2<Sample>) returns (filled: array2<real>)
    ensures fresh(filled)
    ensures filled.Length0 == raw.Length0 && filled.Length1 == raw.Length1
    ensures Cells(filled) == Repair(NanToNum(Cells(raw)))
  {
    var data := NanToNumArray(raw);
    filled := CopyGrid(data);
    var rows, cols := data.Length0, data.Length1;
    ghost var d := NanToNum(Cells(raw));
    assert Holds(data, d);

    var i := 1;
    while i < rows - 1
      invariant 1 <= i && (rows >= 2 ==> i <= rows - 1)
      modifies filled
      invariant forall a, b | 0 <= a < rows && 0 <= b < cols ::
        filled[a, b] == if a < i then RepairedCell(d, a, b) else d[a][b]
    {
      FillRow(data, filled, d, i);
      i := i + 1;
    }

    HoldsIsCells(filled, Repair(d));
  }
}
