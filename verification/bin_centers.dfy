/**
 The bin-centre extractor of the polygon-gate builder: a 300 x 300 histogram
 of a pair's high-similarity events, thresholded at the 5% quantile of its
 non-empty bins, reduced to the centres of the bins above the threshold.
 */
module BinCenters {
  import opened Common

  /** Bins per axis of the density histogram. */
  const Bins: nat := 300

  /** The quantile level of the density threshold. */
  const Tail: real := 0.05

  /**
   numpy's `histogram2d(x, y)`: `counts[i][j]` events have x in x-bin i and
   y in y-bin j; bin k of an axis lies between edges k and k + 1.
   */
  datatype Histogram2D = Histogram2D(counts: seq<seq<nat>>, xEdges: seq<real>, yEdges: seq<real>)

  /** A count matrix with `rows` rows of `cols` entries each. */
  predicate Rectangular(m: seq<seq<nat>>, rows: nat, cols: nat)
  {
    |m| == rows && forall i :: 0 <= i < rows ==> |m[i]| == cols
  }

  /** The library calls the extractor makes, with the bin count fixed at `Bins`. */
  datatype HistogramLibrary = HistogramLibrary(
    histogram2d: (seq<real>, seq<real>) -> Histogram2D,
    quantile: (seq<real>, real) -> real)

  /**
   What numpy guarantees: a histogram with `Bins` bins per axis and one more
   edge than bins, and a quantile never below the sample's minimum.
   */
  ghost predicate Sound(lib: HistogramLibrary)
  {
    (forall x, y ::
      var h := lib.histogram2d(x, y);
      Rectangular(h.counts, Bins, Bins) && |h.xEdges| == Bins + 1 && |h.yEdges| == Bins + 1) &&
    QuantileAtLeastMin(lib.quantile, Tail)
  }

  /** The matrix with rows and columns exchanged (`hist.T`). */
  function Transpose(m: seq<seq<nat>>, rows: nat, cols: nat): (t: seq<seq<nat>>)
    requires Rectangular(m, rows, cols)
    ensures Rectangular(t, cols, rows)
    ensures forall j, i :: 0 <= j < cols && 0 <= i < rows ==> t[j][i] == m[i][j]
  {
    seq(cols, j requires 0 <= j < cols => seq(rows, i requires 0 <= i < rows => m[i][j]))
  }

  /** Exchanging rows and columns twice gives the matrix back. */
  lemma TransposeTwice(m: seq<seq<nat>>, rows: nat, cols: nat)
    requires Rectangular(m, rows, cols)
    ensures Transpose(Transpose(m, rows, cols), cols, rows) == m
  {
    var tt := Transpose(Transpose(m, rows, cols), cols, rows);
    forall i | 0 <= i < rows ensures tt[i] == m[i] {
      assert |tt[i]| == |m[i]|;
    }
  }

  /** The midpoints of consecutive edges (`(edges[:-1] + edges[1:]) / 2`). */
  function Centers(edges: seq<real>): (c: seq<real>)
    requires |edges| > 0
    ensures |c| == |edges| - 1
    ensures forall k :: 0 <= k < |c| && edges[k] < edges[k + 1] ==> edges[k] < c[k] < edges[k + 1]
    ensures forall k :: 0 <= k < |c| ==> c[k] - edges[k] == edges[k + 1] - c[k]
  {
    seq(|edges| - 1, k requires 0 <= k < |edges| - 1 => (edges[k] + edges[k + 1]) / 2.0)
  }

  /** Column 0 or column 1 of a two-column array of events. */
  function Column0(data: seq<Point>): (c: seq<real>)
    ensures |c| == |data| && forall k :: 0 <= k < |data| ==> c[k] == data[k].x0
  {
    seq(|data|, k requires 0 <= k < |data| => data[k].x0)
  }

  function Column1(data: seq<Point>): (c: seq<real>)
    ensures |c| == |data| && forall k :: 0 <= k < |data| ==> c[k] == data[k].x1
  {
    seq(|data|, k requires 0 <= k < |data| => data[k].x1)
  }

  /** A position in a count grid. */
  datatype Cell = Cell(row: nat, col: nat)

  /** Row-major order: `a` comes before `b` in `ravel` order. */
  predicate Before(a: Cell, b: Cell)
  {
    a.row < b.row || (a.row == b.row && a.col < b.col)
  }

  predicate RowMajor(cells: seq<Cell>)
  {
    forall k, l :: 0 <= k < l < |cells| ==> Before(cells[k], cells[l])
  }

  /** The cells among the first `n` of row `j` whose count exceeds `thr`, left to right. */
  function RowCells(row: seq<nat>, j: nat, thr: real, n: nat): seq<Cell>
    requires n <= |row|
  {
    if n == 0 then []
    else RowCells(row, j, thr, n - 1) + (if row[n - 1] as real > thr then [Cell(j, n - 1)] else [])
  }

  /** The cells of the first `m` rows whose count exceeds `thr`, in row-major order. */
  function GridCells(grid: seq<seq<nat>>, thr: real, m: nat): seq<Cell>
    requires m <= |grid|
  {
    if m == 0 then []
    else GridCells(grid, thr, m - 1) + RowCells(grid[m - 1], m - 1, thr, |grid[m - 1]|)
  }

  /** All cells whose count exceeds `thr` (`grid > thr` as a mask, read in `ravel` order). */
  function CellsAbove(grid: seq<seq<nat>>, thr: real): seq<Cell>
  {
    GridCells(grid, thr, |grid|)
  }

  predicate InGrid(grid: seq<seq<nat>>, c: Cell)
  {
    c.row < |grid| && c.col < |grid[c.row]|
  }

  lemma {:induction false} RowCellsMember(row: seq<nat>, j: nat, thr: real, n: nat, c: Cell)
    requires n <= |row|
    ensures c in RowCells(row, j, thr, n) <==> c.row == j && c.col < n && row[c.col] as real > thr
  {
    if n > 0 {
      RowCellsMember(row, j, thr, n - 1, c);
    }
  }

  /** A cell is selected exactly when it lies in the grid and its count exceeds the threshold. */
  lemma {:induction false} GridCellsMember(grid: seq<seq<nat>>, thr: real, m: nat, c: Cell)
    requires m <= |grid|
    ensures c in GridCells(grid, thr, m) <==>
      c.row < m && c.col < |grid[c.row]| && grid[c.row][c.col] as real > thr
  {
    if m > 0 {
      var front, row := GridCells(grid, thr, m - 1), RowCells(grid[m - 1], m - 1, thr, |grid[m - 1]|);
      assert GridCells(grid, thr, m) == front + row;
      assert c in front + row <==> c in front || c in row;
      GridCellsMember(grid, thr, m - 1, c);
      RowCellsMember(grid[m - 1], m - 1, thr, |grid[m - 1]|, c);
      if c.row == m - 1 {
        assert grid[c.row] == grid[m - 1];
      }
    }
  }

  lemma CellsAboveMember(grid: seq<seq<nat>>, thr: real, c: Cell)
    ensures c in CellsAbove(grid, thr) <==> InGrid(grid, c) && grid[c.row][c.col] as real > thr
  {
    GridCellsMember(grid, thr, |grid|, c);
  }

  lemma {:induction false} RowCellsRowMajor(row: seq<nat>, j: nat, thr: real, n: nat)
    requires n <= |row|
    ensures RowMajor(RowCells(row, j, thr, n))
    ensures forall k :: 0 <= k < |RowCells(row, j, thr, n)| ==>
      RowCells(row, j, thr, n)[k].row == j && RowCells(row, j, thr, n)[k].col < n
  {
    if n > 0 {
      RowCellsRowMajor(row, j, thr, n - 1);
    }
  }

  /** The selected cells are listed in strictly increasing row-major order. */
  lemma {:induction false} GridCellsRowMajor(grid: seq<seq<nat>>, thr: real, m: nat)
    requires m <= |grid|
    ensures RowMajor(GridCells(grid, thr, m))
    ensures forall k :: 0 <= k < |GridCells(grid, thr, m)| ==> GridCells(grid, thr, m)[k].row < m
  {
    if m > 0 {
      GridCellsRowMajor(grid, thr, m - 1);
      RowCellsRowMajor(grid[m - 1], m - 1, thr, |grid[m - 1]|);
    }
  }

  lemma {:induction false} RowCellsAntitone(row: seq<nat>, j: nat, lo: real, hi: real, n: nat)
    requires n <= |row| && lo <= hi
    ensures |RowCells(row, j, hi, n)| <= |RowCells(row, j, lo, n)|
  {
    if n > 0 {
      RowCellsAntitone(row, j, lo, hi, n - 1);
    }
  }

  /** Raising the threshold never selects more cells. */
  lemma {:induction false} GridCellsAntitone(grid: seq<seq<nat>>, lo: real, hi: real, m: nat)
    requires m <= |grid| && lo <= hi
    ensures |GridCells(grid, hi, m)| <= |GridCells(grid, lo, m)|
  {
    if m > 0 {
      GridCellsAntitone(grid, lo, hi, m - 1);
      RowCellsAntitone(grid[m - 1], m - 1, lo, hi, |grid[m - 1]|);
    }
  }

  /** The counts of the non-empty cells, in row-major order (`hist[hist > 0].ravel()`). */
  function PositiveCounts(grid: seq<seq<nat>>): (pos: seq<real>)
    ensures var cells := CellsAbove(grid, 0.0);
      |pos| == |cells| &&
      forall k :: 0 <= k < |cells| ==> InGrid(grid, cells[k]) && pos[k] == grid[cells[k].row][cells[k].col] as real
  {
    var cells := CellsAbove(grid, 0.0);
    forall k | 0 <= k < |cells| ensures InGrid(grid, cells[k]) {
      CellsAboveMember(grid, 0.0, cells[k]);
    }
    seq(|cells|, k requires 0 <= k < |cells| && InGrid(grid, cells[k]) => grid[cells[k].row][cells[k].col] as real)
  }

  /** The centre `(y, x)` of every listed cell: row `j` is y-bin `j`, column `i` is x-bin `i`. */
  function CentersOf(cells: seq<Cell>, yCenters: seq<real>, xCenters: seq<real>): (pts: seq<Point>)
    requires forall k :: 0 <= k < |cells| ==> cells[k].row < |yCenters| && cells[k].col < |xCenters|
    ensures |pts| == |cells|
    ensures forall k :: 0 <= k < |cells| ==> pts[k] == Point(yCenters[cells[k].row], xCenters[cells[k].col])
  {
    seq(|cells|, k requires 0 <= k < |cells| => Point(yCenters[cells[k].row], xCenters[cells[k].col]))
  }

  /** Why extraction aborts: no bin holds an event, so the quantile has no data. */
  datatype BinError = NoPositiveBins

  /**
   The grid the threshold is applied to: the histogram is taken on
   (column 1, column 0) and transposed, so row j is bin j of column 0 and
   column i is bin i of column 1.
   */
  function DensityGrid(data: seq<Point>, lib: HistogramLibrary): (grid: seq<seq<nat>>)
    requires Sound(lib)
    ensures Rectangular(grid, Bins, Bins)
    ensures var h := lib.histogram2d(Column1(data), Column0(data));
      forall j, i :: 0 <= j < Bins && 0 <= i < Bins ==> grid[j][i] == h.counts[i][j]
  {
    Transpose(lib.histogram2d(Column1(data), Column0(data)).counts, Bins, Bins)
  }

  /** A square grid has no non-empty cell exactly when all its counts are zero. */
  lemma NoPositiveIffAllEmpty(grid: seq<seq<nat>>)
    requires Rectangular(grid, Bins, Bins)
    ensures |PositiveCounts(grid)| == 0 <==> forall j, i :: 0 <= j < Bins && 0 <= i < Bins ==> grid[j][i] == 0
  {
    var cells := CellsAbove(grid, 0.0);
    if |cells| > 0 {
      CellsAboveMember(grid, 0.0, cells[0]);
    } else {
      forall j, i | 0 <= j < Bins && 0 <= i < Bins ensures grid[j][i] == 0 {
        CellsAboveMember(grid, 0.0, Cell(j, i));
      }
    }
  }

  /** No event of the data falls in any bin of its density grid. */
  ghost predicate AllBinsEmpty(data: seq<Point>, lib: HistogramLibrary)
    requires Sound(lib)
  {
    forall j, i :: 0 <= j < Bins && 0 <= i < Bins ==> DensityGrid(data, lib)[j][i] == 0
  }

  /**
   `get_bin_centers` as a value: the centres of the bins whose count exceeds
   the threshold. It fails (the quantile of no counts raises) exactly when
   every bin is empty, and keeps no more centres than there are non-empty bins.
   */
  function BinCentersOf(data: seq<Point>, lib: HistogramLibrary): (r: Result<seq<Point>, BinError>)
    requires Sound(lib)
    ensures r.Failure? <==> AllBinsEmpty(data, lib)
    ensures r.Success? ==> |r.value| <= |PositiveCounts(DensityGrid(data, lib))|
  {
    var h := lib.histogram2d(Column1(data), Column0(data));
    var grid := DensityGrid(data, lib);
    var pos := PositiveCounts(grid);
    NoPositiveIffAllEmpty(grid);
    if |pos| == 0 then Failure(NoPositiveBins)
    else
      var thr := lib.quantile(pos, Tail);
      var cells := CellsAbove(grid, thr);
      forall k | 0 <= k < |cells| ensures cells[k].row < Bins && cells[k].col < Bins {
        CellsAboveMember(grid, thr, cells[k]);
      }
      ThresholdAtLeastOne(data, lib);
      Success(CentersOf(cells, Centers(h.yEdges), Centers(h.xEdges)))
  }

  /** The threshold of a grid with a non-empty bin. */
  function Threshold(data: seq<Point>, lib: HistogramLibrary): real
    requires Sound(lib) && |PositiveCounts(DensityGrid(data, lib))| > 0
  {
    lib.quantile(PositiveCounts(DensityGrid(data, lib)), Tail)
  }

  /** Every count of a non-empty bin is at least one. */
  lemma PositiveCountsAtLeastOne(grid: seq<seq<nat>>)
    ensures forall k :: 0 <= k < |PositiveCounts(grid)| ==> PositiveCounts(grid)[k] >= 1.0
  {
    var pos := PositiveCounts(grid);
    var cells := CellsAbove(grid, 0.0);
    forall k | 0 <= k < |pos| ensures pos[k] >= 1.0 {
      CellsAboveMember(grid, 0.0, cells[k]);
    }
  }

  /**
   The threshold is a quantile of counts that are all at least one, so it
   is at least one itself: every kept bin holds two events or more, and no
   more bins are kept than there are non-empty bins.
   */
  lemma ThresholdAtLeastOne(data: seq<Point>, lib: HistogramLibrary)
    requires Sound(lib) && |PositiveCounts(DensityGrid(data, lib))| > 0
    ensures Threshold(data, lib) >= 1.0
    ensures forall c :: c in CellsAbove(DensityGrid(data, lib), Threshold(data, lib)) ==>
      InGrid(DensityGrid(data, lib), c) && DensityGrid(data, lib)[c.row][c.col] >= 2
    ensures |CellsAbove(DensityGrid(data, lib), Threshold(data, lib))| <= |PositiveCounts(DensityGrid(data, lib))|
  {
    var grid := DensityGrid(data, lib);
    var pos := PositiveCounts(grid);
    PositiveCountsAtLeastOne(grid);
    var thr := Threshold(data, lib);
    assert Min(pos) <= thr;
    KeptAboveOne(grid, thr);
  }

  lemma KeptAboveOne(grid: seq<seq<nat>>, thr: real)
    requires thr >= 1.0
    ensures forall c :: c in CellsAbove(grid, thr) ==> InGrid(grid, c) && grid[c.row][c.col] >= 2
    ensures |CellsAbove(grid, thr)| <= |PositiveCounts(grid)|
  {
    forall c | c in CellsAbove(grid, thr)
      ensures InGrid(grid, c) && grid[c.row][c.col] >= 2
    {
      CellsAboveMember(grid, thr, c);
    }
    GridCellsAntitone(grid, 0.0, thr, |grid|);
  }

  /**
   The extracted centres are exactly the centres of the kept bins, listed in
   row-major order: centre k is that of the k-th kept cell, a cell with a
   count above the threshold, and every such cell is listed.
   */
  lemma BinCentersContents(data: seq<Point>, lib: HistogramLibrary)
    requires Sound(lib) && BinCentersOf(data, lib).Success?
    ensures |PositiveCounts(DensityGrid(data, lib))| > 0
    ensures var grid := DensityGrid(data, lib);
      var cells := CellsAbove(grid, Threshold(data, lib));
      var h := lib.histogram2d(Column1(data), Column0(data));
      var pts := BinCentersOf(data, lib).value;
      RowMajor(cells) && |pts| == |cells| &&
      (forall k :: 0 <= k < |cells| ==>
        InGrid(grid, cells[k]) && grid[cells[k].row][cells[k].col] as real > Threshold(data, lib) &&
        pts[k] == Point(Centers(h.yEdges)[cells[k].row], Centers(h.xEdges)[cells[k].col])) &&
      (forall j, i :: 0 <= j < Bins && 0 <= i < Bins && grid[j][i] as real > Threshold(data, lib) ==>
        Cell(j, i) in cells)
  {
    var grid := DensityGrid(data, lib);
    var thr := Threshold(data, lib);
    var cells := CellsAbove(grid, thr);
    GridCellsRowMajor(grid, thr, |grid|);
    forall k | 0 <= k < |cells|
      ensures InGrid(grid, cells[k]) && grid[cells[k].row][cells[k].col] as real > thr
    {
      CellsAboveMember(grid, thr, cells[k]);
    }
    forall j, i | 0 <= j < Bins && 0 <= i < Bins && grid[j][i] as real > thr
      ensures Cell(j, i) in cells
    {
      CellsAboveMember(grid, thr, Cell(j, i));
    }
  }

  /** `hist_mask[hist > hist_threshold] = 1` on a fresh all-false mask. */
  method ThresholdMask(grid: seq<seq<nat>>, thr: real) returns (mask: array2<bool>)
    requires Rectangular(grid, Bins, Bins)
    ensures fresh(mask) && mask.Length0 == Bins && mask.Length1 == Bins
    ensures forall a, b :: 0 <= a < Bins && 0 <= b < Bins ==> mask[a, b] == (grid[a][b] as real > thr)
  {
    mask := new bool[Bins, Bins]((_, _) => false);
    var j := 0;
    while j < Bins
      invariant 0 <= j <= Bins
      invariant forall a, b :: 0 <= a < Bins && 0 <= b < Bins ==>
        mask[a, b] == (a < j && grid[a][b] as real > thr)
    {
      var i := 0;
      while i < Bins
        invariant 0 <= i <= Bins
        invariant forall a, b :: 0 <= a < Bins && 0 <= b < Bins ==>
          mask[a, b] == ((a < j || (a == j && b < i)) && grid[a][b] as real > thr)
      {
        if grid[j][i] as real > thr {
          mask[j, i] := true;
        }
        i := i + 1;
      }
      j := j + 1;
    }
  }

  /** `bin_centers[hist_mask]`: the centres of the masked bins in row-major order. */
  method MaskedCenters(mask: array2<bool>, grid: seq<seq<nat>>, thr: real, yCenters: seq<real>, xCenters: seq<real>)
    returns (centers: seq<Point>)
    requires Rectangular(grid, Bins, Bins) && |yCenters| == Bins && |xCenters| == Bins
    requires mask.Length0 == Bins && mask.Length1 == Bins
    requires forall a, b :: 0 <= a < Bins && 0 <= b < Bins ==> mask[a, b] == (grid[a][b] as real > thr)
    ensures var cells := CellsAbove(grid, thr);
      (forall k :: 0 <= k < |cells| ==> cells[k].row < Bins && cells[k].col < Bins) &&
      centers == CentersOf(cells, yCenters, xCenters)
  {
    centers := [];
    ghost var cells: seq<Cell> := [];
    var j := 0;
    while j < Bins
      invariant 0 <= j <= Bins
      invariant cells == GridCells(grid, thr, j)
      invariant forall k :: 0 <= k < |cells| ==> cells[k].row < Bins && cells[k].col < Bins
      invariant centers == CentersOf(cells, yCenters, xCenters)
    {
      var i := 0;
      while i < Bins
        invariant 0 <= i <= Bins
        invariant cells == GridCells(grid, thr, j) + RowCells(grid[j], j, thr, i)
        invariant forall k :: 0 <= k < |cells| ==> cells[k].row < Bins && cells[k].col < Bins
        invariant centers == CentersOf(cells, yCenters, xCenters)
      {
        if mask[j, i] {
          centers := centers + [Point(yCenters[j], xCenters[i])];
          cells := cells + [Cell(j, i)];
        }
        i := i + 1;
      }
      j := j + 1;
    }
  }

  /**
   `get_bin_centers`: threshold the transposed histogram into a boolean
   mask, then read the centres of the masked bins in row-major order.
   */
  method GetBinCenters(data: seq<Point>, lib: HistogramLibrary) returns (r: Result<seq<Point>, BinError>)
    requires Sound(lib)
    ensures r == BinCentersOf(data, lib)
  {
    var h := lib.histogram2d(Column1(data), Column0(data));
    var grid := DensityGrid(data, lib);
    var pos := PositiveCounts(grid);
    if |pos| == 0 {
      return Failure(NoPositiveBins);
    }
    var thr := lib.quantile(pos, Tail);
    var mask := ThresholdMask(grid, thr);
    var centers := MaskedCenters(mask, grid, thr, Centers(h.yEdges), Centers(h.xEdges));
    r := Success(centers);
  }
}
