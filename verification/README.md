# Polygon gating of flow-cytometry channel pairs — a Dafny model

The pipeline ranks pairs of measurement channels by how well a polygon gate
drawn in the pair's plane separates "positive" from "negative" events.

- Each channel is put on a logicle (biexponential) scale. Its four
  parameters T, M, W and A are estimated from the channel's data.
- For every candidate pair:
  - the high-similarity positive events are binned into a 300 × 300
    histogram;
  - bins above the 5 % quantile of the non-empty bin counts are kept;
  - the convex hull of the kept bin centres becomes the pair's gate.
- Each gate is mapped back to raw scale with the inverse logicle transforms.
- The gating engine counts the true positives (TP) and false positives (FP)
  inside the gate. The pair is scored by its precision 100·TP/(TP+FP),
  rounded to two decimals.
- The table of pairs is ranked by precision.
- Before any of this, a sample table is screened. Columns with too many
  missing values, or with constant values, are listed for dropping.

The model has seven modules:

- `Common`: options, results, points, channel pairs, and mapping a raising
  step over a list.
- `Logicle`: the transform record and the parameter estimator.
- `Data`: the column screen.
- `BinCenters`: the bin-centre extractor.
- `Geometry`: the polygon centroid and polygon scaling.
- `PolygonGates`: the gate builder and the inverse mapping of a gate.
- `PrecisionScoring`: the scoring and ranking of the pairs.

Every numeric library is a parameter of the model, never code:

- the logicle solver;
- `log10`, `10 **`, `round(·, 1)` and quantiles;
- `histogram2d`;
- the convex hull;
- the gating engine;
- `allclose`.

The facts the proofs rely on are stated as predicates named `Sound`. The
estimator relies on monotonicity of `log10`, `10 **` and `round`. The
extractor relies on the histogram's shape and on "a quantile is never below
the minimum".

Where Python raises, the model returns a `Failure` carrying the reason:

- a missing column or parameter row;
- a column label that names several columns (`AmbiguousLabel`);
- a high-similarity mask whose length differs from the row count
  (`MaskLengthMismatch`);
- a pair position beyond the polygon list (`MissingPolygon`);
- empty data;
- a histogram with no non-empty bin;
- a polygon of zero signed area, whose centroid average has zero weights
  (`ZeroArea`);
- one of the estimator's asserts.

Where the source catches the exception, the model returns `None`. That
happens only around the convex hull.

Two behaviours follow the code rather than the usual description of the
pipeline:

- **Zero gated events is not an error.** TP and FP are numpy integer sums,
  so `tp * 100 / (tp + fp)` with TP = FP = 0 gives NaN, not an exception.
  The precision is then `Undefined`, and pandas ranks such rows last.
- **The ranking's tie order is the model's own.** `sort_values` uses its
  default quicksort, which promises no order among equal precisions. The
  model ranks with a stable insertion sort. What holds for every order
  pandas may choose is stated separately: the table is ranked and a
  permutation of the rows, and the order is unique when no two precisions
  coincide.

## Model

| member | source | states |
|---|---|---|
| `Logicle.LogicleTransform.GetParams` | logicle_scaling.py:28-32 | The four parameters come back in constructor order (T, M, W, A); rebuilding a transform from them gives the same transform. |
| `Logicle.LogicleTransform.Call` | logicle_scaling.py:14-19 | The forward transform keeps the length of the data. Entry i is the solver's value for this transform at data[i]. |
| `Logicle.LogicleTransform.Inverse` | logicle_scaling.py:21-26 | The inverse transform keeps the length. Entry i is the solver's inverse for this transform at data[i]. |
| `Logicle.TopDecade` | logicle_scaling.py:43-46 | When the data's maximum is at most 1, the top decade is exactly 0.1. |
| `Logicle.Decades` | logicle_scaling.py:50 | M is below the top decade. It exceeds 0.8 when the top decade exceeds 1. It is positive whenever the top decade exceeds 0.01. |
| `Logicle.EstimateParams` | logicle_scaling.py:42-61 | Fails with EmptyData exactly on empty data. On success T > 1, M > 0 and W ≥ 0.05. A = 0.25 exactly when the lower 5 % quantile r has \|r\| > 1, and A = 0.05 exactly when \|r\| ≤ 1; in that case W = 0.05. The assert on W can never fire. |
| `Logicle.TopDecadeAtLeastTenth` | logicle_scaling.py:43-46 | With monotone `log10`/`round` (log10(1) = 0, round(0) = 0), the top decade is at least 0.1 in both branches. |
| `Logicle.EstimateSucceeds` | logicle_scaling.py:43-61 | On non-empty data with sound primitives, none of the three asserts fires: the estimator always succeeds. |
| `Logicle.SmallMaximumParams` | logicle_scaling.py:43-50 | If max(data) ≤ 1 then T = 10^0.1 and M = 0.1 − 0.01 = 0.09. |
| `Logicle.DecadesRule` | logicle_scaling.py:47-50 | On success T = 10^top_decade, and M is top_decade − 0.2 if top_decade > 1, else top_decade − 0.01. |
| `Logicle.LogicleTransformData` | logicle_scaling.py:63-72 | Fails exactly when, and with the same error as, the estimator. Otherwise the data are transformed point by point with exactly the estimated transform, and `returnTransform` only decides whether that transform is returned too. |
| `Data.NullCount` | pipeline/data.py:11 | The number of missing entries is at most the column length, and is zero exactly when no entry is missing. |
| `Data.NullLimit` | pipeline/data.py:11 | `int(rows * 0.25)` is ⌊rows/4⌋: 4k ≤ rows < 4k + 4. |
| `Data.DropColumns` | pipeline/data.py:9-14 | The drop list is no longer than the column list. |
| `Data.ProcessDf` | pipeline/data.py:5-16 | Succeeds exactly when the column labels are distinct. Then the table is returned unchanged, and the drop list is the drop rule applied to the columns in table order. Otherwise it raises `AmbiguousLabel` for the first column, in table order, whose label names several columns. |
| `Data.VisitColumn` | pipeline/data.py:10-14 | The loop body appends the column's name exactly when the drop rule lists it, and nothing else. |
| `Data.LabelCountMembers` | pipeline/data.py:10 | A label names no column exactly when no column carries it. It names several (so `df[label]` is a table) exactly when two different columns carry it. |
| `Data.RepeatNotDistinct` | pipeline/data.py:10-11 | A column whose label names several columns makes the labels not distinct. |
| `Data.NoRepeatDistinct` | pipeline/data.py:9-11 | When no column's label names several columns, the labels are distinct. |
| `Data.DroppedOnlyIfRule` | pipeline/data.py:9-14 | Every listed name belongs to a column that has too many nulls or passes the close-to-mean test; a column meeting neither never appears. |
| `Data.RuleImpliesDropped` | pipeline/data.py:9-14 | Every column meeting the drop rule is listed. |
| `Data.DropRule` | pipeline/data.py:11-14 | With distinct column names, the only tables on which `ProcessDf` succeeds: more than ⌊rows/4⌋ nulls ⇒ listed. At most that many ⇒ listed exactly when the close-to-mean test holds. |
| `Data.DropColumnsDistinct` | pipeline/data.py:9-14 | Because of the `elif`, distinct column names give a drop list without repeats. |
| `Data.DropColumnsPrefix` | pipeline/data.py:8-14 | The list is built in table order: the list for the first k columns is a prefix of the full list. |
| `BinCenters.Transpose` | pipeline/pair_precision.py:19 | `hist.T`: a rows × cols matrix becomes cols × rows, with t[j][i] = m[i][j]. |
| `BinCenters.TransposeTwice` | pipeline/pair_precision.py:19 | Transposing twice gives the matrix back, so `hist.T` loses no count. |
| `BinCenters.Centers` | pipeline/pair_precision.py:23-24 | One centre per bin, equidistant from its two edges, and strictly between them when the edges increase. |
| `BinCenters.DensityGrid` | pipeline/pair_precision.py:15-19 | The thresholded grid is 300 × 300, and grid[j][i] is the histogram count of (column-1 bin i, column-0 bin j). |
| `BinCenters.PositiveCounts` | pipeline/pair_precision.py:20 | `hist[hist > 0]`: one entry per non-empty cell, in row-major order, holding that cell's count. |
| `BinCenters.CentersOf` | pipeline/pair_precision.py:25-30 | The centre listed for a cell (row j, column i) is (y-centre j, x-centre i). |
| `BinCenters.CellsAboveMember` | pipeline/pair_precision.py:22 | A cell is selected exactly when it lies in the grid and its count is strictly above the threshold. |
| `BinCenters.NoPositiveIffAllEmpty` | pipeline/pair_precision.py:20 | `hist[hist > 0]` is empty exactly when every count of the 300 × 300 grid is zero. |
| `BinCenters.BinCentersOf` | pipeline/pair_precision.py:14-32 | Extraction fails (the quantile of an empty selection raises) exactly when every bin is empty. Otherwise it yields no more centres than there are non-empty bins. |
| `BinCenters.ThresholdAtLeastOne` | pipeline/pair_precision.py:20-22 | The threshold is a quantile of counts ≥ 1, so it is ≥ 1. Every kept bin holds at least two events, and no more bins are kept than are non-empty. |
| `BinCenters.BinCentersContents` | pipeline/pair_precision.py:20-30 | The result is exactly the centres of the cells whose count is strictly above the threshold, in row-major order. Nothing else is included and no such cell is missed. |
| `BinCenters.ThresholdMask` | pipeline/pair_precision.py:21-22 | A fresh 300 × 300 mask in which entry (a, b) is set exactly when grid[a][b] > threshold. |
| `BinCenters.MaskedCenters` | pipeline/pair_precision.py:25-30 | Reading the masked cells row by row yields the centres of the cells above the threshold, in row-major order. |
| `BinCenters.GetBinCenters` | pipeline/pair_precision.py:14-32 | The mask-and-read implementation equals the specification `BinCentersOf`, including its failure on an all-empty histogram. |
| `Geometry.Centroid` | pipeline/pair_precision.py:35-46 | The area-weighted centroid of the fan triangles exists exactly when the total signed area is non-zero; then area × centroid equals the area-weighted sum of the triangle centroids. |
| `Geometry.DegenerateHasNoCentroid` | pipeline/pair_precision.py:35-46 | A polygon with fewer than three vertices has zero signed area, so `np.average` raises. |
| `Geometry.TriangleCentroidIsVertexMean` | pipeline/pair_precision.py:35-46 | For a triangle of non-zero area, the fan decomposition gives the classical centroid: the mean of the three vertices. |
| `Geometry.ScalePolygon` | pipeline/pair_precision.py:49-53 | Fails exactly when the centroid does. Otherwise it keeps the vertex count and maps each vertex v to c + s·(v − c) (stated as v' − c = s·(v − c)). |
| `Geometry.ScaleByOneIsIdentity` | pipeline/pair_precision.py:49-53 | Scaling by 1 returns the polygon unchanged. |
| `Geometry.ScaleByZeroCollapses` | pipeline/pair_precision.py:49-53 | Scaling by 0 sends every vertex to the centroid. |
| `PolygonGates.PairData` | pipeline/pair_precision.py:85 | `df_positive[pair].to_numpy()`. Fails exactly when a channel is missing; otherwise row k is (channel-1 value k, channel-2 value k). |
| `PolygonGates.Masked` | pipeline/pair_precision.py:86 | `data[mask]` keeps exactly as many rows as the mask has set entries, and only rows of the data. Row k with its mask entry set is kept at the position that counts the set entries before k, so the kept rows keep their order. |
| `PolygonGates.HullPolygon` | pipeline/pair_precision.py:88-94 | A polygon exists exactly when the hull call succeeds and all of its indices are in range. Then vertex k is the bin centre at hull index k. |
| `PolygonGates.PairCenters` | pipeline/pair_precision.py:84-87 | A missing channel raises, channel 1 first. A mask whose length differs from the row count raises. Otherwise extraction raises `NoDensity` exactly when no kept row falls in any bin, and else yields the bin centres of the masked rows. |
| `PolygonGates.PairPolygon` | pipeline/pair_precision.py:84-96 | A pair's step raises exactly when extraction of its bin centres raises; hull failures are caught. |
| `PolygonGates.PolygonFromHull` | pipeline/pair_precision.py:87-94 | A pair's entry is absent exactly when the hull call raises on its bin centres, or returns an out-of-range index. Otherwise every vertex is one of the pair's bin centres. |
| `PolygonGates.PolygonGates` | pipeline/pair_precision.py:77-98 | On success the list has one entry per pair, in pair order, each that pair's own polygon. The call fails exactly when some pair raises, with the error of the first such pair. |
| `PolygonGates.BuildPairPolygon` | pipeline/pair_precision.py:84-96 | The loop body computes exactly the pair's step `PairPolygon`. |
| `PolygonGates.GetLogiclePolygonGates` | pipeline/pair_precision.py:77-98 | The appending loop returns exactly `PolygonGates`, including on the failing path. |
| `PolygonGates.TransformOf` | pipeline/pair_precision.py:58-63 | The transform built from a parameter row gives back that row. |
| `PolygonGates.InversePolygon` | pipeline/pair_precision.py:56-74 | The output has the input's shape. Output column k of vertex j is the inverse of parameter row k applied to input column k of vertex j, for k = 0, 1. |
| `PolygonGates.InverseLogicle` | pipeline/pair_precision.py:56-74 | Filling a zero array column by column yields exactly `InversePolygon`. |
| `PrecisionScoring.RoundHalfEven` | pipeline/pair_precision.py:167 | The result is the integer nearest to num/den (within half a unit), and the even one on a tie. |
| `PrecisionScoring.RoundedAtMost` | pipeline/pair_precision.py:167 | Rounding never exceeds an integer bound on the exact quotient. |
| `PrecisionScoring.RoundedExact` | pipeline/pair_precision.py:167 | An exact quotient rounds to itself. |
| `PrecisionScoring.RoundedEnds` | pipeline/pair_precision.py:167 | No true positives gives 0 %, no false positives gives 100 %. |
| `PrecisionScoring.PrecisionOf` | pipeline/pair_precision.py:167 | Undefined (NaN) exactly when TP + FP = 0. Otherwise it is the hundredths nearest to 100·TP/(TP+FP), it lies in [0, 10000], it is 0 when TP = 0 and 10000 when FP = 0. |
| `PrecisionScoring.SentinelRow` | pipeline/pair_precision.py:170-172 | The row of a pair without a polygon carries the pair's channels, with TP, FP and precision all -1. |
| `PrecisionScoring.ScoreRow` | pipeline/pair_precision.py:151-172 | A position beyond the polygon list raises. A pair without a polygon gets the sentinel. A pair with one raises when its parameters are missing (channel 1 first) or its data are missing, and otherwise gets its channels with the engine's TP and FP on the inverse-mapped polygon, and their precision. Every row it yields is well scored. |
| `PrecisionScoring.Scores` | pipeline/pair_precision.py:148-177 | Row i is pair i's own row, in pair order. The table fails exactly when some pair raises, with the error of the first such pair. |
| `PrecisionScoring.ScoresShape` | pipeline/pair_precision.py:148-177 | One row per pair, in pair order, with the pair's channels. Every row is well scored. A row is the sentinel exactly when the pair's polygon is absent. |
| `PrecisionScoring.ScorePair` | pipeline/pair_precision.py:151-172 | The loop body computes exactly `ScoreRow`, through the imperative `InverseLogicle`. |
| `PrecisionScoring.Insert` | pipeline/pair_precision.py:179 | Inserting into a ranked table keeps it ranked and adds exactly that row. |
| `PrecisionScoring.SortByPrecision` | pipeline/pair_precision.py:179 | The result is ranked (non-increasing precision, NaN last) and is a permutation of the input rows. |
| `PrecisionScoring.RankedSections` | pipeline/pair_precision.py:169-179 | In a ranked table, rows with a real precision come first, then the sentinel rows, then the rows with undefined precision. |
| `PrecisionScoring.RankingUnique` | pipeline/pair_precision.py:179 | With pairwise distinct precisions, any two ranked permutations of the same rows are equal. |
| `PrecisionScoring.RankingExample` | pipeline/pair_precision.py:179 | Rows with precisions 10, -1, 95, 50 are ranked 95, 50, 10, -1, each row keeping its channels. |
| `PrecisionScoring.GetPairPrecisions` | pipeline/pair_precision.py:136-179 | Fails exactly when, and with the same error as, the per-pair specification `Scores`. Otherwise it returns those rows, assembled from the five column lists and ranked. |
| `PrecisionScoring.PairPrecisionsTable` | pipeline/pair_precision.py:136-179 | The returned table is ranked and a permutation of the per-pair rows, with one row per pair. Every row is well scored, and no gated row with a real precision comes after a sentinel row. |

## Left out

- `get_df` (loading a sample file through flowkit) is I/O. The `ask_directory` dialog of `pipeline/utils.py` is a user interface.
- `LogicleTransform.__repr__`, the tqdm progress bars and the global random seed have no effect on results.
- The logicle solver is an uninterpreted `Solver`. No round-trip or monotonicity of the transform is claimed, because its mathematics lives in flowutils.
- `np.histogram2d`'s edge computation, `np.quantile`'s interpolation, `np.round`, `np.log10` and `10 **` are uninterpreted. Only the facts in the `Sound` predicates are assumed.
- scipy's `ConvexHull` is an uninterpreted index list. Its convexity is not modelled.
- The flowkit gating engine (`get_gating_startegy`, `get_gate_stats`) is an uninterpreted map from the raw-scale polygon and the pair's positive and negative events to natural counts (TP, FP). Its multiprocessing is not modelled.
- `np.allclose(col.mean(), col)` is an uninterpreted predicate on a column.
- Floating point is not modelled: all arithmetic is on exact reals and integers.
- `PrecisionScoring.PrecisionOf` rounds the exact rational 100·TP/(TP+FP) half to even. Python rounds the nearest double instead, which can differ from the exact rounding in the last place near a tie.
- `PrecisionScoring.SortByPrecision` is one particular ranked permutation. Its contract claims no tie order, because pandas' default quicksort does not promise one.
- `PrecisionScoring.GetPairPrecisions` returns the stable insertion sort of the rows, so rows of equal precision keep their pair order. pandas may order such rows differently; the facts that hold for every order it may choose are those of `PairPrecisionsTable` and `RankingUnique`.
- Only the channel_1 and channel_2 columns of the pairs table are modelled; other columns are copied through by the source and are not carried here.
- The pairs table is assumed to have a default index: the iteration label `i` is taken as the row's position when indexing the polygon list. A position beyond that list is the `MissingPolygon` error.
- `scale_polygon` is modelled, but the gate builder does not call it (the call is commented out in the source).
- A sample table is rectangular (`WellFormed`): pandas guarantees equal column lengths.
