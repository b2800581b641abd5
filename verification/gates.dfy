/**
 The polygon-gate builder: for every channel pair, the convex hull of the
 bin centres of the pair's high-similarity events, in logicle space; and
 the per-axis inverse logicle mapping of a polygon back to raw scale.
 */
module PolygonGates {
  import opened Common
  import opened Logicle
  import opened BinCenters

  /** A numeric sample table: its row count and each channel's column. */
  datatype Table = Table(rows: nat, columns: map<Channel, seq<real>>)

  predicate WellFormed(t: Table)
  {
    forall c :: c in t.columns ==> |t.columns[c]| == t.rows
  }

  /** The library calls the builder makes: the histogram routines and scipy's convex hull. */
  datatype GateLibrary = GateLibrary(
    hist: HistogramLibrary,
    // The hull's vertex indices into the given points, or None when Qhull raises.
    convexHull: seq<Point> -> Option<seq<nat>>)

  /** Why building the gates aborts (these errors are raised outside the `try`). */
  datatype GateError =
    | MissingChannel(channel: Channel)
    | MaskLengthMismatch(maskLength: nat, rows: nat)
    | NoDensity(pair: Pair)

  /** `df_positive[pair].to_numpy()`: the pair's two columns as points. */
  function PairData(pair: Pair, df: Table): (r: Result<seq<Point>, GateError>)
    requires WellFormed(df)
    ensures r.Failure? <==> pair.channel1 !in df.columns || pair.channel2 !in df.columns
    ensures r.Success? ==> |r.value| == df.rows && forall k :: 0 <= k < df.rows ==>
      r.value[k] == Point(df.columns[pair.channel1][k], df.columns[pair.channel2][k])
  {
    if pair.channel1 !in df.columns then Failure(MissingChannel(pair.channel1))
    else if pair.channel2 !in df.columns then Failure(MissingChannel(pair.channel2))
    else
      var c1, c2 := df.columns[pair.channel1], df.columns[pair.channel2];
      Success(seq(df.rows, k requires 0 <= k < df.rows => Point(c1[k], c2[k])))
  }

  /** The number of set entries of a mask. */
  function CountTrue(mask: seq<bool>): nat
  {
    if |mask| == 0 then 0 else CountTrue(mask[..|mask| - 1]) + (if mask[|mask| - 1] then 1 else 0)
  }

  /**
   `data[mask]`: the rows whose mask entry is set, in their order. As many
   rows are kept as the mask has set entries; kept row k lands behind every
   kept row before it, at the position counting the set entries before k.
   */
  function Masked(data: seq<Point>, mask: seq<bool>): (r: seq<Point>)
    requires |mask| == |data|
    ensures |r| == CountTrue(mask)
    ensures forall k :: 0 <= k < |data| && mask[k] ==>
      CountTrue(mask[..k]) < |r| && r[CountTrue(mask[..k])] == data[k]
    ensures forall p :: p in r ==> p in data
  {
    if |data| == 0 then []
    else
      var last := |data| - 1;
      var front := Masked(data[..last], mask[..last]);
      assert mask[..last] == mask[..|mask| - 1];
      assert forall k :: 0 <= k < last ==> mask[..last][..k] == mask[..k];
      front + (if mask[last] then [data[last]] else [])
  }

  /**
   `high_sim_bin_centers[hull.vertices]` inside the `try`: the hull vertices
   in hull order, or None when the hull raises or an index is out of range.
   */
  function HullPolygon(centers: seq<Point>, hull: Option<seq<nat>>): (r: Option<seq<Point>>)
    ensures r.Some? <==> hull.Some? && forall k :: 0 <= k < |hull.value| ==> hull.value[k] < |centers|
    ensures r.Some? ==> (|r.value| == |hull.value| &&
      forall k :: 0 <= k < |hull.value| ==> r.value[k] == centers[hull.value[k]])
  {
    match hull
    case None => None
    case Some(idx) =>
      if forall k :: 0 <= k < |idx| ==> idx[k] < |centers| then
        Some(seq(|idx|, k requires 0 <= k < |idx| => centers[idx[k]]))
      else None
  }

  /**
   The bin centres of one pair's high-similarity events. The pair's columns
   must exist (channel 1 is looked up first) and the mask must have a row per
   event; extraction then fails exactly when no kept event falls in any bin,
   and otherwise yields the bin centres of the kept rows.
   */
  function PairCenters(pair: Pair, df: Table, mask: seq<bool>, lib: GateLibrary): (r: Result<seq<Point>, GateError>)
    requires WellFormed(df) && BinCenters.Sound(lib.hist)
    ensures pair.channel1 !in df.columns ==> r == Failure(MissingChannel(pair.channel1))
    ensures pair.channel1 in df.columns && pair.channel2 !in df.columns ==> r == Failure(MissingChannel(pair.channel2))
    ensures pair.channel1 in df.columns && pair.channel2 in df.columns && |mask| != df.rows ==>
      r == Failure(MaskLengthMismatch(|mask|, df.rows))
    ensures pair.channel1 in df.columns && pair.channel2 in df.columns && |mask| == df.rows ==>
      var kept := Masked(PairData(pair, df).value, mask);
      (r.Failure? <==> AllBinsEmpty(kept, lib.hist)) &&
      (r.Failure? ==> r.error == NoDensity(pair)) &&
      (r.Success? ==> Success(r.value) == BinCentersOf(kept, lib.hist))
  {
    match PairData(pair, df)
    case Failure(e) => Failure(e)
    case Success(data) =>
      if |mask| != |data| then Failure(MaskLengthMismatch(|mask|, |data|))
      else match BinCentersOf(Masked(data, mask), lib.hist)
        case Failure(_) => Failure(NoDensity(pair))
        case Success(centers) => Success(centers)
  }

  /** One iteration of `get_logicle_polygon_gates`: the pair's polygon, or None. */
  function PairPolygon(pair: Pair, df: Table, mask: seq<bool>, lib: GateLibrary): (r: Result<Option<seq<Point>>, GateError>)
    requires WellFormed(df) && BinCenters.Sound(lib.hist)
    ensures r.Failure? <==> PairCenters(pair, df, mask, lib).Failure?
  {
    match PairCenters(pair, df, mask, lib)
    case Failure(e) => Failure(e)
    case Success(centers) => Success(HullPolygon(centers, lib.convexHull(centers)))
  }

  /**
   A pair's polygon is absent exactly when the hull call fails on its bin
   centres (Qhull raises, or returns an index outside them); otherwise every
   vertex is one of those centres, hence the centre of a kept bin.
   */
  lemma PolygonFromHull(pair: Pair, df: Table, mask: seq<bool>, lib: GateLibrary)
    requires WellFormed(df) && BinCenters.Sound(lib.hist)
    requires PairCenters(pair, df, mask, lib).Success?
    ensures var centers := PairCenters(pair, df, mask, lib).value;
      var hull := lib.convexHull(centers);
      (PairPolygon(pair, df, mask, lib).value.None? <==>
        hull.None? || exists k :: 0 <= k < |hull.value| && hull.value[k] >= |centers|) &&
      (PairPolygon(pair, df, mask, lib).value.Some? ==>
        forall v :: v in PairPolygon(pair, df, mask, lib).value.value ==> v in centers)
  {
    var centers := PairCenters(pair, df, mask, lib).value;
    var poly := HullPolygon(centers, lib.convexHull(centers));
    if poly.Some? {
      forall v | v in poly.value ensures v in centers {
        var k :| 0 <= k < |poly.value| && poly.value[k] == v;
      }
    }
  }

  /**
   The gates of all pairs, stopping at the first pair that raises: one entry
   per pair, in pair order, each the pair's own polygon; the batch fails
   exactly when some pair's extraction raises, with the first such error.
   */
  function PolygonGates(pairs: seq<Pair>, df: Table, mask: seq<bool>, lib: GateLibrary): (r: Result<seq<Option<seq<Point>>>, GateError>)
    requires WellFormed(df) && BinCenters.Sound(lib.hist)
    ensures r.Success? <==> forall i :: 0 <= i < |pairs| ==> PairPolygon(pairs[i], df, mask, lib).Success?
    ensures r.Success? ==> (|r.value| == |pairs| &&
      forall i :: 0 <= i < |pairs| ==> r.value[i] == PairPolygon(pairs[i], df, mask, lib).value)
    ensures r.Failure? ==> exists i :: (0 <= i < |pairs| &&
      PairPolygon(pairs[i], df, mask, lib) == Failure(r.error) &&
      forall j :: 0 <= j < i ==> PairPolygon(pairs[j], df, mask, lib).Success?)
  {
    MapResultsShape(pairs, pair => PairPolygon(pair, df, mask, lib));
    MapResults(pairs, pair => PairPolygon(pair, df, mask, lib))
  }

  /** The body of the builder's loop for one pair. */
  method BuildPairPolygon(pair: Pair, df: Table, mask: seq<bool>, lib: GateLibrary)
    returns (r: Result<Option<seq<Point>>, GateError>)
    requires WellFormed(df) && BinCenters.Sound(lib.hist)
    ensures r == PairPolygon(pair, df, mask, lib)
  {
    var pairData := PairData(pair, df);
    if pairData.Failure? {
      return Failure(pairData.error);
    }
    var data := pairData.value;
    if |mask| != |data| {
      return Failure(MaskLengthMismatch(|mask|, |data|));
    }
    var highSimData := Masked(data, mask);
    var centers := GetBinCenters(highSimData, lib.hist);
    if centers.Failure? {
      return Failure(NoDensity(pair));
    }
    r := Success(HullPolygon(centers.value, lib.convexHull(centers.value)));
  }

  /**
   `get_logicle_polygon_gates`: for each pair in turn, extract its bin
   centres and append the hull polygon, or None when the hull fails.
   */
  method GetLogiclePolygonGates(pairs: seq<Pair>, df: Table, mask: seq<bool>, lib: GateLibrary)
    returns (r: Result<seq<Option<seq<Point>>>, GateError>)
    requires WellFormed(df) && BinCenters.Sound(lib.hist)
    ensures r == PolygonGates(pairs, df, mask, lib)
  {
    ghost var step := pair => PairPolygon(pair, df, mask, lib);
    var pairPolygons: seq<Option<seq<Point>>> := [];
    var i := 0;
    while i < |pairs|
      invariant 0 <= i <= |pairs|
      invariant MapResults(pairs[..i], step) == Success(pairPolygons)
    {
      var polygon := BuildPairPolygon(pairs[i], df, mask, lib);
      assert polygon == step(pairs[i]);
      MapResultsStep(pairs, step, i, pairPolygons);
      if polygon.Failure? {
        MapResultsFailurePrefix(pairs, step, i + 1);
        return Failure(polygon.error);
      }
      pairPolygons := pairPolygons + [polygon.value];
      i := i + 1;
    }
    assert pairs[..i] == pairs;
    r := Success(pairPolygons);
  }

  /** The transform of a parameter row (`LogicleTransform(*logicle_params[k])`). */
  function TransformOf(p: Params): (t: LogicleTransform)
    ensures t.GetParams() == p
  {
    LogicleTransform(p.0, p.1, p.2, p.3)
  }

  /**
   `inverse_logicle` as a value: the output has the polygon's shape, and
   axis k of every vertex is mapped back with the transform of parameter
   row k alone.
   */
  function InversePolygon(polygon: seq<Point>, params: seq<Params>, solver: Solver): (r: seq<Point>)
    requires |params| >= 2
    ensures |r| == |polygon|
    ensures forall k :: 0 <= k < |polygon| ==>
      r[k].x0 == solver.logicleInverse(TransformOf(params[0]), polygon[k].x0) &&
      r[k].x1 == solver.logicleInverse(TransformOf(params[1]), polygon[k].x1)
  {
    var col0 := TransformOf(params[0]).Inverse(solver, Column0(polygon));
    var col1 := TransformOf(params[1]).Inverse(solver, Column1(polygon));
    seq(|polygon|, k requires 0 <= k < |polygon| => Point(col0[k], col1[k]))
  }

  /**
   `inverse_logicle`: start from a zero array of the polygon's shape and
   fill column 0, then column 1, each from its own transform.
   */
  method InverseLogicle(logicleData: seq<Point>, logicleParams: seq<Params>, solver: Solver)
    returns (originalData: seq<Point>)
    requires |logicleParams| >= 2
    ensures originalData == InversePolygon(logicleData, logicleParams, solver)
  {
    var n := |logicleData|;
    var original := new real[n, 2]((_, _) => 0.0);
    var col0 := TransformOf(logicleParams[0]).Inverse(solver, Column0(logicleData));
    var k := 0;
    while k < n
      invariant 0 <= k <= n
      invariant forall j :: 0 <= j < k ==> original[j, 0] == col0[j]
    {
      original[k, 0] := col0[k];
      k := k + 1;
    }
    var col1 := TransformOf(logicleParams[1]).Inverse(solver, Column1(logicleData));
    k := 0;
    while k < n
      invariant 0 <= k <= n
      invariant forall j :: 0 <= j < n ==> original[j, 0] == col0[j]
      invariant forall j :: 0 <= j < k ==> original[j, 1] == col1[j]
    {
      original[k, 1] := col1[k];
      k := k + 1;
    }
    originalData := seq(n, j requires 0 <= j < n reads original => Point(original[j, 0], original[j, 1]));
  }
}
