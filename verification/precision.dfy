/**
 Scoring of the polygon gates: each pair's logicle polygon is mapped back
 to raw scale, the gating engine counts the positive (TP) and negative (FP)
 events inside it, and the pair is scored by its precision in percent,
 rounded to two decimals; the table is then ranked by precision.
 */
module PrecisionScoring {
  import opened Common
  import opened Logicle
  import opened PolygonGates

  /**
   A precision in hundredths of a percent (`95.5` is `Hundredths(9550)`),
   or NaN, which numpy yields for 0 / 0 when the gate holds no event at all.
   */
  datatype Precision = Hundredths(h: int) | Undefined

  /** One row of the result table. TP and FP are -1 for a pair without a polygon. */
  datatype Row = Row(channel1: Channel, channel2: Channel, precision: Precision, tp: int, fp: int)

  /** The row recorded for a pair whose hull failed: precision, TP and FP all -1. */
  function SentinelRow(pair: Pair): (r: Row)
    ensures r.channel1 == pair.channel1 && r.channel2 == pair.channel2
    ensures r.tp < 0 && WellScored(r)
  {
    Row(pair.channel1, pair.channel2, Hundredths(-100), -1, -1)
  }

  /**
   Python's `round` of num / den to an integer: the nearest integer, and the
   even one of the two nearest on a tie.
   */
  function RoundHalfEven(num: nat, den: nat): (q: nat)
    requires den > 0
    ensures -(den as int) <= 2 * (q * den - num) <= den
    ensures 2 * (q * den - num) == den || 2 * (q * den - num) == -(den as int) ==> q % 2 == 0
  {
    var q0, rem := num / den, num % den;
    assert num == q0 * den + rem;
    assert (q0 + 1) * den == q0 * den + den;
    if 2 * rem < den then q0
    else if 2 * rem > den then q0 + 1
    else if q0 % 2 == 0 then q0
    else q0 + 1
  }

  lemma MulAtLeast(a: int, b: int, c: nat)
    requires a >= b
    ensures a * c >= b * c
  {
  }

  lemma MulSub(a: int, b: int, c: int)
    ensures (a - b) * c == a * c - b * c
  {
  }

  /** No rounded value is above the bound when the exact quotient is not. */
  lemma RoundedAtMost(num: nat, den: nat, bound: nat)
    requires den > 0 && num <= bound * den
    ensures RoundHalfEven(num, den) <= bound
  {
    var q := RoundHalfEven(num, den);
    if q > bound {
      MulAtLeast(q - bound, 1, den);
      MulSub(q, bound, den);
      assert false;
    }
  }

  /** An exact quotient is its own rounding. */
  lemma RoundedExact(q: nat, den: nat)
    requires den > 0
    ensures RoundHalfEven(q * den, den) == q
  {
    var r := RoundHalfEven(q * den, den);
    if r > q {
      MulAtLeast(r - q, 1, den);
      MulSub(r, q, den);
      assert false;
    } else if r < q {
      MulAtLeast(q - r, 1, den);
      MulSub(q, r, den);
      assert false;
    }
  }

  /** No true positive rounds to 0 %, no false positive to 100 %. */
  lemma RoundedEnds(tp: nat, fp: nat)
    requires tp + fp > 0
    ensures tp == 0 ==> RoundHalfEven(10000 * tp, tp + fp) == 0
    ensures fp == 0 ==> RoundHalfEven(10000 * tp, tp + fp) == 10000
  {
    if tp == 0 {
      RoundedExact(0, tp + fp);
    }
    if fp == 0 {
      RoundedExact(10000, tp + fp);
    }
  }

  /**
   `round(tp * 100 / (tp + fp), 2)`: TP's share of the gated events in
   percent, to the nearest hundredth; NaN when the gate holds no event.
   */
  function PrecisionOf(tp: nat, fp: nat): (p: Precision)
    ensures p.Undefined? <==> tp + fp == 0
    ensures p.Hundredths? ==> 0 <= p.h <= 10000
    ensures p.Hundredths? ==> -(tp + fp) <= 2 * (p.h * (tp + fp) - 10000 * tp) <= tp + fp
    ensures p.Hundredths? && tp == 0 ==> p.h == 0
    ensures p.Hundredths? && fp == 0 ==> p.h == 10000
  {
    if tp + fp == 0 then Undefined
    else
      var h := RoundHalfEven(10000 * tp, tp + fp);
      RoundedAtMost(10000 * tp, tp + fp, 10000);
      RoundedEnds(tp, fp);
      Hundredths(h)
  }

  /** The engine calls behind the score: the inverse transform and the gate statistics. */
  datatype Scorer = Scorer(
    solver: Solver,
    // `get_gate_stats`: (TP, FP) of a raw-scale polygon over the positive and negative events.
    gateStats: (seq<Point>, seq<Point>, seq<Point>) -> (nat, nat))

  /** Why scoring aborts. */
  datatype ScoreError =
    | MissingPolygon(index: nat)
    | MissingParams(channel: Channel)
    | MissingData(error: GateError)

  /** Both channels of the pair have logicle parameters and columns in both event tables. */
  predicate Gateable(pair: Pair, params: map<Channel, Params>, positive: Table, negative: Table)
  {
    pair.channel1 in params && pair.channel2 in params &&
    pair.channel1 in positive.columns && pair.channel2 in positive.columns &&
    pair.channel1 in negative.columns && pair.channel2 in negative.columns
  }

  /**
   One iteration of `get_pair_precisions`, for the pair at position `i`: a
   missing polygon position raises; a pair without a polygon gets the
   sentinel; a pair with one raises when its parameters (channel 1 first)
   or its data are missing, and otherwise gets the gate's TP and FP, as the
   engine counts them on the polygon mapped back to raw scale, with their
   precision.
   */
  function ScoreRow(i: nat, pair: Pair, polygons: seq<Option<seq<Point>>>, params: map<Channel, Params>,
                    positive: Table, negative: Table, scorer: Scorer): (r: Result<Row, ScoreError>)
    requires WellFormed(positive) && WellFormed(negative)
    ensures i >= |polygons| ==> r == Failure(MissingPolygon(i))
    ensures i < |polygons| && polygons[i].None? ==> r == Success(SentinelRow(pair))
    ensures i < |polygons| && polygons[i].Some? && pair.channel1 !in params ==>
      r == Failure(MissingParams(pair.channel1))
    ensures i < |polygons| && polygons[i].Some? && pair.channel1 in params && pair.channel2 !in params ==>
      r == Failure(MissingParams(pair.channel2))
    ensures r.Failure? <==> i >= |polygons| || (polygons[i].Some? && !Gateable(pair, params, positive, negative))
    ensures r.Failure? && i < |polygons| && pair.channel1 in params && pair.channel2 in params ==> r.error.MissingData?
    ensures r.Success? ==> (i < |polygons| &&
      r.value.channel1 == pair.channel1 && r.value.channel2 == pair.channel2 &&
      WellScored(r.value) && (polygons[i].None? <==> r.value.tp < 0))
    ensures r.Success? && i < |polygons| && polygons[i].Some? ==>
      Gateable(pair, params, positive, negative) &&
      var counts := scorer.gateStats(
        InversePolygon(polygons[i].value, [params[pair.channel1], params[pair.channel2]], scorer.solver),
        PairData(pair, positive).value, PairData(pair, negative).value);
      r.value.tp == counts.0 && r.value.fp == counts.1
  {
    if i >= |polygons| then Failure(MissingPolygon(i))
    else match polygons[i]
      case None => Success(SentinelRow(pair))
      case Some(polygon) =>
        if pair.channel1 !in params then Failure(MissingParams(pair.channel1))
        else if pair.channel2 !in params then Failure(MissingParams(pair.channel2))
        else
          var dataPolygon := InversePolygon(polygon, [params[pair.channel1], params[pair.channel2]], scorer.solver);
          match PairData(pair, positive)
          case Failure(e) => Failure(MissingData(e))
          case Success(pos) =>
            match PairData(pair, negative)
            case Failure(e) => Failure(MissingData(e))
            case Success(neg) =>
              var (tp, fp) := scorer.gateStats(dataPolygon, pos, neg);
              Success(Row(pair.channel1, pair.channel2, PrecisionOf(tp, fp), tp, fp))
  }

  /** The pairs with their positions (`df_pairs.iterrows()` over a default index). */
  function Enumerate(pairs: seq<Pair>): (e: seq<(nat, Pair)>)
    ensures |e| == |pairs| && forall i :: 0 <= i < |pairs| ==> e[i] == (i, pairs[i])
  {
    seq(|pairs|, i requires 0 <= i < |pairs| => (i, pairs[i]))
  }

  /**
   The unsorted result table: row i is the score of pair i, in pair order;
   the table fails exactly when some pair raises, with the first such error.
   */
  function Scores(pairs: seq<Pair>, polygons: seq<Option<seq<Point>>>, params: map<Channel, Params>,
                  positive: Table, negative: Table, scorer: Scorer): (r: Result<seq<Row>, ScoreError>)
    requires WellFormed(positive) && WellFormed(negative)
    ensures r.Success? <==> forall i :: 0 <= i < |pairs| ==>
      ScoreRow(i, pairs[i], polygons, params, positive, negative, scorer).Success?
    ensures r.Success? ==> (|r.value| == |pairs| && forall i :: 0 <= i < |pairs| ==>
      r.value[i] == ScoreRow(i, pairs[i], polygons, params, positive, negative, scorer).value)
    ensures r.Failure? ==> exists i :: (0 <= i < |pairs| &&
      ScoreRow(i, pairs[i], polygons, params, positive, negative, scorer) == Failure(r.error) &&
      forall j :: 0 <= j < i ==> ScoreRow(j, pairs[j], polygons, params, positive, negative, scorer).Success?)
  {
    var step := (e: (nat, Pair)) => ScoreRow(e.0, e.1, polygons, params, positive, negative, scorer);
    var xs := Enumerate(pairs);
    MapResultsShape(xs, step);
    assert forall i :: 0 <= i < |pairs| ==>
      step(xs[i]) == ScoreRow(i, pairs[i], polygons, params, positive, negative, scorer);
    MapResults(xs, step)
  }

  /** What every row of the table satisfies: a sentinel, or counts with their precision. */
  predicate WellScored(row: Row)
  {
    if row.tp < 0 then row.tp == -1 && row.fp == -1 && row.precision == Hundredths(-100)
    else row.fp >= 0 && row.precision == PrecisionOf(row.tp, row.fp)
  }

  /**
   One row per pair, in pair order, carrying the pair's channels; a pair's
   row is the sentinel exactly when it has no polygon, and otherwise holds
   the gate's counts and their precision.
   */
  lemma ScoresShape(pairs: seq<Pair>, polygons: seq<Option<seq<Point>>>, params: map<Channel, Params>,
                    positive: Table, negative: Table, scorer: Scorer)
    requires WellFormed(positive) && WellFormed(negative)
    requires Scores(pairs, polygons, params, positive, negative, scorer).Success?
    ensures var rows := Scores(pairs, polygons, params, positive, negative, scorer).value;
      |rows| == |pairs| && |pairs| <= |polygons| &&
      forall i :: 0 <= i < |pairs| ==>
        rows[i].channel1 == pairs[i].channel1 && rows[i].channel2 == pairs[i].channel2 &&
        WellScored(rows[i]) &&
        (polygons[i].None? <==> rows[i].tp < 0)
  {
    var rows := Scores(pairs, polygons, params, positive, negative, scorer).value;
    forall i | 0 <= i < |pairs|
      ensures i < |polygons|
      ensures rows[i].channel1 == pairs[i].channel1 && rows[i].channel2 == pairs[i].channel2
      ensures WellScored(rows[i]) && (polygons[i].None? <==> rows[i].tp < 0)
    {
      var row := ScoreRow(i, pairs[i], polygons, params, positive, negative, scorer);
      assert row.Success? && rows[i] == row.value;
    }
    if |pairs| > 0 {
      assert |pairs| - 1 < |polygons|;
    }
  }

  /** The body of the scoring loop for the pair at position `i`. */
  method ScorePair(i: nat, pair: Pair, polygons: seq<Option<seq<Point>>>, params: map<Channel, Params>,
                   positive: Table, negative: Table, scorer: Scorer) returns (r: Result<Row, ScoreError>)
    requires WellFormed(positive) && WellFormed(negative)
    ensures r == ScoreRow(i, pair, polygons, params, positive, negative, scorer)
  {
    if i >= |polygons| {
      return Failure(MissingPolygon(i));
    }
    var logiclePolygon := polygons[i];
    if logiclePolygon.None? {
      return Success(SentinelRow(pair));
    }
    if pair.channel1 !in params {
      return Failure(MissingParams(pair.channel1));
    }
    if pair.channel2 !in params {
      return Failure(MissingParams(pair.channel2));
    }
    var logicleParams := [params[pair.channel1], params[pair.channel2]];
    var dataPolygon := InverseLogicle(logiclePolygon.value, logicleParams, scorer.solver);
    var pos := PairData(pair, positive);
    if pos.Failure? {
      return Failure(MissingData(pos.error));
    }
    var neg := PairData(pair, negative);
    if neg.Failure? {
      return Failure(MissingData(neg.error));
    }
    var (tp, fp) := scorer.gateStats(dataPolygon, pos.value, neg.value);
    r := Success(Row(pair.channel1, pair.channel2, PrecisionOf(tp, fp), tp, fp));
  }

  /**
   The ranking order of `sort_values("precision", ascending=False)`: higher
   precision first, NaN last.
   */
  predicate RanksBefore(a: Precision, b: Precision)
  {
    b.Undefined? || (a.Hundredths? && a.h >= b.h)
  }

  lemma RanksBeforeTotal(a: Precision, b: Precision)
    ensures RanksBefore(a, b) || RanksBefore(b, a)
  {
  }

  lemma RanksBeforeTransitive(a: Precision, b: Precision, c: Precision)
    requires RanksBefore(a, b) && RanksBefore(b, c)
    ensures RanksBefore(a, c)
  {
  }

  predicate Ranked(rows: seq<Row>)
  {
    forall i, j :: 0 <= i < j < |rows| ==> RanksBefore(rows[i].precision, rows[j].precision)
  }

  /** Every row of the table ranks no higher than precision p. */
  predicate AllRankBelow(p: Precision, rows: seq<Row>)
  {
    forall k :: 0 <= k < |rows| ==> RanksBefore(p, rows[k].precision)
  }

  /** A bound on the rows survives any reordering of them. */
  lemma AllRankBelowPermuted(p: Precision, s: seq<Row>, t: seq<Row>)
    requires AllRankBelow(p, s) && multiset(t) == multiset(s)
    ensures AllRankBelow(p, t)
  {
    forall k | 0 <= k < |t| ensures RanksBefore(p, t[k].precision) {
      assert t[k] in multiset(s);
      var j :| 0 <= j < |s| && s[j] == t[k];
    }
  }

  /** The rows behind the head of a ranked table, and one more row ranking no higher, all rank below the head. */
  lemma BelowHead(ranked: seq<Row>, row: Row)
    requires Ranked(ranked) && |ranked| > 0 && RanksBefore(ranked[0].precision, row.precision)
    ensures AllRankBelow(ranked[0].precision, ranked[1..] + [row])
  {
  }

  /** A row ranking above the head of a ranked table ranks above all of it. */
  lemma AboveHead(ranked: seq<Row>, row: Row)
    requires Ranked(ranked) && |ranked| > 0 && !RanksBefore(ranked[0].precision, row.precision)
    ensures AllRankBelow(row.precision, ranked)
  {
    RanksBeforeTotal(ranked[0].precision, row.precision);
    forall k | 0 <= k < |ranked| ensures RanksBefore(row.precision, ranked[k].precision) {
      if k > 0 {
        RanksBeforeTransitive(row.precision, ranked[0].precision, ranked[k].precision);
      }
    }
  }

  /** Putting a row in front of a ranked table it bounds keeps the table ranked. */
  lemma RankedCons(row: Row, rest: seq<Row>)
    requires Ranked(rest) && AllRankBelow(row.precision, rest)
    ensures Ranked([row] + rest)
  {
  }

  /** Places a row into a ranked table behind every row that ranks at least as high. */
  function Insert(ranked: seq<Row>, row: Row): (r: seq<Row>)
    requires Ranked(ranked)
    ensures Ranked(r)
    ensures multiset(r) == multiset(ranked) + multiset{row}
  {
    if |ranked| == 0 then [row]
    else if RanksBefore(ranked[0].precision, row.precision) then
      var rest := Insert(ranked[1..], row);
      BelowHead(ranked, row);
      AllRankBelowPermuted(ranked[0].precision, ranked[1..] + [row], rest);
      RankedCons(ranked[0], rest);
      assert ranked == [ranked[0]] + ranked[1..];
      [ranked[0]] + rest
    else
      AboveHead(ranked, row);
      RankedCons(row, ranked);
      [row] + ranked
  }

  /** `sort_values("precision", ascending=False)`: the rows ranked by precision. */
  function SortByPrecision(rows: seq<Row>): (r: seq<Row>)
    ensures Ranked(r)
    ensures multiset(r) == multiset(rows)
  {
    if |rows| == 0 then []
    else
      var last := |rows| - 1;
      assert rows == rows[..last] + [rows[last]];
      Insert(SortByPrecision(rows[..last]), rows[last])
  }

  /**
   In a ranked table of well-scored rows, the gated pairs with a defined
   precision come first, then the pairs without a polygon, then the pairs
   whose gate held no event.
   */
  lemma {:induction false} RankedSections(rows: seq<Row>)
    requires Ranked(rows) && forall k :: 0 <= k < |rows| ==> WellScored(rows[k])
    ensures forall i, j :: 0 <= i < j < |rows| && rows[i].tp < 0 ==>
      rows[j].tp < 0 || rows[j].precision.Undefined?
    ensures forall i, j :: 0 <= i < j < |rows| && rows[i].precision.Undefined? ==>
      rows[j].precision.Undefined?
  {
    forall i, j | 0 <= i < j < |rows| && rows[i].tp < 0
      ensures rows[j].tp < 0 || rows[j].precision.Undefined?
    {
      assert WellScored(rows[i]) && WellScored(rows[j]);
      assert RanksBefore(rows[i].precision, rows[j].precision);
    }
  }

  /** Rows ranked at least as high as each other have the same precision. */
  lemma SameRank(a: Precision, b: Precision)
    requires RanksBefore(a, b) && RanksBefore(b, a)
    ensures a == b
  {
  }

  /** No two rows share a precision. */
  predicate DistinctPrecisions(rows: seq<Row>)
  {
    forall i, j :: 0 <= i < j < |rows| ==> rows[i].precision != rows[j].precision
  }

  /** The first row of a ranked table ranks at least as high as every row in it. */
  lemma HeadRanksFirst(a: seq<Row>, x: Row)
    requires Ranked(a) && x in a
    ensures RanksBefore(a[0].precision, x.precision)
  {
    var k :| 0 <= k < |a| && a[k] == x;
    if k > 0 {
      assert RanksBefore(a[0].precision, a[k].precision);
    }
  }

  /** Dropping a common first row keeps two tables permutations of each other. */
  lemma MultisetTail(a: seq<Row>, b: seq<Row>)
    requires |a| > 0 && |b| > 0 && a[0] == b[0] && multiset(a) == multiset(b)
    ensures multiset(a[1..]) == multiset(b[1..])
  {
    assert a == [a[0]] + a[1..] && b == [b[0]] + b[1..];
    assert multiset(a[1..]) == multiset(a) - multiset{a[0]};
    assert multiset(b[1..]) == multiset(b) - multiset{b[0]};
  }

  /** Two ranked permutations of rows with distinct precisions start with the same row. */
  lemma SameHead(a: seq<Row>, b: seq<Row>)
    requires Ranked(a) && Ranked(b) && multiset(a) == multiset(b) && DistinctPrecisions(a) && |a| > 0
    ensures |b| > 0 && a[0] == b[0]
  {
    assert a[0] in multiset(b);
    assert |b| > 0;
    assert b[0] in multiset(a);
    HeadRanksFirst(a, b[0]);
    HeadRanksFirst(b, a[0]);
    SameRank(a[0].precision, b[0].precision);
    var k :| 0 <= k < |a| && a[k] == b[0];
    if k > 0 {
      assert false;
    }
  }

  /**
   When no two rows share a precision, the ranking is fully determined: any
   two ranked orderings of the same rows are the same table.
   */
  lemma {:induction false} RankingUnique(a: seq<Row>, b: seq<Row>)
    requires Ranked(a) && Ranked(b) && multiset(a) == multiset(b) && DistinctPrecisions(a)
    ensures a == b
  {
    if |a| == 0 {
      assert |multiset(b)| == 0;
    } else {
      SameHead(a, b);
      MultisetTail(a, b);
      var a', b' := a[1..], b[1..];
      assert Ranked(a') && Ranked(b') && DistinctPrecisions(a');
      RankingUnique(a', b');
      assert a == [a[0]] + a' && b == [b[0]] + b';
    }
  }

  lemma SwapHalves(rows: seq<Row>)
    requires |rows| == 4
    ensures multiset([rows[2], rows[3], rows[0], rows[1]]) == multiset(rows)
  {
    assert rows == [rows[0], rows[1], rows[2], rows[3]];
  }

  /** Four rows with precisions 10, -1, 95 and 50 are ranked 95, 50, 10, -1, each keeping its pair. */
  lemma RankingExample(rows: seq<Row>)
    requires |rows| == 4
    requires rows[0].precision == Hundredths(1000) && rows[1].precision == Hundredths(-100)
    requires rows[2].precision == Hundredths(9500) && rows[3].precision == Hundredths(5000)
    ensures SortByPrecision(rows) == [rows[2], rows[3], rows[0], rows[1]]
  {
    var expected := [rows[2], rows[3], rows[0], rows[1]];
    SwapHalves(rows);
    assert Ranked(expected);
    assert DistinctPrecisions(expected);
    var ranked := SortByPrecision(rows);
    RankingUnique(expected, ranked);
  }

  /**
   `get_pair_precisions`: score the pairs in order into five parallel
   columns, assemble the table, and rank it by precision.
   */
  method GetPairPrecisions(pairs: seq<Pair>, polygons: seq<Option<seq<Point>>>, params: map<Channel, Params>,
                           positive: Table, negative: Table, scorer: Scorer) returns (r: Result<seq<Row>, ScoreError>)
    requires WellFormed(positive) && WellFormed(negative)
    ensures var s := Scores(pairs, polygons, params, positive, negative, scorer);
      (r.Failure? <==> s.Failure?) &&
      (r.Failure? ==> r.error == s.error) &&
      (r.Success? ==> r.value == SortByPrecision(s.value))
  {
    ghost var step := (e: (nat, Pair)) => ScoreRow(e.0, e.1, polygons, params, positive, negative, scorer);
    ghost var xs := Enumerate(pairs);
    ghost var rows: seq<Row> := [];
    var channel1s: seq<Channel> := [];
    var channel2s: seq<Channel> := [];
    var precisions: seq<Precision> := [];
    var tps: seq<int> := [];
    var fps: seq<int> := [];
    var i := 0;
    while i < |pairs|
      invariant 0 <= i <= |pairs|
      invariant MapResults(xs[..i], step) == Success(rows)
      invariant |rows| == |channel1s| == |channel2s| == |precisions| == |tps| == |fps| == i
      invariant forall k :: 0 <= k < i ==>
        rows[k] == Row(channel1s[k], channel2s[k], precisions[k], tps[k], fps[k])
    {
      var row := ScorePair(i, pairs[i], polygons, params, positive, negative, scorer);
      assert row == step(xs[i]);
      MapResultsStep(xs, step, i, rows);
      if row.Failure? {
        MapResultsFailurePrefix(xs, step, i + 1);
        return Failure(row.error);
      }
      channel1s := channel1s + [row.value.channel1];
      channel2s := channel2s + [row.value.channel2];
      precisions := precisions + [row.value.precision];
      tps := tps + [row.value.tp];
      fps := fps + [row.value.fp];
      rows := rows + [row.value];
      i := i + 1;
    }
    assert xs[..i] == xs;
    var table := seq(i, k requires 0 <= k < i => Row(channel1s[k], channel2s[k], precisions[k], tps[k], fps[k]));
    assert table == rows;
    r := Success(SortByPrecision(table));
  }

  /**
   The returned table: ranked by precision, a reordering of the per-pair
   rows with one row per pair, and sectioned into scored pairs, pairs
   without a polygon, and pairs whose gate held no event.
   */
  lemma PairPrecisionsTable(pairs: seq<Pair>, polygons: seq<Option<seq<Point>>>, params: map<Channel, Params>,
                            positive: Table, negative: Table, scorer: Scorer)
    requires WellFormed(positive) && WellFormed(negative)
    requires Scores(pairs, polygons, params, positive, negative, scorer).Success?
    ensures var rows := Scores(pairs, polygons, params, positive, negative, scorer).value;
      var table := SortByPrecision(rows);
      Ranked(table) && multiset(table) == multiset(rows) && |table| == |pairs| &&
      (forall k :: 0 <= k < |table| ==> WellScored(table[k])) &&
      (forall i, j :: 0 <= i < j < |table| && table[i].tp < 0 ==>
        table[j].tp < 0 || table[j].precision.Undefined?)
  {
    var rows := Scores(pairs, polygons, params, positive, negative, scorer).value;
    var table := SortByPrecision(rows);
    ScoresShape(pairs, polygons, params, positive, negative, scorer);
    assert |table| == |pairs| by {
      assert |multiset(table)| == |table| && |multiset(rows)| == |rows|;
    }
    forall k | 0 <= k < |table| ensures WellScored(table[k]) {
      assert table[k] in multiset(rows);
      var i :| 0 <= i < |rows| && rows[i] == table[k];
    }
    RankedSections(table);
  }
}
