/**
 Column pruning of a freshly loaded sample table: the columns with too many
 missing values, or whose values are all close to their mean, are listed
 for dropping. The table itself is returned unchanged.
 */
module Data {
  import opened Common

  /** One named column of measurements; `None` is a missing (NaN) entry. */
  datatype Column = Column(name: Channel, values: seq<Option<real>>)

  /** A sample table: its row count and its columns in table order. */
  datatype Frame = Frame(rows: nat, columns: seq<Column>)

  /** The number of missing entries of a column (`isnull().sum()`). */
  function NullCount(values: seq<Option<real>>): (k: nat)
    ensures k <= |values|
    ensures k == 0 <==> forall i :: 0 <= i < |values| ==> values[i].Some?
  {
    if |values| == 0 then 0
    else NullCount(values[..|values| - 1]) + (if values[|values| - 1].None? then 1 else 0)
  }

  /**
   The tolerated number of missing entries, `int(rows * 0.25)`: the product
   is exact in floating point and truncation of a non-negative value is the
   floor, so this is rows / 4 rounded down.
   */
  function NullLimit(rows: nat): (k: nat)
    ensures 4 * k <= rows < 4 * k + 4
  {
    rows / 4
  }

  /** Whether the column is listed: too many missing entries, else all values close to the mean. */
  predicate ShouldDrop(c: Column, rows: nat, closeToMean: seq<Option<real>> -> bool)
  {
    if NullCount(c.values) > NullLimit(rows) then true
    else closeToMean(c.values)
  }

  /** The names of the listed columns, in table order. */
  function DropColumns(cols: seq<Column>, rows: nat, closeToMean: seq<Option<real>> -> bool): (d: seq<Channel>)
    ensures |d| <= |cols|
  {
    if |cols| == 0 then []
    else
      DropColumns(cols[..|cols| - 1], rows, closeToMean) +
      (if ShouldDrop(cols[|cols| - 1], rows, closeToMean) then [cols[|cols| - 1].name] else [])
  }

  /** Visiting one more column appends its name exactly when it is listed. */
  lemma DropColumnsStep(cols: seq<Column>, rows: nat, closeToMean: seq<Option<real>> -> bool, k: nat)
    requires k < |cols|
    ensures DropColumns(cols[..k + 1], rows, closeToMean) ==
      DropColumns(cols[..k], rows, closeToMean) + (if ShouldDrop(cols[k], rows, closeToMean) then [cols[k].name] else [])
  {
    assert cols[..k + 1][..k] == cols[..k];
  }

  /** The body of the pruning loop for one column: list it when it has too many missing entries, else when its values are all close to the mean. */
  method VisitColumn(col: Column, totalRows: nat, closeToMean: seq<Option<real>> -> bool, dropCols: seq<Channel>)
    returns (listed: seq<Channel>)
    ensures listed == dropCols + (if ShouldDrop(col, totalRows, closeToMean) then [col.name] else [])
  {
    listed := dropCols;
    if NullCount(col.values) > NullLimit(totalRows) {
      listed := listed + [col.name];
    } else if closeToMean(col.values) {
      listed := listed + [col.name];
    }
  }

  /** Why pruning raises: a label names several columns, so `df[label]` is a table, not a column. */
  datatype DataError = AmbiguousLabel(name: Channel)

  /** The number of columns carrying the label. */
  function LabelCount(cols: seq<Column>, name: Channel): nat
  {
    if |cols| == 0 then 0
    else LabelCount(cols[..|cols| - 1], name) + (if cols[|cols| - 1].name == name then 1 else 0)
  }

  /**
   A label is absent exactly when no column carries it, and repeated exactly
   when two different columns carry it.
   */
  lemma {:induction false} LabelCountMembers(cols: seq<Column>, name: Channel)
    ensures LabelCount(cols, name) == 0 <==> forall k :: 0 <= k < |cols| ==> cols[k].name != name
    ensures LabelCount(cols, name) >= 2 <==>
      exists i, j :: 0 <= i < j < |cols| && cols[i].name == name && cols[j].name == name
  {
    if |cols| > 0 {
      var last := |cols| - 1;
      var prefix := cols[..last];
      LabelCountMembers(prefix, name);
      assert forall k :: 0 <= k < last ==> prefix[k] == cols[k];
      if LabelCount(cols, name) >= 2 && LabelCount(prefix, name) < 2 {
        var i :| 0 <= i < last && prefix[i].name == name;
        assert cols[i].name == name && cols[last].name == name;
      }
      if exists i, j :: 0 <= i < j < |cols| && cols[i].name == name && cols[j].name == name {
        var i, j :| 0 <= i < j < |cols| && cols[i].name == name && cols[j].name == name;
        if j < last {
          assert prefix[i].name == name && prefix[j].name == name;
        } else {
          assert prefix[i].name == name;
        }
      }
    }
  }

  /** No column before position k has a repeated label. */
  predicate NoRepeatBefore(cols: seq<Column>, k: nat)
    requires k <= |cols|
  {
    forall j :: 0 <= j < k ==> LabelCount(cols, cols[j].name) < 2
  }

  /** A column whose label is not repeated extends the repeat-free leading part. */
  lemma NoRepeatExtend(cols: seq<Column>, k: nat)
    requires k < |cols| && NoRepeatBefore(cols, k) && LabelCount(cols, cols[k].name) < 2
    ensures NoRepeatBefore(cols, k + 1)
  {
  }

  /** A repeated label makes the labels not distinct. */
  lemma RepeatNotDistinct(cols: seq<Column>, k: nat)
    requires k < |cols| && LabelCount(cols, cols[k].name) >= 2
    ensures !Distinct(Names(cols))
  {
    LabelCountMembers(cols, cols[k].name);
    var i, j :| 0 <= i < j < |cols| && cols[i].name == cols[k].name && cols[j].name == cols[k].name;
    assert Names(cols)[i] == Names(cols)[j];
  }

  /** When no column's label is repeated, the labels are distinct. */
  lemma NoRepeatDistinct(cols: seq<Column>)
    requires NoRepeatBefore(cols, |cols|)
    ensures Distinct(Names(cols))
  {
    forall i, j | 0 <= i < j < |cols| ensures Names(cols)[i] != Names(cols)[j] {
      if cols[i].name == cols[j].name {
        LabelCountMembers(cols, cols[i].name);
        assert LabelCount(cols, cols[i].name) < 2;
      }
    }
  }

  /**
   `process_df`: visit the columns in order and append each listed one once;
   the table is handed back as it came in. The first visited column whose
   label is repeated raises, since its lookup yields several columns and the
   truth value of their null counts is ambiguous; so the call succeeds
   exactly when the labels are distinct.
   */
  method ProcessDf(df: Frame, closeToMean: seq<Option<real>> -> bool)
    returns (r: Result<(Frame, seq<Channel>), DataError>)
    ensures r.Success? <==> Distinct(Names(df.columns))
    ensures r.Success? ==> r.value == (df, DropColumns(df.columns, df.rows, closeToMean))
    ensures r.Failure? ==> exists k :: (0 <= k < |df.columns| &&
      r.error == AmbiguousLabel(df.columns[k].name) && LabelCount(df.columns, df.columns[k].name) >= 2 &&
      NoRepeatBefore(df.columns, k))
  {
    var totalRows := df.rows;
    var dropCols := [];
    var k := 0;
    while k < |df.columns|
      invariant 0 <= k <= |df.columns|
      invariant dropCols == DropColumns(df.columns[..k], totalRows, closeToMean)
      invariant NoRepeatBefore(df.columns, k)
    {
      var col := df.columns[k];
      if LabelCount(df.columns, col.name) >= 2 {
        RepeatNotDistinct(df.columns, k);
        r := Failure(AmbiguousLabel(df.columns[k].name));
        assert 0 <= k < |df.columns| && r.error == AmbiguousLabel(df.columns[k].name) &&
          LabelCount(df.columns, df.columns[k].name) >= 2 && NoRepeatBefore(df.columns, k);
        return;
      }
      dropCols := VisitColumn(col, totalRows, closeToMean, dropCols);
      DropColumnsStep(df.columns, totalRows, closeToMean, k);
      NoRepeatExtend(df.columns, k);
      k := k + 1;
    }
    assert df.columns[..k] == df.columns;
    NoRepeatDistinct(df.columns);
    r := Success((df, dropCols));
  }

  /** Every listed name is the name of a column that meets the drop rule. */
  lemma {:induction false} DroppedOnlyIfRule(cols: seq<Column>, rows: nat, closeToMean: seq<Option<real>> -> bool, x: Channel)
    requires x in DropColumns(cols, rows, closeToMean)
    ensures exists k :: 0 <= k < |cols| && cols[k].name == x && ShouldDrop(cols[k], rows, closeToMean)
  {
    var last := |cols| - 1;
    var prefix := cols[..last];
    if x in DropColumns(prefix, rows, closeToMean) {
      DroppedOnlyIfRule(prefix, rows, closeToMean, x);
      var k :| 0 <= k < |prefix| && prefix[k].name == x && ShouldDrop(prefix[k], rows, closeToMean);
      assert cols[k] == prefix[k];
    } else {
      assert cols[last].name == x && ShouldDrop(cols[last], rows, closeToMean);
    }
  }

  /** Every column that meets the drop rule is listed. */
  lemma {:induction false} RuleImpliesDropped(cols: seq<Column>, rows: nat, closeToMean: seq<Option<real>> -> bool, k: nat)
    requires k < |cols| && ShouldDrop(cols[k], rows, closeToMean)
    ensures cols[k].name in DropColumns(cols, rows, closeToMean)
  {
    var last := |cols| - 1;
    if k < last {
      assert cols[..last][k] == cols[k];
      RuleImpliesDropped(cols[..last], rows, closeToMean, k);
    }
  }

  /**
   With distinct column names, a column is listed exactly when it has more
   than rows / 4 missing entries, or at most that many and all its values
   close to the mean.
   */
  lemma DropRule(cols: seq<Column>, rows: nat, closeToMean: seq<Option<real>> -> bool, k: nat)
    requires k < |cols|
    requires Distinct(Names(cols))
    ensures NullCount(cols[k].values) > rows / 4 ==> cols[k].name in DropColumns(cols, rows, closeToMean)
    ensures NullCount(cols[k].values) <= rows / 4 ==>
      (cols[k].name in DropColumns(cols, rows, closeToMean) <==> closeToMean(cols[k].values))
  {
    if ShouldDrop(cols[k], rows, closeToMean) {
      RuleImpliesDropped(cols, rows, closeToMean, k);
    } else if cols[k].name in DropColumns(cols, rows, closeToMean) {
      DroppedOnlyIfRule(cols, rows, closeToMean, cols[k].name);
    }
  }

  /** No name occurs twice. */
  predicate Distinct(names: seq<Channel>)
  {
    forall i, j :: 0 <= i < j < |names| ==> names[i] != names[j]
  }

  function Names(cols: seq<Column>): (names: seq<Channel>)
    ensures |names| == |cols| && forall k :: 0 <= k < |cols| ==> names[k] == cols[k].name
  {
    seq(|cols|, k requires 0 <= k < |cols| => cols[k].name)
  }

  /** Thanks to the `elif`, each column is listed at most once: distinct names stay distinct. */
  lemma {:induction false} DropColumnsDistinct(cols: seq<Column>, rows: nat, closeToMean: seq<Option<real>> -> bool)
    requires Distinct(Names(cols))
    ensures Distinct(DropColumns(cols, rows, closeToMean))
  {
    if |cols| > 0 {
      var last := |cols| - 1;
      var prefix := cols[..last];
      assert Names(prefix) == Names(cols)[..last];
      DropColumnsDistinct(prefix, rows, closeToMean);
      var d0 := DropColumns(prefix, rows, closeToMean);
      if cols[last].name in d0 {
        DroppedOnlyIfRule(prefix, rows, closeToMean, cols[last].name);
        assert false;
      }
    }
  }

  /**
   Table order is kept: the list for a leading part of the columns is a
   leading part of the list for all of them.
   */
  lemma {:induction false} DropColumnsPrefix(cols: seq<Column>, rows: nat, closeToMean: seq<Option<real>> -> bool, k: nat)
    requires k <= |cols|
    ensures var d := DropColumns(cols, rows, closeToMean);
      var dk := DropColumns(cols[..k], rows, closeToMean);
      |dk| <= |d| && d[..|dk|] == dk
  {
    if k < |cols| {
      var last := |cols| - 1;
      assert cols[..last][..k] == cols[..k];
      DropColumnsPrefix(cols[..last], rows, closeToMean, k);
    } else {
      assert cols[..k] == cols;
    }
  }
}
