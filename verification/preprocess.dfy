/** The outlier helpers of the preprocessing toolkit: interquartile-range
    bounds for one column, and the removal, clipping and detection of the
    rows outside them.

    Quantiles are computed by the data-frame library and are an input here.
    Row labels are positions (the default range index of a freshly read
    table). A missing value is never an outlier: both comparisons with a NaN
    are false. */
module Preprocess {
  import opened Wrappers
  import opened Frames
  import Seqs

  /** `Series.quantile(q)` on a column's values. */
  type Quantile = (seq<Cell>, real) -> real

  /** The default quartile levels of `outlier_thresholds`. */
  const Q1: real := 0.25
  const Q3: real := 0.75

  datatype Bounds = Bounds(low: real, up: real)

  /** The interquartile-range rule: each bound lies one and a half
      interquartile ranges beyond its quartile. */
  function Thresholds(quartile1: real, quartile3: real): (b: Bounds)
    ensures b.up - quartile3 == quartile1 - b.low
    ensures b.up - b.low == 4.0 * (quartile3 - quartile1)
    ensures quartile1 <= quartile3 ==> b.low <= quartile1 <= quartile3 <= b.up
    ensures quartile1 > quartile3 ==> b.up < b.low
  {
    var iqr := quartile3 - quartile1;
    Bounds(quartile1 - 1.5 * iqr, quartile3 + 1.5 * iqr)
  }

  /** Some cell of the column is a string. */
  predicate HasText(values: seq<Cell>) {
    exists i :: 0 <= i < |values| && values[i].Text?
  }

  /** `outlier_thresholds`: the column must exist (KeyError), be the only one
      with its label, and be numeric (the quantile of a string column raises);
      the bounds follow the interquartile-range rule on the two quantiles. */
  function OutlierThresholds(df: Frame, colName: string, quantile: Quantile, q1: real, q3: real)
    : (r: Result<Bounds, Error>)
    ensures colName !in Names(df) ==> r == Failure(MissingColumn(colName))
    ensures colName in Names(df) && !UniqueLabel(df, colName) ==> r == Failure(AmbiguousLabel(colName))
    ensures colName in Names(df) && UniqueLabel(df, colName) ==>
              var values := Lookup(df, colName).value.values;
              && (HasText(values) ==> r == Failure(NotNumeric(colName)))
              && (!HasText(values) ==>
                    && r.Success?
                    && r.value.up - quantile(values, q3) == quantile(values, q1) - r.value.low
                    && r.value.up - r.value.low == 4.0 * (quantile(values, q3) - quantile(values, q1)))
  {
    var column :- Lookup(df, colName);
    if !UniqueLabel(df, colName) then Failure(AmbiguousLabel(colName))
    else if HasText(column.values) then Failure(NotNumeric(colName))
    else Success(Thresholds(quantile(column.values, q1), quantile(column.values, q3)))
  }

  /** The bounds every helper below computes first, with the default levels. */
  function ColumnBounds(df: Frame, colName: string, quantile: Quantile): Result<Bounds, Error> {
    OutlierThresholds(df, colName, quantile, Q1, Q3)
  }

  /** `(x > up) | (x < low)`; false for a missing value. */
  predicate OutOfBounds(c: Cell, b: Bounds) {
    c.Num? && (c.x > b.up || c.x < b.low)
  }

  function InBoundsTest(b: Bounds): Cell -> bool {
    c => !OutOfBounds(c, b)
  }

  function OutlierTest(b: Bounds): Cell -> bool {
    c => OutOfBounds(c, b)
  }

  // ---------------------------------------------------------------------------
  // Boolean row masks

  /** Positions of the true entries of `mask` from `start` on, in increasing
      order. */
  function RowsFrom(mask: seq<bool>, start: nat): (ix: seq<nat>)
    requires start <= |mask|
    ensures forall k :: 0 <= k < |ix| ==> start <= ix[k] < |mask| && mask[ix[k]]
    ensures forall i :: start <= i < |mask| && mask[i] ==> i in ix
    ensures forall k, l :: 0 <= k < l < |ix| ==> ix[k] < ix[l]
    decreases |mask| - start
  {
    if start == |mask| then []
    else (if mask[start] then [start] else []) + RowsFrom(mask, start + 1)
  }

  /** The row labels a boolean mask selects. */
  function RowsWhere(mask: seq<bool>): (ix: seq<nat>)
    ensures forall k :: 0 <= k < |ix| ==> ix[k] < |mask| && mask[ix[k]]
    ensures forall i :: 0 <= i < |mask| ==> (i in ix <==> mask[i])
    ensures forall k, l :: 0 <= k < l < |ix| ==> ix[k] < ix[l]
  {
    RowsFrom(mask, 0)
  }

  /** `series[mask]`: the values whose mask entry is true. */
  function KeepRows<T>(values: seq<T>, mask: seq<bool>): (r: seq<T>)
    requires |values| == |mask|
    ensures |r| <= |values|
  {
    if values == [] then []
    else (if mask[0] then [values[0]] else []) + KeepRows(values[1..], mask[1..])
  }

  /** Masking keeps exactly the rows the mask selects, in order: the k-th kept
      value is the value at the k-th selected position. */
  lemma {:induction false} KeepRowsFromAt<T>(values: seq<T>, mask: seq<bool>, start: nat)
    requires |values| == |mask| && start <= |mask|
    ensures |KeepRows(values[start..], mask[start..])| == |RowsFrom(mask, start)|
    ensures forall k :: 0 <= k < |RowsFrom(mask, start)| ==>
              KeepRows(values[start..], mask[start..])[k] == values[RowsFrom(mask, start)[k]]
    decreases |mask| - start
  {
    if start < |mask| {
      KeepRowsFromAt(values, mask, start + 1);
      assert values[start..][1..] == values[start + 1..];
      assert mask[start..][1..] == mask[start + 1..];
    }
  }

  lemma {:induction false} KeepRowsAt<T>(values: seq<T>, mask: seq<bool>)
    requires |values| == |mask|
    ensures |KeepRows(values, mask)| == |RowsWhere(mask)|
    ensures forall k :: 0 <= k < |RowsWhere(mask)| ==> KeepRows(values, mask)[k] == values[RowsWhere(mask)[k]]
  {
    KeepRowsFromAt(values, mask, 0);
    assert values[0..] == values && mask[0..] == mask;
  }

  lemma {:induction false} KeepRowsSubsequence<T>(values: seq<T>, mask: seq<bool>)
    requires |values| == |mask|
    ensures Seqs.IsSubsequence(KeepRows(values, mask), values)
  {
    if values != [] {
      var rest := KeepRows(values[1..], mask[1..]);
      KeepRowsSubsequence(values[1..], mask[1..]);
      if mask[0] {
        assert KeepRows(values, mask) == [values[0]] + rest;
        assert KeepRows(values, mask)[1..] == rest;
      } else {
        assert KeepRows(values, mask) == rest;
        Seqs.DropHeadKeepsSubsequence(rest, values);
      }
    }
  }

  /** Masking a column by a test on its own values is filtering it. */
  lemma {:induction false} KeepRowsFilter<T(!new)>(p: T -> bool, values: seq<T>)
    ensures KeepRows(values, Seqs.Map(p, values)) == Seqs.Filter(p, values)
  {
    if values != [] {
      assert Seqs.Map(p, values)[1..] == Seqs.Map(p, values[1..]);
      KeepRowsFilter(p, values[1..]);
    }
  }

  /** The positions of the rows within the bounds. */
  function InBoundsRows(values: seq<Cell>, b: Bounds): (ix: seq<nat>)
    ensures forall i :: 0 <= i < |values| ==> (i in ix <==> !OutOfBounds(values[i], b))
    ensures forall k :: 0 <= k < |ix| ==> ix[k] < |values|
    ensures forall k, l :: 0 <= k < l < |ix| ==> ix[k] < ix[l]
  {
    RowsWhere(Seqs.Map(InBoundsTest(b), values))
  }

  /** The positions of the rows outside the bounds. */
  function OutlierRows(values: seq<Cell>, b: Bounds): (ix: seq<nat>)
    ensures forall i :: 0 <= i < |values| ==> (i in ix <==> OutOfBounds(values[i], b))
    ensures forall k :: 0 <= k < |ix| ==> ix[k] < |values|
    ensures forall k, l :: 0 <= k < l < |ix| ==> ix[k] < ix[l]
  {
    RowsWhere(Seqs.Map(OutlierTest(b), values))
  }

  /** Every row is either kept by `remove_outlier` or reported by
      `grab_outliers`, never both, and together they account for all rows. */
  lemma {:induction false} RowsPartition(values: seq<Cell>, b: Bounds)
    ensures |InBoundsRows(values, b)| + |OutlierRows(values, b)| == |values|
    ensures forall i :: 0 <= i < |values| ==> (i in InBoundsRows(values, b) <==> i !in OutlierRows(values, b))
  {
    var keep := Seqs.Map(InBoundsTest(b), values);
    var out := Seqs.Map(OutlierTest(b), values);
    ComplementCount(keep, out, 0);
  }

  /** Complementary masks select row sets whose sizes add up to the length. */
  lemma {:induction false} ComplementCount(keep: seq<bool>, out: seq<bool>, start: nat)
    requires |keep| == |out| && start <= |keep|
    requires forall i :: 0 <= i < |keep| ==> keep[i] == !out[i]
    ensures |RowsFrom(keep, start)| + |RowsFrom(out, start)| == |keep| - start
    decreases |keep| - start
  {
    if start < |keep| {
      ComplementCount(keep, out, start + 1);
    }
  }

  // ---------------------------------------------------------------------------
  // remove_outlier

  /** `remove_outlier`: the rows whose tested value is within the bounds, in
      their original order, across every column. */
  function RemoveOutlier(df: Frame, colName: string, quantile: Quantile): (r: Result<Frame, Error>)
    requires Rectangular(df)
    ensures r.Failure? <==> ColumnBounds(df, colName, quantile).Failure?
    ensures r.Failure? ==> r.error == ColumnBounds(df, colName, quantile).error
    ensures r.Success? ==>
              var b := ColumnBounds(df, colName, quantile).value;
              var kept := InBoundsRows(Lookup(df, colName).value.values, b);
              && Names(r.value) == Names(df)
              && (forall j :: 0 <= j < |df| ==>
                    && r.value[j].dtype == df[j].dtype
                    && Seqs.IsSubsequence(r.value[j].values, df[j].values)
                    && |r.value[j].values| == |kept|
                    && (forall k :: 0 <= k < |kept| ==> r.value[j].values[k] == df[j].values[kept[k]]))
  {
    var b :- ColumnBounds(df, colName, quantile);
    var target := Lookup(df, colName).value.values;
    var keep := Seqs.Map(InBoundsTest(b), target);
    var out := seq(|df|, j requires 0 <= j < |df| => df[j].(values := KeepRows(df[j].values, keep)));
    assert forall j :: 0 <= j < |df| ==>
             && Seqs.IsSubsequence(out[j].values, df[j].values)
             && |out[j].values| == |RowsWhere(keep)|
             && (forall k :: 0 <= k < |RowsWhere(keep)| ==> out[j].values[k] == df[j].values[RowsWhere(keep)[k]])
    by {
      forall j | 0 <= j < |df|
        ensures Seqs.IsSubsequence(out[j].values, df[j].values)
        ensures |out[j].values| == |RowsWhere(keep)|
        ensures forall k :: 0 <= k < |RowsWhere(keep)| ==> out[j].values[k] == df[j].values[RowsWhere(keep)[k]]
      {
        KeepRowsSubsequence(df[j].values, keep);
        KeepRowsAt(df[j].values, keep);
      }
    }
    Success(out)
  }

  /** In the tested column, `remove_outlier` keeps exactly the in-bound values
      (missing ones included) in order, so no outlier remains. */
  lemma {:induction false} RemoveOutlierTestedColumn(df: Frame, colName: string, quantile: Quantile)
    requires Rectangular(df)
    requires RemoveOutlier(df, colName, quantile).Success?
    ensures var b := ColumnBounds(df, colName, quantile).value;
            var k := ColumnIndex(df, colName);
            var kept := RemoveOutlier(df, colName, quantile).value[k].values;
            && kept == Seqs.Filter(InBoundsTest(b), df[k].values)
            && (forall i :: 0 <= i < |kept| ==> !OutOfBounds(kept[i], b))
            && (forall c :: c in df[k].values && !OutOfBounds(c, b) ==> c in kept)
  {
    var b := ColumnBounds(df, colName, quantile).value;
    var k := ColumnIndex(df, colName);
    var r := RemoveOutlier(df, colName, quantile).value;
    var keep := Seqs.Map(InBoundsTest(b), df[k].values);
    assert r[k].values == KeepRows(df[k].values, keep);
    KeepRowsFilter(InBoundsTest(b), df[k].values);
    assert forall i :: 0 <= i < |r[k].values| ==> InBoundsTest(b)(r[k].values[i]);
  }

  // ---------------------------------------------------------------------------
  // grab_outliers

  /** `grab_outliers`: with `index`, the labels of exactly the out-of-bound
      rows, in order; otherwise nothing. The printed preview is left out. */
  function GrabOutliers(df: Frame, colName: string, quantile: Quantile, index: bool)
    : (r: Result<Option<seq<nat>>, Error>)
    ensures r.Failure? <==> ColumnBounds(df, colName, quantile).Failure?
    ensures r.Failure? ==> r.error == ColumnBounds(df, colName, quantile).error
    ensures r.Success? ==> (r.value.Some? <==> index)
    ensures r.Success? && index ==>
              var b := ColumnBounds(df, colName, quantile).value;
              var values := Lookup(df, colName).value.values;
              && (forall i :: 0 <= i < |values| ==> (i in r.value.value <==> OutOfBounds(values[i], b)))
              && (forall k :: 0 <= k < |r.value.value| ==> r.value.value[k] < |values|)
              && (forall k, l :: 0 <= k < l < |r.value.value| ==> r.value.value[k] < r.value.value[l])
  {
    var b :- ColumnBounds(df, colName, quantile);
    if index then Success(Some(OutlierRows(Lookup(df, colName).value.values, b))) else Success(None)
  }

  // ---------------------------------------------------------------------------
  // replace_with_thresholds

  /** `df.loc[x < low, col] = low`. */
  function RaiseToLow(c: Cell, low: real): Cell {
    if c.Num? && c.x < low then Num(low) else c
  }

  /** `df.loc[x > up, col] = up`. */
  function LowerToUp(c: Cell, up: real): Cell {
    if c.Num? && c.x > up then Num(up) else c
  }

  /** The two assignments in the order the code makes them, both against the
      bounds computed beforehand. */
  function Clip(values: seq<Cell>, b: Bounds): (r: seq<Cell>)
    ensures |r| == |values|
  {
    var raised := seq(|values|, i requires 0 <= i < |values| => RaiseToLow(values[i], b.low));
    seq(|raised|, i requires 0 <= i < |raised| => LowerToUp(raised[i], b.up))
  }

  /** A one-pass reference: clamp every number into `[low, up]`. */
  function Clamp(c: Cell, b: Bounds): Cell
    requires b.low <= b.up
  {
    match c
    case Num(x) => Num(if x < b.low then b.low else if x > b.up then b.up else x)
    case _ => c
  }

  /** With ordered bounds the two sequential assignments clamp every value,
      leave in-range and non-numeric values as they were, and a second pass
      changes nothing. */
  lemma {:induction false} ClipIsClamp(values: seq<Cell>, b: Bounds)
    requires b.low <= b.up
    ensures forall i :: 0 <= i < |values| ==> Clip(values, b)[i] == Clamp(values[i], b)
    ensures forall i :: 0 <= i < |values| ==> !OutOfBounds(Clip(values, b)[i], b)
    ensures forall i :: 0 <= i < |values| && !OutOfBounds(values[i], b) ==> Clip(values, b)[i] == values[i]
    ensures Clip(Clip(values, b), b) == Clip(values, b)
  {
  }

  /** Quantiles that never decrease as the level rises, as every
      interpolating quantile does. */
  ghost predicate Monotone(quantile: Quantile) {
    forall values: seq<Cell>, p: real, q: real :: p <= q ==> quantile(values, p) <= quantile(values, q)
  }

  /** With a monotone quantile the computed bounds are always in order, so the
      clipping of `ReplaceWithThresholds` is a clamp. */
  lemma MonotoneQuantileOrdersBounds(df: Frame, colName: string, quantile: Quantile)
    requires Monotone(quantile)
    requires ColumnBounds(df, colName, quantile).Success?
    ensures ColumnBounds(df, colName, quantile).value.low <= ColumnBounds(df, colName, quantile).value.up
  {
    var values := Lookup(df, colName).value.values;
    assert quantile(values, Q1) <= quantile(values, Q3);
  }

  /** The order of the two assignments matters only for bounds out of order,
      which a monotone quantile never yields (`MonotoneQuantileOrdersBounds`):
      the case is unreachable with the data-frame library's quantiles and is
      kept only to pin down what the two assignments do in sequence. A value
      below `low` is first raised to `low` and then, since `low > up`, lowered
      to `up`: the result lies below `low`. */
  lemma ClipWithInvertedBounds()
    ensures var b := Bounds(1.0, 0.0);
            Clip([Num(-5.0)], b) == [Num(0.0)] && OutOfBounds(Num(0.0), b)
  {
    var b := Bounds(1.0, 0.0);
    assert Clip([Num(-5.0)], b)[0] == LowerToUp(RaiseToLow(Num(-5.0), 1.0), 0.0);
  }

  /** `replace_with_thresholds`, which the code performs in place: in the
      tested column every number below `low` is set to `low`, then every number
      above `up` is set to `up`; every other column is left as it was. */
  function ReplaceWithThresholds(df: Frame, variable: string, quantile: Quantile): (r: Result<Frame, Error>)
    ensures r.Failure? <==> ColumnBounds(df, variable, quantile).Failure?
    ensures r.Failure? ==> r.error == ColumnBounds(df, variable, quantile).error
    ensures r.Success? ==>
              var b := ColumnBounds(df, variable, quantile).value;
              var k := ColumnIndex(df, variable);
              && |r.value| == |df|
              && (forall j :: 0 <= j < |df| && j != k ==> r.value[j] == df[j])
              && r.value[k].name == variable
              && r.value[k].dtype == df[k].dtype
              && |r.value[k].values| == |df[k].values|
              && (forall i :: 0 <= i < |df[k].values| && !OutOfBounds(df[k].values[i], b) ==>
                    r.value[k].values[i] == df[k].values[i])
              && (forall i :: 0 <= i < |df[k].values| ==>
                    r.value[k].values[i] == LowerToUp(RaiseToLow(df[k].values[i], b.low), b.up))
              && (b.low <= b.up ==> forall i :: 0 <= i < |df[k].values| ==>
                    && r.value[k].values[i] == Clamp(df[k].values[i], b)
                    && !OutOfBounds(r.value[k].values[i], b))
  {
    var b :- ColumnBounds(df, variable, quantile);
    var k := ColumnIndex(df, variable);
    assert b.low <= b.up ==>
             forall i :: 0 <= i < |df[k].values| ==>
               Clip(df[k].values, b)[i] == Clamp(df[k].values[i], b) && !OutOfBounds(Clip(df[k].values, b)[i], b)
    by {
      if b.low <= b.up {
        ClipIsClamp(df[k].values, b);
      }
    }
    Success(df[k := df[k].(values := Clip(df[k].values, b))])
  }

  // ---------------------------------------------------------------------------
  // check_outlier

  /** Truthiness of a cell under `DataFrame.any`: a non-zero number or a
      non-empty string; missing values are skipped. */
  predicate Truthy(c: Cell) {
    match c
    case Missing => false
    case Num(x) => x != 0.0
    case Text(s) => s != ""
  }

  /** `check_outlier` as written: selects the out-of-bound ROWS of the whole
      table and asks whether any cell in them is truthy. */
  function CheckOutlierAsWritten(df: Frame, colName: string, quantile: Quantile): (r: Result<bool, Error>)
    requires Rectangular(df)
    ensures r.Failure? <==> ColumnBounds(df, colName, quantile).Failure?
    ensures r.Failure? ==> r.error == ColumnBounds(df, colName, quantile).error
    ensures r.Success? ==>
              var b := ColumnBounds(df, colName, quantile).value;
              var values := Lookup(df, colName).value.values;
              (r.value <==> exists i, j :: 0 <= i < |values| && 0 <= j < |df| &&
                              OutOfBounds(values[i], b) && Truthy(df[j].values[i]))
  {
    var b :- ColumnBounds(df, colName, quantile);
    var values := Lookup(df, colName).value.values;
    var rows := OutlierRows(values, b);
    Success(exists k, j :: 0 <= k < |rows| && 0 <= j < |df| && Truthy(df[j].values[rows[k]]))
  }

  /** `check_outlier` as intended: true exactly when some row of the column
      lies outside the bounds. */
  function CheckOutlier(df: Frame, colName: string, quantile: Quantile): (r: Result<bool, Error>)
    ensures r.Failure? <==> ColumnBounds(df, colName, quantile).Failure?
    ensures r.Failure? ==> r.error == ColumnBounds(df, colName, quantile).error
    ensures r.Success? ==>
              var b := ColumnBounds(df, colName, quantile).value;
              var values := Lookup(df, colName).value.values;
              (r.value <==> exists i :: 0 <= i < |values| && OutOfBounds(values[i], b))
  {
    var b :- ColumnBounds(df, colName, quantile);
    var values := Lookup(df, colName).value.values;
    var rows := OutlierRows(values, b);
    assert rows != [] ==> OutOfBounds(values[rows[0]], b);
    Success(rows != [])
  }

  /** Both versions report no outlier when no row is out of bounds, and the
      written one never reports an outlier the intended one misses. */
  lemma {:induction false} CheckOutlierSound(df: Frame, colName: string, quantile: Quantile)
    requires Rectangular(df)
    requires ColumnBounds(df, colName, quantile).Success?
    ensures CheckOutlierAsWritten(df, colName, quantile).value ==> CheckOutlier(df, colName, quantile).value
  {
  }

  /** One column [-10, -10, -10, -10, 0]: both quartiles are -10, so both
      bounds are -10 and the 0 is an outlier, yet the only value in the
      selected row is 0, which is not truthy, so the written check says no. */
  lemma CheckOutlierMissesZeroOutlier()
    ensures var df := [Column("x", Float64, [Num(-10.0), Num(-10.0), Num(-10.0), Num(-10.0), Num(0.0)])];
            var quartiles: Quantile := (values, q) => -10.0;
            && CheckOutlier(df, "x", quartiles) == Success(true)
            && CheckOutlierAsWritten(df, "x", quartiles) == Success(false)
  {
    var values := [Num(-10.0), Num(-10.0), Num(-10.0), Num(-10.0), Num(0.0)];
    var df := [Column("x", Float64, values)];
    var quartiles: Quantile := (values, q) => -10.0;
    assert Names(df)[0] == "x";
    assert ColumnIndex(df, "x") == 0;
    assert Lookup(df, "x") == Success(df[0]);
    assert !HasText(values) by {
      forall i | 0 <= i < |values|
        ensures !values[i].Text?
      {
      }
    }
    assert quartiles(values, Q1) == -10.0 && quartiles(values, Q3) == -10.0;
    var b := Bounds(-10.0, -10.0);
    assert ColumnBounds(df, "x", quartiles) == Success(b);
    assert OutOfBounds(values[4], b);
    forall i, j | 0 <= i < |values| && 0 <= j < |df| && OutOfBounds(values[i], b)
      ensures !Truthy(df[j].values[i])
    {
      assert i == 4;
    }
    var written := CheckOutlierAsWritten(df, "x", quartiles);
    assert written.Success? && !written.value;
    var intended := CheckOutlier(df, "x", quartiles);
    assert intended.Success? && intended.value;
  }
}
