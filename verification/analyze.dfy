/** Column-metadata helpers of the analysis toolkit: the dtype/cardinality
    classifier, the lower-triangle correlation scan, and the selection of
    columns with missing values. The correlation matrix is computed by the
    data-frame library and is an input here. */
module Analyze {
  import opened Wrappers
  import opened Frames
  import Seqs

  /** `nunique()`: the number of distinct non-missing values. */
  function NUnique(values: seq<Cell>): nat {
    |set i | 0 <= i < |values| && !values[i].Missing? :: values[i]|
  }

  /** A column test, built from the comparisons the helpers make. */
  datatype Selector =
    | ObjectDtype
    | NumericDtype
    | FewerUniqueThan(bound: int)
    | MoreUniqueThan(bound: int)
    | HasMissing
    | And(left: Selector, right: Selector)
    | Not(operand: Selector)

  predicate Matches(c: Column, s: Selector) {
    match s
    case ObjectDtype => c.dtype == Object
    case NumericDtype => c.dtype.IsNumeric()
    case FewerUniqueThan(b) => NUnique(c.values) < b
    case MoreUniqueThan(b) => NUnique(c.values) > b
    case HasMissing => Missing in c.values
    case And(a, b) => Matches(c, a) && Matches(c, b)
    case Not(a) => !Matches(c, a)
  }

  /** `[col for col in df.columns if <test on df[col]>]`. */
  function Select(df: Frame, s: Selector): (names: seq<string>)
    ensures |names| <= |df|
    ensures forall n :: n in names ==> n in Names(df)
  {
    if df == [] then []
    else (if Matches(df[0], s) then [df[0].name] else []) + Select(df[1..], s)
  }

  /** `[n for n in names if n not in excluded]`. */
  function Without(names: seq<string>, excluded: seq<string>): (r: seq<string>)
    ensures |r| <= |names|
    ensures forall n :: n in r <==> n in names && n !in excluded
  {
    if names == [] then []
    else (if names[0] in excluded then [] else [names[0]]) + Without(names[1..], excluded)
  }

  datatype ColumnGroups = ColumnGroups(catCols: seq<string>, numCols: seq<string>, catButCar: seq<string>)

  /** `grab_col_names`. The cardinal list is computed by testing the cardinality
      of each object column; with distinct labels that is the same as selecting
      the object columns above the threshold. */
  function GrabColNames(df: Frame, catTh: int, carTh: int): (g: ColumnGroups)
    requires DistinctNames(df)
    ensures forall n :: n in g.catCols || n in g.numCols || n in g.catButCar ==> n in Names(df)
    ensures forall n :: n in g.catButCar ==> n !in g.catCols
    ensures |g.catButCar| <= |df| && |g.numCols| <= |df|
  {
    var categoricalCols := Select(df, ObjectDtype);
    var numericalButCat := Select(df, And(FewerUniqueThan(catTh), NumericDtype));
    var categoricalButCar := Select(df, And(ObjectDtype, MoreUniqueThan(carTh)));
    var catCols := Without(categoricalCols + numericalButCat, categoricalButCar);
    var numCols := Without(Select(df, NumericDtype), numericalButCat);
    ColumnGroups(catCols, numCols, categoricalButCar)
  }

  /** The intended class of one column, stated independently of the list
      manipulations above. */
  datatype Kind = Categorical | Numerical | Cardinal | Unclassified

  function KindOf(c: Column, catTh: int, carTh: int): Kind {
    if c.dtype == Object then
      (if NUnique(c.values) > carTh then Cardinal else Categorical)
    else if c.dtype.IsNumeric() then
      (if NUnique(c.values) < catTh then Categorical else Numerical)
    else
      Unclassified
  }

  // ---------------------------------------------------------------------------
  // Facts about Select and Without

  /** With distinct labels, a column's label is selected exactly when the
      column matches. */
  lemma {:induction false} SelectMember(df: Frame, s: Selector, i: nat)
    requires DistinctNames(df)
    requires i < |df|
    ensures df[i].name in Select(df, s) <==> Matches(df[i], s)
  {
    if i > 0 {
      assert df[1..][i - 1] == df[i];
      SelectMember(df[1..], s, i - 1);
    }
  }

  lemma {:induction false} SelectSubsequence(df: Frame, s: Selector)
    ensures Seqs.IsSubsequence(Select(df, s), Names(df))
  {
    if df != [] {
      var rest := Select(df[1..], s);
      SelectSubsequence(df[1..], s);
      assert Names(df)[1..] == Names(df[1..]);
      if Matches(df[0], s) {
        assert Select(df, s) == [df[0].name] + rest;
        assert Select(df, s)[1..] == rest;
      } else {
        assert Select(df, s) == rest;
        Seqs.DropHeadKeepsSubsequence(rest, Names(df));
      }
    }
  }

  lemma {:induction false} SelectNoDuplicates(df: Frame, s: Selector)
    requires DistinctNames(df)
    ensures Seqs.NoDuplicates(Select(df, s))
  {
    if df != [] {
      SelectNoDuplicates(df[1..], s);
      if Matches(df[0], s) {
        assert df[0].name !in Select(df[1..], s);
        Seqs.NoDuplicatesAppend([df[0].name], Select(df[1..], s));
      }
    }
  }

  lemma {:induction false} SelectCongruent(df: Frame, s1: Selector, s2: Selector)
    requires forall i :: 0 <= i < |df| ==> (Matches(df[i], s1) <==> Matches(df[i], s2))
    ensures Select(df, s1) == Select(df, s2)
  {
    if df != [] {
      SelectCongruent(df[1..], s1, s2);
    }
  }

  lemma {:induction false} WithoutAppend(a: seq<string>, b: seq<string>, e: seq<string>)
    ensures Without(a + b, e) == Without(a, e) + Without(b, e)
  {
    if a == [] {
      assert a + b == b;
    } else {
      assert (a + b)[0] == a[0];
      assert (a + b)[1..] == a[1..] + b;
      WithoutAppend(a[1..], b, e);
    }
  }

  lemma {:induction false} WithoutCongruent(a: seq<string>, e1: seq<string>, e2: seq<string>)
    requires forall n :: n in a ==> (n in e1 <==> n in e2)
    ensures Without(a, e1) == Without(a, e2)
  {
    if a != [] {
      WithoutCongruent(a[1..], e1, e2);
    }
  }

  /** The first step of `WithoutSelect`: the head column on its own. */
  lemma {:induction false} WithoutHead(df: Frame, a: Selector, b: Selector)
    requires DistinctNames(df) && df != []
    ensures Without(if Matches(df[0], a) then [df[0].name] else [], Select(df, b)) ==
            if Matches(df[0], And(a, Not(b))) then [df[0].name] else []
  {
    assert Matches(df[0], And(a, Not(b))) == (Matches(df[0], a) && !Matches(df[0], b));
    SelectMember(df, b, 0);
    if Matches(df[0], a) {
      assert [df[0].name][1..] == [];
      assert Without([df[0].name], Select(df, b)) ==
             (if df[0].name in Select(df, b) then [] else [df[0].name]) + Without([], Select(df, b));
    }
  }

  /** Removing the labels selected by `b` from those selected by `a` selects
      the columns matching `a` and not `b`. */
  lemma {:induction false} WithoutSelect(df: Frame, a: Selector, b: Selector)
    requires DistinctNames(df)
    ensures Without(Select(df, a), Select(df, b)) == Select(df, And(a, Not(b)))
  {
    if df != [] {
      var rest := df[1..];
      var both := And(a, Not(b));
      var head := if Matches(df[0], a) then [df[0].name] else [];
      var kept := if Matches(df[0], both) then [df[0].name] else [];
      SelectMember(df, b, 0);
      forall n | n in Select(rest, a)
        ensures n in Select(df, b) <==> n in Select(rest, b)
      {
        assert n != df[0].name;
      }
      calc {
        Without(Select(df, a), Select(df, b));
        { assert Select(df, a) == head + Select(rest, a); }
        Without(head + Select(rest, a), Select(df, b));
        { WithoutAppend(head, Select(rest, a), Select(df, b)); }
        Without(head, Select(df, b)) + Without(Select(rest, a), Select(df, b));
        { WithoutHead(df, a, b); }
        kept + Without(Select(rest, a), Select(df, b));
        { WithoutCongruent(Select(rest, a), Select(df, b), Select(rest, b)); }
        kept + Without(Select(rest, a), Select(rest, b));
        { WithoutSelect(rest, a, b); }
        kept + Select(rest, both);
      }
    }
  }

  // ---------------------------------------------------------------------------
  // Properties of grab_col_names

  /** Pointwise agreement of the selectors `grab_col_names` builds with the
      simpler ones its result is described by. */
  lemma {:induction false} GroupSelectorsAgree(c: Column, catTh: int, carTh: int)
    ensures var nbc := And(FewerUniqueThan(catTh), NumericDtype);
            var car := And(ObjectDtype, MoreUniqueThan(carTh));
            && (Matches(c, And(ObjectDtype, Not(car))) <==> Matches(c, And(ObjectDtype, Not(MoreUniqueThan(carTh)))))
            && (Matches(c, And(nbc, Not(car))) <==> Matches(c, And(NumericDtype, FewerUniqueThan(catTh))))
            && (Matches(c, And(NumericDtype, Not(nbc))) <==> Matches(c, And(NumericDtype, Not(FewerUniqueThan(catTh)))))
  {
    var nbc := And(FewerUniqueThan(catTh), NumericDtype);
    var car := And(ObjectDtype, MoreUniqueThan(carTh));
    assert Matches(c, car) == (c.dtype == Object && NUnique(c.values) > carTh);
    assert Matches(c, nbc) == (NUnique(c.values) < catTh && c.dtype.IsNumeric());
    assert Matches(c, Not(car)) == !Matches(c, car);
    assert Matches(c, Not(nbc)) == !Matches(c, nbc);
  }

  /** The order of the three lists: `cat_cols` holds the non-cardinal object
      columns first, then the numeric columns with few distinct values, each in
      table order; `num_cols` holds the other numeric columns, in table order. */
  lemma {:induction false} GrabColNamesOrder(df: Frame, catTh: int, carTh: int)
    requires DistinctNames(df)
    ensures GrabColNames(df, catTh, carTh).catCols ==
              Select(df, And(ObjectDtype, Not(MoreUniqueThan(carTh))))
              + Select(df, And(NumericDtype, FewerUniqueThan(catTh)))
    ensures GrabColNames(df, catTh, carTh).numCols ==
              Select(df, And(NumericDtype, Not(FewerUniqueThan(catTh))))
    ensures GrabColNames(df, catTh, carTh).catButCar ==
              Select(df, And(ObjectDtype, MoreUniqueThan(carTh)))
  {
    var g := GrabColNames(df, catTh, carTh);
    var nbc := And(FewerUniqueThan(catTh), NumericDtype);
    var car := And(ObjectDtype, MoreUniqueThan(carTh));
    var objKept := And(ObjectDtype, Not(MoreUniqueThan(carTh)));
    var numCat := And(NumericDtype, FewerUniqueThan(catTh));
    var numRest := And(NumericDtype, Not(FewerUniqueThan(catTh)));
    assert g.catCols == Without(Select(df, ObjectDtype) + Select(df, nbc), Select(df, car));
    assert g.numCols == Without(Select(df, NumericDtype), Select(df, nbc));

    forall i | 0 <= i < |df|
      ensures Matches(df[i], And(ObjectDtype, Not(car))) <==> Matches(df[i], objKept)
      ensures Matches(df[i], And(nbc, Not(car))) <==> Matches(df[i], numCat)
      ensures Matches(df[i], And(NumericDtype, Not(nbc))) <==> Matches(df[i], numRest)
    {
      GroupSelectorsAgree(df[i], catTh, carTh);
    }

    calc {
      g.catCols;
      { WithoutAppend(Select(df, ObjectDtype), Select(df, nbc), Select(df, car)); }
      Without(Select(df, ObjectDtype), Select(df, car)) + Without(Select(df, nbc), Select(df, car));
      { WithoutSelect(df, ObjectDtype, car);
        WithoutSelect(df, nbc, car); }
      Select(df, And(ObjectDtype, Not(car))) + Select(df, And(nbc, Not(car)));
      { SelectCongruent(df, And(ObjectDtype, Not(car)), objKept);
        SelectCongruent(df, And(nbc, Not(car)), numCat); }
      Select(df, objKept) + Select(df, numCat);
    }
    calc {
      g.numCols;
      { WithoutSelect(df, NumericDtype, nbc); }
      Select(df, And(NumericDtype, Not(nbc)));
      { SelectCongruent(df, And(NumericDtype, Not(nbc)), numRest); }
      Select(df, numRest);
    }
  }

  /** The selectors describing the three lists pick a column exactly when
      its kind says so. */
  lemma {:induction false} KindSelectors(df: Frame, catTh: int, carTh: int, i: nat)
    requires DistinctNames(df)
    requires i < |df|
    ensures var n := df[i].name;
            var k := KindOf(df[i], catTh, carTh);
            && ((n in Select(df, And(ObjectDtype, Not(MoreUniqueThan(carTh))))
                       + Select(df, And(NumericDtype, FewerUniqueThan(catTh))))
                <==> k == Categorical)
            && (n in Select(df, And(NumericDtype, Not(FewerUniqueThan(catTh)))) <==> k == Numerical)
            && (n in Select(df, And(ObjectDtype, MoreUniqueThan(carTh))) <==> k == Cardinal)
  {
    var c := df[i];
    var few := NUnique(c.values) < catTh;
    var many := NUnique(c.values) > carTh;
    assert Matches(c, Not(MoreUniqueThan(carTh))) == !many;
    assert Matches(c, Not(FewerUniqueThan(catTh))) == !few;
    assert Matches(c, And(ObjectDtype, Not(MoreUniqueThan(carTh)))) == (c.dtype == Object && !many);
    assert Matches(c, And(NumericDtype, FewerUniqueThan(catTh))) == (c.dtype.IsNumeric() && few);
    assert Matches(c, And(NumericDtype, Not(FewerUniqueThan(catTh)))) == (c.dtype.IsNumeric() && !few);
    assert Matches(c, And(ObjectDtype, MoreUniqueThan(carTh))) == (c.dtype == Object && many);
    SelectMember(df, And(ObjectDtype, Not(MoreUniqueThan(carTh))), i);
    SelectMember(df, And(NumericDtype, FewerUniqueThan(catTh)), i);
    SelectMember(df, And(NumericDtype, Not(FewerUniqueThan(catTh))), i);
    SelectMember(df, And(ObjectDtype, MoreUniqueThan(carTh)), i);
  }

  /** Every object, int64 or float64 column lands in exactly the list its kind
      names; a column of any other dtype lands in none. */
  lemma {:induction false} GrabColNamesPartition(df: Frame, catTh: int, carTh: int, i: nat)
    requires DistinctNames(df)
    requires i < |df|
    ensures var g := GrabColNames(df, catTh, carTh);
            && (df[i].name in g.catCols <==> KindOf(df[i], catTh, carTh) == Categorical)
            && (df[i].name in g.numCols <==> KindOf(df[i], catTh, carTh) == Numerical)
            && (df[i].name in g.catButCar <==> KindOf(df[i], catTh, carTh) == Cardinal)
  {
    GrabColNamesOrder(df, catTh, carTh);
    KindSelectors(df, catTh, carTh, i);
  }

  /** Selectors no column satisfies together pick disjoint label lists. */
  lemma {:induction false} SelectDisjoint(df: Frame, a: Selector, b: Selector)
    requires DistinctNames(df)
    requires forall i :: 0 <= i < |df| ==> !(Matches(df[i], a) && Matches(df[i], b))
    ensures forall n :: n in Select(df, a) ==> n !in Select(df, b)
  {
    forall n | n in Select(df, a)
      ensures n !in Select(df, b)
    {
      assert n in Names(df);
      var k :| 0 <= k < |Names(df)| && Names(df)[k] == n;
      SelectMember(df, a, k);
      SelectMember(df, b, k);
    }
  }

  /** The non-cardinal object labels followed by the few-valued numeric
      labels repeat nothing: no column is both object and numeric. */
  lemma {:induction false} CategoricalListNoDuplicates(df: Frame, catTh: int, carTh: int)
    requires DistinctNames(df)
    ensures Seqs.NoDuplicates(Select(df, And(ObjectDtype, Not(MoreUniqueThan(carTh))))
                              + Select(df, And(NumericDtype, FewerUniqueThan(catTh))))
  {
    var objKept := And(ObjectDtype, Not(MoreUniqueThan(carTh)));
    var numCat := And(NumericDtype, FewerUniqueThan(catTh));
    SelectNoDuplicates(df, objKept);
    SelectNoDuplicates(df, numCat);
    SelectDisjoint(df, objKept, numCat);
    Seqs.NoDuplicatesAppend(Select(df, objKept), Select(df, numCat));
  }

  /** No list repeats a label. */
  lemma {:induction false} GrabColNamesNoDuplicates(df: Frame, catTh: int, carTh: int)
    requires DistinctNames(df)
    ensures Seqs.NoDuplicates(GrabColNames(df, catTh, carTh).catCols)
    ensures Seqs.NoDuplicates(GrabColNames(df, catTh, carTh).numCols)
    ensures Seqs.NoDuplicates(GrabColNames(df, catTh, carTh).catButCar)
  {
    GrabColNamesOrder(df, catTh, carTh);
    CategoricalListNoDuplicates(df, catTh, carTh);
    SelectNoDuplicates(df, And(NumericDtype, Not(FewerUniqueThan(catTh))));
    SelectNoDuplicates(df, And(ObjectDtype, MoreUniqueThan(carTh)));
  }

  // ---------------------------------------------------------------------------
  // missing_values_table

  /** Another column carries the label of column `i`, so `df[label]` is a
      frame rather than one column. */
  predicate Repeated(df: Frame, i: nat)
    requires i < |df|
  {
    exists j :: 0 <= j < |df| && j != i && df[j].name == df[i].name
  }

  /** Index of the first column, at or after `start`, whose label is repeated. */
  function FirstRepeatedFrom(df: Frame, start: nat): (k: nat)
    requires start <= |df|
    requires exists i :: start <= i < |df| && Repeated(df, i)
    ensures start <= k < |df| && Repeated(df, k)
    ensures forall j :: start <= j < k ==> !Repeated(df, j)
    decreases |df| - start
  {
    if Repeated(df, start) then start else FirstRepeatedFrom(df, start + 1)
  }

  /** A frame whose labels are not distinct has a column with a repeated
      label. */
  lemma NotDistinctHasRepeated(df: Frame)
    requires !DistinctNames(df)
    ensures exists i :: 0 <= i < |df| && Repeated(df, i)
  {
    var i, j :| 0 <= i < |df| && 0 <= j < |df| && df[i].name == df[j].name && i != j;
    assert Repeated(df, i);
  }

  /** Index of the first column whose label is repeated. */
  function FirstRepeated(df: Frame): (k: nat)
    requires !DistinctNames(df)
    ensures k < |df| && Repeated(df, k)
    ensures forall j :: 0 <= j < k ==> !Repeated(df, j)
  {
    NotDistinctHasRepeated(df);
    FirstRepeatedFrom(df, 0)
  }

  /** `missing_values_table`. The test of each label, in table order, reads
      `df[col]`: a repeated label yields a frame whose test has no single truth
      value, so the first column with a repeated label raises. Otherwise, with
      `naName`, the labels of exactly the columns holding a missing value, in
      table order; without it, nothing. The printed summary is left out. */
  function MissingValuesTable(df: Frame, naName: bool): (r: Result<Option<seq<string>>, Error>)
    ensures r.Failure? <==> !DistinctNames(df)
    ensures r.Failure? ==> r.error == AmbiguousLabel(df[FirstRepeated(df)].name)
    ensures r.Success? ==> (r.value.Some? <==> naName)
    ensures r.Success? && r.value.Some? ==> Seqs.IsSubsequence(r.value.value, Names(df))
    ensures r.Success? && r.value.Some? ==>
              forall i :: 0 <= i < |df| ==> (df[i].name in r.value.value <==> Missing in df[i].values)
  {
    if !DistinctNames(df) then
      Failure(AmbiguousLabel(df[FirstRepeated(df)].name))
    else
      var naColumns := Select(df, HasMissing);
      SelectSubsequence(df, HasMissing);
      assert forall i :: 0 <= i < |df| ==> (df[i].name in naColumns <==> Missing in df[i].values) by {
        forall i | 0 <= i < |df| {
          SelectMember(df, HasMissing, i);
        }
      }
      Success(if naName then Some(naColumns) else None)
  }

  // ---------------------------------------------------------------------------
  // correlation_for_drop

  /** A square correlation matrix with its column labels; NaN where a
      correlation is undefined. */
  datatype Correlations = Correlations(names: seq<string>, values: seq<seq<Float>>)

  predicate Square(m: Correlations) {
    |m.values| == |m.names| && forall i :: 0 <= i < |m.values| ==> |m.values[i]| == |m.names|
  }

  function Abs(x: real): real {
    if x < 0.0 then -x else x
  }

  /** `abs(r) > threshold`; false for NaN. */
  predicate Exceeds(r: Float, threshold: real) {
    r.Val? && Abs(r.v) > threshold
  }

  /** Column `i` is strongly correlated with some column before it. */
  predicate CorrelatedWithEarlier(m: Correlations, i: nat, threshold: real)
    requires Square(m) && i < |m.names|
  {
    exists j :: 0 <= j < i && Exceeds(m.values[i][j], threshold)
  }

  /** `correlation_for_drop`: scans the strict lower triangle and collects the
      label of every row with an entry strictly above the threshold in
      absolute value. The first column has no earlier column, so it is
      collected only if a later column shares its label. */
  method CorrelationForDrop(m: Correlations, threshold: real) returns (drop: set<string>)
    requires Square(m)
    ensures forall n :: n in drop <==>
              exists i :: 0 <= i < |m.names| && m.names[i] == n && CorrelatedWithEarlier(m, i, threshold)
    ensures |m.names| > 0 && (forall i :: 0 < i < |m.names| ==> m.names[i] != m.names[0]) ==>
              m.names[0] !in drop
  {
    drop := {};
    var i := 0;
    while i < |m.names|
      invariant 0 <= i <= |m.names|
      invariant forall n :: n in drop <==>
                  exists k :: 0 <= k < i && m.names[k] == n && CorrelatedWithEarlier(m, k, threshold)
    {
      var j := 0;
      while j < i
        invariant 0 <= j <= i
        invariant forall n :: n in drop <==>
                    (exists k :: 0 <= k < i && m.names[k] == n && CorrelatedWithEarlier(m, k, threshold))
                    || (n == m.names[i] && exists l :: 0 <= l < j && Exceeds(m.values[i][l], threshold))
      {
        if Exceeds(m.values[i][j], threshold) {
          drop := drop + {m.names[i]};
        }
        j := j + 1;
      }
      i := i + 1;
    }
  }
}
