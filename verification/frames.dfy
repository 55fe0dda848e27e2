/** The tabular data model shared by the pipeline stages and the analysis
    helpers: a data frame is a sequence of labelled, typed columns.

    Library floating-point is not modelled: a number is a Dafny `real`, and the
    only IEEE value that matters to the decision rules, NaN, is explicit. */
module Frames {
  import opened Wrappers

  /** A scalar produced by a numeric library routine (a p-value, a correlation,
      a cross-validation mean): NaN or a real number. */
  datatype Float = NaN | Val(v: real)

  /** One table cell: missing (NaN or None), a number, or a string. */
  datatype Cell = Missing | Num(x: real) | Text(s: string)

  /** The pandas dtype of a column, as far as the helpers distinguish it. */
  datatype DType = Object | Int64 | Float64 | OtherType(typeName: string)
  {
    /** The helpers treat exactly int64 and float64 as numeric. */
    predicate IsNumeric() {
      this == Int64 || this == Float64
    }
  }

  datatype Column = Column(name: string, dtype: DType, values: seq<Cell>)

  type Frame = seq<Column>

  /** Every failure the modelled code raises (each is re-raised wrapped in the
      pipeline's exception type). */
  datatype Error =
    | FileNotFound(path: string)
    | MissingColumn(column: string)
    | NotNumeric(column: string)
    | ShapeMismatch(rows: nat, labels: nat)
    | UnboundName(identifier: string)
    /** A label naming several columns where the code needs exactly one
        column. */
    | AmbiguousLabel(column: string)
    /** An exception raised inside a library routine (a statistical test,
        an imputer's fit or transform), with its message. */
    | LibraryError(message: string)

  /** The outcome of a library call inside the pipeline: its exception
      message becomes a `LibraryError`. */
  function Library<T>(r: Result<T, string>): (e: Result<T, Error>)
    ensures e.Success? <==> r.Success?
    ensures r.Success? ==> e.value == r.value
    ensures r.Failure? ==> e.error == LibraryError(r.error)
  {
    match r
    case Success(v) => Success(v)
    case Failure(message) => Failure(LibraryError(message))
  }

  /** The column labels, in order (`df.columns`). */
  function Names(df: Frame): (names: seq<string>)
    ensures |names| == |df|
    ensures forall i :: 0 <= i < |df| ==> names[i] == df[i].name
  {
    seq(|df|, i requires 0 <= i < |df| => df[i].name)
  }

  /** No label occurs twice; `read_csv` renames duplicated headers, so every
      frame the pipeline reads has this property. */
  predicate DistinctNames(df: Frame) {
    forall i, j :: 0 <= i < |df| && 0 <= j < |df| && df[i].name == df[j].name ==> i == j
  }

  /** Exactly one column may carry `name`: `df[name]` is then a single column
      rather than a frame. */
  predicate UniqueLabel(df: Frame, name: string) {
    forall i, j :: 0 <= i < |df| && 0 <= j < |df| && df[i].name == name && df[j].name == name ==> i == j
  }

  function RowCount(df: Frame): nat {
    if df == [] then 0 else |df[0].values|
  }

  /** Every column has the same number of rows. */
  predicate Rectangular(df: Frame) {
    forall i :: 0 <= i < |df| ==> |df[i].values| == RowCount(df)
  }

  /** Position of the first column labelled `name`. */
  function ColumnIndex(df: Frame, name: string): (k: nat)
    requires name in Names(df)
    ensures k < |df| && df[k].name == name
    ensures forall j :: 0 <= j < k ==> df[j].name != name
  {
    if df[0].name == name then 0
    else
      assert name in Names(df[1..]) by {
        var i :| 0 <= i < |df| && Names(df)[i] == name;
        assert Names(df[1..])[i - 1] == name;
      }
      ColumnIndex(df[1..], name) + 1
  }

  /** `df[name]`: the column labelled `name`, or the KeyError pandas raises. */
  function Lookup(df: Frame, name: string): (r: Result<Column, Error>)
    ensures r.Success? <==> name in Names(df)
    ensures r.Success? ==> r.value in df && r.value.name == name
    ensures r.Failure? ==> r.error == MissingColumn(name)
  {
    if name in Names(df) then Success(df[ColumnIndex(df, name)]) else Failure(MissingColumn(name))
  }

  /** `pd.read_csv(path)` against a snapshot of the file system. */
  function ReadTable(files: map<string, Frame>, path: string): (r: Result<Frame, Error>)
    ensures r.Success? <==> path in files
    ensures r.Success? ==> r.value == files[path]
    ensures r.Failure? ==> r.error == FileNotFound(path)
  {
    if path in files then Success(files[path]) else Failure(FileNotFound(path))
  }
}
