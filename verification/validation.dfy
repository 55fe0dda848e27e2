/** The data validation stage: a column-count gate against the schema, a
    per-column two-sample drift test, and the assembly of the validation
    artifact. The Kolmogorov-Smirnov test is a statistics library routine; it
    is an input here, and it may raise. */
module Validation {
  import opened Wrappers
  import opened Frames
  import opened Artifacts

  /** Two-sample Kolmogorov-Smirnov test on a baseline and a current sample:
      the p-value, or the message of the exception the library raises (for
      instance on an empty sample). */
  type KsTest = (seq<Cell>, seq<Cell>) -> Result<Float, string>

  /** The significance level the stage uses when it calls the drift test. */
  const DefaultDriftThreshold: real := 0.05

  const TrainColumnsMessage := "Train df doesn't contain all the columns"
  const TestColumnsMessage := "Test df doesn't contain all the columns"

  /** One value of the drift report, keyed by the column name. */
  datatype DriftEntry = DriftEntry(column: string, pValue: Float, driftStatus: bool)

  datatype DriftResult = DriftResult(status: bool, report: seq<DriftEntry>)

  /** A file the stage writes, with its contents. */
  datatype Write =
    | WriteReport(path: string, report: seq<DriftEntry>)
    | WriteTable(path: string, table: Frame)

  /** Everything one validation run produces: the artifact, the report, the
      files written in order, and the error lines logged. */
  datatype ValidationRun = ValidationRun(
    artifact: DataValidationArtifact,
    report: seq<DriftEntry>,
    writes: seq<Write>,
    log: seq<string>)

  /** The column-count gate: only the number of columns is compared with the
      number of top-level entries of the schema document; labels are never
      compared, so any relabelling of a frame passes or fails alike. */
  function ValidateNumOfCols(schema: set<string>, df: Frame): (ok: bool)
    ensures ok <==> |Names(df)| == |schema|
  {
    |df| == |schema|
  }

  /** The per-column decision: drift unless `threshold <= p`. A p-value equal
      to the threshold is not drift, and a NaN p-value (every comparison
      false) is. */
  function IsDrift(p: Float, threshold: real): (found: bool)
    ensures found <==> p == NaN || p.v < threshold
    ensures p == Val(threshold) ==> !found
  {
    if p.Val? && threshold <= p.v then false else true
  }

  /** Every baseline column is present in the current frame. */
  predicate Covers(base: Frame, current: Frame) {
    forall i :: 0 <= i < |base| ==> base[i].name in Names(current)
  }

  /** What testing baseline column `col` gives: the KeyError of a label the
      current frame lacks, the library's exception, or the p-value. */
  function Test(col: Column, current: Frame, ks: KsTest): Result<Float, Error> {
    if col.name !in Names(current) then Failure(MissingColumn(col.name))
    else
      match ks(col.values, Lookup(current, col.name).value.values)
      case Failure(message) => Failure(LibraryError(message))
      case Success(p) => Success(p)
  }

  /** Every baseline column can be tested. */
  predicate AllTested(base: Frame, current: Frame, ks: KsTest) {
    forall i :: 0 <= i < |base| ==> Test(base[i], current, ks).Success?
  }

  /** Index of the first baseline column whose test fails. */
  function FirstFailing(base: Frame, current: Frame, ks: KsTest): (k: nat)
    requires !AllTested(base, current, ks)
    ensures k < |base| && Test(base[k], current, ks).Failure?
    ensures forall j :: 0 <= j < k ==> Test(base[j], current, ks).Success?
  {
    if Test(base[0], current, ks).Failure? then 0
    else FirstFailing(base[1..], current, ks) + 1
  }

  /** The report entry for baseline column `col`. */
  function Entry(col: Column, current: Frame, ks: KsTest, threshold: real): DriftEntry
    requires Test(col, current, ks).Success?
  {
    var p := Test(col, current, ks).value;
    DriftEntry(col.name, p, IsDrift(p, threshold))
  }

  /** No baseline column drifts: the overall status the drift test returns. */
  predicate NoDrift(base: Frame, current: Frame, ks: KsTest, threshold: real)
    requires AllTested(base, current, ks)
  {
    forall i :: 0 <= i < |base| ==> !IsDrift(Test(base[i], current, ks).value, threshold)
  }

  /** `detect_data_drift`: the status starts true and is only ever cleared.
      Only baseline columns are tested, in order; extra current columns are
      ignored. The first baseline column that is missing from the current
      frame (a KeyError), or on which the test raises, ends the run with that
      error. */
  method DetectDataDrift(base: Frame, current: Frame, ks: KsTest, threshold: real)
    returns (r: Result<DriftResult, Error>)
    ensures !AllTested(base, current, ks) ==>
              r == Failure(Test(base[FirstFailing(base, current, ks)], current, ks).error)
    ensures AllTested(base, current, ks) ==>
              && r.Success?
              && |r.value.report| == |base|
              && (forall i :: 0 <= i < |base| ==>
                    r.value.report[i] == Entry(base[i], current, ks, threshold))
              && (r.value.status <==> NoDrift(base, current, ks, threshold))
  {
    var status := true;
    var report: seq<DriftEntry> := [];
    var i := 0;
    while i < |base|
      invariant 0 <= i <= |base|
      invariant forall k :: 0 <= k < i ==> Test(base[k], current, ks).Success?
      invariant |report| == i
      invariant forall k :: 0 <= k < i ==> report[k] == Entry(base[k], current, ks, threshold)
      invariant status <==> forall k :: 0 <= k < i ==> !report[k].driftStatus
    {
      var col := base[i];
      var other := Lookup(current, col.name);
      if other.Failure? {
        return Failure(other.error);
      }
      var test := ks(col.values, other.value.values);
      if test.Failure? {
        return Failure(LibraryError(test.error));
      }
      var p := test.value;
      var isFound: bool;
      if p.Val? && threshold <= p.v {
        isFound := false;
      } else {
        isFound := true;
        status := false;
      }
      report := report + [DriftEntry(col.name, p, isFound)];
      i := i + 1;
    }
    return Success(DriftResult(status, report));
  }

  /** `initiate_data_validation`. Both column-count results are only logged:
      the artifact's status is the drift result alone, both tables are copied
      to the valid paths whatever the checks say, and no invalid copy exists. */
  method InitiateDataValidation(
    ingestion: DataIngestionArtifact,
    config: DataValidationConfig,
    schema: set<string>,
    files: map<string, Frame>,
    ks: KsTest)
    returns (r: Result<ValidationRun, Error>)
    ensures ingestion.trainedFilePath !in files ==>
              r == Failure(FileNotFound(ingestion.trainedFilePath))
    ensures ingestion.trainedFilePath in files && ingestion.testFilePath !in files ==>
              r == Failure(FileNotFound(ingestion.testFilePath))
    ensures ingestion.trainedFilePath in files && ingestion.testFilePath in files ==>
              var train := files[ingestion.trainedFilePath];
              var test := files[ingestion.testFilePath];
              && (r.Success? <==> AllTested(train, test, ks))
              && (r.Failure? ==> r.error == Test(train[FirstFailing(train, test, ks)], test, ks).error)
              && (r.Success? ==>
                    && r.value.artifact == DataValidationArtifact(
                         NoDrift(train, test, ks, DefaultDriftThreshold),
                         config.validTrainFilePath,
                         config.validTestFilePath,
                         None,
                         None,
                         config.driftReportFilePath)
                    && |r.value.report| == |train|
                    && (forall i :: 0 <= i < |train| ==>
                          r.value.report[i] == Entry(train[i], test, ks, DefaultDriftThreshold))
                    && r.value.writes == [
                         WriteReport(config.driftReportFilePath, r.value.report),
                         WriteTable(config.validTrainFilePath, train),
                         WriteTable(config.validTestFilePath, test)]
                    && (TrainColumnsMessage in r.value.log <==> |train| != |schema|)
                    && (TestColumnsMessage in r.value.log <==> |test| != |schema|))
  {
    var train :- ReadTable(files, ingestion.trainedFilePath);
    var test :- ReadTable(files, ingestion.testFilePath);

    var log: seq<string> := [];
    var status := ValidateNumOfCols(schema, train);
    if !status {
      log := log + [TrainColumnsMessage];
    }
    status := ValidateNumOfCols(schema, test);
    if !status {
      log := log + [TestColumnsMessage];
    }

    var drift :- DetectDataDrift(train, test, ks, DefaultDriftThreshold);
    status := drift.status;

    var writes := [
      WriteReport(config.driftReportFilePath, drift.report),
      WriteTable(config.validTrainFilePath, train),
      WriteTable(config.validTestFilePath, test)];
    var artifact := DataValidationArtifact(
      status,
      config.validTrainFilePath,
      config.validTestFilePath,
      None,
      None,
      config.driftReportFilePath);
    return Success(ValidationRun(artifact, drift.report, writes, log));
  }

  /** Any relabelling of a frame passes or fails the column-count gate alike:
      labels are never compared with the schema. */
  lemma ColumnGateIgnoresLabels(schema: set<string>, df: Frame, relabelled: Frame)
    requires |relabelled| == |df|
    ensures ValidateNumOfCols(schema, relabelled) == ValidateNumOfCols(schema, df)
  {
  }

  /** Appending columns to the current frame does not change the lookup of any
      label it already had. */
  lemma {:induction false} LookupIgnoresAppended(current: Frame, extra: Frame, name: string)
    requires name in Names(current)
    ensures name in Names(current + extra)
    ensures Lookup(current + extra, name) == Lookup(current, name)
  {
    var k := ColumnIndex(current, name);
    assert Names(current + extra)[k] == name;
    var k' := ColumnIndex(current + extra, name);
    assert (current + extra)[k] == current[k];
    assert k' == k;
  }

  /** Extra columns in the current frame are ignored: every baseline column
      tests the same with or without them, so the run fails alike, and when it
      succeeds the report entries and the status are the same. */
  lemma {:induction false} DriftIgnoresExtraColumns(
    base: Frame, current: Frame, extra: Frame, ks: KsTest, threshold: real)
    requires Covers(base, current)
    ensures Covers(base, current + extra)
    ensures forall i :: 0 <= i < |base| ==> Test(base[i], current + extra, ks) == Test(base[i], current, ks)
    ensures AllTested(base, current + extra, ks) == AllTested(base, current, ks)
    ensures AllTested(base, current, ks) ==>
              && (forall i :: 0 <= i < |base| ==>
                    Entry(base[i], current + extra, ks, threshold) == Entry(base[i], current, ks, threshold))
              && NoDrift(base, current + extra, ks, threshold) == NoDrift(base, current, ks, threshold)
  {
    forall i | 0 <= i < |base|
      ensures base[i].name in Names(current + extra)
      ensures Test(base[i], current + extra, ks) == Test(base[i], current, ks)
    {
      LookupIgnoresAppended(current, extra, base[i].name);
    }
  }
}
