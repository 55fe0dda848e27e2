/** The data transformation stage: split the target from the features, recode
    the target, fit the imputer on the training features only, apply it to both
    splits, and append the target as the last column of each output array.

    The imputer is a library object: fitting and transforming are inputs
    (`fit`, `transform`), either of which may raise, and the fitted object has
    an arbitrary type `F`. The imputer may even drop columns, so nothing here
    assumes it keeps the shape. */
module Transformation {
  import opened Wrappers
  import opened Frames
  import opened Artifacts
  import Seqs

  const TargetColumn := "Result"

  /** The fixed location the serving path loads the current preprocessor from. */
  const FinalPreprocessorPath := "final_model/preprocessor.pkl"

  /** A numeric array, row by row. */
  type Matrix = seq<seq<Cell>>

  /** The marker the imputer treats as a gap. */
  datatype MissingMarker = NaNMarker

  datatype KnnImputerParams = KnnImputerParams(
    missingValues: MissingMarker,
    nNeighbors: nat,
    weights: string)

  /** The configured imputer parameters. */
  const ImputerParams := KnnImputerParams(NaNMarker, 3, "uniform")

  datatype PipelineStep = PipelineStep(name: string, imputer: KnnImputerParams)

  /** An unfitted preprocessing pipeline: its named steps in order. */
  datatype Pipeline = Pipeline(steps: seq<PipelineStep>)

  /** `get_data_transformer_object`: a one-step pipeline whose only step is the
      nearest-neighbour imputer with three uniform-weighted neighbours and NaN
      as the missing marker. */
  function GetDataTransformerObject(): (p: Pipeline)
    ensures |p.steps| == 1
    ensures p.steps[0].name == "imputer"
    ensures p.steps[0].imputer.nNeighbors == 3
    ensures p.steps[0].imputer.weights == "uniform"
  {
    Pipeline([PipelineStep("imputer", ImputerParams)])
  }

  /** `df.drop(name, axis=1)`: every other column, in order; a KeyError when no
      column has that label. */
  function DropColumn(df: Frame, name: string): (r: Result<Frame, Error>)
    ensures r.Success? <==> name in Names(df)
    ensures r.Failure? ==> r.error == MissingColumn(name)
    ensures r.Success? ==> Seqs.IsSubsequence(r.value, df)
    ensures r.Success? ==> forall c :: c in r.value <==> c in df && c.name != name
  {
    if name in Names(df) then
      var keep := (c: Column) => c.name != name;
      Seqs.FilterIsSubsequence(keep, df);
      Success(Seqs.Filter(keep, df))
    else
      Failure(MissingColumn(name))
  }

  /** `replace(-1, 0)` on one value: a numeric -1 becomes 0, anything else
      (other numbers, strings, missing values) is kept. */
  function Recode(c: Cell): Cell {
    if c == Num(-1.0) then Num(0.0) else c
  }

  /** `target.replace(-1, 0)`. */
  function RecodeTarget(values: seq<Cell>): (r: seq<Cell>)
    ensures |r| == |values|
    ensures forall i :: 0 <= i < |values| ==>
              r[i] == (if values[i] == Num(-1.0) then Num(0.0) else values[i])
    ensures Num(-1.0) !in r
  {
    Seqs.Map(Recode, values)
  }

  /** `arr[:, :-1]`: every column but the last. */
  function LeadingColumns(arr: Matrix): Matrix
    requires forall i :: 0 <= i < |arr| ==> arr[i] != []
  {
    seq(|arr|, i requires 0 <= i < |arr| => arr[i][..|arr[i]| - 1])
  }

  /** `arr[:, -1]`: the last column. */
  function LastColumn(arr: Matrix): seq<Cell>
    requires forall i :: 0 <= i < |arr| ==> arr[i] != []
  {
    seq(|arr|, i requires 0 <= i < |arr| => arr[i][|arr[i]| - 1])
  }

  /** `np.c_[features, target]`: the target becomes one more column, and the
      row counts must agree. Splitting the result as the trainer does
      (`arr[:, :-1]`, `arr[:, -1]`) gives back the features and the target. */
  function AppendTarget(features: Matrix, target: seq<Cell>): (r: Result<Matrix, Error>)
    ensures r.Success? <==> |features| == |target|
    ensures r.Failure? ==> r.error == ShapeMismatch(|features|, |target|)
    ensures r.Success? ==>
              && |r.value| == |target|
              && (forall i :: 0 <= i < |r.value| ==> r.value[i] != [])
              && LeadingColumns(r.value) == features
              && LastColumn(r.value) == target
  {
    if |features| == |target| then
      var arr := seq(|target|, i requires 0 <= i < |target| => features[i] + [target[i]]);
      assert forall i :: 0 <= i < |arr| ==> arr[i][..|arr[i]| - 1] == features[i];
      Success(arr)
    else
      Failure(ShapeMismatch(|features|, |target|))
  }

  /** The feature columns of a split: the frame without the target column. */
  function Features(df: Frame): Frame
    requires TargetColumn in Names(df)
  {
    DropColumn(df, TargetColumn).value
  }

  /** The recoded target of a split. */
  function Labels(df: Frame): seq<Cell>
    requires TargetColumn in Names(df)
  {
    RecodeTarget(Lookup(df, TargetColumn).value.values)
  }

  /** Everything one transformation run produces. */
  datatype TransformationRun<F> = TransformationRun(
    artifact: DataTransformationArtifact,
    trainArray: Matrix,
    testArray: Matrix,
    savedArrays: seq<(string, Matrix)>,
    savedObjects: seq<(string, F)>)

  /** What a run whose library calls all returned promises: it fails exactly
      on a row-count mismatch, with the training split's mismatch checked
      first; otherwise the artifact names the configured paths, each array is
      its split's transformed features with the recoded target appended as the
      last column, and the arrays and the fitted object are saved in that
      order. */
  ghost predicate TransformedRun<F>(
    r: Result<TransformationRun<F>, Error>,
    config: DataTransformationConfig,
    fitted: F,
    trainX: Matrix,
    testX: Matrix,
    trainY: seq<Cell>,
    testY: seq<Cell>)
  {
    && (r.Success? <==> |trainX| == |trainY| && |testX| == |testY|)
    && (r.Failure? ==>
          r.error == (if |trainX| != |trainY| then ShapeMismatch(|trainX|, |trainY|)
                      else ShapeMismatch(|testX|, |testY|)))
    && (r.Success? ==>
          && r.value.artifact == DataTransformationArtifact(
               config.transformedObjectFilePath,
               config.transformedTrainFilePath,
               config.transformedTestFilePath)
          && r.value.savedObjects == [
               (config.transformedObjectFilePath, fitted),
               (FinalPreprocessorPath, fitted)]
          && r.value.savedArrays == [
               (config.transformedTrainFilePath, r.value.trainArray),
               (config.transformedTestFilePath, r.value.testArray)]
          && |r.value.trainArray| == |trainY|
          && |r.value.testArray| == |testY|
          && (forall i :: 0 <= i < |r.value.trainArray| ==> r.value.trainArray[i] != [])
          && (forall i :: 0 <= i < |r.value.testArray| ==> r.value.testArray[i] != [])
          && LeadingColumns(r.value.trainArray) == trainX
          && LastColumn(r.value.trainArray) == trainY
          && LeadingColumns(r.value.testArray) == testX
          && LastColumn(r.value.testArray) == testY)
  }

  /** `initiate_data_transformation`. The preprocessor is fitted once, on the
      training features only; the same fitted object transforms both splits and
      is saved both to the run's path and to the fixed production path. An
      exception from fitting or transforming ends the run before anything is
      saved. */
  function InitiateDataTransformation<F>(
    validation: DataValidationArtifact,
    config: DataTransformationConfig,
    files: map<string, Frame>,
    fit: (Pipeline, Frame) -> Result<F, string>,
    transform: (F, Frame) -> Result<Matrix, string>): (r: Result<TransformationRun<F>, Error>)
    ensures validation.validTrainFilePath !in files ==>
              r == Failure(FileNotFound(validation.validTrainFilePath))
    ensures validation.validTrainFilePath in files && validation.validTestFilePath !in files ==>
              r == Failure(FileNotFound(validation.validTestFilePath))
    ensures validation.validTrainFilePath in files && validation.validTestFilePath in files ==>
              var train := files[validation.validTrainFilePath];
              var test := files[validation.validTestFilePath];
              && (TargetColumn !in Names(train) || TargetColumn !in Names(test) ==>
                    r == Failure(MissingColumn(TargetColumn)))
              && (TargetColumn in Names(train) && TargetColumn in Names(test) ==>
                    var fitted := fit(GetDataTransformerObject(), Features(train));
                    && (fitted.Failure? ==> r == Failure(LibraryError(fitted.error)))
                    && (fitted.Success? ==>
                          var trainX := transform(fitted.value, Features(train));
                          var testX := transform(fitted.value, Features(test));
                          && (trainX.Failure? ==> r == Failure(LibraryError(trainX.error)))
                          && (trainX.Success? && testX.Failure? ==> r == Failure(LibraryError(testX.error)))
                          && (trainX.Success? && testX.Success? ==>
                                TransformedRun(r, config, fitted.value, trainX.value, testX.value,
                                               Labels(train), Labels(test)))))
  {
    var train :- ReadTable(files, validation.validTrainFilePath);
    var test :- ReadTable(files, validation.validTestFilePath);

    var inputFeatureTrain :- DropColumn(train, TargetColumn);
    var targetTrain := Lookup(train, TargetColumn).value;
    var recodedTrain := RecodeTarget(targetTrain.values);

    var inputFeatureTest :- DropColumn(test, TargetColumn);
    var targetTest := Lookup(test, TargetColumn).value;
    var recodedTest := RecodeTarget(targetTest.values);

    var fitted :- Library(fit(GetDataTransformerObject(), inputFeatureTrain));
    var transformedTrain :- Library(transform(fitted, inputFeatureTrain));
    var transformedTest :- Library(transform(fitted, inputFeatureTest));

    var trainArr :- AppendTarget(transformedTrain, recodedTrain);
    var testArr :- AppendTarget(transformedTest, recodedTest);

    Success(TransformationRun(
      DataTransformationArtifact(
        config.transformedObjectFilePath,
        config.transformedTrainFilePath,
        config.transformedTestFilePath),
      trainArr,
      testArr,
      [(config.transformedTrainFilePath, trainArr), (config.transformedTestFilePath, testArr)],
      [(config.transformedObjectFilePath, fitted), (FinalPreprocessorPath, fitted)]))
  }

  /** Recoding is idempotent: a second pass changes nothing. */
  lemma RecodeTargetIdempotent(values: seq<Cell>)
    ensures RecodeTarget(RecodeTarget(values)) == RecodeTarget(values)
  {
  }

  /** A target in {-1, 1} comes out in {0, 1}. */
  lemma RecodeBinaryLabels(values: seq<Cell>)
    requires forall i :: 0 <= i < |values| ==> values[i] == Num(-1.0) || values[i] == Num(1.0)
    ensures forall i :: 0 <= i < |values| ==>
              RecodeTarget(values)[i] == Num(0.0) || RecodeTarget(values)[i] == Num(1.0)
  {
  }

  /** No leakage from the test split: whatever the test file holds, the fitted
      preprocessor and the training array are the same. */
  lemma TestSplitDoesNotLeak<F>(
    validation: DataValidationArtifact,
    config: DataTransformationConfig,
    files: map<string, Frame>,
    otherTest: Frame,
    fit: (Pipeline, Frame) -> Result<F, string>,
    transform: (F, Frame) -> Result<Matrix, string>)
    requires validation.validTrainFilePath != validation.validTestFilePath
    requires InitiateDataTransformation(validation, config, files, fit, transform).Success?
    requires InitiateDataTransformation(
               validation, config, files[validation.validTestFilePath := otherTest], fit, transform).Success?
    ensures
      var run := InitiateDataTransformation(validation, config, files, fit, transform).value;
      var other := InitiateDataTransformation(
                     validation, config, files[validation.validTestFilePath := otherTest], fit, transform).value;
      other.savedObjects == run.savedObjects && other.trainArray == run.trainArray
  {
  }
}
