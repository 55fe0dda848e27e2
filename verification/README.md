# Football match prediction pipeline: a Dafny model of its decision rules

This project models the parts of the football-match-prediction ETL/ML pipeline whose behaviour can be stated precisely. Data files, databases, cloud storage and numerical libraries are treated as inputs. The modelled parts are:

- **Validation stage** (`Validation`):
  - the column-count gate against the schema;
  - the per-column Kolmogorov–Smirnov drift decision and the drift report;
  - how the validation artifact is assembled. Its status is the drift result alone; the column-count results are only logged.
- **Transformation stage** (`Transformation`):
  - the target column is split from the features and recoded from -1 to 0;
  - the nearest-neighbour imputer is fitted on the training features only and applied to both splits;
  - the target is appended as the last column;
  - the fitted object is saved twice.
- **Analysis helpers** (`Analyze`): the dtype/cardinality classifier `grab_col_names`, the lower-triangle correlation scan `correlation_for_drop`, and the selection of columns with missing values.
- **Outlier helpers** (`Preprocess`): interquartile-range bounds, then removal, clipping, and detection of outliers using those bounds.
- **Evaluation helper** (`Evaluation`): problem-type detection, default scoring, the `roc_auc` → `roc_auc_ovr` multiclass rewrite, and the order in which candidate models are cross-validated.
- **Setup script** (`Requirements`): the requirements-file line filter.
- **Exception type** (`Exceptions`): the traceback fallback and the rendered message.

Shared pieces:

- `Frames`: a table is a sequence of labelled, typed columns of cells (missing, number or string).
- `Artifacts`: the records the stages pass to one another.
- `Seqs`: generic filter/map/subsequence facts.
- `Wrappers`: `Option` and `Result`.

How foreign behaviour is modelled:

- Library routines are function-typed parameters: the KS test, pandas quantiles, the imputer's `fit`/`transform`, and `cross_validate`.
- Library results the code only consumes are plain value parameters: the label `type_of_target` returns, and the correlation matrix `correlation_for_drop` scans.
- The KS test, `fit` and `transform` return a `Result`, so an exception they raise is modelled and propagates out of its stage.
- `cross_validate` also returns a `Result`, but its exception does not propagate. Each evaluation entry point catches it per candidate, and it becomes that candidate's error line.
- A file read looks the path up in a `map` snapshot of the file system.
- An exception a modelled stage raises is a `Failure` of a `Result`. The only other case is `base_tree_models`: as written, it raises after its report is complete, so that model returns the report together with an `Option` of the raised error.

Two behaviours of the code:

- The drift test decides "no drift iff `threshold <= p`". So a NaN p-value counts as drift, not only a p-value below the threshold.
- The validation artifact's invalid paths are always `None`.

## Model

| member | source | states |
|---|---|---|
| Validation.ValidateNumOfCols | etl_project/components/data_validation.py:30-36 | the gate passes exactly when the table has as many columns as the schema has top-level entries |
| Validation.ColumnGateIgnoresLabels | etl_project/components/data_validation.py:30-36 | column labels are never compared with the schema: any relabelling with the same column count gets the same verdict |
| Validation.IsDrift | etl_project/components/data_validation.py:51-55 | a column drifts exactly when its p-value is NaN or strictly below the threshold; a p-value equal to the threshold is not drift |
| Validation.DetectDataDrift | etl_project/components/data_validation.py:40-59 | baseline columns are tested in order. The first one that is missing from the current table (a KeyError), or on which the test raises, ends the run with that error. Otherwise the report has one entry per baseline column, in order, with that column's p-value and flag, and the status is true iff no column drifts |
| Validation.LookupIgnoresAppended | etl_project/components/data_validation.py:46-47 | looking a label up in the current table is unaffected by extra columns appended to it |
| Validation.DriftIgnoresExtraColumns | etl_project/components/data_validation.py:45-59 | when the current table has every baseline column, extra columns appended to it change no column's test outcome. So they change neither whether the run fails, nor any report entry, nor the overall status |
| Validation.InitiateDataValidation | etl_project/components/data_validation.py:71-110 | missing files fail in read order, and then the drift test's error propagates. On success: the artifact's status is the drift result at threshold 0.05, both invalid paths are None, and the paths come from the config. Both tables are written to the valid paths whatever the checks say. Each column-count message is logged iff its gate fails |
| Transformation.GetDataTransformerObject | etl_project/components/data_transformation.py:31-39 | a one-step pipeline named "imputer": 3 neighbours, uniform weights; NaN is the only missing marker the model's type allows |
| Transformation.DropColumn | etl_project/components/data_transformation.py:50 | a KeyError iff the label is absent. Otherwise exactly the other columns remain, in their original order (a subsequence) |
| Transformation.RecodeTarget | etl_project/components/data_transformation.py:51-52 | every numeric -1 becomes 0, every other value is unchanged, and no -1 remains |
| Transformation.RecodeTargetIdempotent | etl_project/components/data_transformation.py:52 | recoding twice is recoding once |
| Transformation.RecodeBinaryLabels | etl_project/components/data_transformation.py:52 | a target in {-1, 1} comes out in {0, 1} |
| Transformation.AppendTarget | etl_project/components/data_transformation.py:63-64 | fails on a row-count mismatch. Otherwise each row gains the target as its last column, so the trainer's split gives back the features and the target |
| Transformation.InitiateDataTransformation | etl_project/components/data_transformation.py:43-79 | a missing file or target column fails first. An exception from fit, from the training transform, or from the test transform then ends the run in that order, before anything is saved. Then a row-count mismatch between features and target fails with ShapeMismatch, the training split's checked first. Otherwise the imputer is fitted once, on the training features only, and that fitted object transforms both splits. Each array's last column is its split's recoded target. The same fitted object is saved to the run path and to final_model/preprocessor.pkl. The artifact's paths are the config's |
| Transformation.TestSplitDoesNotLeak | etl_project/components/data_transformation.py:58-63 | replacing the test file changes neither the fitted preprocessor nor the training array |
| Analyze.WithoutSelect | etl_project/utils/analyze_utils/utils.py:216 | removing the labels of columns matching b from those matching a leaves exactly the columns matching a and not b, in table order |
| Analyze.GrabColNames | etl_project/utils/analyze_utils/utils.py:204-235 | every returned label is a column of the table, and no cardinal label is left in cat_cols. The full partition is in GrabColNamesPartition |
| Analyze.GrabColNamesOrder | etl_project/utils/analyze_utils/utils.py:204-235 | cat_cols is the non-cardinal object columns followed by the numeric columns below cat_th, each in table order. num_cols is the other numeric columns. The cardinal list is the object columns above car_th |
| Analyze.GrabColNamesPartition | etl_project/utils/analyze_utils/utils.py:204-235 | each object/int64/float64 column is in exactly the list its kind names. A cardinal object column is only in the cardinal list. A few-valued numeric column is in cat_cols and never in num_cols. Columns of other dtypes are in no list |
| Analyze.CategoricalListNoDuplicates | etl_project/utils/analyze_utils/utils.py:215 | the object part and the numeric part of cat_cols share no label |
| Analyze.GrabColNamesNoDuplicates | etl_project/utils/analyze_utils/utils.py:204-235 | no returned list repeats a label |
| Analyze.MissingValuesTable | etl_project/utils/analyze_utils/utils.py:102-109 | fails, naming the first column whose label is repeated, iff some label names several columns; the test at line 102 then has no single truth value. Otherwise with na_name, exactly the columns holding a missing value, in column order; without it, None |
| Analyze.CorrelationForDrop | etl_project/utils/analyze_utils/utils.py:254-263 | a label is collected iff some column i with that label has an entry j < i with absolute correlation strictly above the threshold. A first column whose label is unique is never collected |
| Preprocess.Thresholds | etl_project/utils/preprocess_utils/utils.py:39-44 | the two margins are equal and the bounds are 4·IQR apart. When q1 ≤ q3, low ≤ q1 ≤ q3 ≤ up; otherwise up < low |
| Preprocess.OutlierThresholds | etl_project/utils/preprocess_utils/utils.py:36-44 | a missing column is a KeyError. A label naming several columns fails as AmbiguousLabel, and a string column cannot be ranked. Otherwise the bounds sit at equal distances beyond the two quantiles, 4·IQR apart |
| Preprocess.RowsPartition | etl_project/utils/preprocess_utils/utils.py:116 | every row is either kept by the in-bounds mask or selected by the outlier mask, never both, and the two counts add up to the row count |
| Preprocess.RemoveOutlier | etl_project/utils/preprocess_utils/utils.py:115-116 | every column keeps its label and dtype. It becomes a subsequence of itself holding exactly the rows whose tested value is within the bounds, in order |
| Preprocess.RemoveOutlierTestedColumn | etl_project/utils/preprocess_utils/utils.py:116 | the tested column becomes its in-bounds values, missing ones included. No outlier remains and no in-bounds value is lost |
| Preprocess.GrabOutliers | etl_project/utils/preprocess_utils/utils.py:86-96 | with index, the strictly increasing positions of exactly the out-of-bounds rows; without it, None |
| Preprocess.ClipIsClamp | etl_project/utils/preprocess_utils/utils.py:138-139 | with ordered bounds the two sequential assignments clamp every number into [low, up]. Values already inside, and missing values, are left alone, and a second pass changes nothing |
| Preprocess.MonotoneQuantileOrdersBounds | etl_project/utils/preprocess_utils/utils.py:36-44 | with a quantile that never decreases as the level rises, the computed bounds always satisfy low ≤ up |
| Preprocess.ClipWithInvertedBounds | etl_project/utils/preprocess_utils/utils.py:137-139 | pins down the order of the two assignments on a case the library's quantiles never produce: with low > up, a value below low is raised to low and then lowered to up, so it ends outside [low, up] |
| Preprocess.ReplaceWithThresholds | etl_project/utils/preprocess_utils/utils.py:137-139 | fails when the bounds fail, including on a label naming several columns, where the source's `.loc` assignment raises. Otherwise bounds are computed once and only the tested column changes. In it, each number below low is set to low and then each number above up is set to up; in-bounds and missing values are unchanged. With ordered bounds every value is clamped into [low, up] |
| Preprocess.CheckOutlierAsWritten | etl_project/utils/preprocess_utils/utils.py:63-65 | true iff some out-of-bounds row holds a truthy cell (non-zero number or non-empty string) in any column |
| Preprocess.CheckOutlier | etl_project/utils/preprocess_utils/utils.py:63-65 | true iff some row of the column is out of bounds |
| Preprocess.CheckOutlierSound | etl_project/utils/preprocess_utils/utils.py:63-65 | the written check never reports an outlier the intended one misses, so both are false when no row is out of bounds |
| Preprocess.CheckOutlierMissesZeroOutlier | etl_project/utils/preprocess_utils/utils.py:65 | for the column [-10, -10, -10, -10, 0] the intended check is true and the written one false |
| Evaluation.CandidateKinds | etl_project/utils/eval_utils/utils.py:172-182 | the regression list holds only regressors; both classifier lists hold only classifiers |
| Evaluation.IsRegressionProblem | etl_project/utils/eval_utils/utils.py:121-122 | regression iff the target label is exactly "continuous". Every other label type_of_target returns, including "continuous-multioutput", is classification |
| Evaluation.DefaultScoring | etl_project/utils/eval_utils/utils.py:142-151 | an explicit scoring passes through; otherwise neg_mean_squared_error for regression and roc_auc for classification |
| Evaluation.AdjustScoringRewrites | etl_project/utils/eval_utils/utils.py:288-290 | roc_auc is rewritten iff there are more than two classes, no other string is ever rewritten, and the rewrite is idempotent |
| Evaluation.EvaluateAll | etl_project/utils/eval_utils/utils.py:292-297 | one line per candidate, in listed order, all with the same scoring. A line is an error line iff that candidate's cross-validation raised |
| Evaluation.EvaluateAllIsolatesFailures | etl_project/utils/eval_utils/utils.py:292-297 | a candidate's line depends only on its own cross-validation; another candidate failing does not change it |
| Evaluation.BaseRegressionModels | etl_project/utils/eval_utils/utils.py:184-193 | all nine regressors in order with the given scoring; a NaN mean gets the warning line |
| Evaluation.BaseModels | etl_project/utils/eval_utils/utils.py:268-297 | a continuous target is refused before any classifier runs. Otherwise all seven classifiers run in order, with the given scoring, except that roc_auc becomes roc_auc_ovr when there are more than two classes and stays roc_auc otherwise |
| Evaluation.BaseModelsAuto | etl_project/utils/eval_utils/utils.py:142-151 | regression iff the target type is "continuous": regressors with the regression default, otherwise classifiers with the classification default, then adjusted |
| Evaluation.BaseTreeModelsAsWritten | etl_project/utils/eval_utils/utils.py:213-241 | a continuous target raises NameError("models") after the regression report. Otherwise the five tree classifiers run with the adjusted scoring |
| Evaluation.BaseTreeModels | etl_project/utils/eval_utils/utils.py:213-241 | never raises: the regression branch ends after delegating, and the classification branch is as written |
| Evaluation.BaseTreeModelsDiscrepancy | etl_project/utils/eval_utils/utils.py:215-236 | the two versions give the same report, but the written one raises for every continuous target |
| Requirements.Strip | setup.py:12 | the result is the slice between a leading and a trailing run of whitespace, with no whitespace at either end; an all-whitespace line strips to empty |
| Requirements.StripTrimmed | setup.py:12 | a string without whitespace at either end is its own strip |
| Requirements.StripIdempotent | setup.py:12 | stripping twice is stripping once |
| Requirements.ReadLines | setup.py:9 | joining the lines gives the text back. Every line but the last ends with its newline, and no line holds a newline elsewhere |
| Requirements.FilteredRequirements | setup.py:11-15 | every kept line is non-empty, not "-e .", and already stripped. The result is a subsequence of the stripped lines, and each kept value appears as often as among the stripped lines |
| Requirements.GetRequirements | setup.py:4-19 | an absent file gives []. Otherwise the result is the stripped lines with empty lines and "-e ." dropped, in file order, duplicates kept |
| Exceptions.NewPipelineException | etl_project/exception/exception.py:5-17 | the message is stored unchanged and the line and file come from the traceback. With no traceback, or when asking for one raises, they are 0 and "NA" |
| Exceptions.Render | etl_project/exception/exception.py:19-22 | the text starts with the fixed prefix and ends with "]" |
| Exceptions.RenderRoundTrip | etl_project/exception/exception.py:19-22 | the rendered text gives back file name, line number and message in that order, when the file name has no "]" |
| Exceptions.NoTracebackRendering | etl_project/exception/exception.py:7-22 | without a traceback the text names file "NA" and line 0 |

## Left out

- All I/O: CSV, YAML, pickle and numpy reads and writes, log output and printed summaries. File reads are a map lookup. The files written are returned as data: `Write` entries for the validation stage, and `savedArrays`/`savedObjects` for the transformation stage. Of the log output, only the validation gate's two error lines are modelled, as the run's `log`; the informational lines and the other stages' log lines are not.
- MongoDB, S3, HTTP downloads, the scaffolding script and the hard-coded path loaders. They are not part of this model.
- Orchestration (`training_pipeline.py`, `main.py`): straight call chains that rewrap each exception.
- Library numerics: the KS p-value, quantiles, the correlation matrix, the imputer, `type_of_target` and `cross_validate`. These are function parameters or plain values; no floating-point or NaN arithmetic is modelled beyond an explicit NaN value. Quantiles and the correlation matrix are assumed not to raise. A string column's quantile is the one exception: it fails as `NotNumeric`.
- `one_hot_encoder`, `visualize_utils`, the print-only analysis methods and the serving route. They are presentation or thin library calls.
- `config_entity.py` is not part of this model. Only the configuration paths the modelled stages read appear, as `DataValidationConfig` and `DataTransformationConfig`.
- Analyze.GrabColNames: requires distinct labels (`DistinctNames`). On a repeated label the source raises ValueError at line 205, because the dtype test of a multi-column selection has no single truth value. That error is not modelled; frames read from CSV have distinct labels. Under this precondition, the cardinal list, which the source computes over the object columns' labels, equals a selection over the table.
- Preprocess.OutlierThresholds: quantiles are real numbers. The NaN quartiles of an all-missing column are not modelled, and a string column is rejected whenever any cell is a string. On a label naming several columns, the source does not raise: it returns a pair of per-column Series instead of two numbers. The model stops with `AmbiguousLabel` instead.
- Preprocess.RemoveOutlier: on a label naming several columns, the source masks individual cells with a boolean frame instead of dropping rows. The model stops with `AmbiguousLabel`, as every helper built on the bounds does.
- Preprocess.GrabOutliers: on a label naming several columns, the source selects with a boolean frame and returns the full index. The model stops with `AmbiguousLabel`.
- Preprocess.CheckOutlierAsWritten: on a label naming several columns, the source tests cells masked by a boolean frame. The model stops with `AmbiguousLabel`, as `Preprocess.CheckOutlier` does.
- Preprocess.ReplaceWithThresholds: the column keeps its dtype. The upcast of an int64 column to float64 when a fractional bound is assigned is not modelled.
- Preprocess.GrabOutliers: row labels are positions, as with the default range index of a freshly read table.
- Evaluation.BaseRegressionModels: only the outcome of each candidate is modelled. Rounding to four decimals and the wording of each printed line are not.
- Exceptions.NewPipelineException: the message is the `str` of the object passed. `str` itself is not modelled.
- Requirements.ReadLines: the text is taken after text-mode newline translation, so only `\n` ends a line.

## Findings

| source | as written | input that shows it | evidently intended | confidence | as-written member | corrected member |
|---|---|---|---|---|---|---|
| etl_project/utils/preprocess_utils/utils.py:65 | `df[outlier rows].any(axis=None)` asks whether any cell of the out-of-bounds rows is truthy, not whether such a row exists | one float column [-10, -10, -10, -10, 0]: both quartiles are -10, so the bounds are -10 and -10 and the 0 is an outlier. Its row holds only 0, so the check returns False | True exactly when some row of the column is out of bounds | medium, not executed | Preprocess.CheckOutlierAsWritten, Preprocess.CheckOutlierMissesZeroOutlier | Preprocess.CheckOutlier |
| etl_project/utils/eval_utils/utils.py:215-236 | the regression branch delegates to `base_regression_models` and then falls through to `for name, model in models`, which only the classification branch binds | any target whose type is "continuous" | return after delegating (no NameError) | high, not executed | Evaluation.BaseTreeModelsAsWritten, Evaluation.BaseTreeModelsDiscrepancy | Evaluation.BaseTreeModels |
