/** The scoring-selection rules of the model-evaluation helper: which problem
    type a target is, which metric is used by default, the multiclass rewrite
    of `roc_auc`, and which candidates are cross-validated in which order.

    The target-type detection and cross-validation are library routines and
    are inputs here; what the helper prints is modelled as the sequence of
    report lines it produces. */
module Evaluation {
  import opened Wrappers
  import opened Frames

  const Continuous := "continuous"
  const NegMeanSquaredError := "neg_mean_squared_error"
  const RocAuc := "roc_auc"
  const RocAucOvr := "roc_auc_ovr"

  /** The number of folds every cross-validation uses. */
  const Folds: nat := 3

  datatype Estimator =
    | LinearRegression
    | Ridge
    | Lasso
    | KNeighborsRegressor
    | DecisionTreeRegressor
    | RandomForestRegressor
    | AdaBoostRegressor
    | GradientBoostingRegressor
    | XGBRegressor(evalMetric: string)
    | LogisticRegression(maxIter: nat)
    | KNeighborsClassifier
    | SVC(probability: bool)
    | DecisionTreeClassifier
    | RandomForestClassifier
    | AdaBoostClassifier
    | GradientBoostingClassifier
    | XGBClassifier(useLabelEncoder: bool, evalMetric: string)
  {
    predicate IsRegressor() {
      || this.LinearRegression? || this.Ridge? || this.Lasso? || this.KNeighborsRegressor?
      || this.DecisionTreeRegressor? || this.RandomForestRegressor? || this.AdaBoostRegressor?
      || this.GradientBoostingRegressor? || this.XGBRegressor?
    }
  }

  /** A named candidate model. */
  datatype Candidate = Candidate(name: string, estimator: Estimator)

  /** `cross_validate(model, X, y, cv=folds, scoring=scoring)` for the fixed
      data, reduced to the mean test score, or the message of the exception it
      raises. */
  type CrossValidate = (Estimator, nat, string) -> Result<Float, string>

  /** One printed report line. */
  datatype Line =
    | Score(scoring: string, model: string, mean: Float)
    | NaNWarning(scoring: string, model: string)
    | ErrorLine(scoring: string, model: string, message: string)

  const Regressors := [
    Candidate("Linear", LinearRegression),
    Candidate("Ridge", Ridge),
    Candidate("Lasso", Lasso),
    Candidate("KNN", KNeighborsRegressor),
    Candidate("CART", DecisionTreeRegressor),
    Candidate("RF", RandomForestRegressor),
    Candidate("AdaBoost", AdaBoostRegressor),
    Candidate("GBM", GradientBoostingRegressor),
    Candidate("XGBoost", XGBRegressor("rmse"))]

  const Classifiers := [
    Candidate("LR", LogisticRegression(1000)),
    Candidate("KNN", KNeighborsClassifier),
    Candidate("SVC", SVC(true)),
    Candidate("CART", DecisionTreeClassifier),
    Candidate("RF", RandomForestClassifier),
    Candidate("Adaboost", AdaBoostClassifier),
    Candidate("GBM", GradientBoostingClassifier)]

  const TreeClassifiers := [
    Candidate("CART", DecisionTreeClassifier),
    Candidate("RF", RandomForestClassifier),
    Candidate("AdaBoost", AdaBoostClassifier),
    Candidate("GBM", GradientBoostingClassifier),
    Candidate("XGBoost", XGBClassifier(false, "logloss"))]

  /** Each candidate list holds estimators of one kind only. */
  lemma CandidateKinds()
    ensures forall i :: 0 <= i < |Regressors| ==> Regressors[i].estimator.IsRegressor()
    ensures forall i :: 0 <= i < |Classifiers| ==> !Classifiers[i].estimator.IsRegressor()
    ensures forall i :: 0 <= i < |TreeClassifiers| ==> !TreeClassifiers[i].estimator.IsRegressor()
  {
  }

  /** `_is_regression_problem`, given the label `type_of_target` returns: of
      all its labels only "continuous" means regression, so a multi-output
      continuous target is handled as classification. */
  function IsRegressionProblem(targetType: string): (regression: bool)
    ensures regression <==> targetType == Continuous
    ensures targetType == "continuous-multioutput" ==> !regression
  {
    targetType == Continuous
  }

  /** `len(np.unique(y))`. */
  function NClasses(y: seq<Cell>): nat {
    |set i | 0 <= i < |y| :: y[i]|
  }

  /** The scoring used when none is given: mean squared error (negated) for
      regression, ROC AUC otherwise. */
  function DefaultScoring(regression: bool, scoring: Option<string>): (s: string)
    ensures scoring.Some? ==> s == scoring.value
    ensures scoring.None? && regression ==> s == NegMeanSquaredError
    ensures scoring.None? && !regression ==> s == RocAuc
  {
    match scoring
    case Some(given) => given
    case None => if regression then NegMeanSquaredError else RocAuc
  }

  /** The multiclass adjustment: ROC AUC becomes one-vs-rest when there are
      more than two classes. */
  function AdjustScoring(scoring: string, nClasses: nat): string {
    if scoring == RocAuc && nClasses > 2 then RocAucOvr else scoring
  }

  /** `roc_auc` is rewritten exactly when there are more than two classes, and
      no other scoring string is ever changed; adjusting twice is adjusting
      once. */
  lemma AdjustScoringRewrites(scoring: string, nClasses: nat)
    ensures AdjustScoring(scoring, nClasses) != scoring <==> scoring == RocAuc && nClasses > 2
    ensures scoring != RocAuc ==> AdjustScoring(scoring, nClasses) == scoring
    ensures AdjustScoring(AdjustScoring(scoring, nClasses), nClasses) == AdjustScoring(scoring, nClasses)
  {
  }

  /** The body of the evaluation loop for one candidate: a failing
      cross-validation becomes an error line; the regression loop also
      singles out a NaN mean. */
  function Evaluate(c: Candidate, scoring: string, cv: CrossValidate, flagNaN: bool): Line {
    match cv(c.estimator, Folds, scoring)
    case Failure(message) => ErrorLine(scoring, c.name, message)
    case Success(mean) => if flagNaN && mean == NaN then NaNWarning(scoring, c.name) else Score(scoring, c.name, mean)
  }

  /** The evaluation loop: a failure does not stop it, so every candidate is
      visited once, in listed order, with the same scoring. */
  function EvaluateAll(candidates: seq<Candidate>, scoring: string, cv: CrossValidate, flagNaN: bool)
    : (lines: seq<Line>)
    ensures |lines| == |candidates|
    ensures forall i :: 0 <= i < |candidates| ==> lines[i] == Evaluate(candidates[i], scoring, cv, flagNaN)
    ensures forall i :: 0 <= i < |candidates| ==>
              lines[i].model == candidates[i].name && lines[i].scoring == scoring
    ensures forall i :: 0 <= i < |candidates| ==>
              (lines[i].ErrorLine? <==> cv(candidates[i].estimator, Folds, scoring).Failure?)
  {
    if candidates == [] then []
    else [Evaluate(candidates[0], scoring, cv, flagNaN)] + EvaluateAll(candidates[1..], scoring, cv, flagNaN)
  }

  /** A candidate's line depends only on its own cross-validation: changing
      what any other candidate does, even making it fail, leaves it alone. */
  lemma {:induction false} EvaluateAllIsolatesFailures(
    candidates: seq<Candidate>, scoring: string, cv: CrossValidate, other: CrossValidate, flagNaN: bool, i: nat)
    requires i < |candidates|
    requires other(candidates[i].estimator, Folds, scoring) == cv(candidates[i].estimator, Folds, scoring)
    ensures EvaluateAll(candidates, scoring, other, flagNaN)[i] == EvaluateAll(candidates, scoring, cv, flagNaN)[i]
  {
  }

  /** What an entry point produces: nothing evaluated, or the scoring used and
      the report lines. */
  datatype Report = Skipped | Evaluated(scoring: string, lines: seq<Line>)

  /** `base_regression_models`. */
  function BaseRegressionModels(scoring: string, cv: CrossValidate): (r: Report)
    ensures r.Evaluated? && r.scoring == scoring && |r.lines| == |Regressors|
    ensures forall i :: 0 <= i < |Regressors| ==> r.lines[i] == Evaluate(Regressors[i], scoring, cv, true)
  {
    Evaluated(scoring, EvaluateAll(Regressors, scoring, cv, true))
  }

  /** `base_models`: a continuous target is refused before any classifier is
      evaluated; otherwise every classifier is evaluated with the scoring
      adjusted for the number of classes. */
  function BaseModels(targetType: string, y: seq<Cell>, scoring: string, cv: CrossValidate): (r: Report)
    ensures r.Skipped? <==> targetType == Continuous
    ensures r.Evaluated? ==>
              && (r.scoring == RocAucOvr <==> scoring == RocAucOvr || (scoring == RocAuc && NClasses(y) > 2))
              && (scoring == RocAuc && NClasses(y) > 2 ==> r.scoring == RocAucOvr)
              && (scoring == RocAuc && NClasses(y) <= 2 ==> r.scoring == RocAuc)
              && (scoring != RocAuc ==> r.scoring == scoring)
              && |r.lines| == |Classifiers|
              && (forall i :: 0 <= i < |Classifiers| ==>
                    r.lines[i] == Evaluate(Classifiers[i], r.scoring, cv, false))
  {
    if IsRegressionProblem(targetType) then Skipped
    else
      var adjusted := AdjustScoring(scoring, NClasses(y));
      Evaluated(adjusted, EvaluateAll(Classifiers, adjusted, cv, false))
  }

  /** `base_models_auto`: regressors with the regression default for a
      continuous target, classifiers with the classification default (then
      adjusted) otherwise; an explicit scoring is passed through. */
  function BaseModelsAuto(targetType: string, y: seq<Cell>, scoring: Option<string>, cv: CrossValidate)
    : (r: Report)
    ensures r.Evaluated?
    ensures targetType == Continuous ==>
              && r.scoring == (if scoring.Some? then scoring.value else NegMeanSquaredError)
              && |r.lines| == |Regressors|
              && (forall i :: 0 <= i < |Regressors| ==> r.lines[i] == Evaluate(Regressors[i], r.scoring, cv, true))
    ensures targetType != Continuous ==>
              && r.scoring == AdjustScoring(if scoring.Some? then scoring.value else RocAuc, NClasses(y))
              && |r.lines| == |Classifiers|
              && (forall i :: 0 <= i < |Classifiers| ==> r.lines[i] == Evaluate(Classifiers[i], r.scoring, cv, false))
  {
    var regression := IsRegressionProblem(targetType);
    var chosen := DefaultScoring(regression, scoring);
    if regression then BaseRegressionModels(chosen, cv)
    else BaseModels(targetType, y, chosen, cv)
  }

  /** What `base_tree_models` produces: its report, and the error it raises
      afterwards, if any. */
  datatype TreeRun = TreeRun(report: Report, raised: Option<Error>)

  /** `base_tree_models` as written: the regression branch delegates to
      `base_regression_models` and then falls through to the loop over
      `models`, a name only the classification branch binds, so it raises a
      NameError after the regression report. */
  function BaseTreeModelsAsWritten(targetType: string, y: seq<Cell>, scoring: Option<string>, cv: CrossValidate)
    : (r: TreeRun)
    ensures r.raised.Some? <==> targetType == Continuous
    ensures r.raised.Some? ==> r.raised.value == UnboundName("models")
    ensures r.report.Evaluated?
    ensures targetType != Continuous ==>
              && r.report.scoring == AdjustScoring(if scoring.Some? then scoring.value else RocAuc, NClasses(y))
              && |r.report.lines| == |TreeClassifiers|
              && (forall i :: 0 <= i < |TreeClassifiers| ==>
                    r.report.lines[i] == Evaluate(TreeClassifiers[i], r.report.scoring, cv, false))
  {
    var regression := IsRegressionProblem(targetType);
    var chosen := DefaultScoring(regression, scoring);
    if regression then
      TreeRun(BaseRegressionModels(chosen, cv), Some(UnboundName("models")))
    else
      var adjusted := AdjustScoring(chosen, NClasses(y));
      TreeRun(Evaluated(adjusted, EvaluateAll(TreeClassifiers, adjusted, cv, false)), None)
  }

  /** `base_tree_models` as evidently intended: the regression branch ends
      after delegating, so no call raises. */
  function BaseTreeModels(targetType: string, y: seq<Cell>, scoring: Option<string>, cv: CrossValidate)
    : (r: TreeRun)
    ensures r.raised.None?
    ensures r.report.Evaluated?
    ensures targetType == Continuous ==>
              r.report == BaseModelsAuto(targetType, y, scoring, cv)
    ensures targetType != Continuous ==>
              && r.report.scoring == BaseModelsAuto(targetType, y, scoring, cv).scoring
              && |r.report.lines| == |TreeClassifiers|
              && (forall i :: 0 <= i < |TreeClassifiers| ==>
                    r.report.lines[i] == Evaluate(TreeClassifiers[i], r.report.scoring, cv, false))
  {
    var regression := IsRegressionProblem(targetType);
    var chosen := DefaultScoring(regression, scoring);
    if regression then
      TreeRun(BaseRegressionModels(chosen, cv), None)
    else
      var adjusted := AdjustScoring(chosen, NClasses(y));
      TreeRun(Evaluated(adjusted, EvaluateAll(TreeClassifiers, adjusted, cv, false)), None)
  }

  /** The written and the corrected `base_tree_models` agree except that the
      written one raises for every continuous target, whatever the data and
      the cross-validation results. */
  lemma BaseTreeModelsDiscrepancy(targetType: string, y: seq<Cell>, scoring: Option<string>, cv: CrossValidate)
    ensures BaseTreeModelsAsWritten(targetType, y, scoring, cv).report == BaseTreeModels(targetType, y, scoring, cv).report
    ensures targetType == Continuous ==>
              && BaseTreeModelsAsWritten(targetType, y, scoring, cv).raised == Some(UnboundName("models"))
              && BaseTreeModels(targetType, y, scoring, cv).raised == None
  {
  }
}
