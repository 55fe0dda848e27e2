/** The immutable records the stages hand to one another, and the parts of the
    stage configurations the modelled stages read. An absent path (Python
    `None`) is `None`. */
module Artifacts {
  import opened Wrappers

  datatype DataCollectionArtifact = DataCollectionArtifact(
    eloDataResourceUrl: string,
    matchDataResourceUrl: string,
    eloDataUpdateInterval: string,
    matchDataUpdateInterval: string,
    matchDataFilePath: string,
    eloDataFilePath: string)

  datatype DataIngestionArtifact = DataIngestionArtifact(
    trainedFilePath: string,
    testFilePath: string)

  datatype DataValidationArtifact = DataValidationArtifact(
    validationStatus: bool,
    validTrainFilePath: string,
    validTestFilePath: string,
    invalidTrainFilePath: Option<string>,
    invalidTestFilePath: Option<string>,
    driftReportFilePath: string)

  datatype DataTransformationArtifact = DataTransformationArtifact(
    transformedObjectFilePath: string,
    transformedTrainFilePath: string,
    transformedTestFilePath: string)

  datatype ClassificationMetricArtifact = ClassificationMetricArtifact(
    f1Score: real,
    precisionScore: real,
    recallScore: real)

  datatype ModelTrainerArtifact = ModelTrainerArtifact(
    trainedModelFilePath: string,
    trainMetricArtifact: ClassificationMetricArtifact,
    testMetricArtifact: ClassificationMetricArtifact)

  /** The paths of the validation configuration that the validation stage uses. */
  datatype DataValidationConfig = DataValidationConfig(
    validTrainFilePath: string,
    validTestFilePath: string,
    driftReportFilePath: string)

  /** The paths of the transformation configuration. */
  datatype DataTransformationConfig = DataTransformationConfig(
    transformedObjectFilePath: string,
    transformedTrainFilePath: string,
    transformedTestFilePath: string)
}
