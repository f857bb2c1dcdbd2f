/** The three outcomes a test or a group of tests can have (Gradle's
    `TestResult.ResultType`). */
module ResultTypes {

  datatype ResultType = Success | Failure | Skipped
}
