# Test report aggregation tree, in Dafny

This project models the core of an Android instrumentation test report
generator: the tree that aggregates test results before the HTML pages are
written.

- **The root.** It holds packages, packages hold classes, and classes hold
  the individual test outcomes.
- **Counters at every level.** Every level of the tree (root, package,
  class) counts:
  - its tests and their summed duration;
  - the set of failed outcomes and the set of ignored outcomes.
- **Rollups.** Every level also keeps rollups: one per device and one per
  variant (a project, plus its flavor unless the flavor is "main"). They
  get the same counters for the tests of that device or variant.
- **Loading.** The report is loaded from `TEST-*.xml` result files.
  - Each test case becomes one outcome, carrying one failure per `failure`
    element and the test's screenshot.
  - Each ignored test case becomes one skipped outcome of duration 0.
  - A suite's console text is appended to the class named by the suite.
  - A file that cannot be merged aborts loading with an error naming the
    file.
- **The class page.** It combines the results of one test on several
  devices into one result type. It picks a CSS status class per type. It
  counts on how many devices each failed test failed. It writes one
  heading per failed outcome, with a test that failed everywhere headed
  only once.

The model is purely functional. Object identity of an outcome is an
abstract `OutcomeId` handed out from a counter in the root, so the
failure and ignored sets have set semantics. Parsing, file listing and
the screenshot map are inputs: a listed file arrives as a parsed
`Document`, or as `None` when it could not be parsed.

Modules, in dependency order:

- `Wrappers`: `Option` and `Result`.
- `Strings`: string order, `lastIndexOf`, ASCII case folding and number
  printing.
- `Sums`: sums and unions over maps.
- `TreeMaps`: a sorted map's keys and values in ascending key order.
- `ResultTypes`: the three result types.
- `Composite`: the counters and rollups every level shares.
- `TestResult`: one outcome and its order.
- `ClassResults`, `PackageResults` and `AllResults`: the three levels.
- `NodeInvariants`, `ClassInvariants` and `TreeInvariants`: the
  well-formedness of the tree and its preservation by every operation.
- `TreeProperties`: what a well-formed tree promises its readers.
- `ClassPage`: the decisions of the class page.
- `TestReport`: loading result files.
- `ReportProperties`: loading keeps the tree well formed and counts
  exactly what was loaded.

## Model

| member | source | states |
|---|---|---|
| Composite.CountTest | src/main/java/com/android/build/gradle/internal/test/report/CompositeTestResultsExt.java:111-115 | Counting a test raises the test count by exactly one and the duration by the test's duration, and leaves the failure and ignored sets alone |
| Composite.CountInRollup | src/main/java/com/android/build/gradle/internal/test/report/CompositeTestResultsExt.java:135-154 | Get-or-create of a rollup. The key set grows by exactly the key. An existing rollup counts one more test. A new rollup is named by its key and holds just this test. Every other rollup is unchanged |
| NodeInvariants.RecordKeepsNodeWf | src/main/java/com/android/build/gradle/internal/test/report/CompositeTestResultsExt.java:135-154 | Counting an insertion at a level keeps the level well formed. The device rollups, and separately the variant rollups, split the level's test count and duration between them. Each rollup is stored under its own name. Its failure and ignored sets lie within the level's. No rollup disappears, and afterwards the outcome's device and variant rollups exist |
| NodeInvariants.DeviceTitles | src/main/java/com/android/build/gradle/internal/test/report/DeviceTestResultsExt.java:12-25 | Every device rollup's title, which is its name, is the device it is filed under, including the rollup the latest test was counted in |
| NodeInvariants.VariantTitles | src/main/java/com/android/build/gradle/internal/test/report/VariantTestResultsExt.java:10-23 | Every variant rollup's title, which is its name, is the variant key it is filed under, including the rollup the latest test was counted in |
| Composite.VariantKeyBareIffMain | src/main/java/com/android/build/gradle/internal/test/report/CompositeTestResultsExt.java:156-162 | The variant key is the bare project name exactly when the flavor is "main", ignoring case |
| NodeInvariants.MarkFailedKeepsNodeWf | src/main/java/com/android/build/gradle/internal/test/report/CompositeTestResultsExt.java:92-109 | Marking a failure keeps the level well formed and creates no device or variant rollup |
| NodeInvariants.MarkFailedReaches | src/main/java/com/android/build/gradle/internal/test/report/CompositeTestResultsExt.java:92-109 | At a level that has the outcome's rollups, the failure lands in the level's failure set and in those of its device rollup and its variant rollup |
| NodeInvariants.MarkFailedIdempotent | src/main/java/com/android/build/gradle/internal/test/report/CompositeTestResultsExt.java:37-40 | Failure counts are set sizes. Marking the same outcome failed twice leaves the node and all its rollups as one mark left them |
| NodeInvariants.MarkIgnoredKeepsNodeWf | src/main/java/com/android/build/gradle/internal/test/report/CompositeTestResultsExt.java:117-133 | Marking an outcome ignored keeps the level well formed and creates no rollup |
| NodeInvariants.MarkIgnoredReaches | src/main/java/com/android/build/gradle/internal/test/report/CompositeTestResultsExt.java:117-133 | Using the outcome's own device, project and flavor, the ignored outcome lands in the level's ignored set and those of both of its rollups |
| NodeInvariants.MarkIgnoredIdempotent | src/main/java/com/android/build/gradle/internal/test/report/CompositeTestResultsExt.java:41-43 | Marking the same outcome ignored twice is marking it once |
| Composite.SuccessRate | src/main/java/com/android/build/gradle/internal/test/report/CompositeTestResultsExt.java:80-90 | There is no rate exactly when no test ran. Otherwise, with no more failures than tests, the rate is the quotient of 100 times the passed tests by the tests, truncated. It lies between 0 and 100, and is 100 exactly when nothing failed |
| Composite.FormattedSuccessRate | src/main/java/com/android/build/gradle/internal/test/report/CompositeTestResultsExt.java:72-78 | "-" exactly when no test ran, otherwise the rate's decimal digits followed by "%" |
| Composite.SuccessRateTruncates | src/main/java/com/android/build/gradle/internal/test/report/CompositeTestResultsExt.java:85-89 | Three tests with one failure show "66%": the fraction is cut off, not rounded |
| Composite.ResultTypeOf | src/main/java/com/android/build/gradle/internal/test/report/CompositeTestResultsExt.java:67-70 | A level is a failure exactly when its failure set is non-empty, and a success exactly when it is empty. Ignored outcomes play no part |
| Composite.FormattedDuration | src/main/java/com/android/build/gradle/internal/test/report/CompositeTestResultsExt.java:51-53 | A level shows "-" exactly when it holds no test, and otherwise its summed duration |
| TestResult.Outcome.ResultType | src/main/java/io/github/grigoryrylov/android/test/TestResultExt.java:58-63 | Skipped exactly when ignored, even with failures. Failure exactly when not ignored with a failure reported. Success otherwise |
| TestResult.Outcome.FormattedDuration | src/main/java/io/github/grigoryrylov/android/test/TestResultExt.java:71-73 | "-" exactly when the outcome is ignored, and otherwise its duration |
| TestResult.WithFailure | src/main/java/io/github/grigoryrylov/android/test/TestResultExt.java:83-88 | Adding a failure keeps everything fixed at construction. It keeps the earlier failures and appends one failure with no exception type |
| TestResult.AddFailures | src/main/java/io/github/grigoryrylov/android/test/TestResultExt.java:83-88 | After k calls with the same arguments the outcome keeps its earlier failures in order, followed by k copies of the new failure with no exception type. When k > 0 it is a failure unless ignored |
| TestResult.WithIgnored | src/main/java/io/github/grigoryrylov/android/test/TestResultExt.java:90-94 | An ignored outcome keeps its identity and failures and is skipped |
| TestResult.PrecedesTransitive | src/main/java/io/github/grigoryrylov/android/test/TestResultExt.java:96-121 | The result order (class name, test name, device, flavor, identity) is transitive |
| TestResult.PrecedesTotal | src/main/java/io/github/grigoryrylov/android/test/TestResultExt.java:96-121 | Two outcomes with different identities are always ordered one way or the other |
| TestResult.PrecedesIgnoresProject | src/main/java/io/github/grigoryrylov/android/test/TestResultExt.java:113-120 | Outcomes of one test on one device and flavor are ordered by identity alone, whatever their projects |
| ClassResults.SimpleName | src/main/java/com/android/build/gradle/internal/test/report/ClassTestResultsExt.java:35-41 | The simple name has no '.'. It is the whole name when that has no '.', and otherwise the name ends with '.' followed by it |
| AllResults.PackageThenSimpleName | src/main/java/com/android/build/gradle/internal/test/report/ClassTestResultsExt.java:35-41 | A dotted class name is its package, a '.', and its simple name |
| ClassResults.InsertSortedKeepsOrder | src/main/java/com/android/build/gradle/internal/test/report/ClassTestResultsExt.java:15 | Inserting an outcome with a new identity keeps the ordered result set strictly ordered |
| ClassResults.AddTest | src/main/java/com/android/build/gradle/internal/test/report/ClassTestResultsExt.java:72-81 | The result set gains exactly the new outcome, which is a success. Order is kept. The class counts the test once in its tally and its device and variant rollups |
| ClassInvariants.AddTestKeepsClassWf | src/main/java/com/android/build/gradle/internal/test/report/ClassTestResultsExt.java:72-81 | A class stays well formed: its counters total its outcomes, and its sets are those of its failed and ignored outcomes. The new outcome is in the results, and its rollups exist |
| ClassInvariants.AddTestFindsOutcome | src/main/java/com/android/build/gradle/internal/test/report/ClassTestResultsExt.java:74-75 | Looking up the new identity in the class finds exactly the new outcome |
| ClassInvariants.ClassCountsBound | src/main/java/com/android/build/gradle/internal/test/report/CompositeTestResultsExt.java:33-43 | A well-formed class has no more failed, or ignored, outcomes than tests |
| ClassResults.AppendAllIsConcat | src/main/java/com/android/build/gradle/internal/test/report/ClassTestResultsExt.java:83-89 | Text appended call by call is the old text followed by all texts in call order |
| ClassResults.TestResultsMapCovers | src/main/java/com/android/build/gradle/internal/test/report/ClassTestResultsExt.java:47-62 | Every outcome's device and test name have an entry in the device-to-test table |
| ClassResults.TestResultsMapDevices | src/main/java/com/android/build/gradle/internal/test/report/ClassTestResultsExt.java:47-62 | The table's devices are exactly the devices of the outcomes: each outcome's device is a key, and each key is the device of some outcome |
| ClassResults.TestResultsMapLastWins | src/main/java/com/android/build/gradle/internal/test/report/ClassTestResultsExt.java:58 | Every entry sits under its own device and name. Of several outcomes with that device and name, the entry is the last in result order |
| PackageResults.PackageName | src/main/java/io/github/grigoryrylov/android/test/PackageTestResultsExt.java:15-18 | The empty package name is stored as "default-package", and every other name unchanged |
| PackageResults.TitleCases | src/main/java/io/github/grigoryrylov/android/test/PackageTestResultsExt.java:21-23 | The title is "Default package" exactly for the empty or sentinel name, and otherwise "Package " and the name |
| TreeProperties.StoredPackageTitle | src/main/java/com/android/build/gradle/internal/test/report/AllTestResultsExt.java:58-66 | A package stored under a key is titled by that key: "Default package" exactly for the empty or sentinel key, and otherwise "Package " and the key |
| PackageResults.AddClassIdempotent | src/main/java/io/github/grigoryrylov/android/test/PackageTestResultsExt.java:46-53 | A second get-or-create of the same class returns the same class and changes nothing |
| PackageResults.AddTest | src/main/java/io/github/grigoryrylov/android/test/PackageTestResultsExt.java:34-44 | The named class records the test. The package counts it once in its tally and its device and variant rollups, and no other class changes |
| AllResults.PackageKeyOf | src/main/java/com/android/build/gradle/internal/test/report/AllTestResultsExt.java:47-56 | The package of a class is "" when the name has no '.'. Otherwise it is the prefix before a '.' after which no '.' follows |
| AllResults.AddPackageIdempotent | src/main/java/com/android/build/gradle/internal/test/report/AllTestResultsExt.java:58-66 | A second get-or-create of the same package returns the same package and changes nothing |
| AllResults.AddTestClass | src/main/java/com/android/build/gradle/internal/test/report/AllTestResultsExt.java:43-45 | Creating a class changes no counter, set or rollup of the root and hands out no identity |
| AllResults.AddTest | src/main/java/com/android/build/gradle/internal/test/report/AllTestResultsExt.java:31-41 | A new outcome takes the next identity. It is routed to its package and class. The root counts it once in its tally and its device and variant rollups |
| TreeMaps.InKeyOrder | src/main/java/com/android/build/gradle/internal/test/report/AllTestResultsExt.java:22-24 | Lists each key of a sorted map exactly once with its value, in strictly ascending key order, as `getPackages()` and `getClasses()` return their TreeMap's values |
| AllResults.AddFailure | src/main/java/io/github/grigoryrylov/android/test/TestResultExt.java:83-88 | The outcome gets one more failure. The class, its package and the root mark it failed with the given device, project and flavor. No identity is handed out and no package appears. The class keeps its name, output and other outcomes. The package keeps its name and other classes, and every other package is unchanged |
| AllResults.Ignore | src/main/java/io/github/grigoryrylov/android/test/TestResultExt.java:90-94 | The outcome is marked ignored. The class, its package and the root record it with the outcome's own device, project and flavor. The class keeps its name, output and other outcomes. The package keeps its name and other classes, and every other package is unchanged |
| TreeInvariants.AddTestKeepsRootWf | src/main/java/com/android/build/gradle/internal/test/report/AllTestResultsExt.java:31-41 | Adding a test keeps the whole tree well formed. Each parent totals its children's counts and durations, and unites their failure and ignored sets. Every package is named after the key it is filed under |
| TreeInvariants.AddTestClassKeepsRootWf | src/main/java/com/android/build/gradle/internal/test/report/AllTestResultsExt.java:43-45 | Creating a class keeps the tree well formed |
| TreeInvariants.AddFailureKeepsRootWf | src/main/java/io/github/grigoryrylov/android/test/TestResultExt.java:83-88 | Reporting a failure, on any device, project and flavor, keeps the tree well formed |
| TreeInvariants.IgnoreKeepsRootWf | src/main/java/io/github/grigoryrylov/android/test/TestResultExt.java:90-94 | Ignoring an outcome keeps the tree well formed |
| TreeProperties.PackageCountsOutcomes | src/main/java/io/github/grigoryrylov/android/test/PackageTestResultsExt.java:34-44 | A package's test count and duration are those of the outcomes of its classes |
| TreeProperties.RootCountsOutcomes | src/main/java/com/android/build/gradle/internal/test/report/AllTestResultsExt.java:31-45 | The root's test count and duration are those of the outcomes filed anywhere in the tree |
| TreeProperties.RootSetsAreOutcomeSets | src/main/java/com/android/build/gradle/internal/test/report/CompositeTestResultsExt.java:92-133 | An identity is in the root's failure set exactly when some filed outcome has it and a reported failure. It is in the ignored set exactly when some filed outcome has it and is ignored |
| TreeProperties.RootCountsBound | src/main/java/com/android/build/gradle/internal/test/report/CompositeTestResultsExt.java:33-43 | The root has no more failed, or ignored, outcomes than tests |
| TreeProperties.SuccessRatesArePercentages | src/main/java/com/android/build/gradle/internal/test/report/CompositeTestResultsExt.java:80-90 | The root and every class and its package show a rate between 0 and 100, which is 100 exactly when nothing there failed |
| TreeProperties.AddTestIsFound | src/main/java/com/android/build/gradle/internal/test/report/AllTestResultsExt.java:31-41 | The new outcome is filed in the named class, and looking up its identity there finds exactly it |
| TreeProperties.FailureReachesEveryLevel | src/main/java/io/github/grigoryrylov/android/test/TestResultExt.java:83-88 | A failure reported with the outcome's own device, project and flavor reaches the failure sets of the class, its package and the root, and of the device and variant rollups of each |
| TreeProperties.IgnoreReachesEveryLevel | src/main/java/io/github/grigoryrylov/android/test/TestResultExt.java:90-94 | An ignored outcome reaches the ignored sets of the same nine places |
| TreeProperties.SecondFailureCountsOnce | src/main/java/io/github/grigoryrylov/android/test/TestResultExt.java:83-88 | A second failure of the same outcome with the same device, project and flavor is listed on the outcome, but no tally or rollup of the class, package or root changes |
| TreeProperties.IgnoreIdempotent | src/main/java/io/github/grigoryrylov/android/test/TestResultExt.java:90-94 | Ignoring an outcome again changes nothing |
| ClassPage.Combine | src/main/java/io/github/grigoryrylov/android/test/ClassPageRendererExt.java:94-112 | Combining two result types gives the worse of them, in the order skipped, success, failure |
| ClassPage.CombineIsMax | src/main/java/io/github/grigoryrylov/android/test/ClassPageRendererExt.java:94-112 | Combining is commutative, associative and idempotent. A failure absorbs everything, and skipped changes nothing |
| ClassPage.CombineAllIsWorst | src/main/java/io/github/grigoryrylov/android/test/ClassPageRendererExt.java:68-84 | The fold from skipped is a failure exactly when some type is. It is a success exactly when none failed and one succeeded. It is skipped exactly when all are skipped |
| ClassPage.RowTypesMembers | src/main/java/io/github/grigoryrylov/android/test/ClassPageRendererExt.java:71-84 | A type is among a row's entries exactly when some listed device ran the test with that type |
| ClassPage.RowTypeIsWorst | src/main/java/io/github/grigoryrylov/android/test/ClassPageRendererExt.java:49-84 | Over all devices of the table, a test's row is a failure exactly when it failed on some device. It is skipped exactly when every device that has it skipped it |
| ClassPage.StatusClass | src/main/java/io/github/grigoryrylov/android/test/ClassPageRendererExt.java:114-125 | The CSS class ("success", "failures", "skipped") reads back to the result type it was made from |
| ClassPage.StatusClassInjective | src/main/java/io/github/grigoryrylov/android/test/ClassPageRendererExt.java:114-125 | Different result types get different CSS classes |
| ClassPage.PercentOf | src/main/java/io/github/grigoryrylov/android/test/ClassPageRendererExt.java:127-139 | A test fails on no more devices than ran it. It is a full failure exactly when the devices it failed on are the devices that ran it |
| ClassPage.CountPercent | src/main/java/io/github/grigoryrylov/android/test/ClassPageRendererExt.java:159-180 | The counting loop gives the number of devices where the test failed, out of those where it was not skipped |
| ClassPage.Label | src/main/java/io/github/grigoryrylov/android/test/ClassPageRendererExt.java:182-190 | A heading starts with the test name, and is just the name exactly when a single device ran the test |
| ClassPage.LabelReadsBack | src/main/java/io/github/grigoryrylov/android/test/ClassPageRendererExt.java:182-190 | Two headings of the same test and device that show counts agree on full failure. If not full, they agree on the counts |
| ClassPage.Failed | src/main/java/io/github/grigoryrylov/android/test/ClassPageRendererExt.java:148 | The failures of a class are exactly its results in the failure set, in result order |
| ClassPage.RenderFailures | src/main/java/io/github/grigoryrylov/android/test/ClassPageRendererExt.java:141-191 | The memoised loop writes the same headings as the plain recursive definition. That definition has one heading per failed outcome in order, skipping a name already headed as failing on every device |
| ClassPage.HeadingsCoverNames | src/main/java/io/github/grigoryrylov/android/test/ClassPageRendererExt.java:148-157 | Headings name exactly the failed tests: each name is headed at least once, and nothing else is |
| ClassPage.FullFailureHeadedOnce | src/main/java/io/github/grigoryrylov/android/test/ClassPageRendererExt.java:154-157 | A test that failed on every device that ran it is headed at most once |
| TestReport.ResultFileNameShape | src/main/java/com/android/build/gradle/internal/test/report/TestReportExt.java:54 | A file is merged exactly when its name is "TEST-", any stem, and ".xml" |
| TestReport.OtherFilesIgnored | src/main/java/com/android/build/gradle/internal/test/report/TestReportExt.java:53-57 | A file of another name changes nothing wherever it is listed |
| TestReport.ScreenshotFor | src/main/java/com/android/build/gradle/internal/test/report/TestReportExt.java:135-138 | A test's screenshot is the entry under its class name, '#' and its test name, or "" when there is none |
| TestReport.ScreenshotKeyInjective | src/main/java/com/android/build/gradle/internal/test/report/TestReportExt.java:136 | For class names without '#', the key names one class and test |
| TestReport.ReadProperties | src/main/java/com/android/build/gradle/internal/test/report/TestReportExt.java:76-86 | The last properties element wins. With none, the values stay as they were |
| TestReport.RecordFailures | src/main/java/com/android/build/gradle/internal/test/report/TestReportExt.java:99-105 | The outcome keeps its identity and earlier failures. It gains, in order, one failure per failure element, each with the element's message and text, no exception type and the test's screenshot. No test is counted and no identity is handed out |
| ReportProperties.RecordFailuresMarksOnce | src/main/java/com/android/build/gradle/internal/test/report/TestReportExt.java:99-105 | However many failure elements a test case has, its class, package and the root end as after one `addFailure` with the document's device and variant. Nothing outside that class, the package node and the root node changes |
| TestReport.AddCases | src/main/java/com/android/build/gradle/internal/test/report/TestReportExt.java:88-106 | Each test case is one more test and one more identity, and adds its duration |
| TestReport.AddIgnoredCases | src/main/java/com/android/build/gradle/internal/test/report/TestReportExt.java:107-113 | Each ignored case is one more test and one more identity, with no duration |
| TestReport.AppendOutputs | src/main/java/com/android/build/gradle/internal/test/report/TestReportExt.java:114-119 | The suite's class gets its standard output texts appended in document order. Nothing else in it changes. The root node, its package's node, the package's other classes and every other package are unchanged |
| TestReport.AppendErrors | src/main/java/com/android/build/gradle/internal/test/report/TestReportExt.java:120-123 | The same for the standard error texts |
| ReportProperties.AppendOutputsCallByCall | src/main/java/com/android/build/gradle/internal/test/report/TestReportExt.java:116-119 | The class's standard output after the loop is what one `addStandardOutput` call per text, in document order, leaves |
| ReportProperties.AppendErrorsCallByCall | src/main/java/com/android/build/gradle/internal/test/report/TestReportExt.java:120-123 | The same for the standard error texts and `addStandardError` |
| TestReport.SuiteTextAppended | src/main/java/com/android/build/gradle/internal/test/report/TestReportExt.java:114-123 | After a merge, the suite's class output and error text end with the document's texts in document order |
| TestReport.ResultFile.Path | src/main/java/com/android/build/gradle/internal/test/report/TestReportExt.java:51 | A listed file prints as the directory, the separator and its name, with no second separator after the root directory. The path starts with the directory and ends with the separator and the name |
| TestReport.MessageNamesFile | src/main/java/com/android/build/gradle/internal/test/report/TestReportExt.java:124-125 | The load error message determines the file it names |
| TestReport.MergeFromFile | src/main/java/com/android/build/gradle/internal/test/report/TestReportExt.java:63-133 | A file fails to merge exactly when it was not parsed, or has tests but no properties element. The error names the file by its path (`ResultFile.Path`). A merge adds every case and ignored case to the counts and durations |
| TestReport.LoadFrom | src/main/java/com/android/build/gradle/internal/test/report/TestReportExt.java:48-61 | Loading fails exactly when some listed result file is rejected, with the error of the first such file |
| TestReport.LoadModel | src/main/java/com/android/build/gradle/internal/test/report/TestReportExt.java:48-61 | Loading from an empty model fails exactly when some result file cannot be merged. The error names the first such file in listing order |
| ReportProperties.AddCaseOutcome | src/main/java/com/android/build/gradle/internal/test/report/TestReportExt.java:88-106 | A test case becomes one outcome of its class. It carries the name, duration, and the document's device, project and flavor. It has one failure per failure element, each with the screenshot. It is a failure exactly when it has failure elements |
| ReportProperties.AddIgnoredCaseOutcome | src/main/java/com/android/build/gradle/internal/test/report/TestReportExt.java:107-113 | An ignored case becomes one skipped outcome of duration 0 with the document's device, project and flavor |
| ReportProperties.MergeKeepsRootWf | src/main/java/com/android/build/gradle/internal/test/report/TestReportExt.java:63-133 | Merging a file keeps the tree well formed |
| ReportProperties.LoadedModelCountsOutcomes | src/main/java/com/android/build/gradle/internal/test/report/TestReportExt.java:48-61 | A loaded model is well formed. Its root counts exactly the outcomes and durations filed in it. Its failure set is exactly the outcomes with a reported failure |

## Left out

- HTML rendering is not modelled: the overview and class pages, tabs, breadcrumbs and the code panel. The class page keeps only its decisions: the row type, status classes, failure counts and headings.
- XML parsing, XPath, file listing and reading are not modelled. A file arrives parsed, or as unparseable.
- The `time` attribute is not parsed: a test case carries its duration in milliseconds already.
- The file listing order is an input, because the directory listing order is unspecified.
- The path separator is '/'. On a platform with another separator the load error's path would use that one instead.
- TestReport.ResultFile.Path: the directory is taken to be a normalised path, with no trailing separator unless it is the root, as a result directory's path is.
- Integer width is not modelled: the `int` test count and the `long` duration are unbounded.
- Strings are ordered by character, not by UTF-16 code unit. Case folding for the "main" flavor is ASCII only. The build tool's `MAIN` constant is taken to be "main".
- Outcome order uses an abstract identity in place of `System.identityHashCode`. A hash collision would make the result set and the failure and ignored sets drop an outcome that is still counted; distinct outcomes here always have distinct identities.
- The shared report base class is not part of this model, so a formatted duration is `DurationText.Millis`, not the printed text.
- The `ignoredTests` list of an outcome, which nothing reads, is not modelled.
- A rollup's parent is always null, so a rollup is a name and a tally; it is never given rollups of its own.
- The row type of the tests table is computed but not shown by the source, which leaves it as a to-do.
- The CSS class of a failure heading (`getStatusClass` of the base class) is not modelled.
- A missing property is taken as "" when a properties element exists. A document with no properties element but with tests fails to merge, because the null device makes the first insertion fail.
- A document with no properties element and no tests merges. Its null device, project and flavor are never used, and the model reads them as "".
- An exception raised part way through a merge can leave earlier records of that file in the tree. The model does not keep that partial state, since the load aborts with the error either way.
- The outcome of a test case is always found again (ReportProperties.AddCaseOutcome). So the lookup guard in `TestReport.AddCase` and `TestReport.AddIgnoredCase` never takes its other branch.
- TreeProperties.FailureReachesEveryLevel: stated for a failure reported with the outcome's own device, project and flavor, which loading always uses. With other values, only well-formedness is proved (TreeInvariants.AddFailureKeepsRootWf).
- TreeInvariants.AddTestKeepsRootWf: the invariant records that each class is filed under its own name in some package, but not that the package key is `PackageKeyOf` of the class name.
