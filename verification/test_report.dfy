/** Loading the report model from result files (`TestReportExt`): which
    files are read, and how the records of one parsed document are merged
    into the tree. Parsing itself is not modelled: a file arrives either as
    an already-parsed document or as one that could not be parsed. */
module TestReport {
  import opened Wrappers
  import opened Strings
  import opened Composite
  import opened TestResult
  import opened ClassResults
  import opened AllResults

  const ResultPrefix := "TEST-"
  const ResultSuffix := ".xml"

  /** Only files named `TEST-*.xml` are merged. */
  predicate IsResultFileName(name: string) {
    StartsWith(name, ResultPrefix) && EndsWith(name, ResultSuffix)
  }

  /** A result file name is the prefix, any stem, and the suffix; the prefix
      and the suffix never overlap. */
  lemma ResultFileNameShape(name: string)
    ensures IsResultFileName(name) <==> exists stem :: name == ResultPrefix + stem + ResultSuffix
  {
    if IsResultFileName(name) {
      assert name[4] == '-';
      assert |name| >= 9;
      var stem := name[5..|name| - 4];
      assert name == ResultPrefix + stem + ResultSuffix;
    }
    if exists stem :: name == ResultPrefix + stem + ResultSuffix {
      var stem :| name == ResultPrefix + stem + ResultSuffix;
      assert name[..5] == ResultPrefix;
      assert name[|name| - 4..] == ResultSuffix;
    }
  }

  /** The key of a test's screenshot: class name, '#', test name. */
  function ScreenshotKey(className: string, testName: string): string {
    className + "#" + testName
  }

  /** Class names hold no '#', so the key names one test. */
  lemma ScreenshotKeyInjective(c1: string, t1: string, c2: string, t2: string)
    requires '#' !in c1 && '#' !in c2
    requires ScreenshotKey(c1, t1) == ScreenshotKey(c2, t2)
    ensures c1 == c2 && t1 == t2
  {
    SplitAtFirst(c1, '#', t1, c2, t2);
  }

  /** `getScreenshotByClass`: the screenshot path of a test, or "" when there is none. */
  function ScreenshotFor(shots: map<string, string>, className: string, testName: string): (path: string)
    ensures ScreenshotKey(className, testName) in shots ==> path == shots[ScreenshotKey(className, testName)]
    ensures ScreenshotKey(className, testName) !in shots ==> path == ""
  {
    var key := ScreenshotKey(className, testName);
    if key in shots then shots[key] else ""
  }

  /** The values of one `properties` element; a missing property reads as "". */
  datatype Properties = Properties(device: string, project: string, flavor: string)

  /** A `failure` element: its message attribute and its text. */
  datatype FailureElement = FailureElement(message: string, text: string)

  /** A `testcase` element, with its duration already converted to milliseconds. */
  datatype TestCase = TestCase(className: string, name: string, duration: nat, failures: seq<FailureElement>)

  /** An `ignored-testcase` element. */
  datatype IgnoredCase = IgnoredCase(className: string, name: string)

  /** The records of one parsed result document, each kind in document order. */
  datatype Document = Document(suiteName: string, properties: seq<Properties>, cases: seq<TestCase>,
                               ignored: seq<IgnoredCase>, stdout: seq<string>, stderr: seq<string>)

  /** The separator of the components of a file path. */
  const Separator: char := '/'

  /** A listed file: the directory it was listed from, its name, and its
      document unless it could not be parsed. */
  datatype ResultFile = ResultFile(dir: string, name: string, document: Option<Document>)
  {
    /** The listed `File` as it prints itself: the directory, the separator
        and the name, with no second separator after the root directory. */
    function Path(): (r: string)
      ensures StartsWith(r, dir) && EndsWith(r, [Separator] + name)
      ensures |r| == |dir| + |name| + (if dir == [Separator] then 0 else 1)
    {
      if dir == [Separator] then
        assert ([Separator] + name)[..|dir|] == dir;
        [Separator] + name
      else
        var r := dir + [Separator] + name;
        assert r[..|dir|] == dir;
        assert r[|r| - |[Separator] + name|..] == [Separator] + name;
        r
    }
  }

  /** The loop over `properties` elements: each one overwrites what the
      previous one set, so the last one wins. */
  function ReadProperties(current: Option<Properties>, props: seq<Properties>): (r: Option<Properties>)
    ensures |props| == 0 ==> r == current
    ensures |props| > 0 ==> r == Some(props[|props| - 1])
    decreases |props|
  {
    if |props| == 0 then current else ReadProperties(Some(props[0]), props[1..])
  }

  /** `addFailure` once per failure element, all on the same outcome. */
  function RecordFailures(r: Root, className: string, id: OutcomeId, failures: seq<FailureElement>,
                          props: Properties, screenshot: string): (res: Root)
    requires HasOutcome(r, className, id)
    ensures HasOutcome(res, className, id)
    ensures var before, after := OutcomeOf(r, className, id), OutcomeOf(res, className, id);
            && SameIdentity(before, after) && after.ignored == before.ignored
            && FailuresAppended(before.failures, after.failures, failures, screenshot)
    ensures res.nextId == r.nextId
    ensures res.node.tally.tests == r.node.tally.tests && res.node.tally.duration == r.node.tally.duration
    decreases |failures|
  {
    if |failures| == 0 then r
    else
      var f := failures[0];
      var r1 := AddFailure(r, className, id, f.message, f.text, props.device, props.project, props.flavor, screenshot);
      var res := RecordFailures(r1, className, id, failures[1..], props, screenshot);
      FailuresShift(OutcomeOf(r, className, id).failures, OutcomeOf(r1, className, id).failures,
                    OutcomeOf(res, className, id).failures, failures, screenshot);
      res
  }

  /** The failure elements as the outcome stores them. */
  function Stored(f: FailureElement, screenshot: string): TestFailure {
    TestFailure(f.message, f.text, None, screenshot)
  }

  /** `after` is `before` followed by the failure elements as stored. */
  ghost predicate FailuresAppended(before: seq<TestFailure>, after: seq<TestFailure>,
                                   failures: seq<FailureElement>, screenshot: string) {
    && |after| == |before| + |failures| && after[..|before|] == before
    && forall j :: 0 <= j < |failures| ==> after[|before| + j] == Stored(failures[j], screenshot)
  }

  /** The list bookkeeping of one step of `RecordFailures`. */
  lemma FailuresShift(before: seq<TestFailure>, mid: seq<TestFailure>, after: seq<TestFailure>,
                      failures: seq<FailureElement>, screenshot: string)
    requires |failures| > 0
    requires mid == before + [Stored(failures[0], screenshot)]
    requires FailuresAppended(mid, after, failures[1..], screenshot)
    ensures FailuresAppended(before, after, failures, screenshot)
  {
    assert after[..|before|] == mid[..|before|];
    forall j | 0 <= j < |failures| ensures after[|before| + j] == Stored(failures[j], screenshot) {
      if j == 0 {
        assert after[|before|] == mid[|before|];
      } else {
        assert failures[1..][j - 1] == failures[j];
      }
    }
  }

  /** One `testcase`: a new outcome, then its failures. The outcome was just
      added to the class named in the record, so it is always found there
      (`TreeProperties.AddTestIsFound`); the test only spares callers a
      precondition. */
  function AddCase(r: Root, c: TestCase, props: Properties, shots: map<string, string>): (res: Root)
    ensures res.nextId == r.nextId + 1
    ensures res.node.tally.tests == r.node.tally.tests + 1
    ensures res.node.tally.duration == r.node.tally.duration + c.duration
  {
    var (r1, o) := AllResults.AddTest(r, c.className, c.name, c.duration, props.device, props.project, props.flavor);
    if HasOutcome(r1, c.className, o.id) then
      RecordFailures(r1, c.className, o.id, c.failures, props, ScreenshotFor(shots, c.className, c.name))
    else r1
  }

  /** The summed durations of test cases. */
  function CaseDurations(cases: seq<TestCase>): nat
    decreases |cases|
  {
    if |cases| == 0 then 0 else cases[0].duration + CaseDurations(cases[1..])
  }

  /** All `testcase` records in document order. */
  function AddCases(r: Root, cases: seq<TestCase>, props: Properties, shots: map<string, string>): (res: Root)
    ensures res.nextId == r.nextId + |cases|
    ensures res.node.tally.tests == r.node.tally.tests + |cases|
    ensures res.node.tally.duration == r.node.tally.duration + CaseDurations(cases)
    decreases |cases|
  {
    if |cases| == 0 then r else AddCases(AddCase(r, cases[0], props, shots), cases[1..], props, shots)
  }

  /** One `ignored-testcase`: a new outcome of duration 0, then `ignored()`. */
  function AddIgnoredCase(r: Root, c: IgnoredCase, props: Properties): (res: Root)
    ensures res.nextId == r.nextId + 1
    ensures res.node.tally.tests == r.node.tally.tests + 1
    ensures res.node.tally.duration == r.node.tally.duration
  {
    var (r1, o) := AllResults.AddTest(r, c.className, c.name, 0, props.device, props.project, props.flavor);
    if HasOutcome(r1, c.className, o.id) then Ignore(r1, c.className, o.id) else r1
  }

  /** All `ignored-testcase` records in document order. */
  function AddIgnoredCases(r: Root, ignored: seq<IgnoredCase>, props: Properties): (res: Root)
    ensures res.nextId == r.nextId + |ignored|
    ensures res.node.tally.tests == r.node.tally.tests + |ignored|
    ensures res.node.tally.duration == r.node.tally.duration
    decreases |ignored|
  {
    if |ignored| == 0 then r else AddIgnoredCases(AddIgnoredCase(r, ignored[0], props), ignored[1..], props)
  }

  /** Every `system-out` text appended to the suite's class in document order. */
  function AppendOutputs(r: Root, className: string, texts: seq<string>): (res: Root)
    requires HasClass(r, className)
    ensures HasClass(res, className)
    ensures ClassOf(res, className) == ClassOf(r, className).(stdout := ClassOf(r, className).stdout + Concat(texts))
    ensures res.node == r.node && res.nextId == r.nextId
    ensures SameElsewhere(r, res, className)
    ensures var key := PackageKeyOf(className); res.packages[key].node == r.packages[key].node
    decreases |texts|
  {
    if |texts| == 0 then r
    else
      ConcatFront(texts);
      AppendOutputs(AllResults.AddStandardOutput(r, className, texts[0]), className, texts[1..])
  }

  /** Every `system-err` text appended to the suite's class in document order. */
  function AppendErrors(r: Root, className: string, texts: seq<string>): (res: Root)
    requires HasClass(r, className)
    ensures HasClass(res, className)
    ensures ClassOf(res, className) == ClassOf(r, className).(stderr := ClassOf(r, className).stderr + Concat(texts))
    ensures res.node == r.node && res.nextId == r.nextId
    ensures SameElsewhere(r, res, className)
    ensures var key := PackageKeyOf(className); res.packages[key].node == r.packages[key].node
    decreases |texts|
  {
    if |texts| == 0 then r
    else
      ConcatFront(texts);
      AppendErrors(AllResults.AddStandardError(r, className, texts[0]), className, texts[1..])
  }

  /** The error that aborts loading: the file that could not be loaded. */
  datatype LoadError = CouldNotLoad(file: string)
  {
    /** The text of the error. */
    function Message(): string {
      "Could not load test results from '" + file + "'."
    }
  }

  /** The file can be recovered from the message. */
  lemma MessageNamesFile(a: LoadError, b: LoadError)
    requires a.Message() == b.Message()
    ensures a == b
  {
    var head := "Could not load test results from '";
    assert a.Message() == head + (a.file + "'.");
    assert b.Message() == head + (b.file + "'.");
    assert a.file + "'." == a.Message()[|head|..] == b.file + "'.";
    assert a.file == (a.file + "'.")[..|a.file|];
    assert b.file == (b.file + "'.")[..|b.file|];
  }

  /** Without a `properties` element the device, project and flavor stay
      null, and adding the first test with a null device fails. A document
      can therefore be merged when it has properties or adds no test. */
  predicate Loadable(d: Document) {
    |d.properties| > 0 || (|d.cases| == 0 && |d.ignored| == 0)
  }

  /** The records of a loadable document merged in `mergeFromFile` order:
      test cases, then ignored cases, then the suite's class and its console
      texts. */
  function MergeDocument(r: Root, d: Document, props: Properties, shots: map<string, string>): (res: Root)
    ensures res.nextId == r.nextId + |d.cases| + |d.ignored|
    ensures res.node.tally.tests == r.node.tally.tests + |d.cases| + |d.ignored|
    ensures res.node.tally.duration == r.node.tally.duration + CaseDurations(d.cases)
    ensures HasClass(res, d.suiteName)
  {
    var r1 := AddCases(r, d.cases, props, shots);
    var r2 := AddIgnoredCases(r1, d.ignored, props);
    var r3 := AddTestClass(r2, d.suiteName).0;
    assert HasClass(r3, d.suiteName);
    AppendErrors(AppendOutputs(r3, d.suiteName, d.stdout), d.suiteName, d.stderr)
  }

  /** The suite's console texts end up, in document order, at the end of
      its class's captured output and error text. */
  lemma SuiteTextAppended(r: Root, d: Document, props: Properties, shots: map<string, string>)
    ensures var res := MergeDocument(r, d, props, shots);
            && EndsWith(ClassOf(res, d.suiteName).stdout, Concat(d.stdout))
            && EndsWith(ClassOf(res, d.suiteName).stderr, Concat(d.stderr))
  {
    var r3 := AddTestClass(AddIgnoredCases(AddCases(r, d.cases, props, shots), d.ignored, props), d.suiteName).0;
    assert HasClass(r3, d.suiteName);
    var r4 := AppendOutputs(r3, d.suiteName, d.stdout);
    var r5 := AppendErrors(r4, d.suiteName, d.stderr);
    assert MergeDocument(r, d, props, shots) == r5;
    EndsWithAppended(ClassOf(r3, d.suiteName).stdout, Concat(d.stdout));
    EndsWithAppended(ClassOf(r4, d.suiteName).stderr, Concat(d.stderr));
  }

  lemma EndsWithAppended(a: string, b: string)
    ensures EndsWith(a + b, b)
  {
    assert (a + b)[|a|..] == b;
  }

  /** `mergeFromFile`: the properties are read, then the document's records
      merged. Any failure is reported as one error naming the file. */
  function MergeFromFile(r: Root, file: ResultFile, shots: map<string, string>): (res: Result<Root, LoadError>)
    ensures res.Err? <==> file.document.None? || !Loadable(file.document.value)
    ensures res.Err? ==> res.error == CouldNotLoad(file.Path())
    ensures res.Ok? ==>
              var d := file.document.value;
              && res.value.nextId == r.nextId + |d.cases| + |d.ignored|
              && res.value.node.tally.tests == r.node.tally.tests + |d.cases| + |d.ignored|
              && res.value.node.tally.duration == r.node.tally.duration + CaseDurations(d.cases)
  {
    match file.document
    case None => Err(CouldNotLoad(file.Path()))
    case Some(d) =>
      var found := ReadProperties(None, d.properties);
      if found.None? && (|d.cases| > 0 || |d.ignored| > 0) then Err(CouldNotLoad(file.Path()))
      else
        var props := if found.Some? then found.value else Properties("", "", "");
        Ok(MergeDocument(r, d, props, shots))
  }

  /** An unparseable `TEST-a.xml` listed from `build/results` is reported by
      its path. */
  lemma UnparseableFileNamedByPath()
    ensures MergeFromFile(EmptyRoot, ResultFile("build/results", "TEST-a.xml", None), map[])
            == Err(CouldNotLoad("build/results/TEST-a.xml"))
  {
    assert ResultFile("build/results", "TEST-a.xml", None).Path() == "build/results/TEST-a.xml";
  }

  /** A file listed from the root directory prints with one separator. */
  lemma RootFileNamedOnce()
    ensures ResultFile("/", "TEST-a.xml", None).Path() == "/TEST-a.xml"
  {
  }

  /** A listed file that stops loading: a result file that cannot be merged. */
  predicate Rejected(file: ResultFile) {
    IsResultFileName(file.name) && (file.document.None? || !Loadable(file.document.value))
  }

  /** The position of the first rejected file, or -1. */
  function FirstRejected(files: seq<ResultFile>): (i: int)
    ensures -1 <= i < |files|
    ensures i >= 0 ==> Rejected(files[i]) && forall j :: 0 <= j < i ==> !Rejected(files[j])
    ensures i == -1 ==> forall j :: 0 <= j < |files| ==> !Rejected(files[j])
    decreases |files|
  {
    if |files| == 0 then -1
    else if Rejected(files[0]) then 0
    else
      var i := FirstRejected(files[1..]);
      if i == -1 then -1 else i + 1
  }

  /** `loadModel` from state `r` on: result files are merged in listing
      order, other files are skipped, and the first file that cannot be
      merged aborts loading with its error. */
  function LoadFrom(r: Root, files: seq<ResultFile>, shots: map<string, string>): (res: Result<Root, LoadError>)
    ensures res.Err? <==> FirstRejected(files) >= 0
    ensures res.Err? ==> res.error == CouldNotLoad(files[FirstRejected(files)].Path())
    decreases |files|
  {
    if |files| == 0 then Ok(r)
    else if !IsResultFileName(files[0].name) then LoadFrom(r, files[1..], shots)
    else
      match MergeFromFile(r, files[0], shots)
      case Err(e) => Err(e)
      case Ok(r1) => LoadFrom(r1, files[1..], shots)
  }

  /** `loadModel`: an empty model, then every listed file. A missing or
      unreadable result directory lists no files. */
  function LoadModel(files: seq<ResultFile>, shots: map<string, string>): (res: Result<Root, LoadError>)
    ensures res.Err? <==> exists i :: 0 <= i < |files| && Rejected(files[i])
    ensures res.Err? ==> exists i :: && 0 <= i < |files| && Rejected(files[i])
                                     && res.error == CouldNotLoad(files[i].Path())
                                     && forall j :: 0 <= j < i ==> !Rejected(files[j])
  {
    LoadFrom(EmptyRoot, files, shots)
  }

  /** A file that is not a result file changes nothing wherever it is listed. */
  lemma {:induction false} OtherFilesIgnored(r: Root, before: seq<ResultFile>, f: ResultFile,
                                             after: seq<ResultFile>, shots: map<string, string>)
    requires !IsResultFileName(f.name)
    ensures LoadFrom(r, before + [f] + after, shots) == LoadFrom(r, before + after, shots)
    decreases |before|
  {
    if |before| == 0 {
      assert before + [f] + after == [f] + after;
      assert ([f] + after)[1..] == after;
      assert before + after == after;
    } else {
      var files, files' := before + [f] + after, before + after;
      assert files[0] == files'[0] == before[0];
      assert files[1..] == before[1..] + [f] + after;
      assert files'[1..] == before[1..] + after;
      if IsResultFileName(before[0].name) {
        match MergeFromFile(r, before[0], shots)
        case Err(e) =>
        case Ok(r1) => OtherFilesIgnored(r1, before[1..], f, after, shots);
      } else {
        OtherFilesIgnored(r, before[1..], f, after, shots);
      }
    }
  }
}
