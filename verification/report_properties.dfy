/** What loading promises about the model it builds: every merged document
    leaves the tree well formed, so whatever was loaded counts exactly its
    outcomes; each test case becomes one outcome carrying its failures and
    screenshot; each ignored case becomes one skipped outcome. */
module ReportProperties {
  import opened Wrappers
  import opened Sums
  import opened ResultTypes
  import opened Composite
  import opened TestResult
  import opened AllResults
  import opened TreeInvariants
  import opened TreeProperties
  import opened TestReport
  import opened NodeInvariants
  import ClassResults

  /** Adding the failures of one outcome keeps the tree well formed. */
  lemma {:induction false} RecordFailuresKeepsRootWf(r: Root, className: string, id: OutcomeId,
                                                     failures: seq<FailureElement>, props: Properties,
                                                     screenshot: string)
    requires RootWf(r) && HasOutcome(r, className, id)
    ensures RootWf(RecordFailures(r, className, id, failures, props, screenshot))
    decreases |failures|
  {
    if |failures| > 0 {
      var f := failures[0];
      AddFailureKeepsRootWf(r, className, id, f.message, f.text, props.device, props.project, props.flavor, screenshot);
      var r1 := AddFailure(r, className, id, f.message, f.text, props.device, props.project, props.flavor, screenshot);
      RecordFailuresKeepsRootWf(r1, className, id, failures[1..], props, screenshot);
    }
  }

  /** However many failures one outcome gets from a document, its class,
      its package and the root each record the failure once, as a single
      `addFailure` with the document's device and variant would, and
      nothing outside that class, package node and root node changes. */
  lemma {:induction false} RecordFailuresMarksOnce(r: Root, className: string, id: OutcomeId,
                                                   failures: seq<FailureElement>, props: Properties,
                                                   screenshot: string)
    requires HasOutcome(r, className, id)
    ensures var res := RecordFailures(r, className, id, failures, props, screenshot);
            SameElsewhere(r, res, className)
    ensures var res, key := RecordFailures(r, className, id, failures, props, screenshot), PackageKeyOf(className);
            |failures| > 0 ==>
              && res.node == MarkFailed(r.node, id, props.device, props.project, props.flavor)
              && res.packages[key].node == MarkFailed(r.packages[key].node, id, props.device, props.project, props.flavor)
              && ClassOf(res, className).node
                 == MarkFailed(ClassOf(r, className).node, id, props.device, props.project, props.flavor)
    decreases |failures|
  {
    if |failures| > 0 {
      var f := failures[0];
      var r1 := AddFailure(r, className, id, f.message, f.text, props.device, props.project, props.flavor, screenshot);
      RecordFailuresMarksOnce(r1, className, id, failures[1..], props, screenshot);
      if |failures| > 1 {
        var key := PackageKeyOf(className);
        MarkFailedIdempotent(r.node, id, props.device, props.project, props.flavor);
        MarkFailedIdempotent(r.packages[key].node, id, props.device, props.project, props.flavor);
        MarkFailedIdempotent(ClassOf(r, className).node, id, props.device, props.project, props.flavor);
      }
    }
  }

  /** The suite's `system-out` texts, appended one `addStandardOutput` call
      at a time, follow the class's earlier output in document order. */
  lemma AppendOutputsCallByCall(r: Root, className: string, texts: seq<string>)
    requires HasClass(r, className)
    ensures ClassOf(AppendOutputs(r, className, texts), className).stdout
            == ClassResults.AppendAll(ClassOf(r, className).stdout, texts)
  {
    ClassResults.AppendAllIsConcat(ClassOf(r, className).stdout, texts);
  }

  /** The same for `system-err` and `addStandardError`. */
  lemma AppendErrorsCallByCall(r: Root, className: string, texts: seq<string>)
    requires HasClass(r, className)
    ensures ClassOf(AppendErrors(r, className, texts), className).stderr
            == ClassResults.AppendAll(ClassOf(r, className).stderr, texts)
  {
    ClassResults.AppendAllIsConcat(ClassOf(r, className).stderr, texts);
  }

  /** One test case keeps the tree well formed. */
  lemma AddCaseKeepsRootWf(r: Root, c: TestCase, props: Properties, shots: map<string, string>)
    requires RootWf(r)
    ensures RootWf(AddCase(r, c, props, shots))
  {
    AddTestKeepsRootWf(r, c.className, c.name, c.duration, props.device, props.project, props.flavor);
    AddTestIsFound(r, c.className, c.name, c.duration, props.device, props.project, props.flavor);
    var r1 := AllResults.AddTest(r, c.className, c.name, c.duration, props.device, props.project, props.flavor).0;
    RecordFailuresKeepsRootWf(r1, c.className, r.nextId, c.failures, props, ScreenshotFor(shots, c.className, c.name));
  }

  /** A test case becomes one new outcome of its class, with the properties of
      the document, one stored failure per failure element (each with the
      test's screenshot), and a failure result exactly when it has failure
      elements. */
  lemma AddCaseOutcome(r: Root, c: TestCase, props: Properties, shots: map<string, string>)
    requires RootWf(r)
    ensures var res := AddCase(r, c, props, shots);
            && HasOutcome(res, c.className, r.nextId)
            && var o := OutcomeOf(res, c.className, r.nextId);
            && o.className == c.className && o.name == c.name && o.duration == c.duration
            && o.device == props.device && o.project == props.project && o.flavor == props.flavor
            && |o.failures| == |c.failures|
            && (forall j :: 0 <= j < |c.failures| ==>
                  o.failures[j] == Stored(c.failures[j], ScreenshotFor(shots, c.className, c.name)))
            && (o.ResultType() == Failure <==> |c.failures| > 0)
  {
    AddTestIsFound(r, c.className, c.name, c.duration, props.device, props.project, props.flavor);
  }

  /** All test cases keep the tree well formed. */
  lemma {:induction false} AddCasesKeepRootWf(r: Root, cases: seq<TestCase>, props: Properties,
                                              shots: map<string, string>)
    requires RootWf(r)
    ensures RootWf(AddCases(r, cases, props, shots))
    decreases |cases|
  {
    if |cases| > 0 {
      AddCaseKeepsRootWf(r, cases[0], props, shots);
      AddCasesKeepRootWf(AddCase(r, cases[0], props, shots), cases[1..], props, shots);
    }
  }

  /** One ignored case keeps the tree well formed. */
  lemma AddIgnoredCaseKeepsRootWf(r: Root, c: IgnoredCase, props: Properties)
    requires RootWf(r)
    ensures RootWf(AddIgnoredCase(r, c, props))
  {
    AddTestKeepsRootWf(r, c.className, c.name, 0, props.device, props.project, props.flavor);
    AddTestIsFound(r, c.className, c.name, 0, props.device, props.project, props.flavor);
    var r1 := AllResults.AddTest(r, c.className, c.name, 0, props.device, props.project, props.flavor).0;
    IgnoreKeepsRootWf(r1, c.className, r.nextId);
  }

  /** An ignored case becomes one new skipped outcome of duration 0. */
  lemma AddIgnoredCaseOutcome(r: Root, c: IgnoredCase, props: Properties)
    requires RootWf(r)
    ensures var res := AddIgnoredCase(r, c, props);
            && HasOutcome(res, c.className, r.nextId)
            && var o := OutcomeOf(res, c.className, r.nextId);
            && o.className == c.className && o.name == c.name && o.duration == 0
            && o.device == props.device && o.project == props.project && o.flavor == props.flavor
            && o.ResultType() == Skipped
  {
    AddTestIsFound(r, c.className, c.name, 0, props.device, props.project, props.flavor);
  }

  /** All ignored cases keep the tree well formed. */
  lemma {:induction false} AddIgnoredCasesKeepRootWf(r: Root, ignored: seq<IgnoredCase>, props: Properties)
    requires RootWf(r)
    ensures RootWf(AddIgnoredCases(r, ignored, props))
    decreases |ignored|
  {
    if |ignored| > 0 {
      AddIgnoredCaseKeepsRootWf(r, ignored[0], props);
      AddIgnoredCasesKeepRootWf(AddIgnoredCase(r, ignored[0], props), ignored[1..], props);
    }
  }

  lemma {:induction false} AppendOutputsKeepRootWf(r: Root, className: string, texts: seq<string>)
    requires RootWf(r) && HasClass(r, className)
    ensures RootWf(AppendOutputs(r, className, texts))
    decreases |texts|
  {
    if |texts| > 0 {
      AddStandardOutputKeepsRootWf(r, className, texts[0]);
      AppendOutputsKeepRootWf(AllResults.AddStandardOutput(r, className, texts[0]), className, texts[1..]);
    }
  }

  lemma {:induction false} AppendErrorsKeepRootWf(r: Root, className: string, texts: seq<string>)
    requires RootWf(r) && HasClass(r, className)
    ensures RootWf(AppendErrors(r, className, texts))
    decreases |texts|
  {
    if |texts| > 0 {
      AddStandardErrorKeepsRootWf(r, className, texts[0]);
      AppendErrorsKeepRootWf(AllResults.AddStandardError(r, className, texts[0]), className, texts[1..]);
    }
  }

  /** Merging a document keeps the tree well formed. */
  lemma MergeDocumentKeepsRootWf(r: Root, d: Document, props: Properties, shots: map<string, string>)
    requires RootWf(r)
    ensures RootWf(MergeDocument(r, d, props, shots))
  {
    var r1 := AddCases(r, d.cases, props, shots);
    AddCasesKeepRootWf(r, d.cases, props, shots);
    var r2 := AddIgnoredCases(r1, d.ignored, props);
    AddIgnoredCasesKeepRootWf(r1, d.ignored, props);
    var r3 := AddTestClass(r2, d.suiteName).0;
    AddTestClassKeepsRootWf(r2, d.suiteName);
    assert HasClass(r3, d.suiteName);
    var r4 := AppendOutputs(r3, d.suiteName, d.stdout);
    AppendOutputsKeepRootWf(r3, d.suiteName, d.stdout);
    AppendErrorsKeepRootWf(r4, d.suiteName, d.stderr);
  }

  /** Merging a file that loads keeps the tree well formed. */
  lemma MergeKeepsRootWf(r: Root, file: ResultFile, shots: map<string, string>)
    requires RootWf(r)
    ensures var res := MergeFromFile(r, file, shots);
            res.Ok? ==> RootWf(res.value)
  {
    if file.document.Some? {
      var d := file.document.value;
      var found := ReadProperties(None, d.properties);
      var props := if found.Some? then found.value else Properties("", "", "");
      MergeDocumentKeepsRootWf(r, d, props, shots);
    }
  }

  lemma {:induction false} LoadFromKeepsRootWf(r: Root, files: seq<ResultFile>, shots: map<string, string>)
    requires RootWf(r)
    ensures var res := LoadFrom(r, files, shots);
            res.Ok? ==> RootWf(res.value)
    decreases |files|
  {
    if |files| > 0 && IsResultFileName(files[0].name) {
      MergeKeepsRootWf(r, files[0], shots);
      match MergeFromFile(r, files[0], shots)
      case Err(_) =>
      case Ok(r1) => LoadFromKeepsRootWf(r1, files[1..], shots);
    } else if |files| > 0 {
      LoadFromKeepsRootWf(r, files[1..], shots);
    }
  }

  /** A loaded model is well formed, so its root counts exactly the outcomes
      of its classes, and its failure set is exactly the failed outcomes. */
  lemma LoadedModelCountsOutcomes(files: seq<ResultFile>, shots: map<string, string>)
    ensures var res := LoadModel(files, shots);
            res.Ok? ==>
              && RootWf(res.value)
              && res.value.node.tally.tests == SumOf(res.value.packages, PackageOutcomes)
              && res.value.node.tally.duration == SumOf(res.value.packages, PackageOutcomeDuration)
              && forall id :: id in res.value.node.tally.failures <==> FailedInTree(res.value, id)
  {
    EmptyRootWf();
    LoadFromKeepsRootWf(EmptyRoot, files, shots);
    var res := LoadModel(files, shots);
    if res.Ok? {
      RootCountsOutcomes(res.value);
      forall id ensures id in res.value.node.tally.failures <==> FailedInTree(res.value, id) {
        RootSetsAreOutcomeSets(res.value, id);
      }
    }
  }
}
