/** One recorded test execution (`TestResultExt`): which test ran where, how
    long it took, the failures reported for it, and whether it was ignored. */
module TestResult {
  import opened Wrappers
  import opened Strings
  import opened ResultTypes
  import opened Composite

  /** One reported failure. The exception type is never filled in. */
  datatype TestFailure = TestFailure(message: string, stackTrace: string,
                                     exceptionType: Option<string>, screenshotPath: string)

  /** A test outcome. `className` is the name of the owning class node. The
      identity fields (everything but `failures` and `ignored`) are fixed
      when the outcome is created. */
  datatype Outcome = Outcome(id: OutcomeId, className: string, name: string, duration: nat,
                             device: string, project: string, flavor: string,
                             failures: seq<TestFailure>, ignored: bool)
  {
    /** `getTitle()` */
    function Title(): string { "Test " + name }

    /** `getResultType()`: skipped whenever ignored, even with failures;
        otherwise a failure exactly when a failure was reported. */
    function ResultType(): (r: ResultType)
      ensures r == Skipped <==> ignored
      ensures r == Failure <==> !ignored && |failures| > 0
      ensures r == Success <==> !ignored && |failures| == 0
    {
      if ignored then Skipped else if |failures| == 0 then Success else Failure
    }

    /** `getFormattedDuration()`: "-" for an ignored outcome. */
    function FormattedDuration(): (r: DurationText)
      ensures r == Dash <==> ignored
      ensures r != Dash ==> r.ms == duration
    {
      if ignored then Dash else Millis(duration)
    }
  }

  /** The outcome a class node creates in `addTest`. */
  function NewOutcome(id: OutcomeId, className: string, name: string, duration: nat,
                      device: string, project: string, flavor: string): (o: Outcome)
    ensures o.ResultType() == Success
  {
    Outcome(id, className, name, duration, device, project, flavor, [], false)
  }

  /** The two outcomes agree on everything fixed at construction. */
  predicate SameIdentity(a: Outcome, b: Outcome) {
    && a.id == b.id && a.className == b.className && a.name == b.name
    && a.duration == b.duration && a.device == b.device
    && a.project == b.project && a.flavor == b.flavor
  }

  /** The outcome side of `addFailure`: one more failure with no exception type. */
  function WithFailure(o: Outcome, message: string, stackTrace: string, screenshotPath: string): (r: Outcome)
    ensures SameIdentity(o, r) && r.ignored == o.ignored
    ensures |r.failures| == |o.failures| + 1
    ensures r.failures[..|o.failures|] == o.failures
    ensures r.failures[|o.failures|] == TestFailure(message, stackTrace, None, screenshotPath)
  {
    o.(failures := o.failures + [TestFailure(message, stackTrace, None, screenshotPath)])
  }

  /** The outcome side of `ignored()`. */
  function WithIgnored(o: Outcome): (r: Outcome)
    ensures SameIdentity(o, r) && r.failures == o.failures
    ensures r.ResultType() == Skipped
  {
    o.(ignored := true)
  }

  /** After `k` calls of `addFailure` with the same arguments the outcome
      keeps its earlier failures, followed by `k` copies of the new one, and,
      unless ignored, is a failure. */
  function AddFailures(o: Outcome, k: nat, message: string, stackTrace: string, screenshotPath: string): (r: Outcome)
    ensures SameIdentity(o, r) && r.ignored == o.ignored
    ensures |r.failures| == |o.failures| + k
    ensures r.failures[..|o.failures|] == o.failures
    ensures forall i :: |o.failures| <= i < |r.failures| ==>
              r.failures[i] == TestFailure(message, stackTrace, None, screenshotPath)
    ensures k > 0 && !o.ignored ==> r.ResultType() == Failure
    decreases k
  {
    if k == 0 then o
    else WithFailure(AddFailures(o, k - 1, message, stackTrace, screenshotPath), message, stackTrace, screenshotPath)
  }

  /** `compareTo(...) < 0`: by class name, test name, device and flavor, and
      finally by identity. The project is not compared. */
  predicate Precedes(a: Outcome, b: Outcome) {
    if a.className != b.className then Strings.Less(a.className, b.className)
    else if a.name != b.name then Strings.Less(a.name, b.name)
    else if a.device != b.device then Strings.Less(a.device, b.device)
    else if a.flavor != b.flavor then Strings.Less(a.flavor, b.flavor)
    else a.id < b.id
  }

  lemma PrecedesIrreflexive(a: Outcome)
    ensures !Precedes(a, a)
  {
  }

  lemma PrecedesTransitive(a: Outcome, b: Outcome, c: Outcome)
    requires Precedes(a, b) && Precedes(b, c)
    ensures Precedes(a, c)
  {
    if a.className != b.className || b.className != c.className {
      if a.className == b.className || b.className == c.className {
      } else {
        Strings.LessTransitive(a.className, b.className, c.className);
      }
      Strings.LessAsymmetric(a.className, c.className);
      if a.className == c.className { Strings.LessAsymmetric(a.className, b.className); }
    } else if a.name != b.name || b.name != c.name {
      if a.name != b.name && b.name != c.name {
        Strings.LessTransitive(a.name, b.name, c.name);
      }
      if a.name == c.name { Strings.LessAsymmetric(a.name, b.name); }
    } else if a.device != b.device || b.device != c.device {
      if a.device != b.device && b.device != c.device {
        Strings.LessTransitive(a.device, b.device, c.device);
      }
      if a.device == c.device { Strings.LessAsymmetric(a.device, b.device); }
    } else if a.flavor != b.flavor || b.flavor != c.flavor {
      if a.flavor != b.flavor && b.flavor != c.flavor {
        Strings.LessTransitive(a.flavor, b.flavor, c.flavor);
      }
      if a.flavor == c.flavor { Strings.LessAsymmetric(a.flavor, b.flavor); }
    }
  }

  /** Outcomes with different identities are always ordered one way or the other. */
  lemma PrecedesTotal(a: Outcome, b: Outcome)
    requires a.id != b.id
    ensures Precedes(a, b) || Precedes(b, a)
  {
    Strings.LessTotal(a.className, b.className);
    Strings.LessTotal(a.name, b.name);
    Strings.LessTotal(a.device, b.device);
    Strings.LessTotal(a.flavor, b.flavor);
  }

  /** Outcomes of the same test on the same device and flavor are ordered by
      identity alone, whatever their projects. */
  lemma PrecedesIgnoresProject(a: Outcome, b: Outcome)
    requires a.className == b.className && a.name == b.name
    requires a.device == b.device && a.flavor == b.flavor
    ensures Precedes(a, b) <==> a.id < b.id
  {
  }
}
