/** What a well-formed report tree promises its readers: every count is a
    count of outcomes, a failure or an ignore reaches every level it should,
    reporting it again changes no count, and a new outcome can be found
    again by its identity. */
module TreeProperties {
  import opened Sums
  import opened Composite
  import opened TestResult
  import opened ClassResults
  import opened PackageResults
  import opened AllResults
  import opened NodeInvariants
  import opened ClassInvariants
  import opened TreeInvariants

  // ---------------------------------------------------------------------
  // Counts are counts of outcomes

  function OutcomeCount(c: ClassNode): nat { |c.results| }
  function OutcomeDuration(c: ClassNode): nat { TotalDuration(c.results) }
  ghost function PackageOutcomes(p: PackageNode): nat { SumOf(p.classes, OutcomeCount) }
  ghost function PackageOutcomeDuration(p: PackageNode): nat { SumOf(p.classes, OutcomeDuration) }

  /** A package counts exactly the outcomes of its classes and their durations. */
  lemma PackageCountsOutcomes(p: PackageNode, n: Node, bound: nat)
    requires Held(p, n, bound)
    ensures PackageTests(p) == PackageOutcomes(p)
    ensures PackageDuration(p) == PackageOutcomeDuration(p)
  {
    forall k | k in p.classes
      ensures ClassTests(p.classes[k]) == OutcomeCount(p.classes[k])
      ensures ClassDuration(p.classes[k]) == OutcomeDuration(p.classes[k])
    {
      assert Filed(k, p.classes[k], p.node, bound);
    }
    SumOfAgree(p.classes, ClassTests, OutcomeCount);
    SumOfAgree(p.classes, ClassDuration, OutcomeDuration);
  }

  /** The root counts exactly the outcomes filed anywhere in the tree, and
      its duration is theirs summed. */
  lemma RootCountsOutcomes(r: Root)
    requires RootWf(r)
    ensures r.node.tally.tests == SumOf(r.packages, PackageOutcomes)
    ensures r.node.tally.duration == SumOf(r.packages, PackageOutcomeDuration)
  {
    forall key | key in r.packages
      ensures PackageTests(r.packages[key]) == PackageOutcomes(r.packages[key])
      ensures PackageDuration(r.packages[key]) == PackageOutcomeDuration(r.packages[key])
    {
      PackageCountsOutcomes(r.packages[key], r.node, r.nextId);
    }
    SumOfAgree(r.packages, PackageTests, PackageOutcomes);
    SumOfAgree(r.packages, PackageDuration, PackageOutcomeDuration);
  }

  /** Some outcome filed in the tree has identity `id` and a reported failure. */
  ghost predicate FailedInTree(r: Root, id: OutcomeId) {
    exists key :: key in r.packages && FailedInPackage(r.packages[key], id)
  }

  ghost predicate FailedInPackage(p: PackageNode, id: OutcomeId) {
    exists k :: k in p.classes && id in FailedIds(p.classes[k].results)
  }

  /** Some outcome filed in the tree has identity `id` and is ignored. */
  ghost predicate IgnoredInTree(r: Root, id: OutcomeId) {
    exists key :: key in r.packages && IgnoredInPackage(r.packages[key], id)
  }

  ghost predicate IgnoredInPackage(p: PackageNode, id: OutcomeId) {
    exists k :: k in p.classes && id in IgnoredIds(p.classes[k].results)
  }

  /** Every class's sets are those of its outcomes. */
  ghost predicate ClassSetsExact(p: PackageNode) {
    forall k :: k in p.classes ==>
      ClassFailures(p.classes[k]) == FailedIds(p.classes[k].results) &&
      ClassIgnored(p.classes[k]) == IgnoredIds(p.classes[k].results)
  }

  lemma HeldSetsExact(p: PackageNode, n: Node, bound: nat)
    requires Held(p, n, bound)
    ensures ClassSetsExact(p) && ClassSets(p.node.tally, p.classes)
  {
    forall k | k in p.classes
      ensures ClassFailures(p.classes[k]) == FailedIds(p.classes[k].results)
      ensures ClassIgnored(p.classes[k]) == IgnoredIds(p.classes[k].results)
    {
      assert Filed(k, p.classes[k], p.node, bound);
    }
  }

  lemma PackageFailuresExact(p: PackageNode, id: OutcomeId)
    requires ClassSetsExact(p) && ClassSets(p.node.tally, p.classes)
    ensures id in PackageFailures(p) <==> FailedInPackage(p, id)
    ensures id in PackageIgnored(p) <==> IgnoredInPackage(p, id)
  {
    if id in PackageFailures(p) {
      var k :| k in p.classes && id in ClassFailures(p.classes[k]);
    }
    if FailedInPackage(p, id) {
      var k :| k in p.classes && id in FailedIds(p.classes[k].results);
      assert id in ClassFailures(p.classes[k]);
    }
    if id in PackageIgnored(p) {
      var k :| k in p.classes && id in ClassIgnored(p.classes[k]);
    }
    if IgnoredInPackage(p, id) {
      var k :| k in p.classes && id in IgnoredIds(p.classes[k].results);
      assert id in ClassIgnored(p.classes[k]);
    }
  }

  /** Every package's sets are those of its classes, which are those of their outcomes. */
  ghost predicate PackagesExact(packages: map<string, PackageNode>) {
    forall key :: key in packages ==>
      ClassSetsExact(packages[key]) && ClassSets(packages[key].node.tally, packages[key].classes)
  }

  lemma RootWfExact(r: Root)
    requires RootWf(r)
    ensures PackagesExact(r.packages) && PackageSets(r.node.tally, r.packages)
  {
    forall key | key in r.packages
      ensures ClassSetsExact(r.packages[key]) && ClassSets(r.packages[key].node.tally, r.packages[key].classes)
    {
      assert Held(r.packages[key], r.node, r.nextId);
      HeldSetsExact(r.packages[key], r.node, r.nextId);
    }
  }

  lemma SetsAreOutcomeSets(r: Root, id: OutcomeId)
    requires PackagesExact(r.packages) && PackageSets(r.node.tally, r.packages)
    ensures id in r.node.tally.failures <==> FailedInTree(r, id)
    ensures id in r.node.tally.ignored <==> IgnoredInTree(r, id)
  {
    if id in r.node.tally.failures {
      var key :| key in r.packages && id in PackageFailures(r.packages[key]);
      PackageFailuresExact(r.packages[key], id);
    }
    if FailedInTree(r, id) {
      var key :| key in r.packages && FailedInPackage(r.packages[key], id);
      PackageFailuresExact(r.packages[key], id);
      assert id in PackageFailures(r.packages[key]);
    }
    if id in r.node.tally.ignored {
      var key :| key in r.packages && id in PackageIgnored(r.packages[key]);
      PackageFailuresExact(r.packages[key], id);
    }
    if IgnoredInTree(r, id) {
      var key :| key in r.packages && IgnoredInPackage(r.packages[key], id);
      PackageFailuresExact(r.packages[key], id);
      assert id in PackageIgnored(r.packages[key]);
    }
  }

  /** The root's failure set holds exactly the outcomes with a reported
      failure, and its ignored set exactly the ignored outcomes. */
  lemma RootSetsAreOutcomeSets(r: Root, id: OutcomeId)
    requires RootWf(r)
    ensures id in r.node.tally.failures <==> FailedInTree(r, id)
    ensures id in r.node.tally.ignored <==> IgnoredInTree(r, id)
  {
    RootWfExact(r);
    SetsAreOutcomeSets(r, id);
  }

  // ---------------------------------------------------------------------
  // Success rates are percentages

  /** A package has no more failed, or ignored, outcomes than tests. */
  lemma PackageCountsBound(p: PackageNode, n: Node, bound: nat)
    requires Held(p, n, bound)
    ensures p.node.tally.FailureCount() <= p.node.tally.tests
    ensures p.node.tally.IgnoredCount() <= p.node.tally.tests
  {
    forall k | k in p.classes
      ensures |ClassFailures(p.classes[k])| <= ClassTests(p.classes[k])
      ensures |ClassIgnored(p.classes[k])| <= ClassTests(p.classes[k])
    {
      assert Filed(k, p.classes[k], p.node, bound);
      ClassCountsBound(p.classes[k], bound);
    }
    UnionOfBound(p.classes, ClassFailures, ClassTests);
    UnionOfBound(p.classes, ClassIgnored, ClassTests);
  }

  /** The root has no more failed, or ignored, outcomes than tests. */
  lemma RootCountsBound(r: Root)
    requires RootWf(r)
    ensures r.node.tally.FailureCount() <= r.node.tally.tests
    ensures r.node.tally.IgnoredCount() <= r.node.tally.tests
  {
    forall key | key in r.packages
      ensures |PackageFailures(r.packages[key])| <= PackageTests(r.packages[key])
      ensures |PackageIgnored(r.packages[key])| <= PackageTests(r.packages[key])
    {
      PackageCountsBound(r.packages[key], r.node, r.nextId);
    }
    UnionOfBound(r.packages, PackageFailures, PackageTests);
    UnionOfBound(r.packages, PackageIgnored, PackageTests);
  }

  /** The success rate of a node: none without tests, otherwise a
      percentage that is 100 exactly when nothing failed. */
  ghost predicate RateIsPercentage(t: Tally) {
    match SuccessRate(t)
    case None => t.tests == 0
    case Some(rate) => 0 <= rate <= 100 && (rate == 100 <==> t.failures == {})
  }

  lemma RateOfBoundedTally(t: Tally)
    requires t.FailureCount() <= t.tests
    ensures RateIsPercentage(t)
  {
  }

  /** The class `className` and its package have no more failures than tests. */
  lemma RoutedCountsBound(r: Root, className: string)
    requires RootWf(r) && HasClass(r, className)
    ensures var t := r.packages[PackageKeyOf(className)].node.tally; t.FailureCount() <= t.tests
    ensures var t := ClassOf(r, className).node.tally; t.FailureCount() <= t.tests
  {
    var p := r.packages[PackageKeyOf(className)];
    RoutedFiled(r, className);
    assert Held(p, r.node, r.nextId);
    PackageCountsBound(p, r.node, r.nextId);
    ClassCountsBound(ClassOf(r, className), r.nextId);
  }

  /** Every summary page of a well-formed tree shows a success rate between
      0% and 100%: the root's, and those of the class `className` and its
      package. */
  lemma SuccessRatesArePercentages(r: Root, className: string)
    requires RootWf(r)
    ensures RateIsPercentage(r.node.tally)
    ensures HasClass(r, className) ==>
              RateIsPercentage(r.packages[PackageKeyOf(className)].node.tally) &&
              RateIsPercentage(ClassOf(r, className).node.tally)
  {
    RootCountsBound(r);
    RateOfBoundedTally(r.node.tally);
    if HasClass(r, className) {
      RoutedCountsBound(r, className);
      RateOfBoundedTally(r.packages[PackageKeyOf(className)].node.tally);
      RateOfBoundedTally(ClassOf(r, className).node.tally);
    }
  }

  // ---------------------------------------------------------------------
  // A new outcome can be found again

  /** The class `addTest` routes to has the requested name, and every
      identity in it is below the one about to be handed out. */
  lemma RoutedClassFresh(r: Root, className: string)
    requires RootWf(r)
    ensures var c := AddClass(AddPackage(r, PackageKeyOf(className)).1, className).1;
            c.name == className && IdsBelow(c.results, r.nextId)
  {
    var key := PackageKeyOf(className);
    var p := AddPackage(r, key).1;
    RoutedPackageWf(r, key);
    assert PackageWf(p, r.nextId);
    RoutedClassWf(p, className, r.nextId);
  }

  /** `addTest` files the new outcome in the named class, where looking its
      identity up finds exactly it. */
  lemma AddTestIsFound(r: Root, className: string, testName: string, duration: nat,
                       device: string, project: string, flavor: string)
    requires RootWf(r)
    ensures var (r', o) := AllResults.AddTest(r, className, testName, duration, device, project, flavor);
            && o.id == r.nextId && o.className == className && o.name == testName
            && HasOutcome(r', className, r.nextId) && OutcomeOf(r', className, r.nextId) == o
  {
    RoutedClassFresh(r, className);
    FreshIsFound(r, className, testName, duration, device, project, flavor);
  }

  lemma FreshIsFound(r: Root, className: string, testName: string, duration: nat,
                     device: string, project: string, flavor: string)
    requires var c := AddClass(AddPackage(r, PackageKeyOf(className)).1, className).1;
             c.name == className && IdsBelow(c.results, r.nextId)
    ensures var (r', o) := AllResults.AddTest(r, className, testName, duration, device, project, flavor);
            && o.id == r.nextId && o.className == className && o.name == testName
            && HasOutcome(r', className, r.nextId) && OutcomeOf(r', className, r.nextId) == o
  {
    var c := AddClass(AddPackage(r, PackageKeyOf(className)).1, className).1;
    ClassInvariants.AddTestFindsOutcome(c, r.nextId, testName, duration, device, project, flavor);
  }

  // ---------------------------------------------------------------------
  // Failures and ignores reach every level

  /** The outcome `id` of class `className`, with its rollups at the class,
      its package and the root. */
  lemma OutcomeCovered(r: Root, className: string, id: OutcomeId)
    requires RootWf(r) && HasOutcome(r, className, id)
    ensures var o := OutcomeOf(r, className, id);
            && Covers(ClassOf(r, className).node, o)
            && Covers(r.packages[PackageKeyOf(className)].node, o)
            && Covers(r.node, o)
  {
    var c := ClassOf(r, className);
    var i := IndexOf(c.results, id);
    RoutedFiled(r, className);
    assert c.results[i] in c.results;
  }

  /** A failure reported with the outcome's own device, project and flavor
      lands in nine places: the failure sets of the class, its package and
      the root, and of the device and variant rollups at each of them. */
  lemma FailureReachesEveryLevel(r: Root, className: string, id: OutcomeId, message: string,
                                 stackTrace: string, screenshotPath: string)
    requires RootWf(r) && HasOutcome(r, className, id)
    ensures var o := OutcomeOf(r, className, id);
            var r' := AddFailure(r, className, id, message, stackTrace, o.device, o.project, o.flavor, screenshotPath);
            && FailedAt(ClassOf(r', className).node, id, o)
            && FailedAt(r'.packages[PackageKeyOf(className)].node, id, o)
            && FailedAt(r'.node, id, o)
  {
    var o := OutcomeOf(r, className, id);
    OutcomeCovered(r, className, id);
    MarkFailedReaches(ClassOf(r, className).node, id, o);
    MarkFailedReaches(r.packages[PackageKeyOf(className)].node, id, o);
    MarkFailedReaches(r.node, id, o);
  }

  /** Ignoring an outcome lands it in the ignored sets of the same nine places. */
  lemma IgnoreReachesEveryLevel(r: Root, className: string, id: OutcomeId)
    requires RootWf(r) && HasOutcome(r, className, id)
    ensures var o := OutcomeOf(r, className, id);
            var r' := Ignore(r, className, id);
            && IgnoredAt(ClassOf(r', className).node, id, o)
            && IgnoredAt(r'.packages[PackageKeyOf(className)].node, id, o)
            && IgnoredAt(r'.node, id, o)
  {
    var o := OutcomeOf(r, className, id);
    OutcomeCovered(r, className, id);
    MarkIgnoredReaches(ClassOf(r, className).node, id, o);
    MarkIgnoredReaches(r.packages[PackageKeyOf(className)].node, id, o);
    MarkIgnoredReaches(r.node, id, o);
  }

  // ---------------------------------------------------------------------
  // Reporting again

  /** A second failure for the same outcome is listed on the outcome, but
      no node's tally or rollup changes: the outcome is counted once. */
  lemma SecondFailureCountsOnce(r: Root, className: string, id: OutcomeId, message: string, stackTrace: string,
                                device: string, project: string, flavor: string, screenshotPath: string,
                                message2: string, stackTrace2: string, screenshotPath2: string)
    requires HasOutcome(r, className, id)
    ensures var r1 := AddFailure(r, className, id, message, stackTrace, device, project, flavor, screenshotPath);
            var r2 := AddFailure(r1, className, id, message2, stackTrace2, device, project, flavor, screenshotPath2);
            && r2.node == r1.node
            && r2.packages[PackageKeyOf(className)].node == r1.packages[PackageKeyOf(className)].node
            && ClassOf(r2, className).node == ClassOf(r1, className).node
            && |OutcomeOf(r2, className, id).failures| == |OutcomeOf(r, className, id).failures| + 2
  {
    var key := PackageKeyOf(className);
    MarkFailedIdempotent(r.node, id, device, project, flavor);
    MarkFailedIdempotent(r.packages[key].node, id, device, project, flavor);
    MarkFailedIdempotent(ClassOf(r, className).node, id, device, project, flavor);
  }

  /** Ignoring an outcome again changes nothing. */
  lemma IgnoreIdempotent(r: Root, className: string, id: OutcomeId)
    requires HasOutcome(r, className, id)
    ensures var r1 := Ignore(r, className, id);
            Ignore(r1, className, id) == r1
  {
    var key := PackageKeyOf(className);
    var c := ClassOf(r, className);
    var i := IndexOf(c.results, id);
    var o := c.results[i];
    var c1 := IgnoreOutcome(c, i);
    var r1 := Ignore(r, className, id);
    assert IndexOf(c1.results, id) == i by {
      assert forall j :: 0 <= j < i ==> c1.results[j] == c.results[j];
    }
    assert ClassOf(r1, className) == c1;
    IgnoreOutcomeTwice(c, i);
    MarkIgnoredIdempotent(r.node, id, o.device, o.project, o.flavor);
    MarkIgnoredIdempotent(r.packages[key].node, id, o.device, o.project, o.flavor);
    ReplaceSame(r1, className);
  }

  lemma IgnoreOutcomeTwice(c: ClassNode, i: nat)
    requires i < |c.results|
    ensures IgnoreOutcome(IgnoreOutcome(c, i), i) == IgnoreOutcome(c, i)
  {
    var o := c.results[i];
    var c1 := IgnoreOutcome(c, i);
    assert c1.results[i := WithIgnored(c1.results[i])] == c1.results;
    MarkIgnoredIdempotent(c.node, o.id, o.device, o.project, o.flavor);
  }

  /** Putting back what is already there changes nothing. */
  lemma ReplaceSame(r: Root, className: string)
    requires HasClass(r, className)
    ensures Replace(r, className, ClassOf(r, className), r.packages[PackageKeyOf(className)].node, r.node) == r
  {
    var key := PackageKeyOf(className);
    var p := r.packages[key];
    assert p.classes[className := p.classes[className]] == p.classes;
    assert r.packages[key := p] == r.packages;
  }

  // ---------------------------------------------------------------------
  // Package titles

  /** A stored package's title follows from the key it is filed under
      (`PackagesNamed` is part of `RootWf`). */
  lemma StoredPackageTitle(r: Root, key: string)
    requires PackagesNamed(r.packages) && key in r.packages
    ensures var p := r.packages[key];
            && (key == "" || key == DefaultPackage <==> p.Title() == "Default package")
            && (key != "" && key != DefaultPackage ==> p.Title() == "Package " + key)
  {
    TitleCases(key);
    assert r.packages[key].Title() == NewPackage(key).Title();
  }
}
