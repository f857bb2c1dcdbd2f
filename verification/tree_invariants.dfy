/** The invariant of the whole report tree and its preservation by every
    insertion that enters at the root.

    In a well-formed tree every class and package is filed under its own
    name and package, every class is well formed, a child's rollup keys are
    among its parent's, a parent's test count and duration are the totals of
    its children's, and a parent's failure and ignored sets are the unions
    of its children's. */
module TreeInvariants {
  import opened Sums
  import opened Composite
  import opened TestResult
  import opened ClassResults
  import opened PackageResults
  import opened AllResults
  import opened NodeInvariants
  import opened ClassInvariants

  function ClassTests(c: ClassNode): nat { c.node.tally.tests }
  function ClassDuration(c: ClassNode): nat { c.node.tally.duration }
  function ClassFailures(c: ClassNode): set<OutcomeId> { c.node.tally.failures }
  function ClassIgnored(c: ClassNode): set<OutcomeId> { c.node.tally.ignored }
  function PackageTests(p: PackageNode): nat { p.node.tally.tests }
  function PackageDuration(p: PackageNode): nat { p.node.tally.duration }
  function PackageFailures(p: PackageNode): set<OutcomeId> { p.node.tally.failures }
  function PackageIgnored(p: PackageNode): set<OutcomeId> { p.node.tally.ignored }

  /** Class `c`, stored as `k` in a package whose node is `n`, is in order. */
  ghost predicate Filed(k: string, c: ClassNode, n: Node, bound: nat) {
    c.name == k && ClassWf(c, bound) && Inside(c.node, n)
  }

  ghost predicate ClassesFiled(classes: map<string, ClassNode>, n: Node, bound: nat) {
    forall k :: k in classes ==> Filed(k, classes[k], n, bound)
  }

  /** `t` totals the classes: counts add up, failure and ignored sets unite. */
  ghost predicate ClassTotals(t: Tally, classes: map<string, ClassNode>) {
    ClassCounts(t, classes) && ClassSets(t, classes)
  }

  ghost predicate ClassCounts(t: Tally, classes: map<string, ClassNode>) {
    t.tests == SumOf(classes, ClassTests) && t.duration == SumOf(classes, ClassDuration)
  }

  ghost predicate ClassSets(t: Tally, classes: map<string, ClassNode>) {
    t.failures == UnionOf(classes, ClassFailures) && t.ignored == UnionOf(classes, ClassIgnored)
  }

  ghost predicate PackageWf(p: PackageNode, bound: nat) {
    && NodeWf(p.node)
    && ClassesFiled(p.classes, p.node, bound)
    && ClassTotals(p.node.tally, p.classes)
  }

  /** Package `p`, below a root whose node is `n`, is in order. */
  ghost predicate Held(p: PackageNode, n: Node, bound: nat) {
    PackageWf(p, bound) && Inside(p.node, n)
  }

  ghost predicate PackagesFiled(packages: map<string, PackageNode>, n: Node, bound: nat) {
    forall key :: key in packages ==> Held(packages[key], n, bound)
  }

  /** `t` totals the packages. */
  ghost predicate PackageTotals(t: Tally, packages: map<string, PackageNode>) {
    PackageCounts(t, packages) && PackageSets(t, packages)
  }

  ghost predicate PackageCounts(t: Tally, packages: map<string, PackageNode>) {
    t.tests == SumOf(packages, PackageTests) && t.duration == SumOf(packages, PackageDuration)
  }

  ghost predicate PackageSets(t: Tally, packages: map<string, PackageNode>) {
    t.failures == UnionOf(packages, PackageFailures) && t.ignored == UnionOf(packages, PackageIgnored)
  }

  /** Every package is named after its key. */
  ghost predicate PackagesNamed(packages: map<string, PackageNode>) {
    forall key :: key in packages ==> packages[key].name == PackageName(key)
  }

  ghost predicate RootWf(r: Root) {
    && NodeWf(r.node)
    && PackagesFiled(r.packages, r.node, r.nextId)
    && PackageTotals(r.node.tally, r.packages)
    && PackagesNamed(r.packages)
  }

  lemma EmptyRootWf()
    ensures RootWf(EmptyRoot)
  {
    EmptyNodeWf();
  }

  lemma NewPackageWf(key: string, bound: nat)
    ensures PackageWf(NewPackage(key), bound)
  {
    EmptyNodeWf();
  }

  // ---------------------------------------------------------------------
  // Replacing one child

  lemma ClassesFiledUpdate(classes: map<string, ClassNode>, n: Node, n': Node,
                           bound: nat, bound': nat, k: string, c': ClassNode)
    requires ClassesFiled(classes, n, bound) && Inside(n, n') && bound <= bound'
    requires Filed(k, c', n', bound')
    ensures ClassesFiled(classes[k := c'], n', bound')
  {
    forall j | j in classes && j != k ensures Filed(j, classes[j], n', bound') {
      ClassWfMonotone(classes[j], bound, bound');
    }
  }

  /** The class under `k`, or an empty one. */
  function ClassOr(classes: map<string, ClassNode>, k: string): ClassNode {
    if k in classes then classes[k] else NewClass(k)
  }

  /** A parent whose counters change exactly as one child's do, and whose
      sets grow exactly as that child's do, still totals its children. */
  lemma ClassTotalsUpdate(t: Tally, classes: map<string, ClassNode>, k: string, c': ClassNode, t': Tally,
                          newFailures: set<OutcomeId>, newIgnored: set<OutcomeId>)
    requires ClassTotals(t, classes)
    requires var before := ClassOr(classes, k).node.tally;
             && t'.tests + before.tests == t.tests + c'.node.tally.tests
             && t'.duration + before.duration == t.duration + c'.node.tally.duration
             && c'.node.tally.failures == before.failures + newFailures && t'.failures == t.failures + newFailures
             && c'.node.tally.ignored == before.ignored + newIgnored && t'.ignored == t.ignored + newIgnored
    ensures ClassTotals(t', classes[k := c'])
  {
    ClassCountsUpdate(t, classes, k, c', t');
    ClassSetsUpdate(t, classes, k, c', t', newFailures, newIgnored);
  }

  lemma ClassCountsUpdate(t: Tally, classes: map<string, ClassNode>, k: string, c': ClassNode, t': Tally)
    requires ClassCounts(t, classes)
    requires var before := ClassOr(classes, k).node.tally;
             && t'.tests + before.tests == t.tests + c'.node.tally.tests
             && t'.duration + before.duration == t.duration + c'.node.tally.duration
    ensures ClassCounts(t', classes[k := c'])
  {
    ClassSumsUpdate(classes, k, c');
  }

  lemma ClassSetsUpdate(t: Tally, classes: map<string, ClassNode>, k: string, c': ClassNode, t': Tally,
                        newFailures: set<OutcomeId>, newIgnored: set<OutcomeId>)
    requires ClassSets(t, classes)
    requires var before := ClassOr(classes, k).node.tally;
             && c'.node.tally.failures == before.failures + newFailures && t'.failures == t.failures + newFailures
             && c'.node.tally.ignored == before.ignored + newIgnored && t'.ignored == t.ignored + newIgnored
    ensures ClassSets(t', classes[k := c'])
  {
    UnionOfUpdate(classes, ClassFailures, k, c', newFailures);
    UnionOfUpdate(classes, ClassIgnored, k, c', newIgnored);
  }

  lemma ClassSumsUpdate(classes: map<string, ClassNode>, k: string, c': ClassNode)
    ensures var before := ClassOr(classes, k).node.tally;
            && SumOf(classes[k := c'], ClassTests) + before.tests == SumOf(classes, ClassTests) + c'.node.tally.tests
            && SumOf(classes[k := c'], ClassDuration) + before.duration == SumOf(classes, ClassDuration) + c'.node.tally.duration
  {
    SumOfUpdate(classes, ClassTests, k, c');
    SumOfUpdate(classes, ClassDuration, k, c');
  }

  lemma PackagesFiledUpdate(packages: map<string, PackageNode>, n: Node, bound: nat, key: string, p': PackageNode)
    requires PackagesFiled(packages, n, bound)
    requires Held(p', n, bound)
    ensures PackagesFiled(packages[key := p'], n, bound)
  {
  }

  lemma PackagesFiledMonotone(packages: map<string, PackageNode>, n: Node, n': Node, bound: nat, bound': nat)
    requires PackagesFiled(packages, n, bound) && Inside(n, n') && bound <= bound'
    ensures PackagesFiled(packages, n', bound')
  {
    forall j | j in packages ensures Held(packages[j], n', bound') {
      PackageWfMonotone(packages[j], bound, bound');
    }
  }

  lemma PackageWfMonotone(p: PackageNode, bound: nat, bound': nat)
    requires PackageWf(p, bound) && bound <= bound'
    ensures PackageWf(p, bound')
  {
    forall k | k in p.classes ensures Filed(k, p.classes[k], p.node, bound') {
      ClassWfMonotone(p.classes[k], bound, bound');
    }
  }

  /** The package under `key`, or an empty one. */
  function PackageOr(packages: map<string, PackageNode>, key: string): PackageNode {
    if key in packages then packages[key] else NewPackage(key)
  }

  lemma PackageTotalsUpdate(t: Tally, packages: map<string, PackageNode>, key: string, p': PackageNode, t': Tally,
                          newFailures: set<OutcomeId>, newIgnored: set<OutcomeId>)
    requires PackageTotals(t, packages)
    requires var before := PackageOr(packages, key).node.tally;
             && t'.tests + before.tests == t.tests + p'.node.tally.tests
             && t'.duration + before.duration == t.duration + p'.node.tally.duration
             && p'.node.tally.failures == before.failures + newFailures && t'.failures == t.failures + newFailures
             && p'.node.tally.ignored == before.ignored + newIgnored && t'.ignored == t.ignored + newIgnored
    ensures PackageTotals(t', packages[key := p'])
  {
    PackageCountsUpdate(t, packages, key, p', t');
    PackageSetsUpdate(t, packages, key, p', t', newFailures, newIgnored);
  }

  lemma PackageCountsUpdate(t: Tally, packages: map<string, PackageNode>, key: string, p': PackageNode, t': Tally)
    requires PackageCounts(t, packages)
    requires var before := PackageOr(packages, key).node.tally;
             && t'.tests + before.tests == t.tests + p'.node.tally.tests
             && t'.duration + before.duration == t.duration + p'.node.tally.duration
    ensures PackageCounts(t', packages[key := p'])
  {
    PackageSumsUpdate(packages, key, p');
  }

  lemma PackageSetsUpdate(t: Tally, packages: map<string, PackageNode>, key: string, p': PackageNode, t': Tally,
                        newFailures: set<OutcomeId>, newIgnored: set<OutcomeId>)
    requires PackageSets(t, packages)
    requires var before := PackageOr(packages, key).node.tally;
             && p'.node.tally.failures == before.failures + newFailures && t'.failures == t.failures + newFailures
             && p'.node.tally.ignored == before.ignored + newIgnored && t'.ignored == t.ignored + newIgnored
    ensures PackageSets(t', packages[key := p'])
  {
    UnionOfUpdate(packages, PackageFailures, key, p', newFailures);
    UnionOfUpdate(packages, PackageIgnored, key, p', newIgnored);
  }

  lemma PackageSumsUpdate(packages: map<string, PackageNode>, key: string, p': PackageNode)
    ensures var before := PackageOr(packages, key).node.tally;
            && SumOf(packages[key := p'], PackageTests) + before.tests == SumOf(packages, PackageTests) + p'.node.tally.tests
            && SumOf(packages[key := p'], PackageDuration) + before.duration == SumOf(packages, PackageDuration) + p'.node.tally.duration
  {
    SumOfUpdate(packages, PackageTests, key, p');
    SumOfUpdate(packages, PackageDuration, key, p');
  }

  /** Recording an insertion at a level keeps every rollup key it had. */
  lemma RecordGrows(n: Node, duration: nat, device: string, project: string, flavor: string)
    ensures Inside(n, Record(n, duration, device, project, flavor))
  {
  }

  /** Recording the same insertion at a child and at its parent keeps the
      child's rollup keys among the parent's. */
  lemma RecordKeepsInside(child: Node, parent: Node, duration: nat, device: string, project: string, flavor: string)
    requires Inside(child, parent)
    ensures Inside(Record(child, duration, device, project, flavor), Record(parent, duration, device, project, flavor))
  {
  }

  // ---------------------------------------------------------------------
  // addTest

  /** `addTest` on a package keeps it well formed with one more identity
      handed out, and keeps every rollup key it had. */
  lemma PackageAddTestWf(p: PackageNode, className: string, id: OutcomeId, testName: string, duration: nat,
                         device: string, project: string, flavor: string)
    requires PackageWf(p, id)
    ensures var p' := PackageResults.AddTest(p, className, id, testName, duration, device, project, flavor).0;
            PackageWf(p', id + 1) && Inside(p.node, p'.node)
  {
    RecordKeepsNodeWf(p.node, duration, device, project, flavor);
    PackageAddTestFiled(p, className, id, testName, duration, device, project, flavor);
    PackageAddTestTotals(p, className, id, testName, duration, device, project, flavor);
  }

  /** The class `addTest` routes to, before the test is added. */
  lemma RoutedClassWf(p: PackageNode, className: string, id: OutcomeId)
    requires ClassesFiled(p.classes, p.node, id)
    ensures var c := AddClass(p, className).1;
            c.name == className && ClassWf(c, id) && Inside(c.node, p.node)
  {
    if className in p.classes {
      assert Filed(className, p.classes[className], p.node, id);
    } else {
      NewClassWf(className, id);
    }
  }

  lemma PackageAddTestFiled(p: PackageNode, className: string, id: OutcomeId, testName: string, duration: nat,
                            device: string, project: string, flavor: string)
    requires ClassesFiled(p.classes, p.node, id)
    ensures var p' := PackageResults.AddTest(p, className, id, testName, duration, device, project, flavor).0;
            ClassesFiled(p'.classes, p'.node, id + 1)
  {
    var c' := ClassResults.AddTest(AddClass(p, className).1, id, testName, duration, device, project, flavor).0;
    var n' := Record(p.node, duration, device, project, flavor);
    AddedClassFiled(p, className, id, testName, duration, device, project, flavor);
    RecordGrows(p.node, duration, device, project, flavor);
    ClassesFiledUpdate(p.classes, p.node, n', id, id + 1, className, c');
  }

  /** The class `addTest` routes to is still in order afterwards. */
  lemma AddedClassFiled(p: PackageNode, className: string, id: OutcomeId, testName: string, duration: nat,
                        device: string, project: string, flavor: string)
    requires ClassesFiled(p.classes, p.node, id)
    ensures var c' := ClassResults.AddTest(AddClass(p, className).1, id, testName, duration, device, project, flavor).0;
            Filed(className, c', Record(p.node, duration, device, project, flavor), id + 1)
  {
    var c := AddClass(p, className).1;
    RoutedClassWf(p, className, id);
    AddTestKeepsClassWf(c, id, testName, duration, device, project, flavor);
    RecordKeepsInside(c.node, p.node, duration, device, project, flavor);
  }

  lemma PackageAddTestTotals(p: PackageNode, className: string, id: OutcomeId, testName: string, duration: nat,
                             device: string, project: string, flavor: string)
    requires ClassTotals(p.node.tally, p.classes)
    ensures var p' := PackageResults.AddTest(p, className, id, testName, duration, device, project, flavor).0;
            ClassTotals(p'.node.tally, p'.classes)
  {
    var c := AddClass(p, className).1;
    var c' := ClassResults.AddTest(c, id, testName, duration, device, project, flavor).0;
    assert ClassOr(p.classes, className) == c;
    ClassTotalsCountTest(p.node.tally, p.classes, className, c', duration);
  }

  /** One more test of `duration` in the class under `k` is one more at the
      level that totals the classes. */
  lemma ClassTotalsCountTest(t: Tally, classes: map<string, ClassNode>, k: string, c': ClassNode, duration: nat)
    requires ClassTotals(t, classes)
    requires c'.node.tally == CountTest(ClassOr(classes, k).node.tally, duration)
    ensures ClassTotals(CountTest(t, duration), classes[k := c'])
  {
    ClassTotalsUpdate(t, classes, k, c', CountTest(t, duration), {}, {});
  }

  /** `addTest` keeps the tree well formed. */
  lemma AddTestKeepsRootWf(r: Root, className: string, testName: string, duration: nat,
                           device: string, project: string, flavor: string)
    requires RootWf(r)
    ensures var r' := AllResults.AddTest(r, className, testName, duration, device, project, flavor).0;
            RootWf(r') && Inside(r.node, r'.node)
  {
    RecordKeepsNodeWf(r.node, duration, device, project, flavor);
    RootAddTestFiled(r, className, testName, duration, device, project, flavor);
    RootAddTestTotals(r, className, testName, duration, device, project, flavor);
  }

  /** The package `addTest` routes to, before the test is added. */
  lemma RoutedPackageWf(r: Root, key: string)
    requires PackagesFiled(r.packages, r.node, r.nextId)
    ensures Held(AddPackage(r, key).1, r.node, r.nextId)
  {
    if key !in r.packages {
      NewPackageWf(key, r.nextId);
    }
  }

  /** The package `addTest` routes to is still in order afterwards. */
  lemma AddedPackageFiled(r: Root, className: string, testName: string, duration: nat,
                          device: string, project: string, flavor: string)
    requires PackagesFiled(r.packages, r.node, r.nextId)
    ensures var p' := PackageResults.AddTest(AddPackage(r, PackageKeyOf(className)).1, className, r.nextId,
                                             testName, duration, device, project, flavor).0;
            Held(p', Record(r.node, duration, device, project, flavor), r.nextId + 1)
  {
    var p := AddPackage(r, PackageKeyOf(className)).1;
    RoutedPackageWf(r, PackageKeyOf(className));
    PackageAddTestWf(p, className, r.nextId, testName, duration, device, project, flavor);
    RecordKeepsInside(p.node, r.node, duration, device, project, flavor);
  }

  lemma RootAddTestFiled(r: Root, className: string, testName: string, duration: nat,
                         device: string, project: string, flavor: string)
    requires PackagesFiled(r.packages, r.node, r.nextId)
    ensures var r' := AllResults.AddTest(r, className, testName, duration, device, project, flavor).0;
            PackagesFiled(r'.packages, r'.node, r'.nextId)
  {
    var key := PackageKeyOf(className);
    var p' := PackageResults.AddTest(AddPackage(r, key).1, className, r.nextId,
                                     testName, duration, device, project, flavor).0;
    var n' := Record(r.node, duration, device, project, flavor);
    AddedPackageFiled(r, className, testName, duration, device, project, flavor);
    RecordGrows(r.node, duration, device, project, flavor);
    PackagesFiledMonotone(r.packages, r.node, n', r.nextId, r.nextId + 1);
    PackagesFiledUpdate(r.packages, n', r.nextId + 1, key, p');
  }

  lemma RootAddTestTotals(r: Root, className: string, testName: string, duration: nat,
                          device: string, project: string, flavor: string)
    requires PackageTotals(r.node.tally, r.packages)
    ensures var r' := AllResults.AddTest(r, className, testName, duration, device, project, flavor).0;
            PackageTotals(r'.node.tally, r'.packages)
  {
    var key := PackageKeyOf(className);
    var p := AddPackage(r, key).1;
    var p' := PackageResults.AddTest(p, className, r.nextId, testName, duration, device, project, flavor).0;
    assert PackageOr(r.packages, key) == p;
    PackageTotalsCountTest(r.node.tally, r.packages, key, p', duration);
  }

  /** One more test of `duration` in the package under `key` is one more at
      the root. */
  lemma PackageTotalsCountTest(t: Tally, packages: map<string, PackageNode>, key: string, p': PackageNode,
                               duration: nat)
    requires PackageTotals(t, packages)
    requires p'.node.tally == CountTest(PackageOr(packages, key).node.tally, duration)
    ensures PackageTotals(CountTest(t, duration), packages[key := p'])
  {
    PackageTotalsUpdate(t, packages, key, p', CountTest(t, duration), {}, {});
  }

  // ---------------------------------------------------------------------
  // addTestClass

  /** `addClass` on a package keeps it well formed: a new class is empty. */
  lemma AddClassKeepsPackageWf(p: PackageNode, className: string, bound: nat)
    requires PackageWf(p, bound)
    ensures PackageWf(AddClass(p, className).0, bound) && AddClass(p, className).0.node == p.node
  {
    if className !in p.classes {
      var c := NewClass(className);
      NewClassWf(className, bound);
      ClassesFiledUpdate(p.classes, p.node, p.node, bound, bound, className, c);
      ClassTotalsUpdate(p.node.tally, p.classes, className, c, p.node.tally, {}, {});
    }
  }

  /** `addTestClass` keeps the tree well formed. */
  lemma AddTestClassKeepsRootWf(r: Root, className: string)
    requires RootWf(r)
    ensures RootWf(AddTestClass(r, className).0)
  {
    AddTestClassFiled(r, className);
    AddTestClassTotals(r, className);
  }

  lemma AddTestClassFiled(r: Root, className: string)
    requires PackagesFiled(r.packages, r.node, r.nextId)
    ensures PackagesFiled(AddTestClass(r, className).0.packages, r.node, r.nextId)
  {
    var key := PackageKeyOf(className);
    var p := AddPackage(r, key).1;
    RoutedPackageWf(r, key);
    AddClassKeepsPackageWf(p, className, r.nextId);
    PackagesFiledUpdate(r.packages, r.node, r.nextId, key, AddClass(p, className).0);
  }

  lemma AddTestClassTotals(r: Root, className: string)
    requires PackageTotals(r.node.tally, r.packages)
    ensures PackageTotals(r.node.tally, AddTestClass(r, className).0.packages)
  {
    var key := PackageKeyOf(className);
    var p := AddPackage(r, key).1;
    assert AddClass(p, className).0.node == p.node;
    assert PackageOr(r.packages, key) == p;
    PackageTotalsSameNode(r.node.tally, r.packages, key, AddClass(p, className).0);
  }

  /** A package whose node is unchanged leaves the root's totals as they are. */
  lemma PackageTotalsSameNode(t: Tally, packages: map<string, PackageNode>, key: string, p': PackageNode)
    requires PackageTotals(t, packages)
    requires p'.node == PackageOr(packages, key).node
    ensures PackageTotals(t, packages[key := p'])
  {
    PackageTotalsUpdate(t, packages, key, p', t, {}, {});
  }

  // ---------------------------------------------------------------------
  // Changing one class in place

  /** `after` has the counters of `before` and its sets grown by `newFailures`
      and `newIgnored`. */
  ghost predicate Grown(before: Tally, after: Tally, newFailures: set<OutcomeId>, newIgnored: set<OutcomeId>) {
    && after.tests == before.tests && after.duration == before.duration
    && after.failures == before.failures + newFailures && after.ignored == before.ignored + newIgnored
  }

  /** A package whose class `className` becomes `c'` and whose node becomes
      `n'`, growing the same way, stays well formed. */
  lemma PackageReplaceWf(p: PackageNode, className: string, c': ClassNode, n': Node, bound: nat,
                         newFailures: set<OutcomeId>, newIgnored: set<OutcomeId>)
    requires PackageWf(p, bound) && className in p.classes
    requires Filed(className, c', n', bound) && NodeWf(n') && Inside(p.node, n')
    requires Grown(p.classes[className].node.tally, c'.node.tally, newFailures, newIgnored)
    requires Grown(p.node.tally, n'.tally, newFailures, newIgnored)
    ensures PackageWf(p.(classes := p.classes[className := c'], node := n'), bound)
  {
    ClassesFiledUpdate(p.classes, p.node, n', bound, bound, className, c');
    ClassTotalsUpdate(p.node.tally, p.classes, className, c', n'.tally, newFailures, newIgnored);
  }

  /** The root side of changing one class in place. */
  lemma ReplaceKeepsRootWf(r: Root, className: string, c': ClassNode, pnode: Node, rnode: Node,
                           newFailures: set<OutcomeId>, newIgnored: set<OutcomeId>)
    requires RootWf(r) && HasClass(r, className)
    requires var p := r.packages[PackageKeyOf(className)];
             && Filed(className, c', pnode, r.nextId) && NodeWf(pnode) && Inside(p.node, pnode)
             && Grown(ClassOf(r, className).node.tally, c'.node.tally, newFailures, newIgnored)
             && Grown(p.node.tally, pnode.tally, newFailures, newIgnored)
    requires NodeWf(rnode) && Inside(r.node, rnode) && Inside(pnode, rnode)
    requires Grown(r.node.tally, rnode.tally, newFailures, newIgnored)
    ensures RootWf(Replace(r, className, c', pnode, rnode))
  {
    var key := PackageKeyOf(className);
    var p := r.packages[key];
    var p' := p.(classes := p.classes[className := c'], node := pnode);
    assert Held(p, r.node, r.nextId);
    PackageReplaceWf(p, className, c', pnode, r.nextId, newFailures, newIgnored);
    PackagesFiledMonotone(r.packages, r.node, rnode, r.nextId, r.nextId);
    PackagesFiledUpdate(r.packages, rnode, r.nextId, key, p');
    PackageTotalsUpdate(r.node.tally, r.packages, key, p', rnode.tally, newFailures, newIgnored);
  }

  /** Marking a failure at a well-formed level: what the parent levels rely on. */
  lemma MarkFailedGrows(n: Node, id: OutcomeId, device: string, project: string, flavor: string)
    requires NodeWf(n)
    ensures var n' := MarkFailed(n, id, device, project, flavor);
            NodeWf(n') && Inside(n, n') && Grown(n.tally, n'.tally, {id}, {})
  {
    MarkFailedKeepsNodeWf(n, id, device, project, flavor);
  }

  lemma MarkIgnoredGrows(n: Node, id: OutcomeId, device: string, project: string, flavor: string)
    requires NodeWf(n)
    ensures var n' := MarkIgnored(n, id, device, project, flavor);
            NodeWf(n') && Inside(n, n') && Grown(n.tally, n'.tally, {}, {id})
  {
    MarkIgnoredKeepsNodeWf(n, id, device, project, flavor);
  }

  /** Marking the same outcome at a child and its parent keeps the child's
      rollup keys among the parent's. */
  lemma MarkKeepsInside(child: Node, parent: Node, id: OutcomeId, device: string, project: string, flavor: string)
    requires Inside(child, parent)
    ensures Inside(MarkFailed(child, id, device, project, flavor), MarkFailed(parent, id, device, project, flavor))
    ensures Inside(MarkIgnored(child, id, device, project, flavor), MarkIgnored(parent, id, device, project, flavor))
  {
  }

  /** The class side of `addFailure`, seen from its package. */
  lemma FailedClassFiled(className: string, c: ClassNode, n: Node, bound: nat, i: nat, message: string,
                         stackTrace: string, device: string, project: string, flavor: string, screenshotPath: string)
    requires Filed(className, c, n, bound) && i < |c.results|
    ensures var c' := FailOutcome(c, i, message, stackTrace, device, project, flavor, screenshotPath);
            && Filed(className, c', MarkFailed(n, c.results[i].id, device, project, flavor), bound)
            && Grown(c.node.tally, c'.node.tally, {c.results[i].id}, {})
  {
    FailOutcomeKeepsClassWf(c, i, message, stackTrace, device, project, flavor, screenshotPath, bound);
    MarkKeepsInside(c.node, n, c.results[i].id, device, project, flavor);
  }

  /** The class side of `ignored()`, seen from its package. */
  lemma IgnoredClassFiled(className: string, c: ClassNode, n: Node, bound: nat, i: nat)
    requires Filed(className, c, n, bound) && i < |c.results|
    ensures var o := c.results[i];
            var c' := IgnoreOutcome(c, i);
            && Filed(className, c', MarkIgnored(n, o.id, o.device, o.project, o.flavor), bound)
            && Grown(c.node.tally, c'.node.tally, {}, {o.id})
  {
    var o := c.results[i];
    IgnoreOutcomeKeepsClassWf(c, i, bound);
    MarkKeepsInside(c.node, n, o.id, o.device, o.project, o.flavor);
  }

  /** The class and package under `className` are in order. */
  lemma RoutedFiled(r: Root, className: string)
    requires RootWf(r) && HasClass(r, className)
    ensures var p := r.packages[PackageKeyOf(className)];
            && NodeWf(p.node) && Inside(p.node, r.node)
            && Filed(className, ClassOf(r, className), p.node, r.nextId)
  {
    var p := r.packages[PackageKeyOf(className)];
    assert Held(p, r.node, r.nextId);
    assert Filed(className, p.classes[className], p.node, r.nextId);
  }

  /** `addFailure` keeps the tree well formed. */
  lemma AddFailureKeepsRootWf(r: Root, className: string, id: OutcomeId, message: string, stackTrace: string,
                              device: string, project: string, flavor: string, screenshotPath: string)
    requires RootWf(r) && HasOutcome(r, className, id)
    ensures RootWf(AddFailure(r, className, id, message, stackTrace, device, project, flavor, screenshotPath))
  {
    var p := r.packages[PackageKeyOf(className)];
    var c := ClassOf(r, className);
    var i := IndexOf(c.results, id);
    var pnode := MarkFailed(p.node, id, device, project, flavor);
    var rnode := MarkFailed(r.node, id, device, project, flavor);
    RoutedFiled(r, className);
    FailedClassFiled(className, c, p.node, r.nextId, i, message, stackTrace, device, project, flavor, screenshotPath);
    MarkFailedGrows(p.node, id, device, project, flavor);
    MarkFailedGrows(r.node, id, device, project, flavor);
    MarkKeepsInside(p.node, r.node, id, device, project, flavor);
    ReplaceKeepsRootWf(r, className, FailOutcome(c, i, message, stackTrace, device, project, flavor, screenshotPath),
                       pnode, rnode, {id}, {});
  }

  /** `ignored()` keeps the tree well formed. */
  lemma IgnoreKeepsRootWf(r: Root, className: string, id: OutcomeId)
    requires RootWf(r) && HasOutcome(r, className, id)
    ensures RootWf(Ignore(r, className, id))
  {
    var p := r.packages[PackageKeyOf(className)];
    var c := ClassOf(r, className);
    var i := IndexOf(c.results, id);
    var o := c.results[i];
    RoutedFiled(r, className);
    IgnoredClassFiled(className, c, p.node, r.nextId, i);
    MarkIgnoredGrows(p.node, id, o.device, o.project, o.flavor);
    MarkIgnoredGrows(r.node, id, o.device, o.project, o.flavor);
    MarkKeepsInside(p.node, r.node, id, o.device, o.project, o.flavor);
    ReplaceKeepsRootWf(r, className, IgnoreOutcome(c, i), MarkIgnored(p.node, id, o.device, o.project, o.flavor),
                       MarkIgnored(r.node, id, o.device, o.project, o.flavor), {}, {id});
  }

  /** A tally grown by nothing. */
  lemma GrownByNothing(t: Tally)
    ensures Grown(t, t, {}, {})
  {
    assert t.failures + {} == t.failures;
    assert t.ignored + {} == t.ignored;
  }

  /** A class with the same name, node and outcomes is filed the same way. */
  lemma SameShapeFiled(className: string, c: ClassNode, c': ClassNode, n: Node, bound: nat)
    requires Filed(className, c, n, bound)
    requires c'.name == c.name && c'.node == c.node && c'.results == c.results
    ensures Filed(className, c', n, bound)
  {
  }

  /** Suite standard output keeps the tree well formed. */
  lemma AddStandardOutputKeepsRootWf(r: Root, className: string, text: string)
    requires RootWf(r) && HasClass(r, className)
    ensures RootWf(AllResults.AddStandardOutput(r, className, text))
  {
    var c := ClassOf(r, className);
    RoutedFiled(r, className);
    SameShapeFiled(className, c, ClassResults.AddStandardOutput(c, text), r.packages[PackageKeyOf(className)].node, r.nextId);
    GrownByNothing(c.node.tally);
    ReplaceKeepsRootWf(r, className, ClassResults.AddStandardOutput(c, text),
                       r.packages[PackageKeyOf(className)].node, r.node, {}, {});
  }

  /** Suite standard error keeps the tree well formed. */
  lemma AddStandardErrorKeepsRootWf(r: Root, className: string, text: string)
    requires RootWf(r) && HasClass(r, className)
    ensures RootWf(AllResults.AddStandardError(r, className, text))
  {
    var c := ClassOf(r, className);
    RoutedFiled(r, className);
    SameShapeFiled(className, c, ClassResults.AddStandardError(c, text), r.packages[PackageKeyOf(className)].node, r.nextId);
    GrownByNothing(c.node.tally);
    ReplaceKeepsRootWf(r, className, ClassResults.AddStandardError(c, text),
                       r.packages[PackageKeyOf(className)].node, r.node, {}, {});
  }
}
