/** The root of the report tree (`AllTestResultsExt`): the packages by
    package name and the aggregation node for all tests. Every insertion
    enters here. */
module AllResults {
  import opened Wrappers
  import opened Strings
  import opened Composite
  import opened TestResult
  import opened ClassResults
  import opened PackageResults

  /** The root. `nextId` is the identity the next outcome will get. */
  datatype Root = Root(node: Node, packages: map<string, PackageNode>, nextId: nat)
  {
    /** `getTitle()` */
    function Title(): string { "Test Summary" }

    /** `getName()`: the root has no name. */
    function Name(): Option<string> { None }
  }

  /** A root with nothing recorded: where every report starts. */
  const EmptyRoot := Root(EmptyNode, map[], 0)

  /** The package of a class: everything before the last '.', or "" when
      the name has no '.'. */
  function PackageKeyOf(className: string): (r: string)
    ensures '.' !in className ==> r == ""
    ensures '.' in className ==>
              && |r| < |className| && className[..|r|] == r
              && className[|r|] == '.' && '.' !in className[|r| + 1..]
  {
    var pos := LastIndexOf(className, '.');
    if pos != -1 then
      var tail := className[pos + 1..];
      assert forall j :: 0 <= j < |tail| ==> tail[j] != '.';
      className[..pos]
    else
      assert forall j :: 0 <= j < |className| ==> className[j] != '.';
      ""
  }

  /** A dotted class name splits into its package and its simple name. */
  lemma PackageThenSimpleName(className: string)
    requires '.' in className
    ensures PackageKeyOf(className) + "." + SimpleName(className) == className
  {
    var pos := LastIndexOf(className, '.');
    assert className == className[..pos] + [className[pos]] + className[pos + 1..];
  }

  /** `addPackage`: get-or-create by package name. */
  function AddPackage(r: Root, key: string): (res: (Root, PackageNode))
    ensures key in r.packages ==> res == (r, r.packages[key])
    ensures key !in r.packages ==> res.1 == NewPackage(key)
    ensures res.0 == r.(packages := r.packages[key := res.1])
  {
    if key in r.packages then (r, r.packages[key])
    else
      var p := NewPackage(key);
      (r.(packages := r.packages[key := p]), p)
  }

  /** A second `addPackage` with the same name returns the same package and
      changes nothing. */
  lemma AddPackageIdempotent(r: Root, key: string)
    ensures var (r1, p1) := AddPackage(r, key);
            AddPackage(r1, key) == (r1, p1)
  {
  }

  /** `addTestClass`: get-or-create the class (and its package) without
      recording a test. No counter, set or rollup changes anywhere. */
  function AddTestClass(r: Root, className: string): (res: (Root, ClassNode))
    ensures res.0.node == r.node && res.0.nextId == r.nextId
    ensures var key := PackageKeyOf(className);
            var p := AddPackage(r, key).1;
            && res.0.packages == r.packages[key := AddClass(p, className).0]
            && res.1 == AddClass(p, className).1
  {
    var key := PackageKeyOf(className);
    var (r1, p) := AddPackage(r, key);
    var (p1, c) := AddClass(p, className);
    (r1.(packages := r1.packages[key := p1]), c)
  }

  /** `addTest`: route to the package (created if needed), which routes to
      the class; then the root counts the outcome once in its own tally and
      rollups. The new outcome takes the next identity. */
  function AddTest(r: Root, className: string, testName: string, duration: nat,
                   device: string, project: string, flavor: string): (res: (Root, Outcome))
    ensures res.0.nextId == r.nextId + 1
    ensures res.1 == NewOutcome(r.nextId, AddClass(AddPackage(r, PackageKeyOf(className)).1, className).1.name,
                                testName, duration, device, project, flavor)
    ensures res.0.node == Record(r.node, duration, device, project, flavor)
    ensures var key := PackageKeyOf(className);
            res.0.packages == r.packages[key := PackageResults.AddTest(AddPackage(r, key).1, className, r.nextId,
                                                                       testName, duration, device, project, flavor).0]
  {
    var key := PackageKeyOf(className);
    var p := AddPackage(r, key).1;
    var added := PackageResults.AddTest(p, className, r.nextId, testName, duration, device, project, flavor);
    (Root(Record(r.node, duration, device, project, flavor), r.packages[key := added.0], r.nextId + 1), added.1)
  }

  /** The class named `className` exists in the tree. */
  predicate HasClass(r: Root, className: string) {
    var key := PackageKeyOf(className);
    key in r.packages && className in r.packages[key].classes
  }

  function ClassOf(r: Root, className: string): ClassNode
    requires HasClass(r, className)
  {
    r.packages[PackageKeyOf(className)].classes[className]
  }

  /** The outcome with identity `id` exists in class `className`. */
  predicate HasOutcome(r: Root, className: string, id: OutcomeId) {
    HasClass(r, className) && IndexOf(ClassOf(r, className).results, id) >= 0
  }

  function OutcomeOf(r: Root, className: string, id: OutcomeId): (o: Outcome)
    requires HasOutcome(r, className, id)
    ensures o.id == id
  {
    var c := ClassOf(r, className);
    c.results[IndexOf(c.results, id)]
  }

  /** Replace the class named `className` and let its package and the root
      record the same change of their own nodes. */
  function Replace(r: Root, className: string, c: ClassNode, pnode: Node, rnode: Node): (res: Root)
    requires HasClass(r, className)
    ensures HasClass(res, className) && ClassOf(res, className) == c
    ensures res.nextId == r.nextId && res.node == rnode
    ensures res.packages.Keys == r.packages.Keys
    ensures SameElsewhere(r, res, className)
  {
    var key := PackageKeyOf(className);
    var p := r.packages[key];
    r.(packages := r.packages[key := p.(classes := p.classes[className := c], node := pnode)], node := rnode)
  }

  /** `res` is `r` except, at most, for the class named `className`, the
      node of that class's package and the root node. */
  ghost predicate SameElsewhere(r: Root, res: Root, className: string) {
    var key := PackageKeyOf(className);
    && res.nextId == r.nextId
    && res.packages.Keys == r.packages.Keys
    && (forall k :: k in r.packages && k != key ==> res.packages[k] == r.packages[k])
    && (key in r.packages ==> SiblingsKept(r.packages[key], res.packages[key], className))
  }

  /** Package `p'` is `p` except, at most, for the class named `className`
      and the node. */
  ghost predicate SiblingsKept(p: PackageNode, p': PackageNode, className: string) {
    && p'.name == p.name
    && p'.classes.Keys == p.classes.Keys
    && forall k :: k in p.classes && k != className ==> p'.classes[k] == p.classes[k]
  }

  /** Class `c'` is `c` except, at most, for the outcome at index `i` and
      the node. */
  ghost predicate OthersKept(c: ClassNode, c': ClassNode, i: int) {
    && c'.name == c.name && c'.stdout == c.stdout && c'.stderr == c.stderr
    && |c'.results| == |c.results|
    && forall j :: 0 <= j < |c.results| && j != i ==> c'.results[j] == c.results[j]
  }

  /** `addFailure` on an outcome: the outcome gets one more failure and
      `failed` records it in its class, then its package, then the root,
      and at each of those levels in the rollups for the given device and
      variant if they exist. No rollup is created and no counter changes. */
  function AddFailure(r: Root, className: string, id: OutcomeId, message: string, stackTrace: string,
                      device: string, project: string, flavor: string, screenshotPath: string): (res: Root)
    requires HasOutcome(r, className, id)
    ensures HasOutcome(res, className, id)
    ensures OutcomeOf(res, className, id) == WithFailure(OutcomeOf(r, className, id), message, stackTrace, screenshotPath)
    ensures res.nextId == r.nextId && res.packages.Keys == r.packages.Keys
    ensures res.node == MarkFailed(r.node, id, device, project, flavor)
    ensures var key := PackageKeyOf(className);
            res.packages[key].node == MarkFailed(r.packages[key].node, id, device, project, flavor)
    ensures ClassOf(res, className).node == MarkFailed(ClassOf(r, className).node, id, device, project, flavor)
    ensures SameElsewhere(r, res, className)
    ensures OthersKept(ClassOf(r, className), ClassOf(res, className), IndexOf(ClassOf(r, className).results, id))
  {
    var key := PackageKeyOf(className);
    var p := r.packages[key];
    var c := p.classes[className];
    var i := IndexOf(c.results, id);
    var c1 := FailOutcome(c, i, message, stackTrace, device, project, flavor, screenshotPath);
    assert IndexOf(c1.results, id) == i by {
      assert forall j :: 0 <= j < i ==> c1.results[j] == c.results[j];
    }
    Replace(r, className, c1, MarkFailed(p.node, id, device, project, flavor),
            MarkFailed(r.node, id, device, project, flavor))
  }

  /** `ignored()` on an outcome: the outcome is marked, and `addIgnoredTest`
      records it in its class, package and root, and in the rollups for the
      outcome's own device and variant where they exist. */
  function Ignore(r: Root, className: string, id: OutcomeId): (res: Root)
    requires HasOutcome(r, className, id)
    ensures HasOutcome(res, className, id)
    ensures OutcomeOf(res, className, id) == WithIgnored(OutcomeOf(r, className, id))
    ensures res.nextId == r.nextId && res.packages.Keys == r.packages.Keys
    ensures var o := OutcomeOf(r, className, id);
            && res.node == MarkIgnored(r.node, id, o.device, o.project, o.flavor)
            && res.packages[PackageKeyOf(className)].node
               == MarkIgnored(r.packages[PackageKeyOf(className)].node, id, o.device, o.project, o.flavor)
            && ClassOf(res, className).node == MarkIgnored(ClassOf(r, className).node, id, o.device, o.project, o.flavor)
    ensures SameElsewhere(r, res, className)
    ensures OthersKept(ClassOf(r, className), ClassOf(res, className), IndexOf(ClassOf(r, className).results, id))
  {
    var key := PackageKeyOf(className);
    var p := r.packages[key];
    var c := p.classes[className];
    var i := IndexOf(c.results, id);
    var o := c.results[i];
    var c1 := IgnoreOutcome(c, i);
    assert IndexOf(c1.results, id) == i by {
      assert forall j :: 0 <= j < i ==> c1.results[j] == c.results[j];
    }
    Replace(r, className, c1, MarkIgnored(p.node, id, o.device, o.project, o.flavor),
            MarkIgnored(r.node, id, o.device, o.project, o.flavor))
  }

  /** Suite standard output appended to a class. */
  function AddStandardOutput(r: Root, className: string, text: string): (res: Root)
    requires HasClass(r, className)
    ensures HasClass(res, className)
    ensures ClassOf(res, className) == ClassOf(r, className).(stdout := ClassOf(r, className).stdout + text)
    ensures res.node == r.node && res.nextId == r.nextId
    ensures SameElsewhere(r, res, className)
    ensures var key := PackageKeyOf(className); res.packages[key].node == r.packages[key].node
  {
    var key := PackageKeyOf(className);
    Replace(r, className, ClassResults.AddStandardOutput(ClassOf(r, className), text), r.packages[key].node, r.node)
  }

  /** Suite standard error appended to a class. */
  function AddStandardError(r: Root, className: string, text: string): (res: Root)
    requires HasClass(r, className)
    ensures HasClass(res, className)
    ensures ClassOf(res, className) == ClassOf(r, className).(stderr := ClassOf(r, className).stderr + text)
    ensures res.node == r.node && res.nextId == r.nextId
    ensures SameElsewhere(r, res, className)
    ensures var key := PackageKeyOf(className); res.packages[key].node == r.packages[key].node
  {
    var key := PackageKeyOf(className);
    Replace(r, className, ClassResults.AddStandardError(ClassOf(r, className), text), r.packages[key].node, r.node)
  }
}
