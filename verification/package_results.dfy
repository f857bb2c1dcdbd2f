/** The results of one package (`PackageTestResultsExt`): its classes by
    exact class name and its aggregation node. */
module PackageResults {
  import opened Composite
  import opened TestResult
  import opened ClassResults

  /** The name a package with an empty name is stored under. */
  const DefaultPackage := "default-package"

  datatype PackageNode = PackageNode(name: string, node: Node, classes: map<string, ClassNode>)
  {
    /** `getTitle()` */
    function Title(): string {
      if name == DefaultPackage then "Default package" else "Package " + name
    }
  }

  /** The stored name of a package: the empty name becomes the sentinel. */
  function PackageName(key: string): (r: string)
    ensures key == "" ==> r == DefaultPackage
    ensures key != "" ==> r == key
  {
    if key == "" then DefaultPackage else key
  }

  /** The package title names the package, except for the default package. */
  lemma TitleCases(key: string)
    ensures var p := NewPackage(key);
            && (key == "" || key == DefaultPackage <==> p.Title() == "Default package")
            && (key != "" && key != DefaultPackage ==> p.Title() == "Package " + key)
  {
    var p := NewPackage(key);
    if key != "" && key != DefaultPackage {
      assert p.Title() == "Package " + key;
      assert p.Title()[0] == 'P' != "Default package"[0];
    }
  }

  function NewPackage(key: string): (p: PackageNode)
    ensures p.name == PackageName(key) && p.node == EmptyNode && p.classes == map[]
  {
    PackageNode(PackageName(key), EmptyNode, map[])
  }

  /** `addClass`: get-or-create the class node by its exact name. */
  function AddClass(p: PackageNode, className: string): (r: (PackageNode, ClassNode))
    ensures className in p.classes ==> r.1 == p.classes[className] && r.0 == p
    ensures className !in p.classes ==> r.1 == NewClass(className)
    ensures r.0 == p.(classes := p.classes[className := r.1])
  {
    if className in p.classes then (p, p.classes[className])
    else
      var c := NewClass(className);
      (p.(classes := p.classes[className := c]), c)
  }

  /** A second `addClass` with the same name returns the same class and
      changes nothing. */
  lemma AddClassIdempotent(p: PackageNode, className: string)
    ensures var (p1, c1) := AddClass(p, className);
            AddClass(p1, className) == (p1, c1)
  {
  }

  /** `addTest`: the class named `className` (created if needed) records the
      outcome, then the package counts it once in its tally and its rollups. */
  function AddTest(p: PackageNode, className: string, id: OutcomeId, testName: string, duration: nat,
                   device: string, project: string, flavor: string): (r: (PackageNode, Outcome))
    ensures r.1 == NewOutcome(id, AddClass(p, className).1.name, testName, duration, device, project, flavor)
    ensures (className in p.classes ==> p.classes[className].name == className) ==> r.1.className == className
    ensures r.0.name == p.name
    ensures r.0.classes == p.classes[className := ClassResults.AddTest(AddClass(p, className).1, id, testName,
                                                                       duration, device, project, flavor).0]
    ensures r.0.node == Record(p.node, duration, device, project, flavor)
  {
    var c := AddClass(p, className).1;
    var added := ClassResults.AddTest(c, id, testName, duration, device, project, flavor);
    (PackageNode(p.name, Record(p.node, duration, device, project, flavor), p.classes[className := added.0]), added.1)
  }
}
