/** The results of one test class (`ClassTestResultsExt`): its outcomes in
    `compareTo` order, its aggregation node, and the captured console text. */
module ClassResults {
  import opened Strings
  import opened Composite
  import opened TestResult

  /** A class node. `results` is strictly increasing under `TestResult.Precedes`,
      as the ordered set of outcomes is. */
  datatype ClassNode = ClassNode(name: string, node: Node, results: seq<Outcome>,
                                 stdout: string, stderr: string)
  {
    /** `getTitle()` */
    function Title(): string { "Class " + name }
  }

  function NewClass(name: string): (c: ClassNode)
    ensures c.name == name && c.node == EmptyNode && c.results == []
  {
    ClassNode(name, EmptyNode, [], "", "")
  }

  /** `getSimpleName()`: the part after the last '.', or the whole name. */
  function SimpleName(name: string): (r: string)
    ensures '.' !in r
    ensures '.' !in name ==> r == name
    ensures '.' in name ==> EndsWith(name, "." + r)
  {
    var pos := LastIndexOf(name, '.');
    if pos != -1 then
      assert name[pos + 1..] == name[|name| - |name[pos + 1..]|..];
      name[pos + 1..]
    else
      assert forall j :: 0 <= j < |name| ==> name[j] != '.';
      name
  }

  predicate Sorted(s: seq<Outcome>) {
    forall i, j :: 0 <= i < j < |s| ==> Precedes(s[i], s[j])
  }

  /** Every outcome in `s` has an identity below `bound`. */
  predicate IdsBelow(s: seq<Outcome>, bound: nat) {
    forall i :: 0 <= i < |s| ==> s[i].id < bound
  }

  /** Insertion into the ordered set: `o` goes in at its place in the order. */
  function InsertSorted(s: seq<Outcome>, o: Outcome): (r: seq<Outcome>)
    ensures multiset(r) == multiset(s) + multiset{o}
    ensures |r| == |s| + 1
    decreases |s|
  {
    if |s| == 0 then [o]
    else if Precedes(o, s[0]) then [o] + s
    else
      assert s == [s[0]] + s[1..];
      [s[0]] + InsertSorted(s[1..], o)
  }

  /** Inserting an outcome whose identity is new keeps the set strictly ordered. */
  lemma {:induction false} InsertSortedKeepsOrder(s: seq<Outcome>, o: Outcome)
    requires Sorted(s) && IdsBelow(s, o.id)
    ensures Sorted(InsertSorted(s, o))
    decreases |s|
  {
    if |s| == 0 {
    } else if Precedes(o, s[0]) {
      forall i | 0 <= i < |s| ensures Precedes(o, s[i]) {
        if i > 0 { PrecedesTransitive(o, s[0], s[i]); }
      }
      SortedCons(o, s);
    } else {
      PrecedesTotal(o, s[0]);
      InsertSortedKeepsOrder(s[1..], o);
      var rest := InsertSorted(s[1..], o);
      assert s == [s[0]] + s[1..];
      forall j | 0 <= j < |rest| ensures Precedes(s[0], rest[j]) {
        assert rest[j] in multiset(rest);
      }
      SortedCons(s[0], rest);
    }
  }

  /** An outcome ahead of every outcome of an ordered sequence can lead it. */
  lemma SortedCons(x: Outcome, s: seq<Outcome>)
    requires Sorted(s) && forall j :: 0 <= j < |s| ==> Precedes(x, s[j])
    ensures Sorted([x] + s)
  {
    var r := [x] + s;
    forall i, j | 0 <= i < j < |r| ensures Precedes(r[i], r[j]) {
      assert r[j] == s[j - 1];
      if i > 0 { assert r[i] == s[i - 1]; }
    }
  }

  /** `addTest`: a fresh outcome of this class joins the ordered set, and the
      class counts it once in its tally, its device rollup and its variant rollup. */
  function AddTest(c: ClassNode, id: OutcomeId, testName: string, duration: nat,
                   device: string, project: string, flavor: string): (r: (ClassNode, Outcome))
    ensures r.1 == NewOutcome(id, c.name, testName, duration, device, project, flavor)
    ensures r.0.name == c.name && r.0.stdout == c.stdout && r.0.stderr == c.stderr
    ensures multiset(r.0.results) == multiset(c.results) + multiset{r.1}
    ensures Sorted(c.results) && IdsBelow(c.results, id) ==> Sorted(r.0.results)
    ensures r.0.node == Record(c.node, duration, device, project, flavor)
  {
    var o := NewOutcome(id, c.name, testName, duration, device, project, flavor);
    var c' := c.(results := InsertSorted(c.results, o),
                 node := Record(c.node, duration, device, project, flavor));
    assert Sorted(c.results) && IdsBelow(c.results, id) ==> Sorted(c'.results) by {
      if Sorted(c.results) && IdsBelow(c.results, id) { InsertSortedKeepsOrder(c.results, o); }
    }
    (c', o)
  }

  /** The position of the first outcome with identity `id`, or -1. */
  function IndexOf(s: seq<Outcome>, id: OutcomeId): (i: int)
    ensures -1 <= i < |s|
    ensures i >= 0 ==> s[i].id == id && forall j :: 0 <= j < i ==> s[j].id != id
    ensures i == -1 ==> forall j :: 0 <= j < |s| ==> s[j].id != id
    decreases |s|
  {
    if |s| == 0 then -1
    else if s[0].id == id then 0
    else
      var i := IndexOf(s[1..], id);
      if i == -1 then -1 else i + 1
  }

  /** The class side of `addFailure` on its `i`-th outcome: the outcome gets
      one more failure and the class's `failed` records it (in the class and in
      its matching rollups). */
  function FailOutcome(c: ClassNode, i: nat, message: string, stackTrace: string,
                       device: string, project: string, flavor: string, screenshotPath: string): (r: ClassNode)
    requires i < |c.results|
    ensures r.name == c.name && r.stdout == c.stdout && r.stderr == c.stderr
    ensures |r.results| == |c.results|
    ensures r.results[i] == WithFailure(c.results[i], message, stackTrace, screenshotPath)
    ensures forall j :: 0 <= j < |c.results| && j != i ==> r.results[j] == c.results[j]
    ensures r.node == MarkFailed(c.node, c.results[i].id, device, project, flavor)
  {
    c.(results := c.results[i := WithFailure(c.results[i], message, stackTrace, screenshotPath)],
       node := MarkFailed(c.node, c.results[i].id, device, project, flavor))
  }

  /** The class side of `ignored()` on its `i`-th outcome, with the rollup
      keys taken from that outcome. */
  function IgnoreOutcome(c: ClassNode, i: nat): (r: ClassNode)
    requires i < |c.results|
    ensures r.name == c.name && r.stdout == c.stdout && r.stderr == c.stderr
    ensures |r.results| == |c.results|
    ensures r.results[i] == WithIgnored(c.results[i])
    ensures forall j :: 0 <= j < |c.results| && j != i ==> r.results[j] == c.results[j]
    ensures var o := c.results[i];
            r.node == MarkIgnored(c.node, o.id, o.device, o.project, o.flavor)
  {
    var o := c.results[i];
    c.(results := c.results[i := WithIgnored(o)],
       node := MarkIgnored(c.node, o.id, o.device, o.project, o.flavor))
  }

  /** `addStandardOutput`: append-only. */
  function AddStandardOutput(c: ClassNode, text: string): (r: ClassNode)
    ensures r == c.(stdout := c.stdout + text)
  {
    c.(stdout := c.stdout + text)
  }

  /** `addStandardError`: append-only. */
  function AddStandardError(c: ClassNode, text: string): (r: ClassNode)
    ensures r == c.(stderr := c.stderr + text)
  {
    c.(stderr := c.stderr + text)
  }

  /** Appending texts one call at a time. */
  function AppendAll(acc: string, texts: seq<string>): string
    decreases |texts|
  {
    if |texts| == 0 then acc else AppendAll(acc + texts[0], texts[1..])
  }

  /** The concatenation of `texts` in order. */
  function Concat(texts: seq<string>): string
    decreases |texts|
  {
    if |texts| == 0 then "" else Concat(texts[..|texts| - 1]) + texts[|texts| - 1]
  }

  /** Text appended call by call is the old text followed by all texts in call order. */
  lemma {:induction false} AppendAllIsConcat(acc: string, texts: seq<string>)
    ensures AppendAll(acc, texts) == acc + Concat(texts)
    decreases |texts|
  {
    if |texts| > 0 {
      AppendAllIsConcat(acc + texts[0], texts[1..]);
      ConcatFront(texts);
    }
  }

  lemma {:induction false} ConcatFront(texts: seq<string>)
    requires |texts| > 0
    ensures Concat(texts) == texts[0] + Concat(texts[1..])
    decreases |texts|
  {
    if |texts| > 1 {
      ConcatFront(texts[..|texts| - 1]);
      assert texts[..|texts| - 1][1..] == texts[1..][..|texts| - 2];
      assert texts[..|texts| - 1][0] == texts[0];
    } else {
      assert texts[..0] == [];
    }
  }

  /** `getTestResultsMap`: device -> test name -> outcome, built by walking the
      outcomes in order, so a later outcome overwrites an earlier one with the
      same device and name. */
  function TestResultsMap(s: seq<Outcome>): map<string, map<string, Outcome>>
    decreases |s|
  {
    if |s| == 0 then map[]
    else
      var t := TestResultsMap(s[..|s| - 1]);
      var o := s[|s| - 1];
      var inner := if o.device in t then t[o.device] else map[];
      t[o.device := inner[o.name := o]]
  }

  /** `s[i]` is the last outcome in `s` for this device and test name. */
  ghost predicate IsLastFor(s: seq<Outcome>, i: int, device: string, name: string) {
    && 0 <= i < |s|
    && s[i].device == device && s[i].name == name
    && forall j :: i < j < |s| ==> !(s[j].device == device && s[j].name == name)
  }

  /** One more outcome adds or overwrites only its own entry. */
  lemma TestResultsMapStep(s: seq<Outcome>, d: string, n: string)
    requires |s| > 0
    ensures var t, tp, o := TestResultsMap(s), TestResultsMap(s[..|s| - 1]), s[|s| - 1];
            && o.device in t && o.name in t[o.device] && t[o.device][o.name] == o
            && (d in t && n in t[d] && !(d == o.device && n == o.name) ==> d in tp && n in tp[d] && t[d][n] == tp[d][n])
            && (d in tp && n in tp[d] ==> d in t && n in t[d])
  {
  }

  /** Every outcome's device and name are in the table. */
  lemma {:induction false} TestResultsMapCovers(s: seq<Outcome>)
    ensures var t := TestResultsMap(s);
            forall i :: 0 <= i < |s| ==> s[i].device in t && s[i].name in t[s[i].device]
    decreases |s|
  {
    if |s| > 0 {
      var p := s[..|s| - 1];
      TestResultsMapCovers(p);
      forall i | 0 <= i < |s|
        ensures s[i].device in TestResultsMap(s) && s[i].name in TestResultsMap(s)[s[i].device]
      {
        TestResultsMapStep(s, s[i].device, s[i].name);
        if i < |s| - 1 { assert s[i] == p[i]; }
      }
    }
  }

  /** The table's devices are exactly the devices of the outcomes. */
  lemma {:induction false} TestResultsMapDevices(s: seq<Outcome>)
    ensures var t := TestResultsMap(s);
            && (forall d :: d in t ==> exists i :: 0 <= i < |s| && s[i].device == d)
            && (forall i :: 0 <= i < |s| ==> s[i].device in t)
    decreases |s|
  {
    if |s| > 0 {
      var p := s[..|s| - 1];
      TestResultsMapDevices(p);
      var t, tp, o := TestResultsMap(s), TestResultsMap(p), s[|s| - 1];
      assert t.Keys == tp.Keys + {o.device};
      forall d | d in t ensures exists i :: 0 <= i < |s| && s[i].device == d {
        if d != o.device {
          var i :| 0 <= i < |p| && p[i].device == d;
          assert s[i] == p[i];
        }
      }
      forall i | 0 <= i < |s| ensures s[i].device in t {
        if i < |s| - 1 {
          assert p[i] == s[i];
        }
      }
    }
  }

  /** Every entry of the table sits under its own device and name, and of
      several outcomes with the same device and name the last one in order is
      kept. */
  lemma {:induction false} TestResultsMapLastWins(s: seq<Outcome>)
    ensures var t := TestResultsMap(s);
            forall d, n :: d in t && n in t[d] ==>
              t[d][n].device == d && t[d][n].name == n &&
              exists i :: IsLastFor(s, i, d, n) && t[d][n] == s[i]
    decreases |s|
  {
    if |s| > 0 {
      var p := s[..|s| - 1];
      TestResultsMapLastWins(p);
      var t: map<string, map<string, Outcome>> := TestResultsMap(s);
      var o := s[|s| - 1];
      forall d: string, n: string | d in t && n in t[d]
        ensures t[d][n].device == d && t[d][n].name == n
        ensures exists i :: IsLastFor(s, i, d, n) && t[d][n] == s[i]
      {
        TestResultsMapStep(s, d, n);
        if d == o.device && n == o.name {
          assert IsLastFor(s, |s| - 1, d, n);
        } else {
          var tp := TestResultsMap(p);
          var i :| IsLastFor(p, i, d, n) && tp[d][n] == p[i];
          assert s[i] == p[i];
          assert IsLastFor(s, i, d, n);
        }
      }
    }
  }
}
