/** The invariant of one class node and its preservation by `addTest`,
    `addFailure`, `ignored()` and the console appends.

    A well-formed class holds its outcomes strictly ordered, with distinct
    identities below the next identity to be handed out; it counts exactly
    its outcomes and their durations; every outcome belongs to it and has its
    device and variant rollups there; and an outcome is in the class's failure
    set exactly when a failure was reported for it, and in its ignored set
    exactly when it was ignored. */
module ClassInvariants {
  import opened Composite
  import opened TestResult
  import opened ClassResults
  import opened NodeInvariants

  /** The summed duration of the outcomes. */
  function TotalDuration(s: seq<Outcome>): nat
    decreases |s|
  {
    if |s| == 0 then 0 else s[0].duration + TotalDuration(s[1..])
  }

  /** The identities of the outcomes for which a failure was reported. */
  ghost function FailedIds(s: seq<Outcome>): set<OutcomeId> {
    set o | o in s && |o.failures| > 0 :: o.id
  }

  /** The identities of the ignored outcomes. */
  ghost function IgnoredIds(s: seq<Outcome>): set<OutcomeId> {
    set o | o in s && o.ignored :: o.id
  }

  ghost predicate OwnedBy(s: seq<Outcome>, name: string) {
    forall o :: o in s ==> o.className == name
  }

  ghost predicate CoveredBy(s: seq<Outcome>, n: Node) {
    forall o :: o in s ==> Covers(n, o)
  }

  ghost predicate ClassWf(c: ClassNode, bound: nat) {
    && NodeWf(c.node)
    && c.node.tally.tests == |c.results|
    && c.node.tally.duration == TotalDuration(c.results)
    && Sorted(c.results) && IdsBelow(c.results, bound)
    && OwnedBy(c.results, c.name) && CoveredBy(c.results, c.node)
    && c.node.tally.failures == FailedIds(c.results)
    && c.node.tally.ignored == IgnoredIds(c.results)
  }

  lemma NewClassWf(name: string, bound: nat)
    ensures ClassWf(NewClass(name), bound)
  {
    EmptyNodeWf();
  }

  /** A class stays well formed as more identities are handed out elsewhere. */
  lemma ClassWfMonotone(c: ClassNode, bound: nat, bound': nat)
    requires ClassWf(c, bound) && bound <= bound'
    ensures ClassWf(c, bound')
  {
  }

  /** A class never has more failed, or more ignored, outcomes than outcomes. */
  lemma {:induction false} MarkedIdsBound(s: seq<Outcome>)
    ensures |FailedIds(s)| <= |s| && |IgnoredIds(s)| <= |s|
    decreases |s|
  {
    if |s| == 0 {
      assert FailedIds(s) == {} && IgnoredIds(s) == {};
    } else {
      var init, last := s[..|s| - 1], s[|s| - 1];
      MarkedIdsBound(init);
      assert FailedIds(s) <= FailedIds(init) + {last.id} by {
        forall k | k in FailedIds(s) ensures k in FailedIds(init) + {last.id} {
          var x :| x in s && |x.failures| > 0 && x.id == k;
          var j :| 0 <= j < |s| && s[j] == x;
          if j < |s| - 1 { assert init[j] == x; }
        }
      }
      assert IgnoredIds(s) <= IgnoredIds(init) + {last.id} by {
        forall k | k in IgnoredIds(s) ensures k in IgnoredIds(init) + {last.id} {
          var x :| x in s && x.ignored && x.id == k;
          var j :| 0 <= j < |s| && s[j] == x;
          if j < |s| - 1 { assert init[j] == x; }
        }
      }
      SubsetCard(FailedIds(s), FailedIds(init) + {last.id});
      SubsetCard(IgnoredIds(s), IgnoredIds(init) + {last.id});
    }
  }

  lemma SubsetCard<T>(a: set<T>, b: set<T>)
    requires a <= b
    ensures |a| <= |b|
  {
    assert b == a + (b - a);
  }

  /** In a well-formed class the failure and ignored counts do not exceed the test count. */
  lemma ClassCountsBound(c: ClassNode, bound: nat)
    requires ClassWf(c, bound)
    ensures c.node.tally.FailureCount() <= c.node.tally.tests
    ensures c.node.tally.IgnoredCount() <= c.node.tally.tests
  {
    MarkedIdsBound(c.results);
  }

  // ---------------------------------------------------------------------
  // Insertion

  lemma {:induction false} TotalDurationInsert(s: seq<Outcome>, o: Outcome)
    ensures TotalDuration(InsertSorted(s, o)) == TotalDuration(s) + o.duration
    decreases |s|
  {
    if |s| > 0 && !Precedes(o, s[0]) {
      TotalDurationInsert(s[1..], o);
      assert InsertSorted(s, o)[1..] == InsertSorted(s[1..], o);
    }
  }

  lemma InsertMembers(s: seq<Outcome>, o: Outcome, x: Outcome)
    ensures x in InsertSorted(s, o) <==> x in s || x == o
  {
    var r := InsertSorted(s, o);
    assert x in r <==> x in multiset(r);
    assert x in s <==> x in multiset(s);
  }

  /** The outcome `addTest` creates is new to the class: nothing in the class
      has its identity. */
  lemma FreshId(s: seq<Outcome>, id: OutcomeId, x: Outcome)
    requires IdsBelow(s, id) && x in s
    ensures x.id < id
  {
    var i :| 0 <= i < |s| && s[i] == x;
  }

  lemma AddTestKeepsMembership(c: ClassNode, id: OutcomeId, testName: string, duration: nat,
                               device: string, project: string, flavor: string)
    requires IdsBelow(c.results, id) && OwnedBy(c.results, c.name)
    ensures var (c', o) := ClassResults.AddTest(c, id, testName, duration, device, project, flavor);
            && o in c'.results
            && IdsBelow(c'.results, id + 1)
            && OwnedBy(c'.results, c'.name)
  {
    var (c', o) := ClassResults.AddTest(c, id, testName, duration, device, project, flavor);
    InsertMembers(c.results, o, o);
    forall j | 0 <= j < |c'.results| ensures c'.results[j].id < id + 1 {
      InsertMembers(c.results, o, c'.results[j]);
      if c'.results[j] != o { FreshId(c.results, id, c'.results[j]); }
    }
    forall x | x in c'.results ensures x.className == c'.name {
      InsertMembers(c.results, o, x);
    }
  }

  lemma AddTestKeepsCoverage(c: ClassNode, id: OutcomeId, testName: string, duration: nat,
                             device: string, project: string, flavor: string)
    requires NodeWf(c.node) && CoveredBy(c.results, c.node)
    ensures var (c', o) := ClassResults.AddTest(c, id, testName, duration, device, project, flavor);
            && NodeWf(c'.node) && Inside(c.node, c'.node) && Covers(c'.node, o)
            && CoveredBy(c'.results, c'.node)
  {
    var (c', o) := ClassResults.AddTest(c, id, testName, duration, device, project, flavor);
    RecordKeepsNodeWf(c.node, duration, device, project, flavor);
    forall x | x in c'.results ensures Covers(c'.node, x) {
      InsertMembers(c.results, o, x);
    }
  }

  /** A new outcome, with no failure and not ignored, changes neither set. */
  lemma AddTestKeepsMarks(c: ClassNode, id: OutcomeId, testName: string, duration: nat,
                          device: string, project: string, flavor: string)
    ensures var (c', o) := ClassResults.AddTest(c, id, testName, duration, device, project, flavor);
            FailedIds(c'.results) == FailedIds(c.results) && IgnoredIds(c'.results) == IgnoredIds(c.results)
  {
    var (c', o) := ClassResults.AddTest(c, id, testName, duration, device, project, flavor);
    forall k | k in FailedIds(c'.results) ensures k in FailedIds(c.results) {
      var x :| x in c'.results && |x.failures| > 0 && x.id == k;
      InsertMembers(c.results, o, x);
    }
    forall k | k in FailedIds(c.results) ensures k in FailedIds(c'.results) {
      var x :| x in c.results && |x.failures| > 0 && x.id == k;
      InsertMembers(c.results, o, x);
    }
    forall k | k in IgnoredIds(c'.results) ensures k in IgnoredIds(c.results) {
      var x :| x in c'.results && x.ignored && x.id == k;
      InsertMembers(c.results, o, x);
    }
    forall k | k in IgnoredIds(c.results) ensures k in IgnoredIds(c'.results) {
      var x :| x in c.results && x.ignored && x.id == k;
      InsertMembers(c.results, o, x);
    }
  }

  lemma AddTestKeepsCounts(c: ClassNode, id: OutcomeId, testName: string, duration: nat,
                           device: string, project: string, flavor: string)
    requires ClassWf(c, id)
    ensures var (c', o) := ClassResults.AddTest(c, id, testName, duration, device, project, flavor);
            && c'.node.tally.tests == |c'.results|
            && c'.node.tally.duration == TotalDuration(c'.results)
            && Sorted(c'.results)
            && c'.node.tally.failures == FailedIds(c'.results)
            && c'.node.tally.ignored == IgnoredIds(c'.results)
  {
    var (c', o) := ClassResults.AddTest(c, id, testName, duration, device, project, flavor);
    TotalDurationInsert(c.results, o);
    AddTestKeepsMarks(c, id, testName, duration, device, project, flavor);
  }

  /** `addTest` keeps a class well formed, with one more identity handed out. */
  lemma AddTestKeepsClassWf(c: ClassNode, id: OutcomeId, testName: string, duration: nat,
                            device: string, project: string, flavor: string)
    requires ClassWf(c, id)
    ensures var (c', o) := ClassResults.AddTest(c, id, testName, duration, device, project, flavor);
            && ClassWf(c', id + 1) && Inside(c.node, c'.node)
            && o in c'.results && Covers(c'.node, o)
  {
    AddTestKeepsMembership(c, id, testName, duration, device, project, flavor);
    AddTestKeepsCoverage(c, id, testName, duration, device, project, flavor);
    AddTestKeepsCounts(c, id, testName, duration, device, project, flavor);
  }

  /** Looking the new identity up in the class finds exactly the new outcome. */
  lemma AddTestFindsOutcome(c: ClassNode, id: OutcomeId, testName: string, duration: nat,
                            device: string, project: string, flavor: string)
    requires IdsBelow(c.results, id)
    ensures var (c', o) := ClassResults.AddTest(c, id, testName, duration, device, project, flavor);
            IndexOf(c'.results, id) >= 0 && c'.results[IndexOf(c'.results, id)] == o
  {
    var (c', o) := ClassResults.AddTest(c, id, testName, duration, device, project, flavor);
    InsertMembers(c.results, o, o);
    var i := IndexOf(c'.results, id);
    var x := c'.results[i];
    InsertMembers(c.results, o, x);
    if x != o {
      FreshId(c.results, id, x);
    }
  }

  // ---------------------------------------------------------------------
  // Replacing one outcome by an updated copy of itself

  lemma ReplaceMembers(s: seq<Outcome>, i: nat, v: Outcome, x: Outcome)
    requires i < |s|
    ensures x in s[i := v] ==> x == v || x in s
    ensures x in s ==> x == s[i] || x in s[i := v]
  {
    if x in s[i := v] {
      var j :| 0 <= j < |s| && s[i := v][j] == x;
      if j != i { assert s[j] == x; }
    }
    if x in s {
      var j :| 0 <= j < |s| && s[j] == x;
      if j != i { assert s[i := v][j] == x; }
    }
  }

  lemma {:induction false} TotalDurationReplace(s: seq<Outcome>, i: nat, v: Outcome)
    requires i < |s| && v.duration == s[i].duration
    ensures TotalDuration(s[i := v]) == TotalDuration(s)
    decreases |s|
  {
    if i > 0 {
      TotalDurationReplace(s[1..], i - 1, v);
      assert s[i := v][1..] == s[1..][i - 1 := v];
    }
  }

  /** Replacing an outcome by a copy with the same identity fields keeps the
      order, the bound on identities, the owner, the coverage and the total
      duration. */
  lemma ReplaceKeepsShape(s: seq<Outcome>, i: nat, v: Outcome, bound: nat, name: string, n: Node)
    requires i < |s| && SameIdentity(s[i], v)
    requires Sorted(s) && IdsBelow(s, bound) && OwnedBy(s, name) && CoveredBy(s, n)
    ensures var s' := s[i := v];
            && Sorted(s') && IdsBelow(s', bound) && OwnedBy(s', name) && CoveredBy(s', n)
            && TotalDuration(s') == TotalDuration(s)
  {
    var s' := s[i := v];
    TotalDurationReplace(s, i, v);
    forall a, b | 0 <= a < b < |s'| ensures Precedes(s'[a], s'[b]) {
      assert Precedes(s[a], s[b]);
    }
    assert s[i] in s;
    forall x | x in s' ensures x.className == name && Covers(n, x) {
      ReplaceMembers(s, i, v, x);
    }
  }

  /** The class side of `addFailure` adds the outcome's identity to the
      failed identities. */
  lemma FailedIdsGrow(s: seq<Outcome>, i: nat, v: Outcome)
    requires i < |s| && v.id == s[i].id && |v.failures| > 0 && v.ignored == s[i].ignored
    ensures FailedIds(s[i := v]) == FailedIds(s) + {v.id}
    ensures IgnoredIds(s[i := v]) == IgnoredIds(s)
  {
    var s' := s[i := v];
    assert s'[i] == v;
    forall k | k in FailedIds(s') ensures k in FailedIds(s) + {v.id} {
      var x :| x in s' && |x.failures| > 0 && x.id == k;
      ReplaceMembers(s, i, v, x);
    }
    forall k | k in FailedIds(s) ensures k in FailedIds(s') {
      var x :| x in s && |x.failures| > 0 && x.id == k;
      ReplaceMembers(s, i, v, x);
    }
    forall k | k in IgnoredIds(s') ensures k in IgnoredIds(s) {
      var x :| x in s' && x.ignored && x.id == k;
      ReplaceMembers(s, i, v, x);
      if x == v { assert s[i] in s; }
    }
    forall k | k in IgnoredIds(s) ensures k in IgnoredIds(s') {
      var x :| x in s && x.ignored && x.id == k;
      ReplaceMembers(s, i, v, x);
    }
  }

  /** The class side of `ignored()` adds the outcome's identity to the
      ignored identities. */
  lemma IgnoredIdsGrow(s: seq<Outcome>, i: nat, v: Outcome)
    requires i < |s| && v.id == s[i].id && v.ignored && v.failures == s[i].failures
    ensures IgnoredIds(s[i := v]) == IgnoredIds(s) + {v.id}
    ensures FailedIds(s[i := v]) == FailedIds(s)
  {
    var s' := s[i := v];
    assert s'[i] == v;
    forall k | k in IgnoredIds(s') ensures k in IgnoredIds(s) + {v.id} {
      var x :| x in s' && x.ignored && x.id == k;
      ReplaceMembers(s, i, v, x);
    }
    forall k | k in IgnoredIds(s) ensures k in IgnoredIds(s') {
      var x :| x in s && x.ignored && x.id == k;
      ReplaceMembers(s, i, v, x);
    }
    forall k | k in FailedIds(s') ensures k in FailedIds(s) {
      var x :| x in s' && |x.failures| > 0 && x.id == k;
      ReplaceMembers(s, i, v, x);
      if x == v { assert s[i] in s; }
    }
    forall k | k in FailedIds(s) ensures k in FailedIds(s') {
      var x :| x in s && |x.failures| > 0 && x.id == k;
      ReplaceMembers(s, i, v, x);
    }
  }

  /** The class side of `addFailure` keeps the class well formed. */
  lemma FailOutcomeKeepsClassWf(c: ClassNode, i: nat, message: string, stackTrace: string,
                                device: string, project: string, flavor: string, screenshotPath: string,
                                bound: nat)
    requires ClassWf(c, bound) && i < |c.results|
    ensures ClassWf(FailOutcome(c, i, message, stackTrace, device, project, flavor, screenshotPath), bound)
  {
    var c' := FailOutcome(c, i, message, stackTrace, device, project, flavor, screenshotPath);
    var v := WithFailure(c.results[i], message, stackTrace, screenshotPath);
    assert c'.results == c.results[i := v];
    ReplaceKeepsShape(c.results, i, v, bound, c.name, c.node);
    FailedIdsGrow(c.results, i, v);
    MarkFailedKeepsNodeWf(c.node, c.results[i].id, device, project, flavor);
    assert CoveredBy(c'.results, c'.node);
  }

  /** The class side of `ignored()` keeps the class well formed. */
  lemma IgnoreOutcomeKeepsClassWf(c: ClassNode, i: nat, bound: nat)
    requires ClassWf(c, bound) && i < |c.results|
    ensures ClassWf(IgnoreOutcome(c, i), bound)
  {
    var c' := IgnoreOutcome(c, i);
    var o := c.results[i];
    var v := WithIgnored(o);
    assert c'.results == c.results[i := v];
    ReplaceKeepsShape(c.results, i, v, bound, c.name, c.node);
    IgnoredIdsGrow(c.results, i, v);
    MarkIgnoredKeepsNodeWf(c.node, o.id, o.device, o.project, o.flavor);
    assert CoveredBy(c'.results, c'.node);
  }

  /** Console appends leave the invariant alone. */
  lemma AppendsKeepClassWf(c: ClassNode, text: string, bound: nat)
    requires ClassWf(c, bound)
    ensures ClassWf(ClassResults.AddStandardOutput(c, text), bound)
    ensures ClassWf(ClassResults.AddStandardError(c, text), bound)
  {
  }
}
