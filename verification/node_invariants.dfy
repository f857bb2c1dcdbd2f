/** The invariants one aggregation node keeps over its device and variant
    rollups, and the proofs that counting a test and marking an outcome
    preserve them: the rollups of each family split the node's test count
    and duration among themselves, each rollup is stored under its own
    name, and a rollup's failure and ignored sets lie within the node's. */
module NodeInvariants {
  import opened Sums
  import opened Composite
  import opened TestResult

  function RollupTests(x: Rollup): nat { x.tally.tests }
  function RollupDuration(x: Rollup): nat { x.tally.duration }

  /** Every rollup is stored under its own name. */
  ghost predicate Named(m: map<string, Rollup>) {
    forall k :: k in m ==> m[k].name == k
  }

  /** Every rollup's failure and ignored sets lie within those of `t`. */
  ghost predicate Within(m: map<string, Rollup>, t: Tally) {
    forall k :: k in m ==> m[k].tally.failures <= t.failures && m[k].tally.ignored <= t.ignored
  }

  /** The rollups of `m` split the test count and duration of `t` among themselves. */
  ghost predicate Splits(m: map<string, Rollup>, t: Tally) {
    && SumOf(m, RollupTests) == t.tests
    && SumOf(m, RollupDuration) == t.duration
  }

  /** One family of rollups (by device, or by variant) of a node with tally `t`. */
  ghost predicate RollupsWf(m: map<string, Rollup>, t: Tally) {
    Named(m) && Within(m, t) && Splits(m, t)
  }

  ghost predicate NodeWf(n: Node) {
    RollupsWf(n.devices, n.tally) && RollupsWf(n.variants, n.tally)
  }

  /** Every rollup key of `child` is also a rollup key of `parent`. */
  ghost predicate Inside(child: Node, parent: Node) {
    child.devices.Keys <= parent.devices.Keys && child.variants.Keys <= parent.variants.Keys
  }

  /** The node has the device and variant rollups an outcome belongs to. */
  ghost predicate Covers(n: Node, o: Outcome) {
    o.device in n.devices && VariantKey(o.project, o.flavor) in n.variants
  }

  lemma EmptyNodeWf()
    ensures NodeWf(EmptyNode)
  {
  }

  lemma CountInRollupSums(m: map<string, Rollup>, key: string, duration: nat)
    ensures SumOf(CountInRollup(m, key, duration), RollupTests) == SumOf(m, RollupTests) + 1
    ensures SumOf(CountInRollup(m, key, duration), RollupDuration) == SumOf(m, RollupDuration) + duration
  {
    var roll := GetOrCreate(m, key);
    var counted := roll.(tally := CountTest(roll.tally, duration));
    assert CountInRollup(m, key, duration) == m[key := counted];
    SumOfUpdate(m, RollupTests, key, counted);
    SumOfUpdate(m, RollupDuration, key, counted);
  }

  /** Counting one test in a tally and in its rollup under `key` (created if
      needed) keeps that family of rollups well formed. */
  lemma CountInRollupWf(m: map<string, Rollup>, t: Tally, key: string, duration: nat)
    requires RollupsWf(m, t)
    ensures RollupsWf(CountInRollup(m, key, duration), CountTest(t, duration))
  {
    CountInRollupNamed(m, key, duration);
    CountInRollupWithin(m, t, key, duration);
    CountInRollupSplits(m, t, key, duration);
  }

  lemma CountInRollupNamed(m: map<string, Rollup>, key: string, duration: nat)
    requires Named(m)
    ensures Named(CountInRollup(m, key, duration))
  {
  }

  lemma CountInRollupWithin(m: map<string, Rollup>, t: Tally, key: string, duration: nat)
    requires Within(m, t)
    ensures Within(CountInRollup(m, key, duration), CountTest(t, duration))
  {
  }

  lemma CountInRollupSplits(m: map<string, Rollup>, t: Tally, key: string, duration: nat)
    requires Splits(m, t)
    ensures Splits(CountInRollup(m, key, duration), CountTest(t, duration))
  {
    CountInRollupSums(m, key, duration);
  }

  /** Recording an insertion at a level keeps the level well formed, keeps
      every rollup it had, and gives it the outcome's device and variant rollups. */
  lemma RecordKeepsNodeWf(n: Node, duration: nat, device: string, project: string, flavor: string)
    requires NodeWf(n)
    ensures var n' := Record(n, duration, device, project, flavor);
            && NodeWf(n')
            && Inside(n, n')
            && device in n'.devices && VariantKey(project, flavor) in n'.variants
  {
    CountInRollupWf(n.devices, n.tally, device, duration);
    CountInRollupWf(n.variants, n.tally, VariantKey(project, flavor), duration);
  }

  /** In a well-formed level every device rollup is titled by the device it
      is filed under, including the one the latest insertion counted in. */
  lemma DeviceTitles(n: Node, duration: nat, device: string, project: string, flavor: string)
    requires NodeWf(n)
    ensures var n' := Record(n, duration, device, project, flavor);
            && n'.devices[device].Title() == device
            && forall k :: k in n'.devices ==> n'.devices[k].Title() == k
  {
    RecordKeepsNodeWf(n, duration, device, project, flavor);
  }

  /** The same for the variant rollups and their variant keys. */
  lemma VariantTitles(n: Node, duration: nat, device: string, project: string, flavor: string)
    requires NodeWf(n)
    ensures var n' := Record(n, duration, device, project, flavor);
            && n'.variants[VariantKey(project, flavor)].Title() == VariantKey(project, flavor)
            && forall k :: k in n'.variants ==> n'.variants[k].Title() == k
  {
    RecordKeepsNodeWf(n, duration, device, project, flavor);
  }

  /** Adding a failure to the tally and to the rollup under `key` (if there
      is one) keeps that family of rollups well formed. */
  lemma FailInRollupWf(m: map<string, Rollup>, t: Tally, key: string, id: OutcomeId)
    requires RollupsWf(m, t)
    ensures RollupsWf(FailInRollup(m, key, id), t.(failures := t.failures + {id}))
  {
    FailInRollupNamed(m, key, id);
    FailInRollupWithin(m, t, key, id);
    FailInRollupSplits(m, t, key, id);
  }

  lemma FailInRollupNamed(m: map<string, Rollup>, key: string, id: OutcomeId)
    requires Named(m)
    ensures Named(FailInRollup(m, key, id))
  {
  }

  lemma FailInRollupWithin(m: map<string, Rollup>, t: Tally, key: string, id: OutcomeId)
    requires Within(m, t)
    ensures Within(FailInRollup(m, key, id), t.(failures := t.failures + {id}))
  {
  }

  lemma FailInRollupSplits(m: map<string, Rollup>, t: Tally, key: string, id: OutcomeId)
    requires Splits(m, t)
    ensures Splits(FailInRollup(m, key, id), t.(failures := t.failures + {id}))
  {
    if key in m {
      var marked := m[key].(tally := m[key].tally.(failures := m[key].tally.failures + {id}));
      assert FailInRollup(m, key, id) == m[key := marked];
      SumOfUpdate(m, RollupTests, key, marked);
      SumOfUpdate(m, RollupDuration, key, marked);
    }
  }

  /** Adding an ignored outcome to the tally and to the rollup under `key`
      (if there is one) keeps that family of rollups well formed. */
  lemma IgnoreInRollupWf(m: map<string, Rollup>, t: Tally, key: string, id: OutcomeId)
    requires RollupsWf(m, t)
    ensures RollupsWf(IgnoreInRollup(m, key, id), t.(ignored := t.ignored + {id}))
  {
    IgnoreInRollupNamed(m, key, id);
    IgnoreInRollupWithin(m, t, key, id);
    IgnoreInRollupSplits(m, t, key, id);
  }

  lemma IgnoreInRollupNamed(m: map<string, Rollup>, key: string, id: OutcomeId)
    requires Named(m)
    ensures Named(IgnoreInRollup(m, key, id))
  {
  }

  lemma IgnoreInRollupWithin(m: map<string, Rollup>, t: Tally, key: string, id: OutcomeId)
    requires Within(m, t)
    ensures Within(IgnoreInRollup(m, key, id), t.(ignored := t.ignored + {id}))
  {
  }

  lemma IgnoreInRollupSplits(m: map<string, Rollup>, t: Tally, key: string, id: OutcomeId)
    requires Splits(m, t)
    ensures Splits(IgnoreInRollup(m, key, id), t.(ignored := t.ignored + {id}))
  {
    if key in m {
      var marked := m[key].(tally := m[key].tally.(ignored := m[key].tally.ignored + {id}));
      assert IgnoreInRollup(m, key, id) == m[key := marked];
      SumOfUpdate(m, RollupTests, key, marked);
      SumOfUpdate(m, RollupDuration, key, marked);
    }
  }

  /** Marking a failure at a level keeps the level well formed and creates no rollup. */
  lemma MarkFailedKeepsNodeWf(n: Node, id: OutcomeId, device: string, project: string, flavor: string)
    requires NodeWf(n)
    ensures var n' := MarkFailed(n, id, device, project, flavor);
            NodeWf(n') && n'.devices.Keys == n.devices.Keys && n'.variants.Keys == n.variants.Keys
  {
    FailInRollupWf(n.devices, n.tally, device, id);
    FailInRollupWf(n.variants, n.tally, VariantKey(project, flavor), id);
  }

  /** Marking an ignored outcome at a level keeps the level well formed and creates no rollup. */
  lemma MarkIgnoredKeepsNodeWf(n: Node, id: OutcomeId, device: string, project: string, flavor: string)
    requires NodeWf(n)
    ensures var n' := MarkIgnored(n, id, device, project, flavor);
            NodeWf(n') && n'.devices.Keys == n.devices.Keys && n'.variants.Keys == n.variants.Keys
  {
    IgnoreInRollupWf(n.devices, n.tally, device, id);
    IgnoreInRollupWf(n.variants, n.tally, VariantKey(project, flavor), id);
  }

  /** The outcome `id`, which belongs to `o`'s device and variant, is in the
      failure set of the node and of both of its rollups. */
  ghost predicate FailedAt(n: Node, id: OutcomeId, o: Outcome) {
    && Covers(n, o)
    && id in n.tally.failures
    && id in n.devices[o.device].tally.failures
    && id in n.variants[VariantKey(o.project, o.flavor)].tally.failures
  }

  /** The same for the ignored sets. */
  ghost predicate IgnoredAt(n: Node, id: OutcomeId, o: Outcome) {
    && Covers(n, o)
    && id in n.tally.ignored
    && id in n.devices[o.device].tally.ignored
    && id in n.variants[VariantKey(o.project, o.flavor)].tally.ignored
  }

  /** A level that has the outcome's rollups records a failure in all three places. */
  lemma MarkFailedReaches(n: Node, id: OutcomeId, o: Outcome)
    requires Covers(n, o)
    ensures FailedAt(MarkFailed(n, id, o.device, o.project, o.flavor), id, o)
  {
  }

  lemma MarkIgnoredReaches(n: Node, id: OutcomeId, o: Outcome)
    requires Covers(n, o)
    ensures IgnoredAt(MarkIgnored(n, id, o.device, o.project, o.flavor), id, o)
  {
  }

  /** Marking the same failure twice is marking it once: the node's tally
      and every rollup are left as the first mark made them. */
  lemma MarkFailedIdempotent(n: Node, id: OutcomeId, device: string, project: string, flavor: string)
    ensures var n' := MarkFailed(n, id, device, project, flavor);
            MarkFailed(n', id, device, project, flavor) == n'
  {
    var n' := MarkFailed(n, id, device, project, flavor);
    FailInRollupTwice(n.devices, device, id);
    FailInRollupTwice(n.variants, VariantKey(project, flavor), id);
    assert n'.tally.failures + {id} == n'.tally.failures;
  }

  lemma FailInRollupTwice(m: map<string, Rollup>, key: string, id: OutcomeId)
    ensures FailInRollup(FailInRollup(m, key, id), key, id) == FailInRollup(m, key, id)
  {
    if key in m {
      var f := m[key].tally.failures + {id};
      assert f + {id} == f;
    }
  }

  /** Marking the same ignored outcome twice is marking it once. */
  lemma MarkIgnoredIdempotent(n: Node, id: OutcomeId, device: string, project: string, flavor: string)
    ensures var n' := MarkIgnored(n, id, device, project, flavor);
            MarkIgnored(n', id, device, project, flavor) == n'
  {
    var n' := MarkIgnored(n, id, device, project, flavor);
    IgnoreInRollupTwice(n.devices, device, id);
    IgnoreInRollupTwice(n.variants, VariantKey(project, flavor), id);
    assert n'.tally.ignored + {id} == n'.tally.ignored;
  }

  lemma IgnoreInRollupTwice(m: map<string, Rollup>, key: string, id: OutcomeId)
    ensures IgnoreInRollup(IgnoreInRollup(m, key, id), key, id) == IgnoreInRollup(m, key, id)
  {
    if key in m {
      var g := m[key].tally.ignored + {id};
      assert g + {id} == g;
    }
  }
}
