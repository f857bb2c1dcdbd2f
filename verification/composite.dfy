/** The aggregation state every node of the report tree shares
    (`CompositeTestResultsExt`), and the per-device and per-variant rollup
    nodes it keeps (`DeviceTestResultsExt`, `VariantTestResultsExt`).

    Outcomes are referred to by an abstract identity `OutcomeId`, so the
    failure and ignored sets have set semantics: recording the same outcome
    twice has no further effect. */
module Composite {
  import opened Wrappers
  import opened Strings
  import opened ResultTypes

  /** Identity of one recorded test outcome (object identity in the report code). */
  type OutcomeId = nat

  /** The counters of a composite node. */
  datatype Tally = Tally(tests: nat, duration: nat, failures: set<OutcomeId>, ignored: set<OutcomeId>)
  {
    function FailureCount(): nat { |failures| }
    function IgnoredCount(): nat { |ignored| }
  }

  const NoTests := Tally(0, 0, {}, {})

  /** A device or variant rollup. Rollups are always created with no parent
      and never get rollups of their own, so a rollup is just a named tally
      and anything recorded on it stops there. */
  datatype Rollup = Rollup(name: string, tally: Tally)
  {
    /** `getName()` and `getTitle()` of a rollup both give its name. */
    function Title(): string { name }
  }

  /** A composite node: its own tally and its rollups by device name and by variant key. */
  datatype Node = Node(tally: Tally, devices: map<string, Rollup>, variants: map<string, Rollup>)

  const EmptyNode := Node(NoTests, map[], map[])

  /** The reserved flavor name that is left out of a variant key. */
  const Main := "main"

  predicate IsMain(flavor: string) {
    EqualsIgnoreCase(flavor, Main)
  }

  /** The key of the variant rollup for a project and flavor. */
  function VariantKey(project: string, flavor: string): string {
    if IsMain(flavor) then project else project + ":" + flavor
  }

  /** The key is the bare project name exactly when the flavor is "main". */
  lemma VariantKeyBareIffMain(project: string, flavor: string)
    ensures VariantKey(project, flavor) == project <==> IsMain(flavor)
  {
    if !IsMain(flavor) {
      assert |VariantKey(project, flavor)| > |project|;
    }
  }

  /** Any other flavor can be read back from the key. */
  lemma VariantKeyKeepsFlavor(project: string, flavor: string)
    requires !IsMain(flavor)
    ensures var key := VariantKey(project, flavor);
            && |key| == |project| + 1 + |flavor|
            && key[..|project|] == project
            && key[|project|] == ':'
            && key[|project| + 1..] == flavor
  {
  }

  /** One test counted: the tally every `addTest` performs on a node. */
  function CountTest(t: Tally, duration: nat): (r: Tally)
    ensures r.tests == t.tests + 1
    ensures r.duration == t.duration + duration
    ensures r.failures == t.failures && r.ignored == t.ignored
  {
    t.(tests := t.tests + 1, duration := t.duration + duration)
  }

  /** The rollup under `key`, created empty (with name `key`) when absent. */
  function GetOrCreate(m: map<string, Rollup>, key: string): (r: Rollup)
    ensures key in m ==> r == m[key]
    ensures key !in m ==> r == Rollup(key, NoTests)
  {
    if key in m then m[key] else Rollup(key, NoTests)
  }

  /** Get-or-create the rollup under `key` and count one test on it. */
  function CountInRollup(m: map<string, Rollup>, key: string, duration: nat): (r: map<string, Rollup>)
    ensures r.Keys == m.Keys + {key}
    ensures key in m ==> r[key] == m[key].(tally := CountTest(m[key].tally, duration))
    ensures key !in m ==> r[key] == Rollup(key, Tally(1, duration, {}, {}))
    ensures forall k :: k in m && k != key ==> r[k] == m[k]
  {
    var roll := GetOrCreate(m, key);
    m[key := roll.(tally := CountTest(roll.tally, duration))]
  }

  /** `addDevice`: count the test on the device rollup, creating it if needed. */
  function AddDevice(n: Node, device: string, duration: nat): (r: Node)
    ensures r.tally == n.tally && r.variants == n.variants
    ensures r.devices == CountInRollup(n.devices, device, duration)
  {
    n.(devices := CountInRollup(n.devices, device, duration))
  }

  /** `addVariant`: count the test on the variant rollup, creating it if needed. */
  function AddVariant(n: Node, project: string, flavor: string, duration: nat): (r: Node)
    ensures r.tally == n.tally && r.devices == n.devices
    ensures r.variants == CountInRollup(n.variants, VariantKey(project, flavor), duration)
  {
    n.(variants := CountInRollup(n.variants, VariantKey(project, flavor), duration))
  }

  /** What an insertion does at one level of the tree: `addTest`, `addDevice`
      and `addVariant` for the new outcome. */
  function Record(n: Node, duration: nat, device: string, project: string, flavor: string): (r: Node)
    ensures r.tally == CountTest(n.tally, duration)
    ensures r.devices == CountInRollup(n.devices, device, duration)
    ensures r.variants == CountInRollup(n.variants, VariantKey(project, flavor), duration)
  {
    Node(CountTest(n.tally, duration),
         CountInRollup(n.devices, device, duration),
         CountInRollup(n.variants, VariantKey(project, flavor), duration))
  }

  /** Add `id` to the failure set of the rollup under `key`, if there is one. */
  function FailInRollup(m: map<string, Rollup>, key: string, id: OutcomeId): (r: map<string, Rollup>)
    ensures r.Keys == m.Keys
    ensures key in m ==> r[key] == m[key].(tally := m[key].tally.(failures := m[key].tally.failures + {id}))
    ensures forall k :: k in m && k != key ==> r[k] == m[k]
  {
    if key in m then
      var roll := m[key];
      m[key := roll.(tally := roll.tally.(failures := roll.tally.failures + {id}))]
    else m
  }

  /** Add `id` to the ignored set of the rollup under `key`, if there is one. */
  function IgnoreInRollup(m: map<string, Rollup>, key: string, id: OutcomeId): (r: map<string, Rollup>)
    ensures r.Keys == m.Keys
    ensures key in m ==> r[key] == m[key].(tally := m[key].tally.(ignored := m[key].tally.ignored + {id}))
    ensures forall k :: k in m && k != key ==> r[k] == m[k]
  {
    if key in m then
      var roll := m[key];
      m[key := roll.(tally := roll.tally.(ignored := roll.tally.ignored + {id}))]
    else m
  }

  /** `failed` at one level: the outcome joins this node's failure set and
      the failure sets of the matching device and variant rollups that
      already exist. No rollup is created and no counter changes. */
  function MarkFailed(n: Node, id: OutcomeId, device: string, project: string, flavor: string): (r: Node)
    ensures r.tally == n.tally.(failures := n.tally.failures + {id})
    ensures r.devices == FailInRollup(n.devices, device, id)
    ensures r.variants == FailInRollup(n.variants, VariantKey(project, flavor), id)
  {
    Node(n.tally.(failures := n.tally.failures + {id}),
         FailInRollup(n.devices, device, id),
         FailInRollup(n.variants, VariantKey(project, flavor), id))
  }

  /** `addIgnoredTest` at one level, with the device, project and flavor taken
      from the ignored outcome itself. */
  function MarkIgnored(n: Node, id: OutcomeId, device: string, project: string, flavor: string): (r: Node)
    ensures r.tally == n.tally.(ignored := n.tally.ignored + {id})
    ensures r.devices == IgnoreInRollup(n.devices, device, id)
    ensures r.variants == IgnoreInRollup(n.variants, VariantKey(project, flavor), id)
  {
    Node(n.tally.(ignored := n.tally.ignored + {id}),
         IgnoreInRollup(n.devices, device, id),
         IgnoreInRollup(n.variants, VariantKey(project, flavor), id))
  }

  /** Java's `BigDecimal` ROUND_DOWN division: the quotient truncated toward zero. */
  function TruncDiv(a: int, b: nat): (q: int)
    requires b > 0
    ensures a >= 0 ==> q * b <= a < (q + 1) * b
    ensures a < 0 ==> (q - 1) * b < a <= q * b
  {
    if a >= 0 then a / b else -((-a) / b)
  }

  lemma MulLeft(a: int, b: int, c: nat)
    requires a <= b
    ensures a * c <= b * c
  {
  }

  /** The bounds of the truncated percentage `hundredths` of `passed` out of `tests`. */
  lemma PercentBounds(passed: nat, tests: nat, hundredths: int)
    requires 0 < tests && passed <= tests
    requires hundredths * tests <= 100 * passed < (hundredths + 1) * tests
    ensures 0 <= hundredths <= 100
    ensures hundredths == 100 <==> passed == tests
  {
    MulLeft(passed, tests, 100);
    assert 100 * passed <= 100 * tests;
    if hundredths < 0 {
      MulLeft(hundredths + 1, 0, tests);
    }
    if hundredths >= 101 {
      MulLeft(101, hundredths, tests);
    }
    if passed == tests && hundredths < 100 {
      MulLeft(hundredths + 1, 100, tests);
    }
    if passed < tests {
      MulLeft(passed + 1, tests, 100);
    }
  }

  /** `getSuccessRate`: none when no test ran; otherwise the share of tests
      that did not fail, as a percentage with the fraction cut off. The
      quotient is taken to two decimals rounding down and then multiplied by
      100, so the percentage is the truncated quotient of 100 * passed by tests. */
  function SuccessRate(t: Tally): (r: Option<int>)
    ensures r.None? <==> t.tests == 0
    ensures r.Some? && t.FailureCount() <= t.tests ==>
              && 0 <= r.value <= 100
              && r.value * t.tests <= 100 * (t.tests - t.FailureCount()) < (r.value + 1) * t.tests
    ensures r.Some? && t.FailureCount() <= t.tests ==> (r.value == 100 <==> t.failures == {})
  {
    if t.tests == 0 then None
    else
      var passed := t.tests - t.FailureCount();
      var hundredths := TruncDiv(100 * passed, t.tests);
      assert passed >= 0 ==> 0 <= hundredths <= 100 && (hundredths == 100 <==> passed == t.tests) by {
        if passed >= 0 { PercentBounds(passed, t.tests, hundredths); }
      }
      Some(hundredths)
  }

  /** `getFormattedSuccessRate`: "-" without tests, otherwise the rate and "%". */
  function FormattedSuccessRate(t: Tally): (s: string)
    ensures |s| >= 1
    ensures s == "-" <==> t.tests == 0
    ensures t.tests > 0 ==> s[|s| - 1] == '%' && s[..|s| - 1] == IntToString(SuccessRate(t).value)
  {
    match SuccessRate(t)
    case None => "-"
    case Some(rate) => IntToString(rate) + "%"
  }

  /** Three tests with one failure pass at 66%: the rate is cut off, not rounded to 67. */
  lemma SuccessRateTruncates()
    ensures FormattedSuccessRate(Tally(3, 0, {1}, {})) == "66%"
  {
    var t := Tally(3, 0, {1}, {});
    assert t.FailureCount() == 1;
    assert SuccessRate(t) == Some(66);
    assert NatToString(66) == NatToString(6) + [DigitChar(6)];
  }

  /** `getResultType` of a node: a failure as soon as one outcome failed;
      ignored outcomes do not count. */
  function ResultTypeOf(t: Tally): (r: ResultType)
    ensures r == Failure <==> t.failures != {}
    ensures r == Success <==> t.failures == {}
  {
    if t.failures == {} then Success else Failure
  }

  /** A rendered duration: "-" or a number of milliseconds. How milliseconds
      are printed belongs to the shared test-result base class, which is not
      part of this model. */
  datatype DurationText = Dash | Millis(ms: nat)

  /** `getFormattedDuration` of a node: "-" when it holds no test. */
  function FormattedDuration(t: Tally): (r: DurationText)
    ensures r == Dash <==> t.tests == 0
    ensures r != Dash ==> r.ms == t.duration
  {
    if t.tests == 0 then Dash else Millis(t.duration)
  }
}
