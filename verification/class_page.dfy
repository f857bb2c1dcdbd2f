/** The decisions the class page makes about a class's results
    (`ClassPageRendererExt`): how the results of one test on several devices
    combine into one type, the CSS class of a type, and the heading written
    above each failure. The HTML itself is not modelled. */
module ClassPage {
  import opened Wrappers
  import opened Strings
  import opened ResultTypes
  import opened Composite
  import opened TestResult
  import opened ClassResults
  import ClassInvariants

  /** How bad a result type is: skipped, then success, then failure. */
  function Rank(t: ResultType): nat {
    match t
    case Skipped => 0
    case Success => 1
    case Failure => 2
  }

  lemma RankInjective(a: ResultType, b: ResultType)
    requires Rank(a) == Rank(b)
    ensures a == b
  {
  }

  /** `combineResultType`: the worse of the two types. */
  function Combine(current: ResultType, next: ResultType): (r: ResultType)
    ensures Rank(r) == if Rank(current) >= Rank(next) then Rank(current) else Rank(next)
  {
    match current
    case Success => if next == Failure then next else current
    case Failure => current
    case Skipped => if next != Skipped then next else current
  }

  /** Being a maximum, combining is commutative, associative and idempotent,
      a failure absorbs everything and skipped changes nothing. */
  lemma CombineIsMax(a: ResultType, b: ResultType, c: ResultType)
    ensures Combine(a, b) == Combine(b, a)
    ensures Combine(Combine(a, b), c) == Combine(a, Combine(b, c))
    ensures Combine(a, a) == a
    ensures Combine(Failure, a) == Failure && Combine(a, Failure) == Failure
    ensures Combine(Skipped, a) == a && Combine(a, Skipped) == a
  {
    RankInjective(Combine(a, b), Combine(b, a));
    RankInjective(Combine(Combine(a, b), c), Combine(a, Combine(b, c)));
    RankInjective(Combine(a, a), a);
    RankInjective(Combine(Skipped, a), a);
    RankInjective(Combine(a, Skipped), a);
  }

  /** The type of a row of the tests table: start from skipped and combine
      in the types one after the other. */
  function CombineAll(types: seq<ResultType>): ResultType
    decreases |types|
  {
    if |types| == 0 then Skipped
    else Combine(CombineAll(types[..|types| - 1]), types[|types| - 1])
  }

  /** A row is a failure if any entry is, a success if none failed and one
      succeeded, and skipped only if every entry was skipped. */
  lemma {:induction false} CombineAllIsWorst(types: seq<ResultType>)
    ensures CombineAll(types) == Failure <==> Failure in types
    ensures CombineAll(types) == Success <==> Failure !in types && Success in types
    ensures CombineAll(types) == Skipped <==> forall i :: 0 <= i < |types| ==> types[i] == Skipped
    decreases |types|
  {
    if |types| > 0 {
      var p := types[..|types| - 1];
      var x := types[|types| - 1];
      CombineAllIsWorst(p);
      assert types == p + [x];
      if CombineAll(types) == Skipped {
        forall i | 0 <= i < |types| ensures types[i] == Skipped {
          if i < |p| { assert types[i] == p[i]; }
        }
      }
      if forall i :: 0 <= i < |types| ==> types[i] == Skipped {
        assert forall i :: 0 <= i < |p| ==> p[i] == types[i];
      }
    }
  }

  /** The device -> test name -> outcome table of a class. */
  type Table = map<string, map<string, Outcome>>

  /** The types of `name` on the listed devices that ran it, in device order.
      The devices listed are keys of the table. */
  function RowTypes(t: Table, devices: seq<string>, name: string): seq<ResultType>
    requires forall i :: 0 <= i < |devices| ==> devices[i] in t
    decreases |devices|
  {
    if |devices| == 0 then []
    else
      var rest := RowTypes(t, devices[..|devices| - 1], name);
      var d := devices[|devices| - 1];
      if name in t[d] then rest + [t[d][name].ResultType()] else rest
  }

  /** A type is in the row exactly when some listed device ran the test with that type. */
  lemma {:induction false} RowTypesMembers(t: Table, devices: seq<string>, name: string, x: ResultType)
    requires forall i :: 0 <= i < |devices| ==> devices[i] in t
    ensures x in RowTypes(t, devices, name) <==>
              exists i :: 0 <= i < |devices| && name in t[devices[i]] && t[devices[i]][name].ResultType() == x
    decreases |devices|
  {
    if |devices| > 0 {
      var p := devices[..|devices| - 1];
      RowTypesMembers(t, p, name, x);
      if exists i :: 0 <= i < |devices| && name in t[devices[i]] && t[devices[i]][name].ResultType() == x {
        var i :| 0 <= i < |devices| && name in t[devices[i]] && t[devices[i]][name].ResultType() == x;
        if i < |p| { assert p[i] == devices[i]; }
      }
      if x in RowTypes(t, p, name) {
        var i :| 0 <= i < |p| && name in t[p[i]] && t[p[i]][name].ResultType() == x;
        assert devices[i] == p[i];
      }
    }
  }

  /** The type `renderTests` computes for the row of `name`, combining over
      the devices of the table in ascending order. */
  function RowType(t: Table, devices: seq<string>, name: string): ResultType
    requires forall i :: 0 <= i < |devices| ==> devices[i] in t
  {
    CombineAll(RowTypes(t, devices, name))
  }

  /** Whatever the device order, the row of a test is a failure exactly when
      it failed on some device, and skipped exactly when no device ran it
      with another result. */
  lemma RowTypeIsWorst(t: Table, devices: seq<string>, name: string)
    requires forall i :: 0 <= i < |devices| ==> devices[i] in t
    requires forall d :: d in t ==> d in devices
    ensures RowType(t, devices, name) == Failure <==>
              exists d :: d in t && name in t[d] && t[d][name].ResultType() == Failure
    ensures RowType(t, devices, name) == Skipped <==>
              forall d :: d in t && name in t[d] ==> t[d][name].ResultType() == Skipped
  {
    var types := RowTypes(t, devices, name);
    CombineAllIsWorst(types);
    RowTypesMembers(t, devices, name, Failure);
    RowTypesMembers(t, devices, name, Success);
    if exists d :: d in t && name in t[d] && t[d][name].ResultType() == Failure {
      var d :| d in t && name in t[d] && t[d][name].ResultType() == Failure;
      var i :| 0 <= i < |devices| && devices[i] == d;
    }
    if exists d :: d in t && name in t[d] && t[d][name].ResultType() == Success {
      var d :| d in t && name in t[d] && t[d][name].ResultType() == Success;
      var i :| 0 <= i < |devices| && devices[i] == d;
    }
  }

  /** `getStatusClass`: the CSS class of a result type. */
  function StatusClass(t: ResultType): (s: string)
    ensures StatusOf(s) == Some(t)
  {
    match t
    case Success => "success"
    case Failure => "failures"
    case Skipped => "skipped"
  }

  /** Reading a CSS class back. */
  function StatusOf(s: string): Option<ResultType> {
    if s == "success" then Some(Success)
    else if s == "failures" then Some(Failure)
    else if s == "skipped" then Some(Skipped)
    else None
  }

  /** Different types get different classes. */
  lemma StatusClassInjective(a: ResultType, b: ResultType)
    requires StatusClass(a) == StatusClass(b)
    ensures a == b
  {
    assert StatusOf(StatusClass(a)) == Some(a);
  }

  /** `TestPercent`: on how many devices a test failed, out of how many ran it. */
  datatype Percent = Percent(failed: nat, total: nat)
  {
    predicate IsFullFailure() { failed == total }
  }

  /** The devices among `ds` whose entry for `name` failed. */
  function FailedOn(t: Table, name: string, ds: set<string>): set<string> {
    set d | d in ds && d in t && name in t[d] && t[d][name].ResultType() == Failure
  }

  /** The devices among `ds` whose entry for `name` was not skipped. */
  function RanOn(t: Table, name: string, ds: set<string>): set<string> {
    set d | d in ds && d in t && name in t[d] && t[d][name].ResultType() != Skipped
  }

  /** The counts of a test over all devices of the table. A full failure is
      a test that failed on every device that ran it. */
  function PercentOf(t: Table, name: string): (p: Percent)
    ensures p.failed <= p.total
    ensures p.IsFullFailure() <==> FailedOn(t, name, t.Keys) == RanOn(t, name, t.Keys)
  {
    var failed := FailedOn(t, name, t.Keys);
    var ran := RanOn(t, name, t.Keys);
    ClassInvariants.SubsetCard(failed, ran);
    assert |failed| == |ran| ==> failed == ran by {
      if |failed| == |ran| {
        assert ran == failed + (ran - failed);
      }
    }
    Percent(|failed|, |ran|)
  }

  /** Visiting one more device adds at most that device to the failed count. */
  lemma FailedStep(t: Table, name: string, done: set<string>, d: string)
    requires d in t && d !in done
    ensures |FailedOn(t, name, done + {d})| ==
              |FailedOn(t, name, done)| + if name in t[d] && t[d][name].ResultType() == Failure then 1 else 0
  {
    if name in t[d] && t[d][name].ResultType() == Failure {
      assert FailedOn(t, name, done + {d}) == FailedOn(t, name, done) + {d};
    } else {
      assert FailedOn(t, name, done + {d}) == FailedOn(t, name, done);
    }
  }

  /** Visiting one more device adds at most that device to the total. */
  lemma RanStep(t: Table, name: string, done: set<string>, d: string)
    requires d in t && d !in done
    ensures |RanOn(t, name, done + {d})| ==
              |RanOn(t, name, done)| + if name in t[d] && t[d][name].ResultType() != Skipped then 1 else 0
  {
    if name in t[d] && t[d][name].ResultType() != Skipped {
      assert RanOn(t, name, done + {d}) == RanOn(t, name, done) + {d};
    } else {
      assert RanOn(t, name, done + {d}) == RanOn(t, name, done);
    }
  }

  /** The counting loop of `renderFailures`: one visit per device of the table. */
  method CountPercent(t: Table, name: string) returns (p: Percent)
    ensures p == PercentOf(t, name)
  {
    var failed, total := 0, 0;
    var todo := t.Keys;
    while todo != {}
      invariant todo <= t.Keys
      invariant failed == |FailedOn(t, name, t.Keys - todo)|
      invariant total == |RanOn(t, name, t.Keys - todo)|
      decreases |todo|
    {
      var d :| d in todo;
      FailedStep(t, name, t.Keys - todo, d);
      RanStep(t, name, t.Keys - todo, d);
      assert t.Keys - (todo - {d}) == (t.Keys - todo) + {d};
      var entries := t[d];
      if name in entries {
        var r := entries[name].ResultType();
        if r == Failure {
          failed := failed + 1;
        }
        if r != Skipped {
          total := total + 1;
        }
      }
      todo := todo - {d};
    }
    assert t.Keys - todo == t.Keys;
    p := Percent(failed, total);
  }

  /** The heading of a failure: just the test name when a single device ran
      the test, "[all devices]" when it failed wherever it ran, and otherwise
      the device and the counts. */
  function Label(name: string, device: string, p: Percent): (r: string)
    ensures StartsWith(r, name)
    ensures r == name <==> p.total == 1
  {
    if p.total == 1 then name
    else if p.IsFullFailure() then name + " [all devices]"
    else name + " [" + device + "] (on " + NatToString(p.failed) + "/" + NatToString(p.total) + " devices)"
  }

  /** Two numbers written as digits, each followed by a '/', can be told apart. */
  lemma DigitsBeforeSlash(a: nat, b: nat, x: string, y: string)
    requires NatToString(a) + "/" + x == NatToString(b) + "/" + y
    ensures a == b && x == y
  {
    assert '/' !in NatToString(a) && '/' !in NatToString(b);
    SplitAtFirst(NatToString(a), '/', x, NatToString(b), y);
    NatToStringInjective(a, b);
  }

  /** A heading that is not the bare name is longer when it shows counts. */
  lemma LabelLength(name: string, device: string, p: Percent)
    requires p.total != 1
    ensures p.IsFullFailure() ==> |Label(name, device, p)| == |name| + 14
    ensures !p.IsFullFailure() ==> |Label(name, device, p)| > |name| + 14
  {
  }

  /** A heading tells its case, and the counts can be read back from a
      heading that shows them: two headings for the same test and device
      differ whenever their counts do. */
  lemma LabelReadsBack(name: string, device: string, p: Percent, q: Percent)
    requires p.total != 1 && q.total != 1
    requires Label(name, device, p) == Label(name, device, q)
    ensures p.IsFullFailure() <==> q.IsFullFailure()
    ensures !p.IsFullFailure() ==> p == q
  {
    var lp, lq := Label(name, device, p), Label(name, device, q);
    LabelLength(name, device, p);
    LabelLength(name, device, q);
    if !p.IsFullFailure() {
      var head := name + " [" + device + "] (on ";
      var fp := NatToString(p.failed) + "/" + (NatToString(p.total) + " devices)");
      var fq := NatToString(q.failed) + "/" + (NatToString(q.total) + " devices)");
      assert lp == head + fp;
      assert lq == head + fq;
      assert fp == lp[|head|..] == fq;
      DigitsBeforeSlash(p.failed, q.failed, NatToString(p.total) + " devices)", NatToString(q.total) + " devices)");
      var tp, tq := NatToString(p.total), NatToString(q.total);
      assert tp == (tp + " devices)")[..|tp|];
      assert tq == (tq + " devices)")[..|tq|];
      NatToStringInjective(p.total, q.total);
    }
  }

  /** `getFailures` of a class: its failed outcomes, in result order. */
  function Failed(s: seq<Outcome>, failures: set<OutcomeId>): (r: seq<Outcome>)
    ensures forall o :: o in r <==> o in s && o.id in failures
    ensures Sorted(s) ==> Sorted(r)
    decreases |s|
  {
    if |s| == 0 then []
    else
      var rest := Failed(s[1..], failures);
      assert forall o :: o in s[1..] ==> o in s;
      if s[0].id in failures then
        assert Sorted(s) ==> forall j :: 0 <= j < |rest| ==> Precedes(s[0], rest[j]) by {
          if Sorted(s) {
            forall j | 0 <= j < |rest| ensures Precedes(s[0], rest[j]) {
              var k :| 1 <= k < |s| && s[k] == rest[j];
            }
          }
        }
        [s[0]] + rest
      else rest
  }

  function FailedOutcomes(c: ClassNode): seq<Outcome> {
    Failed(c.results, c.node.tally.failures)
  }

  /** One failure section: the test name, which is also its anchor, and its heading. */
  datatype Heading = Heading(name: string, text: string)

  function NamesOf(s: seq<Outcome>): set<string> {
    set i | 0 <= i < |s| :: s[i].name
  }

  /** The failure sections of a page, one per failed outcome in order, except
      that a test that failed on every device gets only the first. */
  function Headings(fs: seq<Outcome>, t: Table): seq<Heading>
    decreases |fs|
  {
    if |fs| == 0 then []
    else
      var prev := Headings(fs[..|fs| - 1], t);
      var o := fs[|fs| - 1];
      var p := PercentOf(t, o.name);
      if o.name in NamesOf(fs[..|fs| - 1]) && p.IsFullFailure() then prev
      else prev + [Heading(o.name, Label(o.name, o.device, p))]
  }

  /** The sections of one more failed outcome. */
  lemma HeadingsStep(fs: seq<Outcome>, i: nat, t: Table)
    requires i < |fs|
    ensures NamesOf(fs[..i + 1]) == NamesOf(fs[..i]) + {fs[i].name}
    ensures var o, p := fs[i], PercentOf(t, fs[i].name);
            Headings(fs[..i + 1], t) ==
              if o.name in NamesOf(fs[..i]) && p.IsFullFailure() then Headings(fs[..i], t)
              else Headings(fs[..i], t) + [Heading(o.name, Label(o.name, o.device, p))]
  {
    assert fs[..i + 1][..i] == fs[..i];
  }

  /** `renderFailures`: the counts of each test name are computed once and
      remembered; a test already known to fail everywhere is skipped. The
      memo changes nothing: the sections are those of `Headings`. */
  method RenderFailures(c: ClassNode) returns (h: seq<Heading>)
    ensures h == Headings(FailedOutcomes(c), TestResultsMap(c.results))
  {
    var t := TestResultsMap(c.results);
    var fs := FailedOutcomes(c);
    var memo: map<string, Percent> := map[];
    h := [];
    var i := 0;
    while i < |fs|
      invariant 0 <= i <= |fs|
      invariant memo.Keys == NamesOf(fs[..i])
      invariant forall n :: n in memo ==> memo[n] == PercentOf(t, n)
      invariant h == Headings(fs[..i], t)
    {
      var o := fs[i];
      HeadingsStep(fs, i, t);
      if o.name in memo && memo[o.name].IsFullFailure() {
      } else {
        var p;
        if o.name in memo {
          p := memo[o.name];
        } else {
          p := CountPercent(t, o.name);
          memo := memo[o.name := p];
        }
        h := h + [Heading(o.name, Label(o.name, o.device, p))];
      }
      i := i + 1;
    }
    assert fs[..|fs|] == fs;
  }

  function HeadingNames(h: seq<Heading>): set<string> {
    set i | 0 <= i < |h| :: h[i].name
  }

  /** Sections are written only for failed outcomes, and every failed test
      name gets at least one. */
  lemma {:induction false} HeadingsCoverNames(fs: seq<Outcome>, t: Table)
    ensures HeadingNames(Headings(fs, t)) == NamesOf(fs)
    decreases |fs|
  {
    if |fs| > 0 {
      var n := |fs| - 1;
      var p := fs[..n];
      HeadingsCoverNames(p, t);
      HeadingsStep(fs, n, t);
      assert fs[..n + 1] == fs;
      var h, hp := Headings(fs, t), Headings(p, t);
      if |h| > |hp| {
        assert HeadingNames(h) == HeadingNames(hp) + {fs[n].name} by {
          assert forall i :: 0 <= i < |hp| ==> h[i] == hp[i];
          assert h[|hp|].name == fs[n].name;
        }
      }
    }
  }

  /** A test that failed on every device that ran it has one section at most. */
  lemma {:induction false} FullFailureHeadedOnce(fs: seq<Outcome>, t: Table)
    ensures var h := Headings(fs, t);
            forall i, j :: 0 <= i < j < |h| && h[i].name == h[j].name ==>
              !PercentOf(t, h[i].name).IsFullFailure()
    decreases |fs|
  {
    if |fs| > 0 {
      var n := |fs| - 1;
      var p := fs[..n];
      var o := fs[n];
      FullFailureHeadedOnce(p, t);
      HeadingsCoverNames(p, t);
      HeadingsStep(fs, n, t);
      assert fs[..n + 1] == fs;
      var h, hp := Headings(fs, t), Headings(p, t);
      if |h| > |hp| {
        assert forall i :: 0 <= i < |hp| ==> h[i] == hp[i];
        forall i | 0 <= i < |hp| && hp[i].name == o.name
          ensures !PercentOf(t, o.name).IsFullFailure()
        {
          assert o.name in HeadingNames(hp);
        }
      }
    }
  }
}
