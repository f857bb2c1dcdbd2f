/** Sums of a natural-number measure, and unions of a set-valued measure,
    over the values of a finite map: a parent's counters are the totals of
    its children's, and its failure and ignored sets the unions of theirs. */
module Sums {

  /** Some element of a non-empty set. */
  ghost function Pick<K>(s: set<K>): (k: K)
    requires s != {}
    ensures k in s
  {
    var k :| k in s; k
  }

  /** The sum of `f` over all values of `m`. */
  ghost function SumOf<K, V>(m: map<K, V>, f: V -> nat): nat
    decreases |m|
  {
    if |m| == 0 then 0
    else
      var k := Pick(m.Keys);
      assert |m - {k}| == |m| - 1 by { assert (m - {k}).Keys == m.Keys - {k}; }
      f(m[k]) + SumOf(m - {k}, f)
  }

  /** Any key can be taken out first, whichever one `SumOf` happens to pick. */
  lemma {:induction false} SumOfRemove<K, V>(m: map<K, V>, f: V -> nat, k: K)
    requires k in m
    ensures SumOf(m, f) == f(m[k]) + SumOf(m - {k}, f)
    decreases |m|
  {
    var j := Pick(m.Keys);
    if j != k {
      var mj, mk := m - {j}, m - {k};
      assert mj.Keys == m.Keys - {j};
      assert mk.Keys == m.Keys - {k};
      SumOfRemove(mj, f, k);
      SumOfRemove(mk, f, j);
      assert mj - {k} == mk - {j};
    }
  }

  /** Overwriting (or adding) one entry changes the sum by that entry's difference. */
  lemma SumOfUpdate<K, V>(m: map<K, V>, f: V -> nat, k: K, v: V)
    ensures SumOf(m[k := v], f) == SumOf(m, f) - (if k in m then f(m[k]) else 0) + f(v)
  {
    var m' := m[k := v];
    SumOfRemove(m', f, k);
    assert m' - {k} == m - {k};
    if k in m {
      SumOfRemove(m, f, k);
    } else {
      assert m - {k} == m;
    }
  }

  /** Two measures that agree on every value of `m` have the same sum over it. */
  lemma {:induction false} SumOfAgree<K, V>(m: map<K, V>, f: V -> nat, g: V -> nat)
    requires forall k :: k in m ==> f(m[k]) == g(m[k])
    ensures SumOf(m, f) == SumOf(m, g)
    decreases |m|
  {
    if |m| > 0 {
      var k := Pick(m.Keys);
      assert (m - {k}).Keys == m.Keys - {k};
      SumOfAgree(m - {k}, f, g);
    }
  }

  /** The union of `f` over all values of `m`. */
  ghost function UnionOf<K, V, T>(m: map<K, V>, f: V -> set<T>): set<T> {
    set k, x | k in m && x in f(m[k]) :: x
  }

  /** Growing one entry's set by `extra` (or adding an entry whose set is
      `extra`) grows the union by `extra`. */
  lemma UnionOfUpdate<K, V, T>(m: map<K, V>, f: V -> set<T>, k: K, v: V, extra: set<T>)
    requires f(v) == (if k in m then f(m[k]) else {}) + extra
    ensures UnionOf(m[k := v], f) == UnionOf(m, f) + extra
  {
    var m' := m[k := v];
    forall x | x in UnionOf(m', f) ensures x in UnionOf(m, f) + extra {
      var j :| j in m' && x in f(m'[j]);
      if j != k { assert j in m && x in f(m[j]); }
    }
    forall x | x in UnionOf(m, f) ensures x in UnionOf(m', f) {
      var j :| j in m && x in f(m[j]);
      if j != k { assert j in m' && x in f(m'[j]); } else { assert k in m' && x in f(m'[k]); }
    }
    forall x | x in extra ensures x in UnionOf(m', f) {
      assert k in m' && x in f(m'[k]);
    }
  }

  lemma UnionOfRemove<K, V, T>(m: map<K, V>, f: V -> set<T>, k: K)
    requires k in m
    ensures UnionOf(m, f) == f(m[k]) + UnionOf(m - {k}, f)
  {
    var rest := m - {k};
    forall x | x in UnionOf(m, f) ensures x in f(m[k]) + UnionOf(rest, f) {
      var j :| j in m && x in f(m[j]);
      if j != k { assert j in rest && x in f(rest[j]); }
    }
    forall x | x in UnionOf(rest, f) ensures x in UnionOf(m, f) {
      var j :| j in rest && x in f(rest[j]);
      assert j in m && x in f(m[j]);
    }
    forall x | x in f(m[k]) ensures x in UnionOf(m, f) {
      assert k in m && x in f(m[k]);
    }
  }

  /** A union is no larger than the sum of bounds on its parts. */
  lemma {:induction false} UnionOfBound<K, V, T>(m: map<K, V>, f: V -> set<T>, g: V -> nat)
    requires forall k :: k in m ==> |f(m[k])| <= g(m[k])
    ensures |UnionOf(m, f)| <= SumOf(m, g)
    decreases |m|
  {
    if |m| == 0 {
      assert UnionOf(m, f) == {};
    } else {
      var k := Pick(m.Keys);
      var rest := m - {k};
      assert rest.Keys == m.Keys - {k};
      UnionOfBound(rest, f, g);
      UnionOfRemove(m, f, k);
      var a, b := f(m[k]), UnionOf(rest, f);
      assert |a + b| + |a * b| == |a| + |b|;
    }
  }
}
