/** Iteration over a map keyed by strings in ascending key order, as Java's
    `TreeMap.values()` yields it. */
module TreeMaps {
  import opened Strings

  predicate StrictlyAscending(ks: seq<string>) {
    forall i, j :: 0 <= i < j < |ks| ==> Less(ks[i], ks[j])
  }

  /** Every non-empty set of strings has a least element. */
  lemma {:induction false} Least(s: set<string>) returns (m: string)
    requires s != {}
    ensures m in s && forall x :: x in s && x != m ==> Less(m, x)
    decreases |s|
  {
    var x :| x in s;
    if s == {x} {
      m := x;
    } else {
      var m' := Least(s - {x});
      LessTotal(x, m');
      if Less(x, m') {
        m := x;
        forall y | y in s && y != x ensures Less(x, y) {
          if y != m' { LessTransitive(x, m', y); }
        }
      } else {
        m := m';
      }
    }
  }

  /** The keys of `m` in ascending order, each once, with their values. */
  method InKeyOrder<V>(m: map<string, V>) returns (keys: seq<string>, values: seq<V>)
    ensures StrictlyAscending(keys)
    ensures forall k :: k in keys <==> k in m
    ensures |keys| == |m| == |values|
    ensures forall i :: 0 <= i < |keys| ==> values[i] == m[keys[i]]
  {
    keys, values := [], [];
    var rest := m.Keys;
    while rest != {}
      invariant rest <= m.Keys
      invariant forall k :: k in keys <==> k in m && k !in rest
      invariant StrictlyAscending(keys)
      invariant forall i, k :: 0 <= i < |keys| && k in rest ==> Less(keys[i], k)
      invariant |keys| + |rest| == |m| && |values| == |keys|
      invariant forall i :: 0 <= i < |keys| ==> values[i] == m[keys[i]]
      decreases |rest|
    {
      ghost var smallest := Least(rest);
      var least :| least in rest && forall x :: x in rest && x != least ==> Less(least, x);
      keys, values := keys + [least], values + [m[least]];
      rest := rest - {least};
    }
  }
}
