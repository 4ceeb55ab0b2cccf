/** Counting: the multiset of reply senders held in the values of a map, and the size of subsets. */
module Bags {

  ghost function Total<K, V>(m: map<K, V>, f: V -> multiset<nat>): multiset<nat>
    decreases |m|
  {
    if m == map[] then multiset{}
    else
      var k :| k in m;
      Total(m - {k}, f) + f(m[k])
  }

  lemma {:induction false} TotalRemove<K, V>(m: map<K, V>, f: V -> multiset<nat>, k: K)
    requires k in m
    ensures Total(m, f) == Total(m - {k}, f) + f(m[k])
    decreases |m|
  {
    var c :| c in m && Total(m, f) == Total(m - {c}, f) + f(m[c]);
    if c != k {
      TotalRemove(m - {c}, f, k);
      TotalRemove(m - {k}, f, c);
      assert m - {c} - {k} == m - {k} - {c};
    }
  }

  lemma TotalInsert<K, V>(m: map<K, V>, f: V -> multiset<nat>, k: K, v: V)
    requires k !in m
    ensures Total(m[k := v], f) == Total(m, f) + f(v)
  {
    TotalRemove(m[k := v], f, k);
    assert m[k := v] - {k} == m;
  }

  /** Replacing a value exchanges its senders. */
  lemma TotalReplace<K, V>(m: map<K, V>, f: V -> multiset<nat>, k: K, v: V)
    requires k in m
    ensures Total(m[k := v], f) + f(m[k]) == Total(m, f) + f(v)
  {
    TotalRemove(m, f, k);
    TotalRemove(m[k := v], f, k);
    assert m[k := v] - {k} == m - {k};
  }

  lemma TotalReplaceSame<K, V>(m: map<K, V>, f: V -> multiset<nat>, k: K, v: V)
    requires k in m && f(v) == f(m[k])
    ensures Total(m[k := v], f) == Total(m, f)
  {
    TotalRemove(m, f, k);
    TotalRemove(m[k := v], f, k);
    assert m[k := v] - {k} == m - {k};
  }

  /** A sender counted in the total is counted in some value. */
  lemma {:induction false} TotalMember<K, V>(m: map<K, V>, f: V -> multiset<nat>, s: nat)
    ensures s in Total(m, f) <==> exists k :: k in m && s in f(m[k])
    decreases |m|
  {
    if m != map[] {
      var c :| c in m && Total(m, f) == Total(m - {c}, f) + f(m[c]);
      TotalMember(m - {c}, f, s);
      if s in Total(m - {c}, f) {
        var k :| k in m - {c} && s in f((m - {c})[k]);
        assert k in m && m[k] == (m - {c})[k];
      }
      if k :| k in m && s in f(m[k]) {
        if k != c { assert k in m - {c}; }
      }
    }
  }

  lemma SubsetCount<T>(a: set<T>, b: set<T>)
    requires a <= b
    ensures |a| <= |b| && (|a| == |b| ==> a == b)
  {
    assert b == a + (b - a);
    assert |b| == |a| + |b - a|;
  }
}
