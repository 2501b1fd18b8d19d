/** The total length of the sequences held in a map. */
module MapTotals {
  ghost function Total<K, V>(m: map<K, seq<V>>): nat {
    if m == map[] then 0
    else
      var k :| k in m;
      |m[k]| + Total(m - {k})
  }

  lemma {:induction false} TotalWithout<K, V>(m: map<K, seq<V>>, k: K)
    requires k in m
    ensures Total(m) == |m[k]| + Total(m - {k})
    decreases |m|
  {
    var j :| j in m && Total(m) == |m[j]| + Total(m - {j});
    if j != k {
      TotalWithout(m - {j}, k);
      TotalWithout(m - {k}, j);
      assert m - {j} - {k} == m - {k} - {j};
    }
  }

  lemma TotalUpdate<K, V>(m: map<K, seq<V>>, k: K, v: seq<V>)
    ensures Total(m[k := v]) == Total(m) - (if k in m then |m[k]| else 0) + |v|
  {
    TotalWithout(m[k := v], k);
    assert m[k := v] - {k} == m - {k};
    if k in m {
      TotalWithout(m, k);
    } else {
      assert m - {k} == m;
    }
  }

  lemma TotalRemove<K, V>(m: map<K, seq<V>>, k: K)
    ensures Total(m - {k}) == Total(m) - (if k in m then |m[k]| else 0)
  {
    if k in m {
      TotalWithout(m, k);
    } else {
      assert m - {k} == m;
    }
  }
}
