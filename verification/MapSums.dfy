/** Sums of the counts a map holds, whichever order its keys are met in. */
module MapSums {

  function At<K>(m: map<K, int>, k: K): int { if k in m then m[k] else 0 }

  /** The sum of the counts at the given keys; an absent key counts for nothing. */
  ghost function SumAt<K>(m: map<K, int>, keys: set<K>): int
    decreases keys
  {
    if keys == {} then 0
    else
      var k :| k in keys;
      At(m, k) + SumAt(m, keys - {k})
  }

  ghost function Sum<K>(m: map<K, int>): int { SumAt(m, m.Keys) }

  lemma {:induction false} SumWithout<K>(m: map<K, int>, keys: set<K>, k: K)
    requires k in keys
    ensures SumAt(m, keys) == At(m, k) + SumAt(m, keys - {k})
    decreases keys
  {
    var j :| j in keys && SumAt(m, keys) == At(m, j) + SumAt(m, keys - {j});
    if j != k {
      SumWithout(m, keys - {j}, k);
      SumWithout(m, keys - {k}, j);
      assert keys - {j} - {k} == keys - {k} - {j};
    }
  }

  lemma {:induction false} SumSplit<K>(m: map<K, int>, a: set<K>, b: set<K>)
    requires a !! b
    ensures SumAt(m, a + b) == SumAt(m, a) + SumAt(m, b)
    decreases a
  {
    if a == {} {
      assert a + b == b;
    } else {
      var k :| k in a;
      SumWithout(m, a, k);
      SumWithout(m, a + b, k);
      assert a + b - {k} == (a - {k}) + b;
      SumSplit(m, a - {k}, b);
    }
  }

  lemma {:induction false} SumAgrees<K>(m: map<K, int>, n: map<K, int>, keys: set<K>)
    requires forall k :: k in keys ==> At(m, k) == At(n, k)
    ensures SumAt(m, keys) == SumAt(n, keys)
    decreases keys
  {
    if keys != {} {
      var k :| k in keys;
      SumWithout(m, keys, k);
      SumWithout(n, keys, k);
      SumAgrees(m, n, keys - {k});
    }
  }

  lemma {:induction false} SumIsNatural<K>(m: map<K, int>, keys: set<K>)
    requires forall k :: k in m ==> m[k] >= 0
    ensures SumAt(m, keys) >= 0
    decreases keys
  {
    if keys != {} {
      var k :| k in keys;
      SumWithout(m, keys, k);
      SumIsNatural(m, keys - {k});
    }
  }

  /** Setting one count moves the sum by the difference. */
  lemma {:induction false} SumUpdate<K>(m: map<K, int>, k: K, v: int)
    ensures Sum(m[k := v]) + At(m, k) == Sum(m) + v
  {
    var n := m[k := v];
    SumWithout(n, n.Keys, k);
    SumAgrees(m, n, m.Keys - {k});
    assert n.Keys - {k} == m.Keys - {k};
    if k in m { SumWithout(m, m.Keys, k); } else { assert m.Keys - {k} == m.Keys; }
  }

  lemma {:induction false} SumRemove<K>(m: map<K, int>, k: K)
    ensures Sum(m - {k}) + At(m, k) == Sum(m)
  {
    var n := m - {k};
    assert n.Keys == m.Keys - {k};
    SumAgrees(m, n, m.Keys - {k});
    if k in m { SumWithout(m, m.Keys, k); } else { assert n == m; }
  }
}
