/** Totals over finite maps, how one update changes them, and sizes of finite sets. */
module Sums {

  ghost function TotalOn<K>(keys: set<K>, m: map<K, int>): int
    requires keys <= m.Keys
  {
    if keys == {} then 0
    else
      var k :| k in keys;
      m[k] + TotalOn(keys - {k}, m)
  }

  ghost function Total<K>(m: map<K, int>): int {
    TotalOn(m.Keys, m)
  }

  lemma {:induction false} TotalOnRemove<K>(keys: set<K>, m: map<K, int>, k: K)
    requires keys <= m.Keys && k in keys
    ensures TotalOn(keys, m) == m[k] + TotalOn(keys - {k}, m)
    decreases keys
  {
    var p :| p in keys && TotalOn(keys, m) == m[p] + TotalOn(keys - {p}, m);
    if p != k {
      TotalOnRemove(keys - {p}, m, k);
      TotalOnRemove(keys - {k}, m, p);
      assert keys - {p} - {k} == keys - {k} - {p};
    }
  }

  lemma {:induction false} TotalOnAgree<K>(keys: set<K>, m: map<K, int>, n: map<K, int>)
    requires keys <= m.Keys && keys <= n.Keys
    requires forall k :: k in keys ==> m[k] == n[k]
    ensures TotalOn(keys, m) == TotalOn(keys, n)
    decreases keys
  {
    if keys != {} {
      var p :| p in keys && TotalOn(keys, m) == m[p] + TotalOn(keys - {p}, m);
      TotalOnRemove(keys, n, p);
      TotalOnAgree(keys - {p}, m, n);
    }
  }

  lemma TotalUpdate<K>(m: map<K, int>, k: K, v: int)
    ensures Total(m[k := v]) == Total(m) + v - (if k in m then m[k] else 0)
  {
    var n := m[k := v];
    TotalOnRemove(n.Keys, n, k);
    assert n.Keys - {k} == m.Keys - {k};
    TotalOnAgree(m.Keys - {k}, m, n);
    if k in m {
      TotalOnRemove(m.Keys, m, k);
    } else {
      assert m.Keys - {k} == m.Keys;
    }
  }

  lemma SubsetSize<T>(small: set<T>, big: set<T>)
    requires small <= big
    ensures |small| <= |big|
  {
    assert big == small + (big - small);
  }

  function Below(k: nat): (ids: set<nat>)
    ensures forall r: nat :: r in ids <==> r < k
    ensures |ids| == k
  {
    if k == 0 then {} else Below(k - 1) + {k - 1}
  }
}
