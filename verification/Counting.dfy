/** Occurrence counters kept in a map, and their total. */
module Counting {
  function Get<K(==)>(m: map<K, nat>, k: K): nat {
    if k in m then m[k] else 0
  }

  /** `m[k] = m.get(k, 0) + 1` */
  function Bump<K(==)>(m: map<K, nat>, k: K): map<K, nat> {
    m[k := Get(m, k) + 1]
  }

  /** `sum(m.values())` */
  ghost function Total<K>(m: map<K, nat>): nat {
    if m == map[] then 0 else
      var k :| k in m;
      m[k] + Total(m - {k})
  }

  lemma {:induction false} TotalAt<K>(m: map<K, nat>, k: K)
    requires k in m
    ensures Total(m) == m[k] + Total(m - {k})
  {
    var j :| j in m && Total(m) == m[j] + Total(m - {j});
    if j != k {
      TotalAt(m - {j}, k);
      TotalAt(m - {k}, j);
      assert m - {j} - {k} == m - {k} - {j};
    }
  }

  lemma TotalBump<K>(m: map<K, nat>, k: K)
    ensures Total(Bump(m, k)) == Total(m) + 1
  {
    TotalAt(Bump(m, k), k);
    assert Bump(m, k) - {k} == m - {k};
    if k in m {
      TotalAt(m, k);
    } else {
      assert m - {k} == m;
    }
  }

  /** With every count at most two the total is at most twice the number of keys. */
  lemma {:induction false} TotalAtMostTwo<K>(m: map<K, nat>)
    requires forall k :: k in m ==> m[k] <= 2
    ensures Total(m) <= 2 * |m|
    decreases |m|
  {
    if m != map[] {
      var k :| k in m;
      var rest := m - {k};
      TotalAt(m, k);
      assert m.Keys == rest.Keys + {k};
      assert |m| == |rest| + 1;
      TotalAtMostTwo(rest);
    }
  }

  method SumValues<K(==)>(m: map<K, nat>) returns (n: nat)
    ensures n == Total(m)
  {
    n := 0;
    var rest := m;
    while rest != map[]
      invariant n + Total(rest) == Total(m)
      decreases |rest|
    {
      var k :| k in rest;
      TotalAt(rest, k);
      assert rest.Keys == (rest - {k}).Keys + {k};
      n := n + rest[k];
      rest := rest - {k};
    }
  }
}
