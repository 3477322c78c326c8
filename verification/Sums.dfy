/** Sums over finite maps, independent of iteration order. */
module Sums {
  ghost function Total<K>(m: map<K, nat>): nat
    decreases |m|
  {
    if m == map[] then 0
    else
      var k :| k in m;
      Smaller(m, k);
      m[k] + Total(m - {k})
  }

  lemma Smaller<K, V>(m: map<K, V>, k: K)
    requires k in m
    ensures |m - {k}| == |m| - 1
  {
    assert (m - {k}).Keys == m.Keys - {k};
    assert |m.Keys - {k}| == |m.Keys| - 1;
  }

  lemma {:induction false} TotalRemove<K>(m: map<K, nat>, k: K)
    requires k in m
    ensures Total(m) == m[k] + Total(m - {k})
    decreases |m|
  {
    var j :| j in m && Total(m) == m[j] + Total(m - {j});
    if j != k {
      Smaller(m, j);
      Smaller(m, k);
      TotalRemove(m - {j}, k);
      TotalRemove(m - {k}, j);
      assert m - {j} - {k} == m - {k} - {j};
    }
  }

  lemma TotalUpdate<K>(m: map<K, nat>, k: K, v: nat)
    ensures Total(m[k := v]) == Total(m - {k}) + v
    ensures k in m ==> Total(m[k := v]) == Total(m) - m[k] + v
    ensures k !in m ==> Total(m[k := v]) == Total(m) + v
  {
    TotalRemove(m[k := v], k);
    assert m[k := v] - {k} == m - {k};
    if k in m {
      TotalRemove(m, k);
    } else {
      assert m - {k} == m;
    }
  }

  function At<K(==)>(m: map<K, nat>, k: K): nat {
    if k in m then m[k] else 0
  }

  lemma TotalAt<K>(m: map<K, nat>, k: K)
    ensures Total(m) == Total(m - {k}) + At(m, k)
  {
    if k in m {
      TotalRemove(m, k);
    } else {
      assert m - {k} == m;
    }
  }

  /** Bounded values sum to at most the bound times their number. */
  lemma {:induction false} TotalBound<K>(m: map<K, nat>, bound: nat)
    requires forall k :: k in m ==> m[k] <= bound
    ensures Total(m) <= bound * |m|
    decreases |m|
  {
    if m != map[] {
      var k :| k in m && Total(m) == m[k] + Total(m - {k});
      Smaller(m, k);
      TotalBound(m - {k}, bound);
      OneMore(bound, |m - {k}|);
    }
  }

  lemma OneMore(a: nat, n: nat)
    ensures a * (n + 1) == a * n + a
  {
  }

  lemma {:induction false} TotalZero<K>(m: map<K, nat>)
    ensures Total(m) == 0 <==> forall k :: k in m ==> m[k] == 0
    decreases |m|
  {
    if m != map[] {
      var k :| k in m && Total(m) == m[k] + Total(m - {k});
      Smaller(m, k);
      TotalZero(m - {k});
      if forall j :: j in m - {k} ==> (m - {k})[j] == 0 {
        assert forall j :: j in m && j != k ==> j in m - {k};
      } else {
        var j :| j in m - {k} && (m - {k})[j] != 0;
        assert m[j] != 0;
      }
    }
  }

  /** A set of integers fits between its bounds. */
  lemma {:induction false} SetBound(s: set<int>, low: int, high: int)
    requires low <= high
    requires forall x :: x in s ==> low <= x < high
    ensures |s| <= high - low
    decreases high - low
  {
    if low == high {
      assert s == {};
    } else {
      var rest := s - {low};
      SetBound(rest, low + 1, high);
      if low in s {
        assert |rest| == |s| - 1;
      } else {
        assert rest == s;
      }
    }
  }
}
