/** Totals over finite maps, independent of the order in which the entries are visited. */
module Sums {
  ghost function Total<K>(m: map<K, int>): int {
    if m == map[] then 0
    else
      var k :| k in m;
      m[k] + Total(m - {k})
  }

  lemma {:induction false} TotalRemove<K>(m: map<K, int>, x: K)
    requires x in m
    ensures Total(m) == m[x] + Total(m - {x})
    decreases |m|
  {
    var k :| k in m && Total(m) == m[k] + Total(m - {k});
    if k != x {
      TotalRemove(m - {k}, x);
      TotalRemove(m - {x}, k);
      assert m - {k} - {x} == m - {x} - {k};
    }
  }

  lemma TotalInsert<K>(m: map<K, int>, x: K, v: int)
    ensures Total(m[x := v]) == Total(m) - (if x in m then m[x] else 0) + v
  {
    TotalRemove(m[x := v], x);
    assert m[x := v] - {x} == m - {x};
    if x in m {
      TotalRemove(m, x);
    } else {
      assert m - {x} == m;
    }
  }

  ghost function OrZero<K>(m: map<K, int>, k: K): int { if k in m then m[k] else 0 }

  /** Laying two maps over each other, adding where they meet, adds their totals. */
  lemma {:induction false} TotalOverlay<K>(m: map<K, int>, a: map<K, int>, b: map<K, int>)
    requires forall k :: k in m <==> k in a || k in b
    requires forall k :: k in m ==> m[k] == OrZero(a, k) + OrZero(b, k)
    ensures Total(m) == Total(a) + Total(b)
    decreases |m|
  {
    if m == map[] {
      assert a == map[] && b == map[];
    } else {
      var k :| k in m;
      TotalOverlay(m - {k}, a - {k}, b - {k});
      TotalRemove(m, k);
      TotalWithout(a, k);
      TotalWithout(b, k);
    }
  }

  lemma TotalWithout<K>(m: map<K, int>, k: K)
    ensures Total(m) == OrZero(m, k) + Total(m - {k})
  {
    if k in m {
      TotalRemove(m, k);
    } else {
      assert m - {k} == m;
    }
  }

  /** Renaming keys one to one keeps the total. */
  lemma {:induction false} TotalRename<K, L>(a: map<K, int>, b: map<L, int>, f: map<K, L>)
    requires f.Keys == a.Keys
    requires forall k, l :: k in f && l in f && f[k] == f[l] ==> k == l
    requires b.Keys == f.Values
    requires forall k :: k in a ==> b[f[k]] == a[k]
    ensures Total(a) == Total(b)
    decreases |a|
  {
    if a == map[] {
      assert b.Keys == {};
    } else {
      var k :| k in a;
      TotalRemove(a, k);
      TotalRemove(b, f[k]);
      var f' := f - {k};
      forall l | l in (b - {f[k]}).Keys ensures l in f'.Values {
        var j :| j in f && f[j] == l;
        assert j in f' && f'[j] == l;
      }
      assert (b - {f[k]}).Keys == f'.Values;
      TotalRename(a - {k}, b - {f[k]}, f');
    }
  }
}
