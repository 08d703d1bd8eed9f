/** Sums of integer weights over finite maps: the recomputation every index in this project is compared with. */
module Sums {

  ghost function Total<K>(m: map<K, int>): int
  {
    if m == map[] then 0
    else
      var k :| k in m;
      m[k] + Total(m - {k})
  }

  /** Any key may be taken out first. */
  lemma {:induction false} TotalSplit<K>(m: map<K, int>, k: K)
    requires k in m
    ensures Total(m) == m[k] + Total(m - {k})
    decreases |m|
  {
    var j :| j in m && Total(m) == m[j] + Total(m - {j});
    if j != k {
      TotalSplit(m - {j}, k);
      TotalSplit(m - {k}, j);
      assert m - {j} - {k} == m - {k} - {j};
    }
  }

  lemma TotalPut<K>(m: map<K, int>, k: K, v: int)
    ensures Total(m[k := v]) == Total(m - {k}) + v
  {
    TotalSplit(m[k := v], k);
    assert m[k := v] - {k} == m - {k};
  }

  /** One entry falls by `change`, or is taken out having been just that. */
  lemma TotalChange<K>(was: map<K, int>, now: map<K, int>, k: K, change: int)
    requires k in was && was - {k} == now - {k}
    requires if k in now then now[k] == was[k] - change else was[k] == change
    ensures Total(now) == Total(was) - change
  {
    TotalSplit(was, k);
    if k in now {
      TotalSplit(now, k);
    } else {
      assert now - {k} == now;
    }
  }

  ghost predicate NonNegative<K>(m: map<K, int>)
  {
    forall k | k in m :: 0 <= m[k]
  }

  lemma {:induction false} TotalNonNegative<K>(m: map<K, int>)
    requires NonNegative(m)
    ensures 0 <= Total(m)
    ensures forall k | k in m :: m[k] <= Total(m)
    decreases |m|
  {
    if m != map[] {
      forall k | k in m
        ensures m[k] <= Total(m)
      {
        TotalSplit(m, k);
        TotalNonNegative(m - {k});
      }
      var k :| k in m;
    }
  }

  lemma {:induction false} TotalPositive<K>(m: map<K, int>)
    requires NonNegative(m)
    ensures 0 < Total(m) <==> exists k :: k in m && 0 < m[k]
    decreases |m|
  {
    TotalNonNegative(m);
    if m != map[] && forall k | k in m :: m[k] == 0 {
      var k :| k in m;
      TotalSplit(m, k);
      TotalPositive(m - {k});
    }
  }

  /** A part never sums to more than the whole. */
  lemma {:induction false} TotalMonotone<K>(part: map<K, int>, whole: map<K, int>)
    requires NonNegative(whole)
    requires part.Keys <= whole.Keys && forall k | k in part :: part[k] == whole[k]
    ensures Total(part) <= Total(whole)
    decreases |part|
  {
    if part == map[] {
      TotalNonNegative(whole);
    } else {
      var k :| k in part;
      TotalSplit(part, k);
      TotalSplit(whole, k);
      TotalMonotone(part - {k}, whole - {k});
    }
  }

  ghost function Member<T>(s: set<T>): (e: T)
    requires s != {}
    ensures e in s
  {
    var e :| e in s;
    e
  }
}
