/** Sums over finite tables and folds over ledger rows. */
module Tables {

  datatype Option<+T> = None | Some(value: T)

  /** The sum of f over all rows of a table. */
  ghost function Sum<K(!new), V(!new)>(m: map<K, V>, f: (K, V) -> int): int
  {
    if m == map[] then 0 else
    var k :| k in m;
    f(k, m[k]) + Sum(m - {k}, f)
  }

  /** The sum does not depend on the order in which the rows are visited. */
  lemma {:induction false} SumSplit<K(!new), V(!new)>(m: map<K, V>, f: (K, V) -> int, k: K)
    requires k in m
    ensures Sum(m, f) == f(k, m[k]) + Sum(m - {k}, f)
    decreases |m|
  {
    var j :| j in m && Sum(m, f) == f(j, m[j]) + Sum(m - {j}, f);
    if j != k {
      var rest := m - {j};
      SumSplit(rest, f, k);
      SumSplit(m - {k}, f, j);
      assert rest - {k} == m - {k} - {j};
    }
  }

  lemma {:induction false} SumUpdate<K(!new), V(!new)>(m: map<K, V>, f: (K, V) -> int, k: K, v: V)
    ensures Sum(m[k := v], f) == Sum(m, f) + f(k, v) - (if k in m then f(k, m[k]) else 0)
  {
    SumSplit(m[k := v], f, k);
    assert m[k := v] - {k} == m - {k};
    if k in m {
      SumSplit(m, f, k);
    } else {
      assert m - {k} == m;
    }
  }

  lemma {:induction false} SumOfZeros<K(!new), V(!new)>(m: map<K, V>, f: (K, V) -> int)
    requires forall k :: k in m ==> f(k, m[k]) == 0
    ensures Sum(m, f) == 0
    decreases |m|
  {
    if m != map[] {
      var k :| k in m;
      SumSplit(m, f, k);
      SumOfZeros(m - {k}, f);
    }
  }

  /** A sum of non-negative values is at least each of them. */
  lemma {:induction false} SumAtLeast<K(!new), V(!new)>(m: map<K, V>, f: (K, V) -> int)
    requires forall k :: k in m ==> f(k, m[k]) >= 0
    ensures Sum(m, f) >= 0
    ensures forall k :: k in m ==> f(k, m[k]) <= Sum(m, f)
    decreases |m|
  {
    forall k | k in m ensures f(k, m[k]) <= Sum(m, f) {
      SumSplit(m, f, k);
      SumAtLeast(m - {k}, f);
    }
  }

  lemma {:induction false} SumMonotone<K(!new), V(!new)>(m: map<K, V>, f: (K, V) -> int, g: (K, V) -> int)
    requires forall k :: k in m ==> f(k, m[k]) <= g(k, m[k])
    ensures Sum(m, f) <= Sum(m, g)
    decreases |m|
  {
    if m != map[] {
      var k :| k in m;
      SumSplit(m, f, k);
      SumSplit(m, g, k);
      SumMonotone(m - {k}, f, g);
    }
  }

  /** A sum of ones and zeros counts the ones. */
  lemma {:induction false} SumCounts<K(!new), V(!new)>(m: map<K, V>, f: (K, V) -> int, ones: set<K>)
    requires forall k :: k in m ==> f(k, m[k]) == if k in ones then 1 else 0
    requires forall k :: k in ones ==> k in m
    ensures Sum(m, f) == |ones|
    decreases |m|
  {
    if m == map[] {
      assert ones == {};
    } else {
      var k :| k in m;
      SumSplit(m, f, k);
      SumCounts(m - {k}, f, ones - {k});
    }
  }

  lemma {:induction false} SumSame<K(!new), V(!new)>(m: map<K, V>, f: (K, V) -> int, g: (K, V) -> int)
    requires forall k :: k in m ==> f(k, m[k]) == g(k, m[k])
    ensures Sum(m, f) == Sum(m, g)
  {
    SumMonotone(m, f, g);
    SumMonotone(m, g, f);
  }
}
