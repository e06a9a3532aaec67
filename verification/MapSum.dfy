/** Sums of an integer weight over the values of a finite map. */
module MapSum {

  ghost function Sum<K, V>(m: map<K, V>, f: V -> int): int
    decreases |m|
  {
    if m == map[] then 0
    else
      var k :| k in m;
      f(m[k]) + Sum(m - {k}, f)
  }

  lemma {:induction false} SumRemove<K, V>(m: map<K, V>, k: K, f: V -> int)
    requires k in m
    ensures Sum(m, f) == f(m[k]) + Sum(m - {k}, f)
    decreases |m|
  {
    var j :| j in m && Sum(m, f) == f(m[j]) + Sum(m - {j}, f);
    if j != k {
      SumRemove(m - {j}, k, f);
      SumRemove(m - {k}, j, f);
      assert m - {j} - {k} == m - {k} - {j};
    }
  }

  lemma SumUpdate<K, V>(m: map<K, V>, k: K, v: V, f: V -> int)
    requires k in m
    ensures Sum(m[k := v], f) == Sum(m, f) - f(m[k]) + f(v)
  {
    SumRemove(m, k, f);
    SumRemove(m[k := v], k, f);
    assert m[k := v] - {k} == m - {k};
  }

  lemma SumInsert<K, V>(m: map<K, V>, k: K, v: V, f: V -> int)
    requires k !in m
    ensures Sum(m[k := v], f) == Sum(m, f) + f(v)
  {
    SumRemove(m[k := v], k, f);
    assert m[k := v] - {k} == m;
  }

  lemma {:induction false} SumMonotone<K, V>(m: map<K, V>, f: V -> int, g: V -> int)
    requires forall k <- m :: f(m[k]) <= g(m[k])
    ensures Sum(m, f) <= Sum(m, g)
    decreases |m|
  {
    if m != map[] {
      var k :| k in m;
      SumRemove(m, k, f);
      SumRemove(m, k, g);
      SumMonotone(m - {k}, f, g);
    }
  }

  lemma Distribute(c: int, n: int)
    ensures c * (n + 1) == c * n + c
  {
  }

  /** A weight that exceeds another by at most c per value exceeds it by at most c times the size of the map. */
  lemma {:induction false} SumShifted<K, V>(m: map<K, V>, f: V -> int, g: V -> int, c: int)
    requires forall k <- m :: f(m[k]) <= g(m[k]) + c
    ensures Sum(m, f) <= Sum(m, g) + c * |m|
    decreases |m|
  {
    if m != map[] {
      var k :| k in m;
      var rest := m - {k};
      SumRemove(m, k, f);
      SumRemove(m, k, g);
      SumShifted(rest, f, g, c);
      assert |m| == |rest| + 1;
      Distribute(c, |rest|);
    }
  }

  lemma {:induction false} SumZero<K, V>(m: map<K, V>, f: V -> int)
    requires forall k <- m :: f(m[k]) == 0
    ensures Sum(m, f) == 0
    decreases |m|
  {
    if m != map[] {
      var k :| k in m;
      SumRemove(m, k, f);
      SumZero(m - {k}, f);
    }
  }

  /** One value with a positive weight makes a sum of natural weights positive. */
  lemma SumAtLeast<K, V>(m: map<K, V>, k: K, f: V -> int)
    requires k in m && forall j <- m :: 0 <= f(m[j])
    ensures 0 <= f(m[k]) <= Sum(m, f)
  {
    SumRemove(m, k, f);
    SumMonotone(m - {k}, _ => 0, f);
    SumZero(m - {k}, _ => 0);
  }
}
