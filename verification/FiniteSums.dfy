/** Sums over the values of a finite map. */
module FiniteSums {

  ghost function Sum<K, V>(m: map<K, V>, f: V -> int): int {
    if m == map[] then 0
    else
      var k :| k in m;
      f(m[k]) + Sum(m - {k}, f)
  }

  lemma {:induction false} SumSplits<K, V>(m: map<K, V>, k: K, f: V -> int)
    requires k in m
    ensures Sum(m, f) == f(m[k]) + Sum(m - {k}, f)
    decreases |m|
  {
    var j :| j in m && Sum(m, f) == f(m[j]) + Sum(m - {j}, f);
    if j != k {
      SumSplits(m - {j}, k, f);
      SumSplits(m - {k}, j, f);
      assert m - {j} - {k} == m - {k} - {j};
    }
  }

  lemma SumAfterUpdate<K, V>(m: map<K, V>, k: K, v: V, f: V -> int)
    ensures Sum(m[k := v], f) == Sum(m, f) + f(v) - (if k in m then f(m[k]) else 0)
  {
    SumSplits(m[k := v], k, f);
    if k in m {
      SumSplits(m, k, f);
    }
    assert m[k := v] - {k} == m - {k};
    assert k !in m ==> m - {k} == m;
  }

  lemma {:induction false} SumIsBounded<K, V>(m: map<K, V>, f: V -> int, g: V -> int)
    requires forall k | k in m :: f(m[k]) <= g(m[k])
    ensures Sum(m, f) <= Sum(m, g)
    decreases |m|
  {
    if m != map[] {
      var k :| k in m;
      SumSplits(m, k, f);
      SumSplits(m, k, g);
      SumIsBounded(m - {k}, f, g);
    }
  }

  lemma {:induction false} SumOfZeros<K, V>(m: map<K, V>, f: V -> int)
    requires forall k | k in m :: f(m[k]) == 0
    ensures Sum(m, f) == 0
    decreases |m|
  {
    if m != map[] {
      var k :| k in m;
      SumSplits(m, k, f);
      SumOfZeros(m - {k}, f);
    }
  }

  lemma TermIsBounded<K, V>(m: map<K, V>, k: K, f: V -> int)
    requires k in m && forall j | j in m :: 0 <= f(m[j])
    ensures f(m[k]) <= Sum(m, f)
  {
    SumSplits(m, k, f);
    SumIsNotNegative(m - {k}, f);
  }

  lemma {:induction false} SumIsNotNegative<K, V>(m: map<K, V>, f: V -> int)
    requires forall k | k in m :: 0 <= f(m[k])
    ensures 0 <= Sum(m, f)
    decreases |m|
  {
    if m != map[] {
      var k :| k in m;
      SumSplits(m, k, f);
      SumIsNotNegative(m - {k}, f);
    }
  }

  lemma {:induction false} SumOfSums<K, V>(m: map<K, V>, f: V -> int, g: V -> int, h: V -> int)
    requires forall k | k in m :: h(m[k]) == f(m[k]) + g(m[k])
    ensures Sum(m, h) == Sum(m, f) + Sum(m, g)
    decreases |m|
  {
    if m != map[] {
      var k :| k in m;
      SumSplits(m, k, f);
      SumSplits(m, k, g);
      SumSplits(m, k, h);
      SumOfSums(m - {k}, f, g, h);
    }
  }
}
