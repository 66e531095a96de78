/** Finite sums of integer costs over the keys of a map. */
module Sums {

  ghost function First<K>(m: map<K, int>): (k: K)
    requires |m| != 0
    ensures k in m
  {
    var k :| k in m;
    k
  }

  ghost function Sum<K>(m: map<K, int>): int
    decreases |m|
  {
    if |m| == 0 then 0
    else
      var k := First(m);
      assert (m - {k}).Keys == m.Keys - {k};
      m[k] + Sum(m - {k})
  }

  function CostOf<K>(m: map<K, int>, k: K): int { if k in m then m[k] else 0 }

  lemma FirstOut<K>(m: map<K, int>) returns (k: K)
    requires m.Keys != {}
    ensures k in m && Sum(m) == m[k] + Sum(m - {k})
  {
    assert |m| == |m.Keys|;
    k := First(m);
  }

  /** Any key may be taken out first: the sum does not depend on the order of the scan. */
  lemma {:induction false} SumTakeOut<K>(m: map<K, int>, k: K)
    requires k in m
    ensures Sum(m) == m[k] + Sum(m - {k})
    decreases |m|
  {
    var j := FirstOut(m);
    if j != k {
      var rest := m - {j} - {k};
      assert (m - {j}).Keys == m.Keys - {j} && (m - {k}).Keys == m.Keys - {k};
      assert m - {k} - {j} == rest;
      SumTakeOut(m - {j}, k);
      SumTakeOut(m - {k}, j);
    }
  }

  lemma SumPut<K>(m: map<K, int>, k: K, v: int)
    ensures Sum(m[k := v]) == Sum(m) - CostOf(m, k) + v
  {
    SumTakeOut(m[k := v], k);
    if k in m {
      SumTakeOut(m, k);
      assert m[k := v] - {k} == m - {k};
    } else {
      assert m[k := v] - {k} == m;
    }
  }

  lemma SumDelete<K>(m: map<K, int>, k: K)
    ensures Sum(m - {k}) == Sum(m) - CostOf(m, k)
  {
    if k in m {
      SumTakeOut(m, k);
    } else {
      assert m - {k} == m;
    }
  }

  lemma {:induction false} SumZeroes<K>(m: map<K, int>)
    requires forall k :: k in m ==> m[k] == 0
    ensures Sum(m) == 0
    decreases |m|
  {
    if m.Keys != {} {
      var k := FirstOut(m);
      assert (m - {k}).Keys == m.Keys - {k};
      SumZeroes(m - {k});
    } else {
      assert |m| == |m.Keys|;
    }
  }
}
