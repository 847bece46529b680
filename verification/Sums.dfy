/** Sums over the values of a map, which do not depend on the order of its keys. */
module Sums {
  import opened Arith

  ghost function SumOf(m: map<string, nat>): nat
    decreases |m|
  {
    if m == map[] then 0 else
      var k :| k in m;
      m[k] + SumOf(m - {k})
  }

  /** Any key may be summed first. */
  lemma {:induction false} SumPick(m: map<string, nat>, k: string)
    requires k in m
    ensures SumOf(m) == m[k] + SumOf(m - {k})
    decreases |m|
  {
    var j :| j in m && SumOf(m) == m[j] + SumOf(m - {j});
    if j != k {
      SumPick(m - {j}, k);
      SumPick(m - {k}, j);
      assert m - {j} - {k} == m - {k} - {j};
    }
  }

  /** Changing one value changes the sum by as much. */
  lemma SumChange(m: map<string, nat>, k: string, n: nat)
    requires k in m
    ensures SumOf(m[k := n]) + m[k] == SumOf(m) + n
  {
    var m' := m[k := n];
    SumPick(m, k);
    SumPick(m', k);
    assert m' - {k} == m - {k};
  }

  /** No sum exceeds the number of keys times a bound on the values. */
  lemma {:induction false} SumAtMost(m: map<string, nat>, n: nat)
    requires forall k :: k in m ==> m[k] <= n
    ensures SumOf(m) <= Times(|m|, n)
    decreases |m|
  {
    hide Times;
    if m == map[] {
      Units(n);
    } else {
      var k :| k in m;
      SumPick(m, k);
      SumAtMost(m - {k}, n);
      assert m.Keys == (m - {k}).Keys + {k};
      assert |m| == |m - {k}| + 1;
      Distribute(|m - {k}|, 1, n);
      Units(n);
    }
  }
}
