/** Sums over the threads of a state machine. */
module MapSum {

  ghost function Sum(m: map<nat, nat>): nat
  {
    if m == map[] then 0 else var k :| k in m; m[k] + Sum(m - {k})
  }

  lemma {:induction false} SumRemove(m: map<nat, nat>, k: nat)
    requires k in m
    ensures Sum(m) == m[k] + Sum(m - {k})
    decreases |m|
  {
    var j :| j in m && Sum(m) == m[j] + Sum(m - {j});
    if j != k {
      SumRemove(m - {j}, k);
      SumRemove(m - {k}, j);
      assert m - {j} - {k} == m - {k} - {j};
    }
  }

  lemma SumUpdate(m: map<nat, nat>, k: nat, v: nat)
    requires k in m
    ensures Sum(m[k := v]) == Sum(m) - m[k] + v
  {
    SumRemove(m, k);
    SumRemove(m[k := v], k);
    assert m[k := v] - {k} == m - {k};
  }

  function Weights<L>(pcs: map<nat, L>, weight: L -> nat): map<nat, nat>
  {
    map t | t in pcs :: weight(pcs[t])
  }

  /** The total weight of the threads' local states. */
  ghost function Total<L>(pcs: map<nat, L>, weight: L -> nat): nat
  {
    Sum(Weights(pcs, weight))
  }

  lemma TotalUpdate<L>(pcs: map<nat, L>, t: nat, l: L, weight: L -> nat)
    requires t in pcs
    ensures Total(pcs[t := l], weight) == Total(pcs, weight) - weight(pcs[t]) + weight(l)
  {
    assert Weights(pcs[t := l], weight) == Weights(pcs, weight)[t := weight(l)];
    SumUpdate(Weights(pcs, weight), t, weight(l));
  }

  lemma TotalAtLeast<L>(pcs: map<nat, L>, t: nat, weight: L -> nat)
    requires t in pcs
    ensures Total(pcs, weight) >= weight(pcs[t])
  {
    SumRemove(Weights(pcs, weight), t);
  }

  lemma {:induction false} SumZero(m: map<nat, nat>)
    requires forall k :: k in m ==> m[k] == 0
    ensures Sum(m) == 0
    decreases |m|
  {
    if m != map[] {
      var k :| k in m && Sum(m) == m[k] + Sum(m - {k});
      SumZero(m - {k});
    }
  }

  lemma TotalZero<L>(pcs: map<nat, L>, weight: L -> nat)
    requires forall t :: t in pcs ==> weight(pcs[t]) == 0
    ensures Total(pcs, weight) == 0
  {
    SumZero(Weights(pcs, weight));
  }

  lemma {:induction false} SumOnes(m: map<nat, nat>)
    requires forall k :: k in m ==> m[k] == 1
    ensures Sum(m) == |m|
    decreases |m|
  {
    if m != map[] {
      var k :| k in m && Sum(m) == m[k] + Sum(m - {k});
      SumOnes(m - {k});
      assert (m - {k}).Keys == m.Keys - {k};
    }
  }

  /** If every thread weighs one, the total is their number. */
  lemma TotalOnes<L>(pcs: map<nat, L>, weight: L -> nat)
    requires forall t :: t in pcs ==> weight(pcs[t]) == 1
    ensures Total(pcs, weight) == |pcs|
  {
    var w := Weights(pcs, weight);
    SumOnes(w);
    assert w.Keys == pcs.Keys;
  }

  lemma {:induction false} SumBound(a: map<nat, nat>, b: map<nat, nat>, c: map<nat, nat>)
    requires a.Keys == b.Keys == c.Keys && forall k :: k in c ==> a[k] + b[k] <= c[k]
    ensures Sum(a) + Sum(b) <= Sum(c)
    decreases |c|
  {
    if c != map[] {
      var k :| k in c && Sum(c) == c[k] + Sum(c - {k});
      SumRemove(a, k);
      SumRemove(b, k);
      SumBound(a - {k}, b - {k}, c - {k});
    }
  }

  /** Two weights that fit into a third for every thread fit into it in total. */
  lemma TotalBound<L>(pcs: map<nat, L>, v: L -> nat, w: L -> nat, bound: L -> nat)
    requires forall t :: t in pcs ==> v(pcs[t]) + w(pcs[t]) <= bound(pcs[t])
    ensures Total(pcs, v) + Total(pcs, w) <= Total(pcs, bound)
  {
    SumBound(Weights(pcs, v), Weights(pcs, w), Weights(pcs, bound));
  }
}
