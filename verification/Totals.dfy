/** Sums of a finite map of natural numbers, and the few laws the ledger proofs need. */
module Totals {

  /** One element `(k, i)` for every unit of the value at `k`. */
  ghost function Units<K(!new)>(m: map<K, nat>): set<(K, nat)> {
    set k, i | k in m && 0 <= i < m[k] :: (k, i)
  }

  /** The sum of all values of `m`, as the number of its units. */
  ghost function Total<K(!new)>(m: map<K, nat>): nat { |Units(m)| }

  ghost function Column<K(!new)>(k: K, n: nat): set<(K, nat)> {
    set i | 0 <= i < n :: (k, i)
  }

  lemma {:induction false} ColumnSize<K(!new)>(k: K, n: nat)
    ensures |Column(k, n)| == n
  {
    if n > 0 {
      ColumnSize(k, n - 1);
      assert Column(k, n) == Column(k, n - 1) + {(k, n - 1)};
    }
  }

  lemma TotalRemove<K(!new)>(m: map<K, nat>, k: K)
    requires k in m
    ensures Total(m) == m[k] + Total(m - {k})
  {
    ColumnSize(k, m[k]);
    assert Units(m) == Column(k, m[k]) + Units(m - {k});
    assert Column(k, m[k]) !! Units(m - {k});
  }

  lemma TotalInsert<K(!new)>(m: map<K, nat>, k: K, v: nat)
    requires k !in m
    ensures Total(m[k := v]) == Total(m) + v
  {
    TotalRemove(m[k := v], k);
    assert m[k := v] - {k} == m;
  }

  lemma TotalUpdate<K(!new)>(m: map<K, nat>, k: K, v: nat)
    requires k in m
    ensures Total(m[k := v]) + m[k] == Total(m) + v
  {
    TotalRemove(m, k);
    TotalRemove(m[k := v], k);
    assert m[k := v] - {k} == m - {k};
  }

  /** Insertion and update in one law. */
  lemma TotalPut<K(!new)>(m: map<K, nat>, k: K, v: nat)
    ensures Total(m[k := v]) + (if k in m then m[k] else 0) == Total(m) + v
  {
    if k in m { TotalUpdate(m, k, v); } else { TotalInsert(m, k, v); }
  }

  lemma TotalMonotone<K(!new)>(m: map<K, nat>, n: map<K, nat>)
    requires m.Keys <= n.Keys
    requires forall k :: k in m ==> m[k] <= n[k]
    ensures Total(m) <= Total(n)
  {
    assert Units(m) <= Units(n);
    assert Units(n) == Units(m) + (Units(n) - Units(m));
  }

  /** A sum dominates each of its summands. */
  lemma TotalBounds<K(!new)>(m: map<K, nat>, k: K)
    requires k in m
    ensures m[k] <= Total(m)
  {
    TotalRemove(m, k);
  }

  lemma TotalZero<K(!new)>(m: map<K, nat>)
    requires forall k :: k in m ==> m[k] == 0
    ensures Total(m) == 0
  {
    assert Units(m) == {};
  }

  // ------------------------------------------------- sums of a measure of the values

  ghost function Weights<K(!new), V>(m: map<K, V>, f: V -> nat): map<K, nat> {
    map k | k in m :: f(m[k])
  }

  ghost function Sum<K(!new), V>(m: map<K, V>, f: V -> nat): nat {
    Total(Weights(m, f))
  }

  lemma SumPut<K(!new), V>(m: map<K, V>, f: V -> nat, k: K, v: V)
    ensures Sum(m[k := v], f) + (if k in m then f(m[k]) else 0) == Sum(m, f) + f(v)
  {
    TotalPut(Weights(m, f), k, f(v));
    assert Weights(m[k := v], f) == Weights(m, f)[k := f(v)];
  }

  lemma SumRemove<K(!new), V>(m: map<K, V>, f: V -> nat, k: K)
    requires k in m
    ensures Sum(m - {k}, f) + f(m[k]) == Sum(m, f)
  {
    TotalRemove(Weights(m, f), k);
    assert Weights(m - {k}, f) == Weights(m, f) - {k};
  }

  lemma SumMonotone<K(!new), V>(m: map<K, V>, f: V -> nat, n: map<K, V>, g: V -> nat)
    requires m.Keys <= n.Keys && (forall k :: k in m ==> f(m[k]) <= g(n[k]))
    ensures Sum(m, f) <= Sum(n, g)
  {
    TotalMonotone(Weights(m, f), Weights(n, g));
  }

  lemma SumBounds<K(!new), V>(m: map<K, V>, f: V -> nat, k: K)
    requires k in m
    ensures f(m[k]) <= Sum(m, f)
  {
    TotalBounds(Weights(m, f), k);
  }

  lemma SumZero<K(!new), V>(m: map<K, V>, f: V -> nat)
    requires forall k :: k in m ==> f(m[k]) == 0
    ensures Sum(m, f) == 0
  {
    TotalZero(Weights(m, f));
  }

  ghost function At<K(!new), V>(m: map<K, V>, f: V -> nat, k: K): nat {
    if k in m then f(m[k]) else 0
  }

  /** Sums compare by their terms, one key set aside. */
  lemma SumAside<K(!new), V>(m: map<K, V>, f: V -> nat, n: map<K, V>, g: V -> nat, k: K)
    requires n.Keys <= m.Keys + {k} && (forall j :: j in n && j != k ==> g(n[j]) <= f(m[j]))
    ensures Sum(n, g) + At(m, f, k) <= Sum(m, f) + At(n, g, k)
  {
    if k in m { SumRemove(m, f, k); }
    if k in n { SumRemove(n, g, k); }
    assert m - {k} == if k in m then m - {k} else m;
    assert n - {k} == if k in n then n - {k} else n;
    SumMonotone(n - {k}, g, m - {k}, f);
  }

  /** Two distinct terms are a lower bound of the sum. */
  lemma SumTwo<K(!new), V>(m: map<K, V>, f: V -> nat, k: K, j: K)
    requires k in m && j in m && k != j
    ensures f(m[k]) + f(m[j]) <= Sum(m, f)
  {
    SumRemove(m, f, k);
    SumBounds(m - {k}, f, j);
  }
}
