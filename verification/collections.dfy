/** Facts about finite sets and sequences shared by the modules. */
module Collections {
  /** A subset is no larger than its superset. */
  lemma SubsetCard<T>(a: set<T>, b: set<T>)
    requires a <= b
    ensures |a| <= |b|
  {
    assert b == a + (b - a);
  }

  /** The positions, from `k` on, of the elements `keep` holds for, in
      increasing order: a filter that remembers where each element was. */
  function Select<T>(xs: seq<T>, keep: T -> bool, k: nat): (idx: seq<nat>)
    requires k <= |xs|
    ensures forall t :: 0 <= t < |idx| ==> k <= idx[t] < |xs| && keep(xs[idx[t]])
    ensures forall t, u :: 0 <= t < u < |idx| ==> idx[t] < idx[u]
    ensures forall i :: k <= i < |xs| && keep(xs[i]) ==> i in idx
    decreases |xs| - k
  {
    if k == |xs| then []
    else (if keep(xs[k]) then [k] else []) + Select(xs, keep, k + 1)
  }
}
