/** What `object_prune` leaves of a list: the elements that stay, in their order, and where they were. */
module Pruning {

  /** kept are the elements of xs at the places `at`, in order, and these are exactly the places that stay. */
  predicate KeptAt<T(==)>(xs: seq<T>, stays: seq<bool>, kept: seq<T>, at: seq<nat>) {
    && |stays| == |xs| && |at| == |kept|
    && (forall i, k :: 0 <= i < k < |at| ==> at[i] < at[k])
    && (forall i :: 0 <= i < |at| ==> at[i] < |xs| && kept[i] == xs[at[i]])
    && (forall k :: 0 <= k < |xs| ==> (k in at <==> stays[k]))
  }

  lemma KeptAtNext<T>(xs: seq<T>, stays: seq<bool>, n: nat, kept: seq<T>, at: seq<nat>)
    requires |xs| == |stays| == n + 1 && KeptAt(xs[..n], stays[..n], kept, at)
    ensures if stays[n] then KeptAt(xs, stays, kept + [xs[n]], at + [n]) else KeptAt(xs, stays, kept, at)
  {
    forall k | 0 <= k < n
      ensures k in at <==> stays[k]
    {
      assert stays[..n][k] == stays[k];
    }
    assert n !in at;
  }
}
