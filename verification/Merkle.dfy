/**
 The coinbase Merkle branch of merkle.cpp: the steps are computed once per job from the
 transaction hashes with a hole where the coinbase will be, and folded with every share's
 coinbase hash. `h` stands for the double SHA-256 of two concatenated hashes.
 */
module Merkle {
  import opened Arithmetic

  type Hash = string
  type Pairing = (Hash, Hash) -> Hash

  /** One level up the tree: neighbours are paired, an odd last one with itself. */
  function Level(h: Pairing, xs: seq<Hash>): (ys: seq<Hash>)
    ensures |xs| <= 2 * |ys| <= |xs| + 1
  {
    if xs == [] then []
    else if |xs| == 1 then [h(xs[0], xs[0])]
    else [h(xs[0], xs[1])] + Level(h, xs[2..])
  }

  lemma {:induction false} LevelAt(h: Pairing, xs: seq<Hash>, i: nat)
    requires i < |Level(h, xs)|
    ensures 2 * i < |xs|
    ensures Level(h, xs)[i] == h(xs[2 * i], if 2 * i + 1 < |xs| then xs[2 * i + 1] else xs[2 * i])
  {
    if i > 0 {
      LevelAt(h, xs[2..], i - 1);
    }
  }

  /** The root of the full tree. */
  function Root(h: Pairing, xs: seq<Hash>): Hash
    requires xs != []
    decreases |xs|
  {
    if |xs| == 1 then xs[0] else Root(h, Level(h, xs))
  }

  /** The branch of the first leaf, read off the levels; whatever stands first is never looked at. */
  function Branch(h: Pairing, xs: seq<Hash>): seq<Hash>
    decreases |xs|
  {
    if |xs| <= 1 then [] else [xs[1]] + Branch(h, Level(h, xs))
  }

  function Fold(h: Pairing, steps: seq<Hash>, f: Hash): Hash {
    if steps == [] then f else Fold(h, steps[1..], h(f, steps[0]))
  }

  /** Two lists that differ at most in their first hash have levels that do too. */
  predicate SameRest(xs: seq<Hash>, ys: seq<Hash>) {
    |xs| == |ys| && forall i :: 1 <= i < |xs| ==> xs[i] == ys[i]
  }

  lemma LevelSameRest(h: Pairing, xs: seq<Hash>, ys: seq<Hash>)
    requires SameRest(xs, ys)
    ensures SameRest(Level(h, xs), Level(h, ys))
  {
    forall i | 1 <= i < |Level(h, xs)|
      ensures Level(h, xs)[i] == Level(h, ys)[i]
    {
      LevelAt(h, xs, i);
      LevelAt(h, ys, i);
    }
  }

  lemma {:induction false} BranchSameRest(h: Pairing, xs: seq<Hash>, ys: seq<Hash>)
    requires SameRest(xs, ys)
    ensures Branch(h, xs) == Branch(h, ys)
    decreases |xs|
  {
    if |xs| > 1 {
      LevelSameRest(h, xs, ys);
      BranchSameRest(h, Level(h, xs), Level(h, ys));
    }
  }

  lemma {:induction false} FoldIsRoot(h: Pairing, xs: seq<Hash>)
    requires xs != []
    ensures Fold(h, Branch(h, xs), xs[0]) == Root(h, xs)
    decreases |xs|
  {
    if |xs| > 1 {
      FoldIsRoot(h, Level(h, xs));
      assert Branch(h, xs)[1..] == Branch(h, Level(h, xs));
    }
  }

  /**
   Folding a coinbase hash f over the steps of the transaction list with a hole in front gives
   the Merkle root of the coinbase followed by the transactions.
   */
  lemma StepsGiveRoot(h: Pairing, hole: Hash, f: Hash, txs: seq<Hash>)
    ensures Fold(h, Branch(h, [hole] + txs), f) == Root(h, [f] + txs)
  {
    BranchSameRest(h, [hole] + txs, [f] + txs);
    FoldIsRoot(h, [f] + txs);
  }

  /** The number of steps is ceil(log2 n): the least k with n <= 2^k. */
  lemma {:induction false} StepCount(h: Pairing, xs: seq<Hash>)
    requires xs != []
    ensures var k := |Branch(h, xs)|;
            |xs| <= Pow2(k) && (k > 0 ==> Pow2(k - 1) < |xs|)
    decreases |xs|
  {
    if |xs| > 1 {
      StepCount(h, Level(h, xs));
      var k := |Branch(h, xs)|;
      if k > 1 {
        assert Pow2(k - 1) == 2 * Pow2(k - 2);
      }
    }
  }

  /** The pairing loop of `merkle_steps`: every pair after the first, once the list is even. */
  method PairsAfterFirst(h: Pairing, L: seq<Hash>) returns (Ld: seq<Hash>)
    requires |L| >= 2 && |L| % 2 == 0
    ensures |Ld| == |L| / 2 - 1 && forall i :: 0 <= i < |Ld| ==> Ld[i] == h(L[2 * i + 2], L[2 * i + 3])
  {
    Ld := [];
    for i := 1 to |L| / 2
      invariant |Ld| == i - 1 && forall k :: 0 <= k < |Ld| ==> Ld[k] == h(L[2 * k + 2], L[2 * k + 3])
    {
      Ld := Ld + [h(L[i * 2], L[i * 2 + 1])];
    }
  }

  /** One turn of `merkle_steps`: make the list even, pair it, put the hole back in front. */
  method NextLevel(h: Pairing, L: seq<Hash>) returns (next: seq<Hash>)
    requires |L| > 1
    ensures |next| < |L| && SameRest(Level(h, L), next)
  {
    var even := L;
    if |L| % 2 == 1 {
      even := L + [L[|L| - 1]];
    }
    var Ld := PairsAfterFirst(h, even);
    next := [""] + Ld;
    NextList(h, L, even, next);
  }

  lemma NextList(h: Pairing, L: seq<Hash>, even: seq<Hash>, next: seq<Hash>)
    requires |L| > 1 && (even == L || even == L + [L[|L| - 1]]) && |even| == 2 * |next|
    requires forall i :: 1 <= i < |next| ==> next[i] == h(even[2 * i], even[2 * i + 1])
    ensures SameRest(Level(h, L), next)
  {
    forall i | 1 <= i < |next|
      ensures Level(h, L)[i] == next[i]
    {
      EvenPair(L, even, i, |next|);
      LevelAt(h, L, i);
    }
  }

  lemma EvenPair(L: seq<Hash>, even: seq<Hash>, i: nat, n: nat)
    requires |L| > 1 && (even == L || even == L + [L[|L| - 1]]) && |even| == 2 * n && i < n
    ensures 2 * i < |L| && even[2 * i] == L[2 * i]
    ensures even[2 * i + 1] == if 2 * i + 1 < |L| then L[2 * i + 1] else L[2 * i]
  {
  }

  lemma BranchNext(h: Pairing, L: seq<Hash>, next: seq<Hash>)
    requires |L| > 1 && SameRest(Level(h, L), next)
    ensures Branch(h, L) == [L[1]] + Branch(h, next)
  {
    BranchSameRest(h, Level(h, L), next);
  }

  lemma MoveOver(a: seq<Hash>, x: Hash, b: seq<Hash>)
    ensures a + ([x] + b) == (a + [x]) + b
  {
  }

  /** `merkle_steps`: the list is rebuilt level by level, always with a hole in front. */
  method MerkleSteps(h: Pairing, input: seq<Hash>) returns (steps: seq<Hash>)
    ensures steps == Branch(h, input)
  {
    var L := input;
    ghost var whole := Branch(h, input);
    ghost var rest := whole;
    steps := [];
    while |L| > 1
      invariant rest == Branch(h, L)
      invariant whole == steps + rest
      decreases |L|
    {
      var next := NextLevel(h, L);
      BranchNext(h, L, next);
      rest := Branch(h, next);
      MoveOver(steps, L[1], rest);
      steps := steps + [L[1]];
      L := next;
    }
  }

  /** `merkle_with_first`. */
  method MerkleWithFirst(h: Pairing, steps: seq<Hash>, first: Hash) returns (f: Hash)
    ensures f == Fold(h, steps, first)
  {
    f := first;
    for i := 0 to |steps|
      invariant Fold(h, steps, first) == Fold(h, steps[i..], f)
    {
      f := h(f, steps[i]);
    }
  }

  /** Both together, as a job's template and a share's coinbase use them. */
  method CoinbaseRoot(h: Pairing, txs: seq<Hash>, f: Hash) returns (root: Hash)
    ensures root == Root(h, [f] + txs)
  {
    var steps := MerkleSteps(h, [""] + txs);
    root := MerkleWithFirst(h, steps, f);
    StepsGiveRoot(h, "", f, txs);
  }
}
