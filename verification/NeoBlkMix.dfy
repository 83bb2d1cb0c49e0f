/**
 `neoscrypt_blkmix` of algos/neoscrypt.c: the unrolled mixers for r = 1 and r = 2 and the
 reference loop compute one function, the block mix of scrypt with the chosen core.
 */
module NeoBlkMix {
  import opened Bits
  import opened Buffers
  import opened Scrypt

  type Words = seq<Word32>

  /** The first i blocks are mixed, the others as they were. */
  ghost predicate MixedUpTo(X: Words, B: Words, Y: seq<Block>, i: nat) {
    && |X| == |B| == 16 * |Y| && i <= |Y|
    && (forall j :: 0 <= j < i ==> X[16 * j..16 * j + 16] == Y[j])
    && (forall j :: i <= j < |Y| ==> X[16 * j..16 * j + 16] == B[16 * j..16 * j + 16])
  }

  lemma OtherBlock(X: Words, i: nat, y: Block, j: nat)
    requires 16 * i + 16 <= |X| && 16 * j + 16 <= |X|
    ensures Overlaid(X, 16 * i, y)[16 * j..16 * j + 16] == if i == j then y else X[16 * j..16 * j + 16]
  {
    if i < j {
      assert 16 * i + 16 <= 16 * j;
    } else if j < i {
      assert 16 * j + 16 <= 16 * i;
    }
  }

  lemma MixedNext(X: Words, B: Words, Y: seq<Block>, i: nat)
    requires MixedUpTo(X, B, Y, i) && i < |Y|
    ensures MixedUpTo(Overlaid(X, 16 * i, Y[i]), B, Y, i + 1)
  {
    var Z := Overlaid(X, 16 * i, Y[i]);
    forall j | 0 <= j < |Y|
      ensures Z[16 * j..16 * j + 16] == if i == j then Y[i] else X[16 * j..16 * j + 16]
    {
      OtherBlock(X, i, Y[i], j);
    }
  }

  lemma XorCommutes(a: Words, b: Words)
    requires |a| == |b|
    ensures XorWords(a, b) == XorWords(b, a)
  {
    forall i | 0 <= i < |a|
      ensures XorWords(a, b)[i] == XorWords(b, a)[i]
    {
      XorBitsCommute(a[i], b[i]);
    }
  }

  lemma XorBitsCommute(a: seq<Bit>, b: seq<Bit>)
    requires |a| == |b|
    ensures Xor(a, b) == Xor(b, a)
  {
  }

  /** `neoscrypt_blkxor` of the block at word s into the block at word d, then the core on it. */
  method MixInPlace(H: Core, X: array<Word32>, d: nat, s: nat)
    requires d + 16 <= X.Length && s + 16 <= X.Length
    modifies X
    ensures X[..] == Overlaid(old(X[..]), d, H(XorWords(old(X[..])[d..d + 16], old(X[..])[s..s + 16])))
  {
    var x := XorWords(X[d..d + 16], X[s..s + 16]);
    assert X[d..d + 16] == X[..][d..d + 16] && X[s..s + 16] == X[..][s..s + 16];
    Put(X, d, H(x));
  }

  /** What step i makes of the buffer is the next block of the chain. */
  lemma NextOfChain(H: Core, X: Words, B: Words, Y: seq<Block>, r: nat, i: nat, prev: nat)
    requires r >= 1 && |B| == 32 * r && Y == Chain(H, B, 2 * r) && MixedUpTo(X, B, Y, i) && i < 2 * r
    requires prev == if i == 0 then 2 * r - 1 else i - 1
    ensures H(XorWords(X[16 * i..16 * i + 16], X[16 * prev..16 * prev + 16])) == Y[i]
  {
    ChainLink(H, B, 2 * r, i);
    var before := Before(B, Y, i);
    assert X[16 * prev..16 * prev + 16] == before;
    assert X[16 * i..16 * i + 16] == BlockAt(B, i);
    XorCommutes(BlockAt(B, i), before);
  }

  /** Block i: the block before is added to it, and the core applied. */
  method MixBlockAt(H: Core, X: array<Word32>, i: nat, prev: nat, ghost B: Words, ghost Y: seq<Block>, ghost r: nat)
    requires r >= 1 && |B| == 32 * r && Y == Chain(H, B, 2 * r) && MixedUpTo(X[..], B, Y, i) && i < 2 * r
    requires prev == if i == 0 then 2 * r - 1 else i - 1
    modifies X
    ensures MixedUpTo(X[..], B, Y, i + 1)
  {
    NextOfChain(H, X[..], B, Y, r, i, prev);
    MixedNext(X[..], B, Y, i);
    MixInPlace(H, X, 16 * i, 16 * prev);
  }

  /** Even blocks of the chain in the first half, odd ones in the second. */
  ghost predicate Arranged(X: Words, Y: seq<Block>, r: nat) {
    && |X| == 32 * r && |Y| == 2 * r
    && (forall j :: 0 <= j < r ==> X[16 * j..16 * j + 16] == Y[2 * j])
    && (forall j :: 0 <= j < r ==> X[16 * (r + j)..16 * (r + j) + 16] == Y[2 * j + 1])
  }

  lemma {:induction false} ArrangedEvens(X: Words, Y: seq<Block>, r: nat, n: nat)
    requires Arranged(X, Y, r) && n <= r
    ensures X[..16 * n] == Evens(Y, n)
  {
    if n > 0 {
      var j := n - 1;
      ArrangedEvens(X, Y, r, j);
      assert X[16 * j..16 * j + 16] == Y[2 * j];
      assert X[..16 * n] == X[..16 * j] + X[16 * j..16 * j + 16];
    }
  }

  lemma {:induction false} ArrangedOdds(X: Words, Y: seq<Block>, r: nat, n: nat)
    requires Arranged(X, Y, r) && n <= r
    ensures X[16 * r..16 * r + 16 * n] == Odds(Y, n)
  {
    if n > 0 {
      var j := n - 1;
      ArrangedOdds(X, Y, r, j);
      assert X[16 * (r + j)..16 * (r + j) + 16] == Y[2 * j + 1];
      Extended(X, 16 * r, 16 * (r + j));
    }
  }

  lemma Extended(X: Words, a: nat, b: nat)
    requires a <= b && b + 16 <= |X|
    ensures X[a..b + 16] == X[a..b] + X[b..b + 16]
  {
  }

  lemma ArrangedIsMix(H: Core, B: Words, X: Words, Y: seq<Block>, r: nat)
    requires r >= 1 && |B| == 32 * r && Y == Chain(H, B, 2 * r) && Arranged(X, Y, r)
    ensures X == BlockMix(H, B, r)
  {
    ArrangedEvens(X, Y, r, r);
    ArrangedOdds(X, Y, r, r);
    ShuffledAll(X, Y, r);
  }

  /** `neoscrypt_blkswp` of the blocks at words a and b. */
  method SwapBlocks(X: array<Word32>, a: nat, b: nat)
    requires a + 16 <= b && b + 16 <= X.Length
    modifies X
    ensures X[..] == Overlaid(Overlaid(old(X[..]), a, old(X[b..b + 16])), b, old(X[a..a + 16]))
  {
    var x, y := X[a..a + 16], X[b..b + 16];
    Put(X, a, y);
    Put(X, b, x);
  }

  lemma SwappedArranged(X: Words, B: Words, Y: seq<Block>)
    requires |Y| == 4 && MixedUpTo(X, B, Y, 4)
    ensures Arranged(Overlaid(Overlaid(X, 16, X[32..48]), 32, X[16..32]), Y, 2)
  {
    forall j | 0 <= j < 4
      ensures X[16 * j..16 * j + 16] == Y[j]
    {
    }
    assert X[16 * 1..16 * 1 + 16] == Y[1] && X[16 * 2..16 * 2 + 16] == Y[2];
    var Z := Overlaid(X, 16, Y[2]);
    var W := Overlaid(Z, 32, Y[1]);
    Swapped(X, Z, W, Y, 0);
    Swapped(X, Z, W, Y, 1);
    Swapped(X, Z, W, Y, 2);
    Swapped(X, Z, W, Y, 3);
    FourBlocks(W, Y);
  }

  lemma Swapped(X: Words, Z: Words, W: Words, Y: seq<Block>, j: nat)
    requires j < |Y| == 4 && |X| == 64 && X[16 * j..16 * j + 16] == Y[j]
    requires Z == Overlaid(X, 16, Y[2]) && W == Overlaid(Z, 32, Y[1])
    ensures W[16 * j..16 * j + 16] == if j == 1 then Y[2] else if j == 2 then Y[1] else Y[j]
  {
    OtherBlock(X, 1, Y[2], j);
    OtherBlock(Z, 2, Y[1], j);
  }

  lemma FourBlocks(W: Words, Y: seq<Block>)
    requires |W| == 64 && |Y| == 4
    requires W[16 * 0..16 * 0 + 16] == Y[0] && W[16 * 1..16 * 1 + 16] == Y[2]
    requires W[16 * 2..16 * 2 + 16] == Y[1] && W[16 * 3..16 * 3 + 16] == Y[3]
    ensures Arranged(W, Y, 2)
  {
  }

  /** The mixer unrolled for r = 1. */
  method MixOne(H: Core, X: array<Word32>)
    requires X.Length == 32
    modifies X
    ensures X[..] == BlockMix(H, old(X[..]), 1)
  {
    ghost var B, Y := X[..], Chain(H, X[..], 2);
    MixBlockAt(H, X, 0, 1, B, Y, 1);
    MixBlockAt(H, X, 1, 0, B, Y, 1);
    assert X[..][16 * 0..16 * 0 + 16] == Y[0] && X[..][16 * 1..16 * 1 + 16] == Y[1];
    ArrangedIsMix(H, B, X[..], Y, 1);
  }

  /** The mixer unrolled for r = 2. */
  method MixTwo(H: Core, X: array<Word32>)
    requires X.Length == 64
    modifies X
    ensures X[..] == BlockMix(H, old(X[..]), 2)
  {
    ghost var B, Y := X[..], Chain(H, X[..], 4);
    MixBlockAt(H, X, 0, 3, B, Y, 2);
    MixBlockAt(H, X, 1, 0, B, Y, 2);
    MixBlockAt(H, X, 2, 1, B, Y, 2);
    MixBlockAt(H, X, 3, 2, B, Y, 2);
    SwappedArranged(X[..], B, Y);
    SwapBlocks(X, 16, 32);
    ArrangedIsMix(H, B, X[..], Y, 2);
  }

  /** The first i blocks of the scratch buffer are those of the chain. */
  ghost predicate Saved(S: Words, Y: seq<Block>, i: nat) {
    |S| == 16 * |Y| && i <= |Y| && forall j :: 0 <= j < i ==> S[16 * j..16 * j + 16] == Y[j]
  }

  lemma SavedNext(S: Words, Y: seq<Block>, i: nat)
    requires Saved(S, Y, i) && i < |Y|
    ensures Saved(Overlaid(S, 16 * i, Y[i]), Y, i + 1)
  {
    var T := Overlaid(S, 16 * i, Y[i]);
    forall j | 0 <= j < i + 1
      ensures T[16 * j..16 * j + 16] == Y[j]
    {
      OtherBlock(S, i, Y[i], j);
    }
  }

  /** Mixing block after block, each result also saved. */
  method MixAndSave(H: Core, X: array<Word32>, S: array<Word32>, r: nat, ghost Y: seq<Block>)
    requires r >= 1 && X != S && X.Length == S.Length == 32 * r && Y == Chain(H, X[..], 2 * r)
    modifies X, S
    ensures Saved(S[..], Y, 2 * r)
  {
    ghost var B := X[..];
    for i := 0 to 2 * r
      invariant MixedUpTo(X[..], B, Y, i)
      invariant Saved(S[..], Y, i)
    {
      MixBlockAt(H, X, i, if i > 0 then i - 1 else 2 * r - 1, B, Y, r);
      assert X[16 * i..16 * i + 16] == X[..][16 * i..16 * i + 16] == Y[i];
      SavedNext(S[..], Y, i);
      Copy(S, 16 * i, X, 16 * i, 16);
    }
  }

  /** The first i even blocks and the first k odd blocks are in place. */
  ghost predicate PartlyArranged(X: Words, Y: seq<Block>, r: nat, i: nat, k: nat) {
    && |X| == 32 * r && |Y| == 2 * r && i <= r && k <= r
    && (forall j :: 0 <= j < i ==> X[16 * j..16 * j + 16] == Y[2 * j])
    && (forall j :: 0 <= j < k ==> X[16 * (r + j)..16 * (r + j) + 16] == Y[2 * j + 1])
  }

  lemma EvenPlaced(X: Words, Y: seq<Block>, r: nat, i: nat)
    requires PartlyArranged(X, Y, r, i, 0) && i < r
    ensures PartlyArranged(Overlaid(X, 16 * i, Y[2 * i]), Y, r, i + 1, 0)
  {
    var Z := Overlaid(X, 16 * i, Y[2 * i]);
    forall j | 0 <= j < i + 1
      ensures Z[16 * j..16 * j + 16] == Y[2 * j]
    {
      OtherBlock(X, i, Y[2 * i], j);
    }
  }

  lemma OddPlaced(X: Words, Y: seq<Block>, r: nat, i: nat)
    requires PartlyArranged(X, Y, r, r, i) && i < r
    ensures PartlyArranged(Overlaid(X, 16 * (r + i), Y[2 * i + 1]), Y, r, r, i + 1)
  {
    var Z := Overlaid(X, 16 * (r + i), Y[2 * i + 1]);
    forall j | 0 <= j < r
      ensures Z[16 * j..16 * j + 16] == Y[2 * j]
    {
      OtherBlock(X, r + i, Y[2 * i + 1], j);
    }
    forall j | 0 <= j < i + 1
      ensures Z[16 * (r + j)..16 * (r + j) + 16] == Y[2 * j + 1]
    {
      OtherBlock(X, r + i, Y[2 * i + 1], r + j);
    }
  }

  /** The two loops that copy the saved blocks back, even ones first. */
  method CopyBack(X: array<Word32>, S: array<Word32>, r: nat, ghost Y: seq<Block>)
    requires X != S && X.Length == S.Length == 32 * r && |Y| == 2 * r && Saved(S[..], Y, 2 * r)
    modifies X
    ensures Arranged(X[..], Y, r)
  {
    for i := 0 to r
      invariant PartlyArranged(X[..], Y, r, i, 0)
    {
      EvenPlaced(X[..], Y, r, i);
      SavedBlock(S, Y, 2 * i);
      Copy(X, 16 * i, S, 16 * (2 * i), 16);
    }
    for i := 0 to r
      invariant PartlyArranged(X[..], Y, r, r, i)
    {
      OddPlaced(X[..], Y, r, i);
      SavedBlock(S, Y, 2 * i + 1);
      Copy(X, 16 * (r + i), S, 16 * (2 * i + 1), 16);
    }
  }

  lemma SavedBlock(S: array<Word32>, Y: seq<Block>, j: nat)
    requires Saved(S[..], Y, |Y|) && j < |Y|
    ensures S[16 * j..16 * j + 16] == Y[j]
  {
    assert S[..][16 * j..16 * j + 16] == Y[j];
  }

  /** `neoscrypt_blkmix`, with the core chosen by its mix mode: for every r the block mix of scrypt. */
  method BlkMix(H: Core, X: array<Word32>, S: array<Word32>, r: nat)
    requires r >= 1 && X != S && X.Length == S.Length == 32 * r
    modifies X, S
    ensures X[..] == BlockMix(H, old(X[..]), r)
  {
    if r == 1 {
      MixOne(H, X);
      return;
    }
    if r == 2 {
      MixTwo(H, X);
      return;
    }
    MixGeneric(H, X, S, r);
  }

  /** The reference code for any r. */
  method MixGeneric(H: Core, X: array<Word32>, S: array<Word32>, r: nat)
    requires r >= 1 && X != S && X.Length == S.Length == 32 * r
    modifies X, S
    ensures X[..] == BlockMix(H, old(X[..]), r)
  {
    ghost var B, Y := X[..], Chain(H, X[..], 2 * r);
    MixAndSave(H, X, S, r, Y);
    CopyBack(X, S, r, Y);
    ArrangedIsMix(H, B, X[..], Y, r);
  }
}

