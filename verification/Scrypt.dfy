/**
 The scrypt core of algos/scrypt.c against sections 4 (scryptBlockMix) and 5 (scryptROMix) of
 RFC 7914. Buffers are arrays of 32-bit words, a block is 16 words; the Salsa20/8 core is a
 parameter.
 */
module Scrypt {
  import opened Bits
  import opened Buffers

  const ZERO_WORD: Word32 := seq(32, _ => false)

  type Block = b: seq<Word32> | |b| == 16 witness seq(16, _ => ZERO_WORD)

  type Core = Block -> Block

  function XorWords(a: seq<Word32>, b: seq<Word32>): (c: seq<Word32>)
    requires |a| == |b|
    ensures |c| == |a|
  {
    seq(|a|, i requires 0 <= i < |a| => Xor(a[i], b[i]))
  }

  // ----- section 4: scryptBlockMix -----

  /** B_i of a buffer of blocks. */
  function BlockAt(B: seq<Word32>, i: nat): Block
    requires 16 * i + 16 <= |B|
  {
    B[16 * i..16 * i + 16]
  }

  /** The block that Y_i is made from: the last of the input, then the one before. */
  function Before(B: seq<Word32>, Y: seq<Block>, i: nat): Block
    requires |B| >= 16 && i <= |Y|
  {
    if i == 0 then B[|B| - 16..] else Y[i - 1]
  }

  /** Y_0, ..., Y_{n-1}: each block of the input is added to the one before and the core applied. */
  function Chain(H: Core, B: seq<Word32>, n: nat): (Y: seq<Block>)
    requires |B| >= 16 && 16 * n <= |B|
    ensures |Y| == n
  {
    if n == 0 then []
    else
      var Y := Chain(H, B, n - 1);
      Y + [H(XorWords(Before(B, Y, n - 1), BlockAt(B, n - 1)))]
  }

  lemma {:induction false} ChainLink(H: Core, B: seq<Word32>, n: nat, i: nat)
    requires |B| >= 16 && 16 * n <= |B| && i < n
    ensures var Y := Chain(H, B, n); Y[i] == H(XorWords(Before(B, Y, i), BlockAt(B, i)))
  {
    if i < n - 1 {
      ChainLink(H, B, n - 1, i);
    }
  }

  /** Y_0, Y_2, ..., Y_{2n-2}. */
  function Evens(Y: seq<Block>, n: nat): (s: seq<Word32>)
    requires 2 * n <= |Y|
    ensures |s| == 16 * n
  {
    if n == 0 then [] else Evens(Y, n - 1) + Y[2 * n - 2]
  }

  /** Y_1, Y_3, ..., Y_{2n-1}. */
  function Odds(Y: seq<Block>, n: nat): (s: seq<Word32>)
    requires 2 * n <= |Y|
    ensures |s| == 16 * n
  {
    if n == 0 then [] else Odds(Y, n - 1) + Y[2 * n - 1]
  }

  function BlockMix(H: Core, B: seq<Word32>, r: nat): (s: seq<Word32>)
    requires |B| == 32 * r && r >= 1
    ensures |s| == 32 * r
  {
    var Y := Chain(H, B, 2 * r);
    Evens(Y, r) + Odds(Y, r)
  }

  /** The first i words added, the rest as it was. */
  ghost predicate PartlyXored(now: seq<Word32>, was: seq<Word32>, from: seq<Word32>, i: nat) {
    && |now| == |was| == |from| && i <= |now|
    && (forall k :: 0 <= k < i ==> now[k] == Xor(was[k], from[k]))
    && (forall k :: i <= k < |now| ==> now[k] == was[k])
  }

  /** `blkxor` into a whole buffer. */
  method BlkXor(dest: array<Word32>, src: array<Word32>, s: nat)
    requires dest != src && s + dest.Length <= src.Length
    modifies dest
    ensures dest[..] == XorWords(old(dest[..]), src[s..s + dest.Length])
  {
    ghost var was, from := dest[..], src[s..s + dest.Length];
    for i := 0 to dest.Length
      invariant PartlyXored(dest[..], was, from, i)
    {
      var x := Xor(dest[i], src[s + i]);
      assert x == Xor(was[i], from[i]);
      dest[i] := x;
    }
    assert dest[..] == XorWords(was, from);
  }

  /** `salsa20_8`: the core applied in place. */
  method Salsa(H: Core, X: array<Word32>)
    requires X.Length == 16
    modifies X
    ensures X[..] == H(old(X[..]))
  {
    var y := H(X[..]);
    forall k | 0 <= k < 16 {
      X[k] := y[k];
    }
  }

  /** X <-- H(X xor B_i), stored at word `at` of Bout. */
  method MixBlock(H: Core, Bin: array<Word32>, i: nat, Bout: array<Word32>, at: nat, X: array<Word32>, ghost y: Block)
    requires Bin != Bout && Bin != X && Bout != X && X.Length == 16
    requires 16 * i + 16 <= Bin.Length && at + 16 <= Bout.Length
    requires y == H(XorWords(X[..], BlockAt(Bin[..], i)))
    modifies Bout, X
    ensures X[..] == y
    ensures Bout[..] == Overlaid(old(Bout[..]), at, y)
  {
    BlkXor(X, Bin, 16 * i);
    assert Bin[16 * i..16 * i + 16] == BlockAt(Bin[..], i);
    Salsa(H, X);
    Copy(Bout, at, X, 0, 16);
    assert X[0..16] == X[..];
  }

  /** The first m pairs of blocks stand at their shuffled places. */
  ghost predicate Shuffled(out: seq<Word32>, Y: seq<Block>, r: nat, m: nat) {
    && m <= r && |out| == 32 * r && |Y| == 2 * r
    && out[..16 * m] == Evens(Y, m) && out[16 * r..16 * r + 16 * m] == Odds(Y, m)
  }

  function PairWritten(a: seq<Word32>, x: Block, y: Block, p: nat, q: nat): seq<Word32>
    requires p + 16 <= |a| && q + 16 <= |a|
  {
    Overlaid(Overlaid(a, p, x), q, y)
  }

  lemma ShuffledNext(a: seq<Word32>, Y: seq<Block>, r: nat, m: nat)
    requires Shuffled(a, Y, r, m) && m < r
    ensures Shuffled(PairWritten(a, Y[2 * m], Y[2 * m + 1], 16 * m, 16 * r + 16 * m), Y, r, m + 1)
  {
  }

  /** One turn of the loop: two blocks of the chain, one to each half of the result. */
  method MixPair(H: Core, Bin: array<Word32>, i: nat, Bout: array<Word32>, p: nat, q: nat, X: array<Word32>,
                 ghost y: Block, ghost z: Block)
    requires Bin != Bout && Bin != X && Bout != X && X.Length == 16
    requires 16 * i + 32 <= Bin.Length && p + 16 <= Bout.Length && q + 16 <= Bout.Length
    requires y == H(XorWords(X[..], BlockAt(Bin[..], i))) && z == H(XorWords(y, BlockAt(Bin[..], i + 1)))
    modifies Bout, X
    ensures X[..] == z && Bout[..] == PairWritten(old(Bout[..]), y, z, p, q)
  {
    MixBlock(H, Bin, i, Bout, p, X, y);
    MixBlock(H, Bin, i + 1, Bout, q, X, z);
  }

  lemma ShuffledAll(out: seq<Word32>, Y: seq<Block>, r: nat)
    requires Shuffled(out, Y, r, r)
    ensures out == Evens(Y, r) + Odds(Y, r)
  {
  }

  ghost predicate Link(H: Core, B: seq<Word32>, Y: seq<Block>, i: nat)
    requires |B| >= 16 && 16 * |Y| <= |B| && i < |Y|
  {
    Y[i] == H(XorWords(Before(B, Y, i), BlockAt(B, i)))
  }

  ghost predicate IsChain(H: Core, B: seq<Word32>, Y: seq<Block>) {
    |B| >= 16 && 16 * |Y| <= |B| && forall i :: 0 <= i < |Y| ==> Link(H, B, Y, i)
  }

  lemma ChainIsChain(H: Core, B: seq<Word32>, n: nat)
    requires |B| >= 16 && 16 * n <= |B|
    ensures IsChain(H, B, Chain(H, B, n))
  {
    forall i | 0 <= i < n
      ensures Link(H, B, Chain(H, B, n), i)
    {
      ChainLink(H, B, n, i);
    }
  }

  lemma ChainPair(H: Core, B: seq<Word32>, Y: seq<Block>, r: nat, m: nat)
    requires m < r && |B| == 32 * r && |Y| == 2 * r && IsChain(H, B, Y)
    ensures Y[2 * m] == H(XorWords(Before(B, Y, 2 * m), BlockAt(B, 2 * m)))
    ensures Y[2 * m + 1] == H(XorWords(Y[2 * m], BlockAt(B, 2 * m + 1)))
  {
    assert Link(H, B, Y, 2 * m) && Link(H, B, Y, 2 * m + 1);
  }

  lemma ShuffledNone(out: seq<Word32>, Y: seq<Block>, r: nat)
    requires |out| == 32 * r && |Y| == 2 * r
    ensures Shuffled(out, Y, r, 0)
  {
  }

  /** Before pair m. */
  ghost predicate AtPair(H: Core, B: seq<Word32>, Y: seq<Block>, X: seq<Word32>, out: seq<Word32>, r: nat, m: nat) {
    && r >= 1 && m <= r && |B| == 32 * r && |Y| == 2 * r && IsChain(H, B, Y)
    && X == Before(B, Y, 2 * m) && Shuffled(out, Y, r, m)
  }

  /** One turn of the loop. */
  method MixTurn(H: Core, Bin: array<Word32>, i: nat, Bout: array<Word32>, X: array<Word32>, r: nat,
                 ghost Y: seq<Block>, ghost m: nat)
    requires i == 2 * m < 2 * r && Bin != Bout && Bin != X && Bout != X
    requires AtPair(H, Bin[..], Y, X[..], Bout[..], r, m)
    modifies Bout, X
    ensures AtPair(H, Bin[..], Y, X[..], Bout[..], r, m + 1)
  {
    ChainPair(H, Bin[..], Y, r, m);
    ShuffledNext(Bout[..], Y, r, m);
    assert i * 8 == 16 * m && i * 8 + r * 16 == 16 * r + 16 * m;
    MixPair(H, Bin, i, Bout, i * 8, i * 8 + r * 16, X, Y[2 * m], Y[2 * m + 1]);
  }

  /** The loop of `blockmix_salsa8`. */
  method MixLoop(H: Core, Bin: array<Word32>, Bout: array<Word32>, X: array<Word32>, r: nat, ghost Y: seq<Block>)
    requires Bin != Bout && Bin != X && Bout != X && AtPair(H, Bin[..], Y, X[..], Bout[..], r, 0)
    modifies Bout, X
    ensures AtPair(H, Bin[..], Y, X[..], Bout[..], r, r)
  {
    var i := 0;
    ghost var m := 0;
    while i < 2 * r
      invariant i == 2 * m && m <= r
      invariant AtPair(H, Bin[..], Y, X[..], Bout[..], r, m)
    {
      MixTurn(H, Bin, i, Bout, X, r, Y, m);
      i := i + 2;
      m := m + 1;
    }
    assert m == r;
  }

  /** `blockmix_salsa8`: even and odd blocks are written straight to their places in the result. */
  method BlockmixSalsa8(H: Core, Bin: array<Word32>, Bout: array<Word32>, X: array<Word32>, r: nat)
    requires r >= 1 && Bin.Length == Bout.Length == 32 * r && X.Length == 16
    requires Bin != Bout && Bin != X && Bout != X
    modifies Bout, X
    ensures Bout[..] == BlockMix(H, Bin[..], r)
  {
    var last := (2 * r - 1) * 16;
    assert Bin[last..last + 16] == Bin[..][Bin.Length - 16..];
    OverlaidAll(X[..], Bin[last..last + 16]);
    Copy(X, 0, Bin, last, 16);
    ghost var Y := Chain(H, Bin[..], 2 * r);
    ChainIsChain(H, Bin[..], 2 * r);
    ShuffledNone(Bout[..], Y, r);
    MixLoop(H, Bin, Bout, X, r, Y);
    ShuffledAll(Bout[..], Y, r);
  }
}
