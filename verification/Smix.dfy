/**
 The bytes around the loops of `smix`, algos/scrypt.c: little-endian loads and stores, inverse to
 each other.
 */
module Smix {
  import opened Bits
  import opened Arithmetic
  import opened Scrypt
  import opened RoMix

  /** What `le32dec` adds up. */
  lemma WordValue(b: seq<Byte>, pos: nat)
    requires 4 * pos + 4 <= |b|
    ensures Value(WordAt(b, pos)) ==
            Value(b[4 * pos]) + 256 * Value(b[4 * pos + 1]) + 65536 * Value(b[4 * pos + 2]) +
            16777216 * Value(b[4 * pos + 3])
  {
    var high: seq<Bit> := b[4 * pos + 3];
    ByteBelow(high, b[4 * pos + 2]);
    ByteBelow(high + b[4 * pos + 2], b[4 * pos + 1]);
    ByteBelow(high + b[4 * pos + 2] + b[4 * pos + 1], b[4 * pos]);
  }

  lemma ByteBelow(high: seq<Bit>, b: Byte)
    ensures Value(high + b) == 256 * Value(high) + Value(b)
  {
    ValueConcat(high, b);
    assert Pow2(8) == 256 by {
      assert Pow2(4) == 16;
    }
  }

  /** The byte that `le32enc` stores at place j. */
  function ByteIn(w: Word32, j: nat): Byte
    requires j < 4
  {
    if j == 0 then w[24..] else if j == 1 then w[16..24] else if j == 2 then w[8..16] else w[..8]
  }

  lemma FourBytes(b0: Byte, b1: Byte, b2: Byte, b3: Byte)
    ensures var w := WordOf(b0, b1, b2, b3);
            ByteIn(w, 0) == b0 && ByteIn(w, 1) == b1 && ByteIn(w, 2) == b2 && ByteIn(w, 3) == b3
  {
  }

  lemma ByteOfWordAt(b: seq<Byte>, pos: nat, j: nat)
    requires 4 * pos + 4 <= |b| && j < 4
    ensures ByteIn(WordAt(b, pos), j) == b[4 * pos + j]
  {
    FourBytes(b[4 * pos], b[4 * pos + 1], b[4 * pos + 2], b[4 * pos + 3]);
  }

  function Loaded(b: seq<Byte>): (w: Words)
    ensures |w| == |b| / 4
  {
    seq(|b| / 4, k requires 0 <= k < |b| / 4 => WordAt(b, k))
  }

  function Stored(w: Words): (b: seq<Byte>)
    ensures |b| == 4 * |w|
  {
    seq(4 * |w|, i requires 0 <= i < 4 * |w| => ByteIn(w[i / 4], i % 4))
  }

  lemma WordOfBytes(w: Word32, b: seq<Byte>, pos: nat)
    requires 4 * pos + 4 <= |b| && forall j :: 0 <= j < 4 ==> b[4 * pos + j] == ByteIn(w, j)
    ensures WordAt(b, pos) == w
  {
    assert b[4 * pos] == ByteIn(w, 0) && b[4 * pos + 1] == ByteIn(w, 1);
    assert b[4 * pos + 2] == ByteIn(w, 2) && b[4 * pos + 3] == ByteIn(w, 3);
  }

  lemma StoredWord(w: Words, k: nat)
    requires k < |w|
    ensures WordAt(Stored(w), k) == w[k]
  {
    WordOfBytes(w[k], Stored(w), k);
  }

  /** Loading what was stored gives it back. */
  lemma LoadStore(w: Words)
    ensures Loaded(Stored(w)) == w
  {
    var all := Loaded(Stored(w));
    forall k | 0 <= k < |w|
      ensures all[k] == w[k]
    {
      StoredWord(w, k);
    }
  }

  /** Storing what was loaded gives it back. */
  lemma StoreLoad(b: seq<Byte>)
    requires |b| % 4 == 0
    ensures Stored(Loaded(b)) == b
  {
    forall i | 0 <= i < |b|
      ensures Stored(Loaded(b))[i] == b[i]
    {
      ByteOfWordAt(b, i / 4, i % 4);
    }
  }

  /** X <-- B. */
  method Load(B: array<Byte>, X: array<Word32>)
    requires B.Length == 4 * X.Length
    modifies X
    ensures X[..] == Loaded(B[..]) && B[..] == old(B[..])
  {
    ghost var b := B[..];
    for k := 0 to X.Length
      invariant B[..] == b
      invariant forall j :: 0 <= j < k ==> X[j] == WordAt(b, j)
    {
      X[k] := WordAt(B[..], k);
    }
  }

  /** `le32enc`. */
  method Encode(B: array<Byte>, k: nat, w: Word32)
    requires 4 * k + 4 <= B.Length
    modifies B
    ensures forall i :: 0 <= i < B.Length && !(4 * k <= i < 4 * k + 4) ==> B[i] == old(B[i])
    ensures B[4 * k] == ByteIn(w, 0) && B[4 * k + 1] == ByteIn(w, 1)
    ensures B[4 * k + 2] == ByteIn(w, 2) && B[4 * k + 3] == ByteIn(w, 3)
  {
    B[4 * k] := ByteIn(w, 0);
    B[4 * k + 1] := ByteIn(w, 1);
    B[4 * k + 2] := ByteIn(w, 2);
    B[4 * k + 3] := ByteIn(w, 3);
  }

  /** The first k words are stored. */
  ghost predicate StoredUpTo(w: Words, k: nat, b: seq<Byte>)
    requires k <= |w| && |b| == 4 * |w|
  {
    forall i :: 0 <= i < 4 * k ==> b[i] == ByteIn(w[i / 4], i % 4)
  }

  lemma StoredNext(w: Words, k: nat, b: seq<Byte>, c: seq<Byte>)
    requires k < |w| && |b| == |c| == 4 * |w| && StoredUpTo(w, k, b)
    requires forall i :: 0 <= i < 4 * k ==> c[i] == b[i]
    requires c[4 * k] == ByteIn(w[k], 0) && c[4 * k + 1] == ByteIn(w[k], 1)
    requires c[4 * k + 2] == ByteIn(w[k], 2) && c[4 * k + 3] == ByteIn(w[k], 3)
    ensures StoredUpTo(w, k + 1, c)
  {
    forall i | 0 <= i < 4 * k + 4
      ensures c[i] == ByteIn(w[i / 4], i % 4)
    {
      if i < 4 * k {
        assert c[i] == b[i];
      } else {
        assert i / 4 == k;
      }
    }
  }

  /** B' <-- X. */
  method Store(B: array<Byte>, X: array<Word32>)
    requires B.Length == 4 * X.Length
    modifies B
    ensures B[..] == Stored(X[..]) && X[..] == old(X[..])
  {
    ghost var w := X[..];
    for k := 0 to X.Length
      invariant X[..] == w
      invariant StoredUpTo(w, k, B[..])
    {
      ghost var b := B[..];
      Encode(B, k, X[k]);
      StoredNext(w, k, b, B[..]);
    }
  }

  /** `smix`: what scryptROMix makes of the 128 r bytes of B. */
  method Smix(H: Core, r: nat, k: nat, B: array<Byte>, X: array<Word32>, Y: array<Word32>, Z: array<Word32>,
              V: array<Word32>)
    requires Apart(X, Y, Z, V, r) && B.Length == 128 * r && 1 <= k < 64 && V.Length == Pow2(k) * (32 * r)
    modifies B, X, Y, Z, V
    ensures B[..] == Stored(ROMix(H, Loaded(old(B[..])), r, Pow2(k)))
  {
    Load(B, X);
    SmixWords(H, r, k, X, Y, Z, V);
    Store(B, X);
  }
}
