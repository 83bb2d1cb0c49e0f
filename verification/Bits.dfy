/**
 Machine words as the sequences of their bits, most significant first, and what the shifts and
 masks of the C code do to them.
 */
module Bits {
  import opened Arithmetic

  type Bit = bool
  type Byte = b: seq<Bit> | |b| == 8 witness [false, false, false, false, false, false, false, false]

  const ZERO_BYTE: Byte := [false, false, false, false, false, false, false, false]

  type Word32 = w: seq<Bit> | |w| == 32 witness seq(32, _ => false)

  function Repeat(b: Bit, n: nat): (w: seq<Bit>)
    ensures |w| == n && forall i :: 0 <= i < n ==> w[i] == b
  {
    seq(n, _ => b)
  }

  function Zeros(n: nat): (w: seq<Bit>)
    ensures |w| == n && forall i :: 0 <= i < n ==> !w[i]
  {
    Repeat(false, n)
  }

  /** Four bytes as a 32-bit number, least significant first. */
  function WordOf(b0: Byte, b1: Byte, b2: Byte, b3: Byte): Word32 {
    var high: seq<Bit> := b3;
    high + b2 + b1 + b0
  }

  function WordAt(b: seq<Byte>, pos: nat): Word32
    requires 4 * pos + 4 <= |b|
  {
    WordOf(b[4 * pos], b[4 * pos + 1], b[4 * pos + 2], b[4 * pos + 3])
  }

  /** The bits of a buffer. */
  function Flat(bytes: seq<Byte>): (w: seq<Bit>)
    ensures |w| == 8 * |bytes|
  {
    if bytes == [] then [] else Flat(bytes[..|bytes| - 1]) + bytes[|bytes| - 1]
  }

  lemma FlatNext(bytes: seq<Byte>, i: nat)
    requires i < |bytes|
    ensures Flat(bytes[..i + 1]) == Flat(bytes[..i]) + bytes[i]
  {
    assert bytes[..i + 1][..i] == bytes[..i];
  }

  lemma {:induction false} FlatConcat(a: seq<Byte>, b: seq<Byte>)
    ensures Flat(a + b) == Flat(a) + Flat(b)
  {
    if b == [] {
      assert a + b == a;
    } else {
      var n := |b| - 1;
      FlatConcat(a, b[..n]);
      assert (a + b)[..|a + b| - 1] == a + b[..n];
    }
  }

  function Xor(a: seq<Bit>, b: seq<Bit>): (w: seq<Bit>)
    requires |a| == |b|
    ensures |w| == |a| && forall i :: 0 <= i < |a| ==> w[i] == (a[i] != b[i])
  {
    seq(|a|, i requires 0 <= i < |a| => a[i] != b[i])
  }

  function And(a: seq<Bit>, b: seq<Bit>): (w: seq<Bit>)
    requires |a| == |b|
    ensures |w| == |a| && forall i :: 0 <= i < |a| ==> w[i] == (a[i] && b[i])
  {
    seq(|a|, i requires 0 <= i < |a| => a[i] && b[i])
  }

  // ----- 64-bit words -----

  type Word = w: seq<Bit> | |w| == 64 witness seq(64, _ => false)

  /** (w << 8) | b */
  function ShiftIn(w: Word, b: Byte): Word {
    w[8..] + b
  }

  /** w >> s */
  function Shr(w: Word, s: nat): Word
    requires s <= 64
  {
    Zeros(s) + w[..64 - s]
  }

  /** (1 << n) - 1 */
  function Mask(n: nat): Word
    requires n <= 64
  {
    Zeros(64 - n) + Repeat(true, n)
  }

  function LowByte(w: Word): Byte {
    w[56..]
  }

  /** The bit that stands r places from the right; none beyond the left end. */
  predicate FromRight(w: seq<Bit>, r: nat) {
    r < |w| && w[|w| - 1 - r]
  }

  // ----- the numbers behind the words -----

  function Value(w: seq<Bit>): (v: nat)
    ensures v < Pow2(|w|)
  {
    if w == [] then 0
    else
      var n := |w| - 1;
      2 * Value(w[..n]) + if w[n] then 1 else 0
  }

  lemma ValueLast(w: seq<Bit>, b: Bit)
    ensures Value(w + [b]) == 2 * Value(w) + if b then 1 else 0
  {
  }

  lemma {:induction false} ValueConcat(a: seq<Bit>, b: seq<Bit>)
    ensures Value(a + b) == Value(a) * Pow2(|b|) + Value(b)
  {
    if b == [] {
      assert a + b == a;
    } else {
      var n := |b| - 1;
      var init, last := b[..n], b[n];
      assert b == init + [last] && a + b == (a + init) + [last];
      ValueConcat(a, init);
      ValueLast(a + init, last);
      ValueLast(init, last);
      Doubled(Value(a), Pow2(n));
    }
  }

  lemma Doubled(a: nat, p: nat)
    ensures 2 * (a * p) == a * (2 * p)
  {
  }

  lemma {:induction false} ValueRepeat(n: nat)
    ensures Value(Zeros(n)) == 0 && Value(Repeat(true, n)) == Pow2(n) - 1
  {
    if n > 0 {
      ValueRepeat(n - 1);
      assert Zeros(n)[..n - 1] == Zeros(n - 1);
      assert Repeat(true, n)[..n - 1] == Repeat(true, n - 1);
    }
  }

  lemma ValuePadded(n: nat, w: seq<Bit>)
    ensures Value(Zeros(n) + w) == Value(w)
  {
    ValueRepeat(n);
    ValueConcat(Zeros(n), w);
  }

  lemma MaskValue(n: nat)
    requires n <= 64
    ensures Value(Mask(n)) == Pow2(n) - 1
  {
    OnesPadded(64 - n, n);
  }

  lemma OnesPadded(k: nat, n: nat)
    ensures Value(Zeros(k) + Repeat(true, n)) == Pow2(n) - 1
  {
    ValuePadded(k, Repeat(true, n));
    ValueRepeat(n);
  }

  /** The shift in C is the product modulo 2^64: what leaves on the left is a multiple of 2^64. */
  lemma ShiftInValue(w: Word, b: Byte)
    ensures Value(w) * Pow2(8) + Value(b) == Value(w[..8]) * Pow2(64) + Value(ShiftIn(w, b))
  {
    ValueConcat(w, b);
    assert w + b == w[..8] + ShiftIn(w, b);
    ValueConcat(w[..8], ShiftIn(w, b));
  }

  /** The shift right is the quotient: what leaves on the right is less than 2^s. */
  lemma ShrValue(w: Word, s: nat)
    requires s <= 64
    ensures Value(w) == Value(Shr(w, s)) * Pow2(s) + Value(w[64 - s..])
    ensures Value(w[64 - s..]) < Pow2(s)
  {
    assert w == w[..64 - s] + w[64 - s..];
    ValueConcat(w[..64 - s], w[64 - s..]);
    ValuePadded(s, w[..64 - s]);
  }
}
