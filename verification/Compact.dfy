/**
 Compact targets, `bits2target` and `target2bits` of util.cpp. A target is its 32 bytes, least
 significant first, a compact value its four bytes, exponent last; the hexadecimal texts the
 code passes around are these bytes.
 */
module Compact {
  import opened Arithmetic
  import opened Bits
  import opened Options

  type Bytes = seq<Byte>

  const WIDTH := 8

  function NoBytes(n: nat): (s: Bytes)
    ensures |s| == n && forall i :: 0 <= i < n ==> s[i] == ZERO_BYTE
  {
    seq(n, _ => ZERO_BYTE)
  }

  /** The number of significant bytes. */
  function Significant(b: Bytes): (n: nat)
    ensures n <= |b| && (n > 0 ==> b[n - 1] != ZERO_BYTE)
    ensures forall i :: n <= i < |b| ==> b[i] == ZERO_BYTE
  {
    if b == [] then 0 else if b[|b| - 1] != ZERO_BYTE then |b| else Significant(b[..|b| - 1])
  }

  lemma SignificantIs(b: Bytes, n: nat)
    requires n <= |b| && (n > 0 ==> b[n - 1] != ZERO_BYTE) && forall i :: n <= i < |b| ==> b[i] == ZERO_BYTE
    ensures Significant(b) == n
  {
  }

  // ----- the highest set bit -----

  /** n is the number of the word's significant bits. */
  predicate TopBit(w: Word32, n: nat) {
    1 <= n <= 32 && w[32 - n] && forall i :: 0 <= i < 32 - n ==> !w[i]
  }

  /** The inner loop of `target2bits`, on a word that is not zero. */
  method WordBits(w: Word32) returns (n: nat)
    requires exists i :: 0 <= i < 32 && w[i]
    ensures TopBit(w, n)
  {
    var bits := 31;
    while bits > 0
      invariant 0 <= bits <= 31 && forall i :: 0 <= i < 31 - bits ==> !w[i]
    {
      if w[31 - bits] {
        return bits + 1;
      }
      bits := bits - 1;
    }
    return 1;
  }

  lemma ByteOfWord(b: Bytes, pos: nat, j: nat, u: nat)
    requires 4 * pos + 4 <= |b| && j < 4 && u < 8
    ensures WordAt(b, pos)[8 * j + u] == b[4 * pos + 3 - j][u]
  {
  }

  lemma NotZeroByte(b: Byte)
    ensures b == ZERO_BYTE || exists u :: 0 <= u < 8 && b[u]
  {
  }

  /** The bits of a word place its top byte. */
  lemma TopByte(b: Bytes, pos: nat, n: nat, j: nat)
    requires 4 * pos + 4 <= |b| && TopBit(WordAt(b, pos), n) && j < 4 && 8 * j <= 32 - n < 8 * j + 8
    ensures b[4 * pos + 3 - j] != ZERO_BYTE
    ensures forall i :: 4 * pos + 4 - j <= i < 4 * pos + 4 ==> b[i] == ZERO_BYTE
  {
    ByteOfWord(b, pos, j, 32 - n - 8 * j);
    forall i | 4 * pos + 4 - j <= i < 4 * pos + 4
      ensures b[i] == ZERO_BYTE
    {
      NotZeroByte(b[i]);
      forall u | 0 <= u < 8
        ensures !b[i][u]
      {
        ByteOfWord(b, pos, 4 * pos + 3 - i, u);
      }
    }
  }

  /** Significant bytes from significant bits, rounded up. */
  lemma BytesFromBits(b: Bytes, pos: nat, n: nat)
    requires 4 * pos + 4 <= |b| && TopBit(WordAt(b, pos), n)
    requires forall i :: 4 * pos + 4 <= i < |b| ==> b[i] == ZERO_BYTE
    ensures 32 * pos + n <= 8 * Significant(b) < 32 * pos + n + 8
  {
    var j := if n > 24 then 0 else if n > 16 then 1 else if n > 8 then 2 else 3;
    TopByte(b, pos, n, j);
    TopByteIs(b, pos, j);
  }

  lemma TopByteIs(b: Bytes, pos: nat, j: nat)
    requires 4 * pos + 4 <= |b| && j < 4 && b[4 * pos + 3 - j] != ZERO_BYTE
    requires forall i :: 4 * pos + 4 - j <= i < 4 * pos + 4 ==> b[i] == ZERO_BYTE
    requires forall i :: 4 * pos + 4 <= i < |b| ==> b[i] == ZERO_BYTE
    ensures Significant(b) == 4 * pos + 4 - j
  {
  }

  lemma RoundedUp(n: nat, size: nat)
    requires n <= 8 * size < n + 8
    ensures (n + 7) / 8 == size
  {
  }

  predicate WordIsZero(b: Bytes, pos: nat)
    requires 4 * pos + 4 <= |b|
  {
    forall i :: 4 * pos <= i < 4 * pos + 4 ==> b[i] == ZERO_BYTE
  }

  lemma ZeroWord(b: Bytes, pos: nat)
    requires 4 * pos + 4 <= |b|
    ensures WordIsZero(b, pos) <==> !(exists i :: 0 <= i < 32 && WordAt(b, pos)[i])
  {
    var w := WordAt(b, pos);
    if !WordIsZero(b, pos) {
      var i :| 4 * pos <= i < 4 * pos + 4 && b[i] != ZERO_BYTE;
      NotZeroByte(b[i]);
      var u :| 0 <= u < 8 && b[i][u];
      var j := 4 * pos + 3 - i;
      ByteOfWord(b, pos, j, u);
      assert w[8 * j + u];
    } else {
      forall i | 0 <= i < 32
        ensures !w[i]
      {
        var j := if i < 8 then 0 else if i < 16 then 1 else if i < 24 then 2 else 3;
        assert b[4 * pos + 3 - j] == ZERO_BYTE;
        ByteOfWord(b, pos, j, i - 8 * j);
      }
    }
  }

  /** The word loop of `target2bits`, rounded up to bytes. */
  method SizeOf(b: Bytes) returns (nSize: nat)
    requires |b| == 4 * WIDTH
    ensures nSize == Significant(b)
  {
    var bitsRes, pos := 0, WIDTH - 1;
    while pos >= 0
      invariant -1 <= pos < WIDTH && bitsRes == 0
      invariant forall i :: 4 * (pos + 1) <= i < |b| ==> b[i] == ZERO_BYTE
    {
      ZeroWord(b, pos);
      if exists i :: 0 <= i < 32 && WordAt(b, pos)[i] {
        var n := WordBits(WordAt(b, pos));
        bitsRes := 32 * pos + n;
        BytesFromBits(b, pos, n);
        RoundedUp(bitsRes, Significant(b));
        return (bitsRes + 7) / 8;
      }
      forall i | 4 * pos <= i < |b|
        ensures b[i] == ZERO_BYTE
      {
      }
      pos := pos - 1;
    }
    SignificantIs(b, 0);
    return (bitsRes + 7) / 8;
  }

  // ----- target2bits -----

  function Or(a: Byte, b: Byte): Byte {
    seq(8, i requires 0 <= i < 8 => a[i] || b[i])
  }

  /** A number below 256 as a byte. */
  function ByteOf(n: nat): (b: Byte)
    requires n < 256
    ensures Value(b) == n
  {
    ToBits(n, 8)
  }

  function ToBits(n: nat, k: nat): (w: seq<Bit>)
    requires n < Pow2(k)
    ensures |w| == k && Value(w) == n
  {
    if k == 0 then []
    else
      var w := ToBits(n / 2, k - 1);
      ValueLast(w, n % 2 == 1);
      w + [n % 2 == 1]
  }

  /** The sign bit of a mantissa's highest byte. */
  predicate Signed(b: Byte) {
    b[0]
  }

  /** The low 32 bits of the number shifted to three bytes; `beyond` is what stands after pn[7]. */
  function Shifted(b: Bytes, beyond: Bytes, nSize: nat): (c: Bytes)
    requires |b| == 32 && |beyond| == 4 && nSize <= 32
    ensures |c| == 4
  {
    if nSize <= 3 then (NoBytes(3 - nSize) + b[..8])[..4] else (b + beyond)[nSize - 3..nSize + 1]
  }

  /** A compact value: three mantissa bytes, least significant first, and the exponent byte's number. */
  datatype Nbits = Nbits(m0: Byte, m1: Byte, m2: Byte, e: nat)

  const NO_BITS := Nbits(ZERO_BYTE, ZERO_BYTE, ZERO_BYTE, 0)

  /** The exponent ored into the top byte. */
  function WithExponent(top: Byte, n: nat): nat
    requires n < 256
  {
    Value(Or(top, ByteOf(n)))
  }

  lemma FreeTop(n: nat)
    requires n < 256
    ensures WithExponent(ZERO_BYTE, n) == n
  {
    assert Or(ZERO_BYTE, ByteOf(n)) == ByteOf(n);
  }

  /** A set sign bit moves the mantissa one byte down; then the exponent. */
  function Packed(c: Bytes, nSize: nat): Nbits
    requires |c| == 4 && nSize <= 32
  {
    if Signed(c[2]) then Nbits(c[1], c[2], c[3], nSize + 1)
    else Nbits(c[0], c[1], c[2], WithExponent(c[3], nSize))
  }

  /** The shift to three bytes. */
  method ShiftToThree(b: Bytes, beyond: Bytes, nSize: nat) returns (c: Bytes)
    requires |b| == 32 && |beyond| == 4 && nSize <= 32
    ensures c == Shifted(b, beyond, nSize)
  {
    if nSize <= 3 {
      var low64 := b[0..4] + b[4..8];
      assert low64 == b[..8];
      c := (NoBytes(3 - nSize) + low64)[..4];
    } else {
      var pos := nSize - 3;
      var shr, word := pos % 4, pos / 4;
      var pn := b + beyond;
      var low64 := pn[4 * word..4 * word + 4] + pn[4 * word + 4..4 * word + 8];
      LowBytes(pn, word, shr);
      c := low64[shr..][..4];
    }
  }

  /** Sign bit and exponent. */
  method Pack(c: Bytes, nSize: nat) returns (r: Nbits)
    requires |c| == 4 && nSize <= 32
    ensures r == Packed(c, nSize)
  {
    var m, size := c, nSize;
    if Signed(c[2]) {
      m := c[1..] + [ZERO_BYTE];
      size := size + 1;
    }
    FreeTop(size);
    r := Nbits(m[0], m[1], m[2], WithExponent(m[3], size));
  }

  function Compacted(b: Bytes, beyond: Bytes): Nbits
    requires |b| == 32 && |beyond| == 4
  {
    Packed(Shifted(b, beyond, Significant(b)), Significant(b))
  }

  /** `target2bits`. */
  method Target2Bits(b: Bytes, beyond: Bytes) returns (r: Nbits)
    requires |b| == 32 && |beyond| == 4
    ensures r == Compacted(b, beyond)
  {
    var nSize := SizeOf(b);
    var c := ShiftToThree(b, beyond, nSize);
    r := Pack(c, nSize);
  }

  lemma LowBytes(pn: Bytes, word: nat, shr: nat)
    requires 4 * word + 8 <= |pn| && shr < 4
    ensures var low64 := pn[4 * word..4 * word + 4] + pn[4 * word + 4..4 * word + 8];
            low64[shr..][..4] == pn[4 * word + shr..4 * word + shr + 4]
  {
    assert pn[4 * word..4 * word + 4] + pn[4 * word + 4..4 * word + 8] == pn[4 * word..4 * word + 8];
  }

  // ----- bits2target -----

  /** The exponent keeps the mantissa inside the 32 bytes. */
  predicate Writable(c: Nbits) {
    c == NO_BITS || 3 <= c.e <= 32
  }

  function Target(c: Nbits): (b: Bytes)
    requires Writable(c)
    ensures |b| == 32
  {
    if c == NO_BITS then NoBytes(32) else NoBytes(c.e - 3) + [c.m0, c.m1, c.m2] + NoBytes(32 - c.e)
  }

  /** `bits2target`; None where it stores outside its 32 bytes. */
  method Bits2Target(c: Nbits) returns (r: Option<array<Byte>>)
    ensures r.Some? <==> Writable(c)
    ensures r.Some? ==> fresh(r.value) && r.value[..] == Target(c)
  {
    var b := new Byte[32](_ => ZERO_BYTE);
    if c != NO_BITS {
      if c.e < 3 || c.e > 32 {
        return None;
      }
      b[c.e - 1] := c.m2;
      b[c.e - 2] := c.m1;
      b[c.e - 3] := c.m0;
    }
    assert b[..] == Target(c);
    return Some(b);
  }
}
