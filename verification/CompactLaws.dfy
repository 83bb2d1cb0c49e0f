/**
 What the compact form keeps of a target: the two conversions are inverse up to rounding on
 exactly the targets 0 and 2^15 .. 2^248 - 1, whatever word stands past the target in memory.
 */
module CompactLaws {
  import opened Bits
  import opened Arithmetic
  import opened Compact

  /** Targets that the compact form can hold: the mantissa and its exponent stay inside. */
  predicate InDomain(b: Bytes) {
    && |b| == 32 && b[31] == ZERO_BYTE
    && var n := Significant(b); n == 0 || n >= 3 || (n == 2 && Signed(b[1]))
  }

  /** How many low bytes the mantissa has no room for. */
  function Dropped(b: Bytes): (d: nat)
    ensures d <= |b|
  {
    var n := Significant(b);
    if n >= 2 && Signed(b[n - 1]) then n - 2 else if n >= 3 then n - 3 else 0
  }

  /** The target rounded down to the bytes kept. */
  function Rounded(b: Bytes): (r: Bytes)
    ensures |r| == |b|
  {
    NoBytes(Dropped(b)) + b[Dropped(b)..]
  }

  /** The mantissa's bytes, when the target leaves the top byte free. */
  lemma ShiftedBytes(b: Bytes, beyond: Bytes)
    requires |b| == 32 && |beyond| == 4 && b[31] == ZERO_BYTE && Significant(b) > 0
    ensures var n, c := Significant(b), Shifted(b, beyond, Significant(b));
            && c[2] == b[n - 1] && c[1] == (if n >= 2 then b[n - 2] else ZERO_BYTE)
            && c[0] == (if n >= 3 then b[n - 3] else ZERO_BYTE) && c[3] == ZERO_BYTE
  {
  }

  /** Mantissa and exponent of a target of n significant bytes. */
  function Described(b: Bytes, n: nat): Nbits
    requires 0 < n <= |b|
  {
    var low: Byte := if n >= 2 then b[n - 2] else ZERO_BYTE;
    if Signed(b[n - 1]) then Nbits(low, b[n - 1], ZERO_BYTE, n + 1)
    else Nbits(if n >= 3 then b[n - 3] else ZERO_BYTE, low, b[n - 1], n)
  }

  /** What `target2bits` gives for a nonzero target below 2^248. */
  lemma CompactedIs(b: Bytes, beyond: Bytes)
    requires |b| == 32 && |beyond| == 4 && b[31] == ZERO_BYTE && Significant(b) > 0
    ensures Compacted(b, beyond) == Described(b, Significant(b))
  {
    ShiftedBytes(b, beyond);
    FreeTop(Significant(b));
  }

  lemma NothingSignificant(b: Bytes, beyond: Bytes)
    requires |b| == 32 && |beyond| == 4 && Significant(b) == 0
    ensures b == NoBytes(32) && Compacted(b, beyond) == NO_BITS
  {
    assert b == NoBytes(32);
    var c := Shifted(b, beyond, 0);
    assert c[0] == c[1] == c[2] == c[3] == ZERO_BYTE;
    FreeTop(0);
  }

  /**
   Below 2^248 the compact form can be turned back exactly for the targets of the domain, and
   then gives the target rounded down to the bytes kept.
   */
  lemma RoundTrip(b: Bytes, beyond: Bytes)
    requires |b| == 32 && |beyond| == 4 && b[31] == ZERO_BYTE
    ensures Writable(Compacted(b, beyond)) <==> InDomain(b)
    ensures InDomain(b) ==> Target(Compacted(b, beyond)) == Rounded(b)
  {
    var n := Significant(b);
    if n == 0 {
      NothingSignificant(b, beyond);
    } else {
      CompactedIs(b, beyond);
      if 3 <= Described(b, n).e {
        Reassembled(b, n);
      }
    }
  }

  /** Bytes below e - 3 dropped, three kept, and nothing above. */
  lemma Reassembled(b: Bytes, n: nat)
    requires |b| == 32 && b[31] == ZERO_BYTE && n == Significant(b) > 0 && 3 <= Described(b, n).e
    ensures Target(Described(b, n)) == Rounded(b)
  {
    var c := Described(b, n);
    MantissaIs(b, n);
    Filled(b, n, c.e);
  }

  lemma MantissaIs(b: Bytes, n: nat)
    requires |b| == 32 && b[31] == ZERO_BYTE && n == Significant(b) > 0 && 3 <= Described(b, n).e
    ensures var c := Described(b, n);
            && n <= c.e <= 32 && Dropped(b) == c.e - 3 && [c.m0, c.m1, c.m2] == b[c.e - 3..c.e]
  {
    var c := Described(b, n);
    ThreeBytes(b, c.e - 3);
  }

  lemma ThreeBytes(b: Bytes, d: nat)
    requires d + 3 <= |b|
    ensures b[d..d + 3] == [b[d], b[d + 1], b[d + 2]]
  {
  }

  lemma Filled(b: Bytes, n: nat, e: nat)
    requires |b| == 32 && n == Significant(b) <= e && 3 <= e <= 32
    ensures NoBytes(e - 3) + b[e - 3..e] + NoBytes(32 - e) == NoBytes(e - 3) + b[e - 3..]
  {
  }

  // ----- the other way -----

  /** Compact values in the form `target2bits` gives them: a shortest mantissa without sign bit. */
  predicate Canonical(c: Nbits) {
    || c == NO_BITS
    || (3 <= c.e <= 31 && c.m2 != ZERO_BYTE && !Signed(c.m2))
    || (3 <= c.e <= 32 && c.m2 == ZERO_BYTE && Signed(c.m1))
  }

  /** Everything `target2bits` gives on the domain is canonical. */
  lemma CompactedCanonical(b: Bytes, beyond: Bytes)
    requires InDomain(b) && |beyond| == 4
    ensures Canonical(Compacted(b, beyond))
  {
    if Significant(b) == 0 {
      NothingSignificant(b, beyond);
    } else {
      CompactedIs(b, beyond);
      DescribedCanonical(b, Significant(b));
    }
  }

  lemma DescribedCanonical(b: Bytes, n: nat)
    requires 0 < n <= 31 && n <= |b| && b[n - 1] != ZERO_BYTE && (n >= 3 || (n == 2 && Signed(b[1])))
    ensures Canonical(Described(b, n))
  {
  }

  /** The significant bytes of a canonical value's target. */
  lemma CanonicalSize(c: Nbits)
    requires Canonical(c) && c != NO_BITS
    ensures var n := if c.m2 == ZERO_BYTE then c.e - 1 else c.e;
            Significant(Target(c)) == n && Described(Target(c), n) == c && Target(c)[31] == ZERO_BYTE
  {
  }

  /** A canonical compact value comes back from its target. */
  lemma CanonicalReturns(c: Nbits, beyond: Bytes)
    requires Canonical(c) && |beyond| == 4
    ensures Writable(c) && InDomain(Target(c)) && Compacted(Target(c), beyond) == c
  {
    if c == NO_BITS {
      SignificantIs(Target(c), 0);
      NothingSignificant(Target(c), beyond);
    } else {
      CanonicalSize(c);
      CompactedIs(Target(c), beyond);
    }
  }

  const ALL_ONES: Byte := [true, true, true, true, true, true, true, true]

  lemma OnesTop()
    ensures WithExponent(ALL_ONES, 32) == 255
  {
    assert Or(ALL_ONES, ByteOf(32)) == Repeat(true, 8);
    ValueRepeat(8);
  }

  /** A target of 2^248 or more: the word past its end reaches the exponent, or the exponent is 33. */
  lemma TopByteTaken(b: Bytes)
    requires |b| == 32 && b[31] != ZERO_BYTE
    ensures var ones := [ALL_ONES, ALL_ONES, ALL_ONES, ALL_ONES];
            Compacted(b, ones).e == if Signed(b[31]) then 33 else 255
    ensures !Signed(b[31]) ==> Compacted(b, NoBytes(4)).e == 32
  {
    var ones := [ALL_ONES, ALL_ONES, ALL_ONES, ALL_ONES];
    SignificantIs(b, 32);
    assert (b + ones)[29..33] == [b[29], b[30], b[31], ALL_ONES];
    assert (b + NoBytes(4))[29..33] == [b[29], b[30], b[31], ZERO_BYTE];
    OnesTop();
    FreeTop(32);
  }

  /** The target b always compacts to c. */
  ghost predicate AlwaysGives(b: Bytes, c: Nbits)
    requires |b| == 32
  {
    forall beyond: Bytes :: |beyond| == 4 ==> Compacted(b, beyond) == c
  }

  /** Exactly the canonical values come back whatever stands past the target. */
  lemma ReturnsIffCanonical(c: Nbits)
    requires Writable(c)
    ensures AlwaysGives(Target(c), c) <==> Canonical(c)
  {
    if Canonical(c) {
      AllReturn(c);
    } else {
      NotCanonical(c);
    }
  }

  lemma AllReturn(c: Nbits)
    requires Canonical(c)
    ensures Writable(c) && AlwaysGives(Target(c), c)
  {
    forall beyond: Bytes | |beyond| == 4
      ensures Compacted(Target(c), beyond) == c
    {
      CanonicalReturns(c, beyond);
    }
  }

  lemma NotCanonical(c: Nbits)
    requires Writable(c) && !Canonical(c)
    ensures !AlwaysGives(Target(c), c)
  {
    var b, ones := Target(c), [ALL_ONES, ALL_ONES, ALL_ONES, ALL_ONES];
    if b[31] != ZERO_BYTE {
      TopByteTaken(b);
    } else if Significant(b) == 0 {
      NothingSignificant(b, ones);
    } else {
      CompactedIs(b, ones);
      NotDescribed(b, Significant(b), c);
    }
    GivesOther(b, c, ones);
  }

  lemma GivesOther(b: Bytes, c: Nbits, beyond: Bytes)
    requires |b| == 32 && |beyond| == 4 && Compacted(b, beyond) != c
    ensures !AlwaysGives(b, c)
  {
  }

  lemma NotDescribed(b: Bytes, n: nat, c: Nbits)
    requires 0 < n <= 31 && n <= |b| && b[n - 1] != ZERO_BYTE && !Canonical(c) && c.e >= 3
    ensures Described(b, n) != c
  {
  }

  // ----- as numbers -----

  function Number(b: Bytes): nat {
    if b == [] then 0 else Value(b[0]) + 256 * Number(b[1..])
  }

  lemma ByteBelow(b: Byte)
    ensures Value(b) < 256
  {
  }

  lemma {:induction false} NumberBelow(b: Bytes)
    ensures Number(b) < Pow256(|b|)
  {
    if b != [] {
      NumberBelow(b[1..]);
      ByteBelow(b[0]);
    }
  }

  lemma {:induction false} NumberConcat(a: Bytes, b: Bytes)
    ensures Number(a + b) == Number(a) + Pow256(|a|) * Number(b)
  {
    if a == [] {
      assert a + b == b;
    } else {
      NumberConcat(a[1..], b);
      assert (a + b)[1..] == a[1..] + b;
      Regrouped(Pow256(|a| - 1), Number(b));
    }
  }

  lemma Regrouped(p: nat, n: nat)
    ensures 256 * (p * n) == (256 * p) * n
  {
  }

  lemma {:induction false} NumberNone(n: nat)
    ensures Number(NoBytes(n)) == 0
  {
    if n > 0 {
      NumberNone(n - 1);
      assert NoBytes(n)[1..] == NoBytes(n - 1);
      ZeroValue();
    }
  }

  lemma ZeroValue()
    ensures Value(ZERO_BYTE) == 0
  {
    assert ZERO_BYTE == Zeros(8);
    ValueRepeat(8);
  }

  /** Rounding down as a number: a multiple of 256^d that is less than 256^d below the target. */
  lemma RoundedNumber(b: Bytes)
    ensures var d := Dropped(b);
            && Number(Rounded(b)) == Pow256(d) * Number(b[d..])
            && Number(Rounded(b)) <= Number(b) < Number(Rounded(b)) + Pow256(d)
  {
    var d := Dropped(b);
    NumberConcat(NoBytes(d), b[d..]);
    NumberNone(d);
    assert b == b[..d] + b[d..];
    NumberConcat(b[..d], b[d..]);
    NumberBelow(b[..d]);
  }

  // ----- the domain as a range -----

  /** The top byte is free exactly below 2^248. */
  lemma TopFree(b: Bytes)
    requires |b| == 32
    ensures b[31] == ZERO_BYTE <==> Number(b) < Pow256(31)
  {
    TopSplit(b);
    NumberBelow(b[..31]);
    OnlyZero(b[31]);
    Carried(Number(b[..31]), Pow256(31), Value(b[31]));
  }

  lemma TopSplit(b: Bytes)
    requires |b| == 32
    ensures Number(b) == Number(b[..31]) + Pow256(31) * Value(b[31])
  {
    var low, top := b[..31], [b[31]];
    assert b == low + top;
    NumberConcat(low, top);
    NumberOne(b[31]);
  }

  lemma NumberOne(x: Byte)
    ensures Number([x]) == Value(x)
  {
  }

  lemma Carried(low: nat, p: nat, v: nat)
    requires low < p
    ensures low + p * v < p <==> v == 0
  {
  }

  lemma AtLeast(p: nat, v: nat)
    requires v >= 1
    ensures p * v >= p
  {
  }

  lemma OnlyZero(b: Byte)
    ensures Value(b) == 0 <==> b == ZERO_BYTE
  {
    ZeroValue();
    if b != ZERO_BYTE {
      NotZeroByte(b);
      var u :| 0 <= u < 8 && b[u];
      SetBit(b, u);
    }
  }

  lemma {:induction false} SetBit(w: seq<Bit>, u: nat)
    requires u < |w| && w[u]
    ensures Value(w) >= Pow2(|w| - 1 - u)
  {
    var n := |w| - 1;
    if u < n {
      SetBit(w[..n], u);
    }
  }

  /** The sign bit is the eighth bit. */
  lemma SignBit(b: Byte)
    ensures Signed(b) <==> Value(b) >= 128
  {
    assert Pow2(7) == 128;
    if Signed(b) {
      SetBit(b, 0);
    } else {
      assert b == Zeros(1) + b[1..];
      ValuePadded(1, b[1..]);
    }
  }

  /** The significant bytes carry the whole number. */
  lemma SignificantNumber(b: Bytes, n: nat)
    requires n == Significant(b) && n > 0
    ensures Number(b) == Number(b[..n - 1]) + Pow256(n - 1) * Value(b[n - 1])
    ensures Value(b[n - 1]) >= 1
  {
    var low, rest := b[..n - 1], b[n - 1..];
    assert b == low + rest;
    NumberConcat(low, rest);
    assert rest[1..] == NoBytes(|b| - n);
    NumberNone(|b| - n);
    OnlyZero(b[n - 1]);
  }

  /** The domain in numbers: 0 and 2^15 .. 2^248 - 1. */
  lemma DomainIsRange(b: Bytes)
    requires |b| == 32
    ensures InDomain(b) <==> Number(b) == 0 || 0x8000 <= Number(b) < Pow256(31)
  {
    TopFree(b);
    var n := Significant(b);
    if n == 0 {
      assert b == NoBytes(32);
      NumberNone(32);
    } else {
      SignificantNumber(b, n);
      SizeBounds(b, n);
    }
  }

  lemma SizeBounds(b: Bytes, n: nat)
    requires 0 < n <= |b| && Number(b) == Number(b[..n - 1]) + Pow256(n - 1) * Value(b[n - 1]) && Value(b[n - 1]) >= 1
    ensures Number(b) > 0
    ensures 0x8000 <= Number(b) <==> n >= 3 || (n == 2 && Signed(b[1]))
  {
    AtLeast(Pow256(n - 1), Value(b[n - 1]));
    NumberBelow(b[..n - 1]);
    SignBit(b[n - 1]);
    ByteBelow(b[n - 1]);
    SizeCases(Number(b[..n - 1]), Value(b[n - 1]), n);
  }

  lemma SizeCases(low: nat, v: nat, n: nat)
    requires n >= 1 && 1 <= v < 256 && low < Pow256(n - 1) && Pow256(n - 1) * v >= Pow256(n - 1)
    ensures 0x8000 <= low + Pow256(n - 1) * v <==> n >= 3 || (n == 2 && v >= 128)
  {
  }

}
