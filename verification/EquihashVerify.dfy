/**
 What `expandArray` gives `verifyEH`: the expansion is linear and loses nothing, so comparing
 expanded sums with zero is comparing the sums themselves.
 */
module EquihashVerify {
  import opened Bits
  import opened Arithmetic
  import opened Equihash

  // ----- the expansion as a function -----

  /** The n bits of ex from e on are the L bits of `bits` from c on, zero-extended. */
  ghost predicate ElementIs(ex: seq<Bit>, e: nat, n: nat, bits: seq<Bit>, c: nat, L: nat) {
    L <= n && e + n <= |ex| && c + L <= |bits| && ex[e..e + n] == Padded(bits[c..c + L], n)
  }

  /** The k-th element of the output is the k-th slice of the input, zero-extended. */
  lemma {:induction false} ElementAt(bits: seq<Bit>, L: nat, n: nat, k: nat)
    requires 0 < L <= n && Times(k, L) + L <= |bits|
    ensures ElementIs(Expanded(bits, L, n), Times(k, n), n, bits, Times(k, L), L)
    decreases k
  {
    if k > 0 {
      ElementAt(bits[L..], L, n, k - 1);
      ElementShifted(bits, L, n, Times(k - 1, L), Times(k - 1, n));
    } else {
      FirstElement(bits, L, n);
    }
  }

  lemma FirstElement(bits: seq<Bit>, L: nat, n: nat)
    requires 0 < L <= n && L <= |bits|
    ensures ElementIs(Expanded(bits, L, n), 0, n, bits, 0, L)
  {
  }

  lemma ElementShifted(bits: seq<Bit>, L: nat, n: nat, c: nat, e: nat)
    requires 0 < L <= n && L <= |bits| && ElementIs(Expanded(bits[L..], L, n), e, n, bits[L..], c, L)
    ensures ElementIs(Expanded(bits, L, n), n + e, n, bits, L + c, L)
  {
    Shifted(Padded(bits[..L], n), Expanded(bits[L..], L, n), e, e + n);
    assert bits[L..][c..c + L] == bits[L + c..L + c + L];
  }

  lemma Shifted(a: seq<Bit>, b: seq<Bit>, i: nat, j: nat)
    requires i <= j <= |b|
    ensures (a + b)[|a| + i..|a| + j] == b[i..j]
  {
  }

  lemma {:induction false} ExpandedLength(bits: seq<Bit>, L: nat, n: nat, m: nat)
    requires 0 < L <= n && |bits| == Times(m, L)
    ensures |Expanded(bits, L, n)| == Times(m, n)
    decreases m
  {
    if m > 0 {
      ExpandedLength(bits[L..], L, n, m - 1);
    }
  }

  /** The expansion of a sum is the sum of the expansions. */
  lemma {:induction false} ExpandedXor(a: seq<Bit>, b: seq<Bit>, L: nat, n: nat)
    requires 0 < L <= n && |a| == |b|
    ensures |Expanded(a, L, n)| == |Expanded(b, L, n)|
    ensures Expanded(Xor(a, b), L, n) == Xor(Expanded(a, L, n), Expanded(b, L, n))
    decreases |a|
  {
    if |a| >= L {
      ExpandedXor(a[L..], b[L..], L, n);
      assert Xor(a, b)[L..] == Xor(a[L..], b[L..]);
      assert Xor(a, b)[..L] == Xor(a[..L], b[..L]);
      PaddedXor(a[..L], b[..L], n);
      XorConcat(Padded(a[..L], n), Padded(b[..L], n), Expanded(a[L..], L, n), Expanded(b[L..], L, n));
    }
  }

  lemma PaddedXor(a: seq<Bit>, b: seq<Bit>, n: nat)
    requires |a| == |b| <= n
    ensures Padded(Xor(a, b), n) == Xor(Padded(a, n), Padded(b, n))
  {
  }

  lemma XorConcat(a: seq<Bit>, b: seq<Bit>, c: seq<Bit>, d: seq<Bit>)
    requires |a| == |b| && |c| == |d|
    ensures Xor(a + c, b + d) == Xor(a, b) + Xor(c, d)
  {
  }

  /** What the expansion keeps of its input: the whole slices. */
  function Kept(bits: seq<Bit>, L: nat): seq<Bit>
    requires L > 0
    decreases |bits|
  {
    if |bits| < L then [] else bits[..L] + Kept(bits[L..], L)
  }

  lemma {:induction false} KeptAll(bits: seq<Bit>, L: nat, m: nat)
    requires L > 0 && |bits| == Times(m, L)
    ensures Kept(bits, L) == bits
    decreases m
  {
    if m > 0 {
      KeptAll(bits[L..], L, m - 1);
      assert bits == bits[..L] + bits[L..];
    }
  }

  /** Inputs of one length expand alike exactly when their whole slices agree. */
  lemma {:induction false} ExpandedInjective(a: seq<Bit>, b: seq<Bit>, L: nat, n: nat)
    requires 0 < L <= n && |a| == |b|
    ensures Expanded(a, L, n) == Expanded(b, L, n) <==> Kept(a, L) == Kept(b, L)
    decreases |a|
  {
    if |a| >= L {
      ExpandedInjective(a[L..], b[L..], L, n);
      PaddedInjective(a[..L], b[..L], n);
      ConcatInjective(Padded(a[..L], n), Padded(b[..L], n), Expanded(a[L..], L, n), Expanded(b[L..], L, n));
      ConcatInjective(a[..L], b[..L], Kept(a[L..], L), Kept(b[L..], L));
    }
  }

  lemma PaddedInjective(a: seq<Bit>, b: seq<Bit>, n: nat)
    requires |a| == |b| <= n
    ensures Padded(a, n) == Padded(b, n) <==> a == b
  {
    assert a == Padded(a, n)[n - |a|..] && b == Padded(b, n)[n - |b|..];
  }

  lemma ConcatInjective(a: seq<Bit>, b: seq<Bit>, c: seq<Bit>, d: seq<Bit>)
    requires |a| == |b|
    ensures a + c == b + d <==> a == b && c == d
  {
    assert (a + c)[..|a|] == a && (b + d)[..|a|] == b && (a + c)[|a|..] == c && (b + d)[|a|..] == d;
  }

  lemma {:induction false} ExpandedZeros(L: nat, n: nat, m: nat)
    requires 0 < L <= n
    ensures Expanded(Zeros(Times(m, L)), L, n) == Zeros(Times(m, n))
    decreases m
  {
    if m > 0 {
      ExpandedZeros(L, n, m - 1);
      ZerosCut(L, Times(m - 1, L));
      ZerosCut(n, Times(m - 1, n));
      assert Padded(Zeros(L), n) == Zeros(n);
    }
  }

  lemma ZerosCut(a: nat, b: nat)
    ensures Zeros(a + b)[..a] == Zeros(a) && Zeros(a + b)[a..] == Zeros(b) && Zeros(a) + Zeros(b) == Zeros(a + b)
  {
  }

  // ----- the sum over the selected segments -----

  type Segment = w: seq<Bit> | |w| == 200 witness seq(200, _ => false)

  /** The sum of the segments that the indices select. */
  function XorSum(segment: nat -> Segment, indices: seq<nat>): Segment {
    if indices == [] then Zeros(200)
    else Xor(XorSum(segment, indices[..|indices| - 1]), segment(indices[|indices| - 1]))
  }

  lemma XorSwap(a: Segment, b: Segment, c: Segment)
    ensures Xor(Xor(a, b), c) == Xor(Xor(a, c), b)
  {
  }

  function Without(indices: seq<nat>, p: nat): (r: seq<nat>)
    requires p < |indices|
    ensures |r| == |indices| - 1
  {
    indices[..p] + indices[p + 1..]
  }

  /** Any one index may be taken out and added last. */
  lemma {:induction false} XorSumWithout(segment: nat -> Segment, indices: seq<nat>, p: nat)
    requires p < |indices|
    ensures XorSum(segment, indices) == Xor(XorSum(segment, Without(indices, p)), segment(indices[p]))
  {
    var n := |indices| - 1;
    if p == n {
      assert Without(indices, p) == indices[..n];
    } else {
      var init, last := indices[..n], indices[n];
      XorSumWithout(segment, init, p);
      var w := Without(indices, p);
      assert w[..n - 1] == Without(init, p) && w[n - 1] == last;
      XorSwap(XorSum(segment, Without(init, p)), segment(indices[p]), segment(last));
    }
  }

  lemma WithoutMultiset(indices: seq<nat>, p: nat)
    requires p < |indices|
    ensures multiset(indices) == multiset(Without(indices, p)) + multiset{indices[p]}
  {
    assert indices == indices[..p] + [indices[p]] + indices[p + 1..];
  }

  /** The order of the indices does not matter. */
  lemma {:induction false} XorSumOrderFree(segment: nat -> Segment, a: seq<nat>, b: seq<nat>)
    requires multiset(a) == multiset(b)
    ensures XorSum(segment, a) == XorSum(segment, b)
    decreases |a|
  {
    if a == [] {
      assert |multiset(b)| == |b|;
    } else {
      var n := |a| - 1;
      assert a[n] in multiset(b);
      var p :| 0 <= p < |b| && b[p] == a[n];
      WithoutMultiset(a, n);
      WithoutMultiset(b, p);
      assert multiset(Without(a, n)) == multiset(a) - multiset{a[n]} == multiset(Without(b, p));
      XorSumOrderFree(segment, Without(a, n), Without(b, p));
      XorSumWithout(segment, a, n);
      XorSumWithout(segment, b, p);
    }
  }

  // ----- verifyEH -----

  const SOLUTION := 1344
  const INDICES := 512

  /** The solution's 512 indices: its consecutive 21-bit big-endian numbers. */
  function Indices(soln: seq<Byte>): (indices: seq<nat>)
    requires |soln| == SOLUTION
    ensures |indices| == INDICES
  {
    seq(INDICES, j requires 0 <= j < INDICES => Index(soln, j))
  }

  function Index(soln: seq<Byte>, j: nat): nat
    requires |soln| == SOLUTION && j < INDICES
  {
    Value(Flat(soln)[21 * j..21 * j + 21])
  }

  type Hash = h: seq<Byte> | |h| == 50 witness seq(50, _ => ZERO_BYTE)

  function HalfOf(h: Hash, half: nat): Segment
    requires half < 2
  {
    Flat(h[25 * half..25 * half + 25])
  }

  /** Two indices share a hash of 50 bytes; each has 200 bits of it. */
  function SegmentOf(hash: nat -> Hash): nat -> Segment {
    (i: nat) => HalfOf(hash(i / 2), i % 2)
  }

  /** The 50 hash bytes of g are the segments of 2g and 2g + 1, in this order. */
  lemma HashHalves(hash: nat -> Hash, g: nat)
    ensures SegmentOf(hash)(2 * g) + SegmentOf(hash)(2 * g + 1) == Flat(hash(g))
  {
    var h := hash(g);
    assert (2 * g) / 2 == g == (2 * g + 1) / 2 && (2 * g) % 2 == 0 && (2 * g + 1) % 2 == 1;
    FlatConcat(h[0..25], h[25..50]);
    assert h[0..25] + h[25..50] == h;
  }

  /** How many of the selected segments have bit u. */
  function Having(segment: nat -> Segment, indices: seq<nat>, u: nat): nat
    requires u < 200
  {
    if indices == [] then 0
    else (if segment(indices[0])[u] then 1 else 0) + Having(segment, indices[1..], u)
  }

  lemma {:induction false} HavingLast(segment: nat -> Segment, indices: seq<nat>, u: nat)
    requires u < 200 && indices != []
    ensures var n := |indices| - 1;
            Having(segment, indices, u) == Having(segment, indices[..n], u) + if segment(indices[n])[u] then 1 else 0
  {
    var n := |indices| - 1;
    if n > 0 {
      HavingLast(segment, indices[1..], u);
      assert indices[1..][..n - 1] == indices[..n][1..];
    }
  }

  /** A bit of the sum is set exactly when an odd number of the segments have it. */
  lemma {:induction false} SumParity(segment: nat -> Segment, indices: seq<nat>, u: nat)
    requires u < 200
    ensures XorSum(segment, indices)[u] <==> Having(segment, indices, u) % 2 == 1
  {
    if indices != [] {
      SumParity(segment, indices[..|indices| - 1], u);
      HavingLast(segment, indices, u);
    }
  }

  /** What `verifyEH` is to accept. */
  predicate Solves(hash: nat -> Hash, soln: seq<Byte>)
    requires |soln| == SOLUTION
  {
    XorSum(SegmentOf(hash), Indices(soln)) == Zeros(200)
  }

  /** Accepted are exactly the solutions in which every bit is had by an even number of the 512 segments. */
  lemma SolvesIfEven(hash: nat -> Hash, soln: seq<Byte>)
    requires |soln| == SOLUTION
    ensures Solves(hash, soln) <==> forall u :: 0 <= u < 200 ==> Having(SegmentOf(hash), Indices(soln), u) % 2 == 0
  {
    var sum := XorSum(SegmentOf(hash), Indices(soln));
    forall u | 0 <= u < 200
      ensures !sum[u] <==> Having(SegmentOf(hash), Indices(soln), u) % 2 == 0
    {
      SumParity(SegmentOf(hash), Indices(soln), u);
    }
    ZeroBits(sum);
    if Solves(hash, soln) {
      forall u | 0 <= u < 200
        ensures Having(SegmentOf(hash), Indices(soln), u) % 2 == 0
      {
        assert !sum[u];
      }
    } else {
      var u :| 0 <= u < 200 && sum[u];
      assert Having(SegmentOf(hash), Indices(soln), u) % 2 != 0;
    }
  }

  lemma ZeroBits(sum: Segment)
    ensures sum == Zeros(200) <==> forall u :: 0 <= u < 200 ==> !sum[u]
  {
    if sum != Zeros(200) {
      var u :| 0 <= u < 200 && sum[u] != Zeros(200)[u];
    } else {
      forall u | 0 <= u < 200
        ensures !sum[u]
      {
        assert !Zeros(200)[u];
      }
    }
  }

  /** Solutions with the same indices in another order are accepted alike. */
  lemma SolvesOrderFree(hash: nat -> Hash, a: seq<Byte>, b: seq<Byte>)
    requires |a| == |b| == SOLUTION && multiset(Indices(a)) == multiset(Indices(b))
    ensures Solves(hash, a) <==> Solves(hash, b)
  {
    XorSumOrderFree(SegmentOf(hash), Indices(a), Indices(b));
  }

  /** `isZero`. */
  method IsZero(bytes: array<Byte>) returns (zero: bool)
    ensures zero <==> Flat(bytes[..]) == Zeros(8 * bytes.Length)
  {
    for i := 0 to bytes.Length
      invariant Flat(bytes[..i]) == Zeros(8 * i)
    {
      FlatNext(bytes[..], i);
      if bytes[i] != ZERO_BYTE {
        NonZero(bytes[..], i);
        return false;
      }
      assert bytes[..][..i + 1] == bytes[..i + 1];
    }
    assert bytes[..bytes.Length] == bytes[..];
    return true;
  }

  lemma NonZero(bytes: seq<Byte>, i: nat)
    requires i < |bytes| && bytes[i] != ZERO_BYTE
    ensures Flat(bytes) != Zeros(8 * |bytes|)
  {
    var u :| 0 <= u < 8 && bytes[i][u];
    FlatAt(bytes, i, u);
  }

  /** vHash[k] ^= hash[k] for all k. */
  method XorInto(sum: array<Byte>, hash: array<Byte>)
    requires sum.Length == hash.Length && sum != hash
    modifies sum
    ensures Flat(sum[..]) == Xor(old(Flat(sum[..])), Flat(hash[..]))
  {
    for k := 0 to sum.Length
      invariant forall i :: 0 <= i < k ==> sum[i] == Xor(old(sum[i]), hash[i])
      invariant forall i :: k <= i < sum.Length ==> sum[i] == old(sum[i])
    {
      sum[k] := Xor(sum[k], hash[k]);
    }
    XorFlat(old(sum[..]), hash[..], sum[..]);
  }

  lemma {:induction false} XorFlat(a: seq<Byte>, b: seq<Byte>, c: seq<Byte>)
    requires |a| == |b| == |c| && forall i :: 0 <= i < |a| ==> c[i] == Xor(a[i], b[i])
    ensures Flat(c) == Xor(Flat(a), Flat(b))
  {
    if a != [] {
      var n := |a| - 1;
      XorFlat(a[..n], b[..n], c[..n]);
      XorConcat(Flat(a[..n]), Flat(b[..n]), a[n], b[n]);
    }
  }

  /** The buffer that the indices are unpacked into holds, four bytes each, the solution's indices. */
  lemma UnpackedIndex(soln: seq<Byte>, unpacked: seq<Byte>, j: nat)
    requires |soln| == SOLUTION && |unpacked| == 4 * INDICES && j < INDICES
    requires Flat(unpacked) == Expanded(Flat(soln), 21, 32)
    ensures Value(Flat(unpacked[4 * j..4 * j + 4])) == Index(soln, j)
  {
    FlatSlice(unpacked, 4 * j, 4 * j + 4);
    IndexAt(Flat(soln), Flat(unpacked), j);
  }

  lemma IndexAt(bits: seq<Bit>, expanded: seq<Bit>, j: nat)
    requires |bits| == 8 * SOLUTION && j < INDICES && expanded == Expanded(bits, 21, 32)
    ensures 32 * j + 32 <= |expanded|
    ensures Value(expanded[32 * j..32 * j + 32]) == Value(bits[21 * j..21 * j + 21])
  {
    var slice := bits[21 * j..21 * j + 21];
    TimesIs(j, 21);
    TimesIs(j, 32);
    ElementAt(bits, 21, 32, j);
    assert expanded[32 * j..32 * j + 32] == Padded(slice, 32);
    ValuePadded(11, slice);
  }

  lemma FlatSlice(bytes: seq<Byte>, a: nat, b: nat)
    requires a <= b <= |bytes|
    ensures Flat(bytes[a..b]) == Flat(bytes)[8 * a..8 * b]
  {
    FlatCut(bytes, b, bytes[..b], bytes[b..]);
    FlatCut(bytes[..b], a, bytes[..a], bytes[a..b]);
    MiddleOf(Flat(bytes), Flat(bytes[..a]), Flat(bytes[a..b]));
  }

  lemma MiddleOf(all: seq<Bit>, x: seq<Bit>, y: seq<Bit>)
    requires x + y <= all
    ensures all[|x|..|x| + |y|] == y
  {
  }

  /** The solution's bytes into indices: all 2048 bytes of the buffer are written. */
  method Unpack(soln: seq<Byte>) returns (indices: array<Byte>)
    requires |soln| == SOLUTION
    ensures fresh(indices) && indices.Length == 4 * INDICES
    ensures Flat(indices[..]) == Expanded(Flat(soln), 21, 32)
  {
    indices := new Byte[4 * INDICES](_ => ZERO_BYTE);
    ghost var j := ExpandArray(soln, indices, 21, 1);
    TimesIs(512, 21);
    TimesIs(512, 32);
    ExpandedLength(Flat(soln), 21, 32, 512);
    assert j == indices.Length;
    assert indices[..j] == indices[..];
  }

  /** One segment into the 30 bytes that are added up. */
  method ExpandSegment(bytes: seq<Byte>) returns (hash: array<Byte>)
    requires |bytes| == 25
    ensures fresh(hash) && hash.Length == 30 && Flat(hash[..]) == Expanded(Flat(bytes), 20, 24)
  {
    hash := new Byte[30](_ => ZERO_BYTE);
    ghost var j := ExpandArray(bytes, hash, 20, 0);
    TimesIs(10, 20);
    TimesIs(10, 24);
    ExpandedLength(Flat(bytes), 20, 24, 10);
    assert j == hash.Length;
    assert hash[..j] == hash[..];
  }

  /** The expanded sum is zero exactly when the sum is. */
  lemma ZeroSum(sum: Segment)
    ensures Expanded(sum, 20, 24) == Zeros(240) <==> sum == Zeros(200)
  {
    TimesIs(10, 20);
    TimesIs(10, 24);
    ExpandedZeros(20, 24, 10);
    ExpandedInjective(sum, Zeros(200), 20, 24);
    KeptAll(sum, 20, 10);
    KeptAll(Zeros(200), 20, 10);
  }

  /** One turn of the loop: a segment is added. */
  lemma SumNext(segment: nat -> Segment, indices: seq<nat>, j: nat)
    requires j < |indices|
    ensures var a, b := XorSum(segment, indices[..j]), segment(indices[j]);
            && |Expanded(a, 20, 24)| == |Expanded(b, 20, 24)|
            && Expanded(XorSum(segment, indices[..j + 1]), 20, 24) == Xor(Expanded(a, 20, 24), Expanded(b, 20, 24))
  {
    assert indices[..j + 1][..j] == indices[..j];
    ExpandedXor(XorSum(segment, indices[..j]), segment(indices[j]), 20, 24);
  }

  /** be32toh(indices[j]) */
  method ReadIndex(ghost soln: seq<Byte>, indices: array<Byte>, j: nat) returns (i: nat)
    requires |soln| == SOLUTION && indices.Length == 4 * INDICES && j < INDICES
    requires Flat(indices[..]) == Expanded(Flat(soln), 21, 32)
    ensures i == Indices(soln)[j]
  {
    UnpackedIndex(soln, indices[..], j);
    assert indices[..][4 * j..4 * j + 4] == indices[4 * j..4 * j + 4];
    i := Value(Flat(indices[4 * j..4 * j + 4]));
  }

  /** The segment of an index is hashed, expanded and added. */
  method AddSegment(hash: nat -> Hash, i: nat, vHash: array<Byte>)
    requires vHash.Length == 30
    modifies vHash
    ensures |Expanded(SegmentOf(hash)(i), 20, 24)| == 240
    ensures Flat(vHash[..]) == Xor(old(Flat(vHash[..])), Expanded(SegmentOf(hash)(i), 20, 24))
  {
    var tmpHash := hash(i / 2);
    var part := ExpandSegment(tmpHash[25 * (i % 2)..25 * (i % 2) + 25]);
    XorInto(vHash, part);
  }

  /** The bytes hold the expanded sum of the segments that the indices select. */
  ghost predicate SumsUp(v: seq<Byte>, segment: nat -> Segment, indices: seq<nat>) {
    Flat(v) == Expanded(XorSum(segment, indices), 20, 24)
  }

  /** One turn of the loop of `verifyEH`. */
  method AddIndex(hash: nat -> Hash, i: nat, vHash: array<Byte>, ghost all: seq<nat>, ghost j: nat)
    requires vHash.Length == 30 && j < |all| && i == all[j] && SumsUp(vHash[..], SegmentOf(hash), all[..j])
    modifies vHash
    ensures SumsUp(vHash[..], SegmentOf(hash), all[..j + 1])
  {
    SumNext(SegmentOf(hash), all, j);
    AddSegment(hash, i, vHash);
  }

  /** `verifyEH` accepts exactly the solutions whose 512 segments add up to zero. */
  method VerifyEH(hash: nat -> Hash, soln: seq<Byte>) returns (ok: bool)
    requires |soln| == SOLUTION
    ensures ok <==> Solves(hash, soln)
  {
    var indices := Unpack(soln);
    var vHash := new Byte[30](_ => ZERO_BYTE);
    ghost var segment, all, unpacked := SegmentOf(hash), Indices(soln), indices[..];
    StartsZero(vHash[..]);
    for j := 0 to INDICES
      invariant indices[..] == unpacked
      invariant SumsUp(vHash[..], segment, all[..j])
    {
      var i := ReadIndex(soln, indices, j);
      AddIndex(hash, i, vHash, all, j);
    }
    assert all[..INDICES] == all;
    ZeroSum(XorSum(segment, all));
    ok := IsZero(vHash);
  }

  lemma StartsZero(v: seq<Byte>)
    requires |v| == 30 && forall k :: 0 <= k < |v| ==> v[k] == ZERO_BYTE
    ensures Flat(v) == Expanded(Zeros(200), 20, 24)
  {
    TimesIs(10, 20);
    TimesIs(10, 24);
    ExpandedZeros(20, 24, 10);
    FlatZeros(v);
  }

  lemma {:induction false} FlatZeros(v: seq<Byte>)
    requires forall k :: 0 <= k < |v| ==> v[k] == ZERO_BYTE
    ensures Flat(v) == Zeros(8 * |v|)
  {
    if v != [] {
      FlatZeros(v[..|v| - 1]);
    }
  }
}
