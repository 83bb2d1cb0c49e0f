/**
 `neoscrypt_fastkdf` of algos/neoscrypt.c. The code works on linear buffers whose tails repeat
 their heads, so that no read or XOR needs to wrap; here that is proved to be the derivation
 over true 256-byte rings. BLAKE2s is a parameter that yields 32 bytes.
 */
module FastKdf {
  import opened Arithmetic
  import opened Bits
  import opened Buffers
  import opened Options

  type Buffer = seq<Byte>
  type Digest = b: seq<Byte> | |b| == 32 witness seq(32, _ => ZERO_BYTE)
  type Prf = (Buffer, Buffer) -> Digest

  const KDF := 256
  const INPUT := 64
  const KEY := 32

  function XorByte(a: Byte, b: Byte): Byte {
    Xor(a, b)
  }

  // ----- rings -----

  /** The place i after p. */
  function After(p: nat, i: nat): (k: nat)
    requires p < KDF && i < KDF
    ensures k < KDF
  {
    if p + i < KDF then p + i else p + i - KDF
  }

  /** How far k lies after p. */
  function Distance(p: nat, k: nat): (i: nat)
    requires p < KDF && k < KDF
    ensures i < KDF && After(p, i) == k
  {
    if p <= k then k - p else k + KDF - p
  }

  /** n bytes of a ring from p on. */
  function Read(ring: Buffer, p: nat, n: nat): (s: Buffer)
    requires |ring| == KDF && p < KDF && n <= KDF
    ensures |s| == n
  {
    seq(n, i requires 0 <= i < n => ring[After(p, i)])
  }

  /** x added into a ring from p on. */
  function XorRing(ring: Buffer, p: nat, x: Buffer): (s: Buffer)
    requires |ring| == KDF && p < KDF && |x| <= KDF
    ensures |s| == KDF
  {
    seq(KDF, k requires 0 <= k < KDF =>
      var i := Distance(p, k);
      if i < |x| then XorByte(ring[k], x[i]) else ring[k])
  }

  /** The next pointer: the sum of the digest's bytes, modulo 256. */
  function Sum(d: Buffer): nat {
    if d == [] then 0 else Sum(d[..|d| - 1]) + Value(d[|d| - 1])
  }

  datatype State = State(ring: Buffer, ptr: nat)

  predicate Ok(s: State) {
    |s.ring| == KDF && s.ptr < KDF
  }

  /** One iteration over rings: digest of what stands at the pointer, which moves; the digest goes in there. */
  function Turn(prf: Prf, password: Buffer, s: State): (t: State)
    requires |password| == KDF && Ok(s)
    ensures Ok(t)
  {
    var d := prf(Read(password, s.ptr, INPUT), Read(s.ring, s.ptr, KEY));
    var ptr := Sum(d) % KDF;
    State(XorRing(s.ring, ptr, d), ptr)
  }

  function Turns(prf: Prf, password: Buffer, s: State, n: nat): (t: State)
    requires |password| == KDF && Ok(s)
    ensures Ok(t)
  {
    if n == 0 then s else Turn(prf, password, Turns(prf, password, s, n - 1))
  }

  /** The bytes of p over and over, n of them. */
  function Cycle(p: Buffer, n: nat): (s: Buffer)
    requires p != []
    ensures |s| == n
    decreases n
  {
    if n <= |p| then p[..n] else p + Cycle(p, n - |p|)
  }

  function Cut(p: Buffer): (s: Buffer)
    ensures |s| <= KDF
  {
    if |p| > KDF then p[..KDF] else p
  }

  /** The derivation over rings. */
  function Kdf(prf: Prf, password: Buffer, salt: Buffer, N: nat, length: nat): Buffer
    requires password != [] && salt != []
  {
    var A, n := Cycle(Cut(password), KDF), if length > KDF then KDF else length;
    var s := Turns(prf, A, State(Cycle(Cut(salt), KDF), 0), N);
    Read(XorRing(s.ring, s.ptr, A[..n]), s.ptr, n)
  }

  // ----- what adding does -----

  /** A bit of the sum differs from the first byte's exactly where the added byte's bit is set. */
  lemma AddedBit(a: Byte, b: Byte, i: nat)
    requires i < 8
    ensures XorByte(a, b)[i] != a[i] <==> b[i]
  {
  }

  lemma AddedTwice(a: Byte, b: Byte)
    ensures XorByte(XorByte(a, b), b) == a && XorByte(XorByte(a, b), a) == b
  {
    var c := XorByte(a, b);
    forall i | 0 <= i < 8
      ensures XorByte(c, b)[i] == a[i] && XorByte(c, a)[i] == b[i]
    {
      AddedBit(a, b, i);
      AddedBit(c, b, i);
      AddedBit(c, a, i);
    }
  }

  /** The digest is added to the ring, not stored: a second time takes it out again. */
  lemma RingRestored(ring: Buffer, p: nat, x: Buffer)
    requires |ring| == KDF && p < KDF && |x| <= KDF
    ensures XorRing(XorRing(ring, p, x), p, x) == ring
  {
    forall k | 0 <= k < KDF
      ensures XorRing(XorRing(ring, p, x), p, x)[k] == ring[k]
    {
      if Distance(p, k) < |x| {
        AddedTwice(ring[k], x[Distance(p, k)]);
      }
    }
  }

  /** Outside the places from p on the ring stays; there every bit flips exactly where x has a bit. */
  lemma RingBits(ring: Buffer, p: nat, x: Buffer, i: nat, u: nat)
    requires |ring| == KDF && p < KDF && |x| <= KDF && i < KDF && u < 8
    ensures XorRing(ring, p, x)[After(p, i)][u] != ring[After(p, i)][u] <==> i < |x| && x[i][u]
  {
    assert Distance(p, After(p, i)) == i;
    if i < |x| {
      AddedBit(ring[After(p, i)], x[i], u);
    }
  }

  /** The output and the password ring add up to the salt ring that the turns leave, from its pointer on. */
  lemma OutputUndone(prf: Prf, password: Buffer, salt: Buffer, N: nat, length: nat, i: nat)
    requires password != [] && salt != [] && i < length && i < KDF
    ensures var A := Cycle(Cut(password), KDF);
            var s := Turns(prf, A, State(Cycle(Cut(salt), KDF), 0), N);
            var output := Kdf(prf, password, salt, N, length);
            i < |output| && XorByte(output[i], A[i]) == s.ring[After(s.ptr, i)] &&
            forall u :: 0 <= u < 8 ==> (output[i][u] != A[i][u] <==> s.ring[After(s.ptr, i)][u])
  {
    var A, n := Cycle(Cut(password), KDF), if length > KDF then KDF else length;
    var s := Turns(prf, A, State(Cycle(Cut(salt), KDF), 0), N);
    OutputByte(s.ring, s.ptr, A[..n], i);
    var r, o := s.ring[After(s.ptr, i)], Kdf(prf, password, salt, N, length)[i];
    AddedTwice(r, A[i]);
    forall u | 0 <= u < 8
      ensures o[u] != A[i][u] <==> r[u]
    {
      AddedBit(A[i], r, u);
      AddedBit(r, A[i], u);
    }
  }

  // ----- the linear buffers -----

  /** A buffer of 256 + t bytes whose tail repeats its head. */
  ghost predicate Mirrored(b: Buffer, t: nat) {
    t <= KDF && |b| == KDF + t && b[KDF..] == b[..t]
  }

  /** Reading straight on is reading around. */
  lemma LinearRead(b: Buffer, t: nat, p: nat, n: nat)
    requires Mirrored(b, t) && p < KDF && n <= t
    ensures b[p..p + n] == Read(b[..KDF], p, n)
  {
    forall i | 0 <= i < n
      ensures b[p + i] == b[..KDF][After(p, i)]
    {
      if p + i >= KDF {
        assert b[p + i] == b[KDF..][p + i - KDF];
      }
    }
  }

  /** x added straight on from p. */
  function XorLinear(b: Buffer, p: nat, x: Buffer): (s: Buffer)
    requires p + |x| <= |b|
    ensures |s| == |b|
  {
    seq(|b|, k requires 0 <= k < |b| => if p <= k < p + |x| then XorByte(b[k], x[k - p]) else b[k])
  }

  /** The salt buffer after the XOR and both repairs. */
  function Repaired(b: Buffer, p: nat): (s: Buffer)
    requires |b| == KDF + KEY && p < KDF
    ensures |s| == |b|
  {
    var head := if p < KEY then Overlaid(b, KDF + p, b[p..KEY]) else b;
    if KDF - p < KEY then Overlaid(head, 0, head[KDF..KDF + KEY - (KDF - p)]) else head
  }

  /** The XOR wraps around and the tail repeats the head again. */
  lemma Repairs(b: Buffer, p: nat, d: Digest)
    requires Mirrored(b, KEY) && p < KDF
    ensures var s := Repaired(XorLinear(b, p, d), p);
            Mirrored(s, KEY) && s[..KDF] == XorRing(b[..KDF], p, d)
  {
    var x := XorLinear(b, p, d);
    forall k | 0 <= k < KEY
      ensures b[KDF + k] == b[k]
    {
      assert b[KDF..][k] == b[..KEY][k];
    }
    if p < KEY {
      assert Repaired(x, p) == Overlaid(x, KDF + p, x[p..KEY]);
      RepairsHead(b, p, d);
    } else if KDF - p < KEY {
      RepairsTail(b, p, d);
    } else {
      RepairsNothing(b, p, d);
    }
  }

  ghost predicate SameTail(b: Buffer) {
    |b| == KDF + KEY && forall k :: 0 <= k < KEY ==> b[KDF + k] == b[k]
  }

  lemma RepairsHead(b: Buffer, p: nat, d: Digest)
    requires SameTail(b) && p < KEY
    ensures var x := XorLinear(b, p, d); var s := Overlaid(x, KDF + p, x[p..KEY]);
            Mirrored(s, KEY) && s[..KDF] == XorRing(b[..KDF], p, d)
  {
    var x := XorLinear(b, p, d);
    var s := Overlaid(x, KDF + p, x[p..KEY]);
    forall k | 0 <= k < KEY
      ensures s[KDF + k] == s[k]
    {
      assert s[k] == x[k] && (k < p ==> s[KDF + k] == x[KDF + k]);
    }
    Agrees(b, p, d, s);
  }

  lemma RepairsTail(b: Buffer, p: nat, d: Digest)
    requires SameTail(b) && KDF - KEY < p < KDF
    ensures var x := XorLinear(b, p, d); var s := Overlaid(x, 0, x[KDF..p + KEY]);
            Mirrored(s, KEY) && s[..KDF] == XorRing(b[..KDF], p, d)
  {
    var x, n := XorLinear(b, p, d), p + KEY - KDF;
    var s := Overlaid(x, 0, x[KDF..p + KEY]);
    forall k | 0 <= k < KEY
      ensures s[KDF + k] == s[k]
    {
      assert s[KDF + k] == x[KDF + k];
      assert s[k] == if k < n then x[KDF + k] else x[k];
      assert k >= n ==> x[KDF + k] == b[KDF + k] && x[k] == b[k];
    }
    forall k | 0 <= k < n
      ensures s[k] == XorByte(b[k], d[k + KDF - p])
    {
      assert s[k] == x[KDF + k];
    }
    forall k | n <= k < KDF
      ensures s[k] == x[k]
    {
    }
    Agrees(b, p, d, s);
  }

  lemma RepairsNothing(b: Buffer, p: nat, d: Digest)
    requires SameTail(b) && KEY <= p <= KDF - KEY
    ensures var s := XorLinear(b, p, d);
            Mirrored(s, KEY) && s[..KDF] == XorRing(b[..KDF], p, d)
  {
    var s := XorLinear(b, p, d);
    forall k | 0 <= k < KEY
      ensures s[KDF + k] == s[k]
    {
      assert s[KDF + k] == b[KDF + k] && s[k] == b[k];
    }
    Agrees(b, p, d, s);
  }

  /** Enough to know of a repaired buffer: its tail, the wrapped part and the rest. */
  lemma Agrees(b: Buffer, p: nat, d: Digest, s: Buffer)
    requires SameTail(b) && SameTail(s) && p < KDF
    requires forall k :: 0 <= k < p + KEY - KDF ==> s[k] == XorByte(b[k], d[k + KDF - p])
    requires forall k :: 0 <= k < KDF && p + KEY - KDF <= k ==> s[k] == XorLinear(b, p, d)[k]
    ensures Mirrored(s, KEY) && s[..KDF] == XorRing(b[..KDF], p, d)
  {
    assert s[KDF..] == s[..KEY];
    var ring := XorRing(b[..KDF], p, d);
    forall k | 0 <= k < KDF
      ensures s[k] == ring[k]
    {
      assert Distance(p, k) == if p <= k then k - p else k + KDF - p;
    }
  }

  // ----- the code -----

  /** `neoscrypt_xor` of x into B from p on. */
  method XorInto(B: array<Byte>, p: nat, x: Buffer)
    requires p + |x| <= B.Length
    modifies B
    ensures B[..] == XorLinear(old(B[..]), p, x)
  {
    ghost var was := B[..];
    for i := 0 to |x|
      invariant B[..] == XorLinear(was, p, x[..i])
    {
      XorLinearNext(was, p, x, i);
      B[p + i] := XorByte(B[p + i], x[i]);
    }
    assert x[..|x|] == x;
  }

  lemma XorLinearNext(b: Buffer, p: nat, x: Buffer, i: nat)
    requires p + |x| <= |b| && i < |x|
    ensures var now := XorLinear(b, p, x[..i]);
            XorLinear(b, p, x[..i + 1]) == now[p + i := XorByte(now[p + i], x[i])]
  {
    var now, next := XorLinear(b, p, x[..i]), XorLinear(b, p, x[..i + 1]);
    forall k | 0 <= k < |b|
      ensures next[k] == now[p + i := XorByte(now[p + i], x[i])][k]
    {
    }
  }

  /** The two repairs after the XOR. */
  method Repair(B: array<Byte>, p: nat)
    requires B.Length == KDF + KEY && p < KDF
    modifies B
    ensures B[..] == Repaired(old(B[..]), p)
  {
    if p < KEY {
      Put(B, KDF + p, B[p..KEY]);
    }
    if KDF - p < KEY {
      Put(B, 0, B[KDF..KDF + KEY - (KDF - p)]);
    }
  }

  lemma SumNext(d: Buffer, j: nat)
    requires j < |d|
    ensures Sum(d[..j + 1]) == Sum(d[..j]) + Value(d[j])
  {
    assert d[..j + 1][..j] == d[..j];
  }

  /** The loop that adds up the digest's bytes, and the mask. */
  method NextPointer(d: Digest) returns (p: nat)
    ensures p == Sum(d) % KDF && p < KDF
  {
    p := 0;
    for j := 0 to 32
      invariant p == Sum(d[..j])
    {
      SumNext(d, j);
      p := p + Value(d[j]);
    }
    assert d[..32] == d;
    p := p % KDF;
  }

  lemma CycleStep(p: Buffer, n: nat)
    requires p != [] && |p| <= n
    ensures Cycle(p, n) == p + Cycle(p, n - |p|)
  {
  }

  /** off bytes of the buffer are filled, and a whole copy of p follows. */
  lemma CycleNext(done: Buffer, p: Buffer, off: nat)
    requires p != [] && off + |p| <= KDF && done + Cycle(p, KDF - off) == Cycle(p, KDF)
    ensures (done + p) + Cycle(p, KDF - off - |p|) == Cycle(p, KDF)
  {
    CycleStep(p, KDF - off);
    assert done + (p + Cycle(p, KDF - off - |p|)) == (done + p) + Cycle(p, KDF - off - |p|);
  }

  /** Offsets of the copies: i copies and one more fit while i is below the quotient. */
  lemma CopiesFit(i: nat, a: nat, n: nat)
    requires i < a && a * n <= KDF
    ensures i * n + n <= KDF && (i + 1) * n == i * n + n
  {
    MulMonotone(i + 1, a, n);
  }

  lemma Quotient(n: nat)
    requires 0 < n <= KDF
    ensures 0 <= (KDF / n) * n <= KDF < (KDF / n) * n + n
  {
    DivModLaw(KDF, n);
  }

  /** A buffer set up from a password or a salt: repeated to 256 bytes, then t more bytes of it. */
  method SetUp(p: Buffer, t: nat) returns (buf: array<Byte>)
    requires 0 < |p| <= KDF && t <= |p|
    ensures fresh(buf) && buf.Length == KDF + t && Mirrored(buf[..], t) && buf[..KDF] == Cycle(p, KDF)
  {
    buf := new Byte[KDF + t](_ => ZERO_BYTE);
    var a := KDF / |p|;
    Quotient(|p|);
    FillCopies(buf, p, a);
    var b := KDF - a * |p|;
    if b > 0 {
      Put(buf, a * |p|, p[..b]);
    }
    assert buf[..KDF] == Cycle(p, KDF);
    Put(buf, KDF, p[..t]);
    HeadOfCycle(p, t);
    assert buf[..t] == buf[..KDF][..t];
  }

  lemma HeadOfCycle(p: Buffer, t: nat)
    requires p != [] && t <= |p| <= KDF
    ensures Cycle(p, KDF)[..t] == p[..t]
  {
  }

  /** The loop that copies p as often as it fits. */
  method FillCopies(buf: array<Byte>, p: Buffer, a: nat)
    requires 0 < |p| <= KDF <= buf.Length && 0 <= a * |p| <= KDF
    modifies buf
    ensures buf[..a * |p|] + Cycle(p, KDF - a * |p|) == Cycle(p, KDF)
  {
    for i := 0 to a
      invariant 0 <= i * |p| <= KDF && buf[..i * |p|] + Cycle(p, KDF - i * |p|) == Cycle(p, KDF)
    {
      CopiesFit(i, a, |p|);
      var off := i * |p|;
      CycleNext(buf[..off], p, off);
      ghost var was := buf[..off];
      Put(buf, off, p);
      assert buf[..off + |p|] == was + p;
    }
  }

  /** One pass of the primary iteration is one turn of the rings, and leaves the tail mirrored. */
  method Iterate(prf: Prf, A: array<Byte>, B: array<Byte>, bufptr: nat) returns (ptr: nat)
    requires A != B && Mirrored(A[..], INPUT) && Mirrored(B[..], KEY) && bufptr < KDF
    modifies B
    ensures Mirrored(B[..], KEY)
    ensures State(B[..KDF], ptr) == Turn(prf, A[..KDF], State(old(B[..KDF]), bufptr))
  {
    LinearRead(A[..], INPUT, bufptr, INPUT);
    LinearRead(B[..], KEY, bufptr, KEY);
    var d := prf(A[bufptr..bufptr + INPUT], B[bufptr..bufptr + KEY]);
    ptr := NextPointer(d);
    Repairs(B[..], ptr, d);
    XorInto(B, ptr, d);
    Repair(B, ptr);
  }

  /** What comes out: the password buffer added to the ring, from the pointer on. */
  lemma OutputByte(ring: Buffer, p: nat, x: Buffer, i: nat)
    requires |ring| == KDF && p < KDF && i < |x| <= KDF
    ensures Read(XorRing(ring, p, x), p, |x|)[i] == XorByte(ring[After(p, i)], x[i])
  {
    assert Distance(p, After(p, i)) == i;
  }

  lemma OutputIs(ring: Buffer, p: nat, x: Buffer, output: Buffer)
    requires |ring| == KDF && p < KDF && |x| <= KDF && |output| == |x|
    requires forall i :: 0 <= i < |x| ==> output[i] == XorByte(ring[After(p, i)], x[i])
    ensures output == Read(XorRing(ring, p, x), p, |x|)
  {
    forall i | 0 <= i < |x|
      ensures output[i] == Read(XorRing(ring, p, x), p, |x|)[i]
    {
      OutputByte(ring, p, x, i);
    }
  }

  /** The final XOR and copy, in one piece or in two. */
  method Finish(A: array<Byte>, B: array<Byte>, ptr: nat, n: nat) returns (output: Buffer)
    requires A != B && A.Length >= KDF && B.Length == KDF + KEY && ptr < KDF && n <= KDF
    modifies B
    ensures output == Read(XorRing(old(B[..KDF]), ptr, A[..n]), ptr, n)
  {
    ghost var b, x := B[..], A[..n];
    var a := KDF - ptr;
    if a >= n {
      XorInto(B, ptr, A[..n]);
      output := B[ptr..ptr + n];
      OnePiece(b, ptr, x);
    } else {
      XorInto(B, ptr, A[..a]);
      XorInto(B, 0, A[a..n]);
      output := B[ptr..ptr + a] + B[..n - a];
      assert A[..a] == x[..a] && A[a..n] == x[a..];
      TwoPieces(b, ptr, x);
    }
    assert B[..KDF] == B[..][..KDF];
    assert b[..KDF] == old(B[..KDF]);
  }

  lemma OnePiece(b: Buffer, p: nat, x: Buffer)
    requires |b| == KDF + KEY && p + |x| <= KDF && p < KDF
    ensures XorLinear(b, p, x)[p..p + |x|] == Read(XorRing(b[..KDF], p, x), p, |x|)
  {
    OutputIs(b[..KDF], p, x, XorLinear(b, p, x)[p..p + |x|]);
  }

  lemma TwoPieces(b: Buffer, p: nat, x: Buffer)
    requires |b| == KDF + KEY && p < KDF < p + |x| && |x| <= KDF
    ensures var a := KDF - p;
            var c := XorLinear(XorLinear(b, p, x[..a]), 0, x[a..]);
            c[p..p + a] + c[..|x| - a] == Read(XorRing(b[..KDF], p, x), p, |x|)
  {
    var a := KDF - p;
    var c1 := XorLinear(b, p, x[..a]);
    var c := XorLinear(c1, 0, x[a..]);
    var output := c[p..p + a] + c[..|x| - a];
    forall i | 0 <= i < |x|
      ensures output[i] == XorByte(b[..KDF][After(p, i)], x[i])
    {
      if i < a {
        assert output[i] == c[p + i] == c1[p + i];
      } else {
        assert output[i] == c[i - a] && c1[i - a] == b[i - a];
      }
    }
    OutputIs(b[..KDF], p, x, output);
  }

  /** `neoscrypt_fastkdf` is the derivation over rings; None where it reads past its password or salt. */
  method Derive(prf: Prf, password: Buffer, salt: Buffer, N: nat, length: nat) returns (output: Option<Buffer>)
    ensures output.Some? <==> |password| >= INPUT && |salt| >= KEY
    ensures output.Some? ==> output.value == Kdf(prf, password, salt, N, length)
  {
    if |password| < INPUT || |salt| < KEY {
      return None;
    }
    var A := SetUp(Cut(password), INPUT);
    var B := SetUp(Cut(salt), KEY);
    ghost var a, s := A[..KDF], State(B[..KDF], 0);
    var bufptr: nat := 0;
    for i := 0 to N
      invariant Mirrored(A[..], INPUT) && A[..KDF] == a
      invariant Mirrored(B[..], KEY) && bufptr < KDF
      invariant State(B[..KDF], bufptr) == Turns(prf, a, s, i)
    {
      bufptr := Iterate(prf, A, B, bufptr);
    }
    var n := if length > KDF then KDF else length;
    assert A[..n] == a[..n];
    var bytes := Finish(A, B, bufptr, n);
    return Some(bytes);
  }
}
