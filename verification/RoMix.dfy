/**
 `smix` of algos/scrypt.c against scryptROMix, section 5 of RFC 7914: two steps a turn over two
 buffers, for every r >= 1 and every power of two N from 2 on.
 */
module RoMix {
  import opened Bits
  import opened Arithmetic
  import opened Buffers
  import opened Scrypt

  type Words = seq<Word32>
  type Mixer = Words -> Words

  function MixerOf(H: Core, r: nat): Mixer
    requires r >= 1
  {
    (x: Words) => if |x| == 32 * r then BlockMix(H, x, r) else x
  }

  ghost predicate KeepsLength(mix: Mixer) {
    forall x :: |mix(x)| == |x|
  }

  /** mix is scryptBlockMix on 32 r words. */
  ghost predicate IsMixer(mix: Mixer, H: Core, r: nat) {
    r >= 1 && forall x {:trigger BlockMix(H, x, r)} :: |x| == 32 * r ==> mix(x) == BlockMix(H, x, r)
  }

  // ----- Integerify -----

  /** The words of a little-endian number, as the bits of that number. */
  function Joined(b: Words): (w: seq<Bit>)
    ensures |w| == 32 * |b|
  {
    if b == [] then [] else Joined(b[1..]) + b[0]
  }

  /** The last block as a little-endian integer. */
  function Integerify(B: Words): nat
    requires |B| >= 16
  {
    Value(Joined(B[|B| - 16..]))
  }

  /** ((uint64_t)high << 32) + low */
  function Pair(high: Word32, low: Word32): Word {
    var bits: seq<Bit> := high;
    bits + low
  }

  lemma JoinedFirstTwo(b: Words)
    requires |b| >= 2
    ensures Joined(b) == Joined(b[2..]) + Pair(b[1], b[0])
  {
  }

  lemma AndMask(w: Word, k: nat)
    requires k <= 64
    ensures And(w, Mask(k)) == Zeros(64 - k) + w[64 - k..]
  {
  }

  lemma CutAt(high: seq<Bit>, w: Word, n: nat)
    requires n <= 64
    ensures high + w == (high + w[..n]) + w[n..]
  {
  }

  /** The mask keeps the rest modulo 2^k of any number that ends in the 64 bits. */
  lemma MaskIsMod(high: seq<Bit>, w: Word, k: nat)
    requires k <= 64
    ensures Value(And(w, Mask(k))) == Value(high + w) % Pow2(k)
  {
    LowValue(w, k);
    TailOf(high, w, 64 - k);
  }

  lemma TailOf(high: seq<Bit>, w: Word, n: nat)
    requires n <= 64
    ensures Value(high + w) % Pow2(|w[n..]|) == Value(w[n..])
  {
    CutAt(high, w, n);
    TailMod(high + w[..n], w[n..]);
  }

  lemma LowValue(w: Word, k: nat)
    requires k <= 64
    ensures Value(And(w, Mask(k))) == Value(w[64 - k..])
  {
    AndMask(w, k);
    ValuePadded(64 - k, w[64 - k..]);
  }

  lemma TailMod(a: seq<Bit>, low: seq<Bit>)
    ensures Value(a + low) % Pow2(|low|) == Value(low)
  {
    ValueConcat(a, low);
    ModUnique(Value(a + low), Value(a), Value(low), Pow2(|low|));
  }

  /** integerify(B, r) & (N - 1): 64 of the 512 bits are enough. */
  method IntegerifyMasked(B: array<Word32>, r: nat, k: nat) returns (j: nat)
    requires r >= 1 && B.Length == 32 * r && k <= 64
    ensures j == Integerify(B[..]) % Pow2(k) && j < Pow2(k)
  {
    var at := (2 * r - 1) * 16;
    var x := Pair(B[at + 1], B[at]);
    ghost var b := B[..][at..];
    JoinedFirstTwo(b);
    MaskIsMod(Joined(b[2..]), x, k);
    j := Value(And(x, Mask(k)));
    Below(Value(Joined(b)), Pow2(k));
  }

  lemma Below(a: nat, p: nat)
    requires p > 0
    ensures a % p < p
  {
  }

  // ----- scryptROMix -----

  /** V_i. */
  function Iter(mix: Mixer, B: Words, i: nat): Words {
    if i == 0 then B else mix(Iter(mix, B, i - 1))
  }

  lemma {:induction false} IterLength(mix: Mixer, B: Words, i: nat)
    requires KeepsLength(mix)
    ensures |Iter(mix, B, i)| == |B|
  {
    if i > 0 {
      IterLength(mix, B, i - 1);
    }
  }

  /** Steps 6 to 9: X xor V_j, mixed. */
  function Jump(mix: Mixer, B: Words, N: nat, X: Words): Words
    requires |X| >= 16 && N > 0
  {
    var V := Iter(mix, B, Integerify(X) % N);
    mix(if |X| == |V| then XorWords(X, V) else X)
  }

  /** X after i steps of the second loop. */
  function Second(mix: Mixer, B: Words, N: nat, i: nat): (X: Words)
    requires |B| >= 16 && N > 0 && KeepsLength(mix)
    ensures |X| == |B|
  {
    IterLength(mix, B, N);
    if i == 0 then Iter(mix, B, N) else Jump(mix, B, N, Second(mix, B, N, i - 1))
  }

  function ROMix(H: Core, B: Words, r: nat, N: nat): Words
    requires r >= 1 && |B| == 32 * r && N > 0
  {
    Second(MixerOf(H, r), B, N, N)
  }

  // ----- smix -----

  /** V_0, ..., V_{n-1} one after the other. */
  function Rows(mix: Mixer, B: Words, n: nat): Words {
    if n == 0 then [] else Rows(mix, B, n - 1) + Iter(mix, B, n - 1)
  }

  lemma {:induction false} RowAt(mix: Mixer, B: Words, n: nat, j: nat)
    requires KeepsLength(mix) && j < n
    ensures |Rows(mix, B, n)| == Times(n, |B|) && Times(j, |B|) + |B| <= Times(n, |B|)
    ensures Rows(mix, B, n)[Times(j, |B|)..Times(j, |B|) + |B|] == Iter(mix, B, j)
  {
    IterLength(mix, B, n - 1);
    if j < n - 1 {
      RowAt(mix, B, n - 1, j);
    } else {
      RowsLength(mix, B, n - 1);
    }
  }

  lemma {:induction false} RowsLength(mix: Mixer, B: Words, n: nat)
    requires KeepsLength(mix)
    ensures |Rows(mix, B, n)| == Times(n, |B|)
  {
    if n > 0 {
      IterLength(mix, B, n - 1);
      RowsLength(mix, B, n - 1);
    }
  }

  lemma MixerKeepsLength(H: Core, r: nat)
    requires r >= 1
    ensures KeepsLength(MixerOf(H, r))
  {
  }

  /** Four buffers with nothing in common, of the sizes that r asks for. */
  ghost predicate Apart(X: array<Word32>, Y: array<Word32>, Z: array<Word32>, V: array<Word32>, r: nat) {
    && X != Y && X != Z && X != V && Y != Z && Y != V && Z != V
    && r >= 1 && X.Length == Y.Length == 32 * r && Z.Length == 16
  }

  /** The state after i steps of the first loop. */
  ghost predicate Filled(mix: Mixer, B: Words, i: nat, X: Words, V: Words) {
    && X == Iter(mix, B, i) && Times(i, |B|) <= |V| && V[..Times(i, |B|)] == Rows(mix, B, i)
  }

  lemma FilledNext(mix: Mixer, B: Words, i: nat, X: Words, V: Words)
    requires Filled(mix, B, i, X, V) && |X| == |B| && Times(i, |B|) + |B| <= |V|
    ensures Filled(mix, B, i + 1, mix(X), Overlaid(V, Times(i, |B|), X))
  {
  }

  /** V_i <-- X; Y <-- H(X). */
  method FillStep(H: Core, r: nat, X: array<Word32>, Y: array<Word32>, Z: array<Word32>, V: array<Word32>,
                  i: nat, ghost mix: Mixer, ghost B: Words)
    requires Apart(X, Y, Z, V, r) && |B| == 32 * r && IsMixer(mix, H, r)
    requires Times(i, 32 * r) + 32 * r <= V.Length && Filled(mix, B, i, X[..], V[..])
    modifies Y, Z, V
    ensures Filled(mix, B, i + 1, Y[..], V[..])
  {
    TimesIs(i, 32 * r);
    FilledNext(mix, B, i, X[..], V[..]);
    Copy(V, i * (32 * r), X, 0, 32 * r);
    assert X[0..32 * r] == X[..];
    BlockmixSalsa8(H, X, Y, Z, r);
  }

  /** The state after i steps of the second loop. */
  ghost predicate Mixed(mix: Mixer, B: Words, N: nat, i: nat, X: Words, V: Words) {
    && |B| >= 16 && N > 0 && KeepsLength(mix) && X == Second(mix, B, N, i) && V == Rows(mix, B, N)
  }

  lemma MixedNext(mix: Mixer, B: Words, N: nat, i: nat, X: Words, V: Words, j: nat, at: nat)
    requires Mixed(mix, B, N, i, X, V) && j == Integerify(X) % N && at == Times(j, |B|)
    ensures |X| == |B| && at + |B| <= |V|
    ensures Mixed(mix, B, N, i + 1, mix(XorWords(X, V[at..at + |B|])), V)
  {
    RowAt(mix, B, N, j);
    IterLength(mix, B, j);
    JumpIs(mix, B, N, X, V[at..at + |B|]);
    SecondNext(mix, B, N, i);
  }

  lemma JumpIs(mix: Mixer, B: Words, N: nat, X: Words, row: Words)
    requires |X| >= 16 && N > 0 && row == Iter(mix, B, Integerify(X) % N) && |row| == |X|
    ensures Jump(mix, B, N, X) == mix(XorWords(X, row))
  {
  }

  lemma SecondNext(mix: Mixer, B: Words, N: nat, i: nat)
    requires |B| >= 16 && N > 0 && KeepsLength(mix)
    ensures Second(mix, B, N, i + 1) == Jump(mix, B, N, Second(mix, B, N, i))
  {
  }

  /** j <-- Integerify(X) mod N; X <-- X xor V_j. */
  method XorRow(r: nat, k: nat, X: array<Word32>, V: array<Word32>, ghost i: nat, ghost mix: Mixer, ghost B: Words)
    requires r >= 1 && X.Length == 32 * r == |B| && X != V && k < 64
    requires Mixed(mix, B, Pow2(k), i, X[..], V[..])
    modifies X
    ensures Mixed(mix, B, Pow2(k), i + 1, mix(X[..]), V[..])
  {
    var j := IntegerifyMasked(X, r, k);
    var at := j * (32 * r);
    TimesIs(j, 32 * r);
    MixedNext(mix, B, Pow2(k), i, X[..], V[..], j, at);
    assert V[at..at + X.Length] == V[..][at..at + |B|];
    BlkXor(X, V, at);
  }

  /** One step: Y <-- H(X xor V_j). */
  method MixStep(H: Core, r: nat, k: nat, X: array<Word32>, Y: array<Word32>, Z: array<Word32>, V: array<Word32>,
                 ghost i: nat, ghost mix: Mixer, ghost B: Words)
    requires Apart(X, Y, Z, V, r) && |B| == 32 * r && IsMixer(mix, H, r) && k < 64
    requires Mixed(mix, B, Pow2(k), i, X[..], V[..])
    modifies X, Y, Z
    ensures Mixed(mix, B, Pow2(k), i + 1, Y[..], V[..])
  {
    XorRow(r, k, X, V, i, mix, B);
    BlockmixSalsa8(H, X, Y, Z, r);
  }

  lemma TimesMono(i: nat, n: nat, w: nat)
    requires i <= n
    ensures Times(i, w) <= Times(n, w)
  {
  }

  /** Two steps: X to Y and back. */
  method FillTurn(H: Core, r: nat, X: array<Word32>, Y: array<Word32>, Z: array<Word32>, V: array<Word32>,
                  i: nat, ghost mix: Mixer, ghost B: Words)
    requires Apart(X, Y, Z, V, r) && |B| == 32 * r && IsMixer(mix, H, r)
    requires Times(i + 2, 32 * r) <= V.Length && Filled(mix, B, i, X[..], V[..])
    modifies X, Y, Z, V
    ensures Filled(mix, B, i + 2, X[..], V[..])
  {
    assert Times(i + 2, 32 * r) == 32 * r + Times(i + 1, 32 * r) && Times(i + 1, 32 * r) == 32 * r + Times(i, 32 * r);
    FillStep(H, r, X, Y, Z, V, i, mix, B);
    FillStep(H, r, Y, X, Z, V, i + 1, mix, B);
  }

  /** Two steps: X to Y and back. */
  method MixTwice(H: Core, r: nat, k: nat, X: array<Word32>, Y: array<Word32>, Z: array<Word32>, V: array<Word32>,
                  ghost i: nat, ghost mix: Mixer, ghost B: Words)
    requires Apart(X, Y, Z, V, r) && |B| == 32 * r && IsMixer(mix, H, r) && k < 64
    requires Mixed(mix, B, Pow2(k), i, X[..], V[..])
    modifies X, Y, Z
    ensures Mixed(mix, B, Pow2(k), i + 2, X[..], V[..])
  {
    MixStep(H, r, k, X, Y, Z, V, i, mix, B);
    MixStep(H, r, k, Y, X, Z, V, i + 1, mix, B);
  }

  /** The first loop of `smix`: two steps a turn, X to Y and back. */
  method FillLoop(H: Core, r: nat, N: nat, X: array<Word32>, Y: array<Word32>, Z: array<Word32>, V: array<Word32>,
                  ghost half: nat, ghost mix: Mixer, ghost B: Words)
    requires Apart(X, Y, Z, V, r) && |B| == 32 * r && IsMixer(mix, H, r)
    requires N == 2 * half && V.Length == Times(N, 32 * r) && Filled(mix, B, 0, X[..], V[..])
    modifies X, Y, Z, V
    ensures Filled(mix, B, N, X[..], V[..])
  {
    var i := 0;
    ghost var m := 0;
    while i < N
      invariant i == 2 * m && m <= half
      invariant Filled(mix, B, i, X[..], V[..])
    {
      assert i + 2 <= N;
      TimesMono(i + 2, N, 32 * r);
      FillTurn(H, r, X, Y, Z, V, i, mix, B);
      i := i + 2;
      m := m + 1;
    }
    assert i == N;
  }

  /** The second loop of `smix`. */
  method MixSteps(H: Core, r: nat, k: nat, N: nat, X: array<Word32>, Y: array<Word32>, Z: array<Word32>,
                  V: array<Word32>, ghost half: nat, ghost mix: Mixer, ghost B: Words)
    requires Apart(X, Y, Z, V, r) && |B| == 32 * r && IsMixer(mix, H, r)
    requires k < 64 && N == Pow2(k) == 2 * half && Mixed(mix, B, N, 0, X[..], V[..])
    modifies X, Y, Z
    ensures Mixed(mix, B, N, N, X[..], V[..])
  {
    var i := 0;
    ghost var m := 0;
    while i < N
      invariant i == 2 * m && m <= half
      invariant Mixed(mix, B, N, i, X[..], V[..])
    {
      MixTwice(H, r, k, X, Y, Z, V, i, mix, B);
      i := i + 2;
      m := m + 1;
    }
    assert i == N;
  }

  lemma FilledAll(mix: Mixer, B: Words, N: nat, X: Words, V: Words)
    requires Filled(mix, B, N, X, V) && N > 0 && |B| >= 16 && KeepsLength(mix) && |V| == Times(N, |B|)
    ensures Mixed(mix, B, N, 0, X, V)
  {
  }

  /** The loops of `smix` on the 32 r words of X, with N = 2^k: what scryptROMix makes of them. */
  method SmixWords(H: Core, r: nat, k: nat, X: array<Word32>, Y: array<Word32>, Z: array<Word32>, V: array<Word32>)
    requires Apart(X, Y, Z, V, r) && 1 <= k < 64 && V.Length == Pow2(k) * (32 * r)
    modifies X, Y, Z, V
    ensures X[..] == ROMix(H, old(X[..]), r, Pow2(k))
  {
    ghost var mix, B := MixerOf(H, r), X[..];
    MixerKeepsLength(H, r);
    TimesIs(Pow2(k), 32 * r);
    FillLoop(H, r, Pow2(k), X, Y, Z, V, Pow2(k - 1), mix, B);
    FilledAll(mix, B, Pow2(k), X[..], V[..]);
    MixSteps(H, r, k, Pow2(k), X, Y, Z, V, Pow2(k - 1), mix, B);
  }
}
