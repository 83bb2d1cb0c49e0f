/**
 The bit unpacking of algos/equi.c and the acceptance test of `verifyEH`. A buffer is the
 sequence of its bytes, a byte the sequence of its bits; the hash of a header and an index is
 a parameter that yields 50 bytes.
 */
module Equihash {
  import opened Bits

  // ----- expandArray -----

  /** The slice zero-extended to n bits. */
  function Padded(slice: seq<Bit>, n: nat): (w: seq<Bit>)
    requires |slice| <= n
    ensures |w| == n
  {
    Zeros(n - |slice|) + slice
  }

  /** Consecutive L-bit slices of the input, each zero-extended to n bits; a short rest is dropped. */
  function Expanded(bits: seq<Bit>, L: nat, n: nat): seq<Bit>
    requires 0 < L <= n
    decreases |bits|
  {
    if |bits| < L then [] else Padded(bits[..L], n) + Expanded(bits[L..], L, n)
  }

  /** The word of the last 64 bits read, with zeroes before the first. */
  predicate Accumulates(acc: Word, bits: seq<Bit>) {
    forall r :: 0 <= r < 64 ==> FromRight(acc, r) == FromRight(bits, r)
  }

  lemma ShiftInAccumulates(acc: Word, bits: seq<Bit>, b: Byte)
    requires Accumulates(acc, bits)
    ensures Accumulates(ShiftIn(acc, b), bits + b)
  {
    forall r | 0 <= r < 64
      ensures FromRight(ShiftIn(acc, b), r) == FromRight(bits + b, r)
    {
      if r >= 8 {
        assert FromRight(acc, r - 8) == FromRight(bits, r - 8);
      }
    }
  }

  /** The expression stored into one output byte. */
  function OutByte(acc: Word, accBits: nat, mask: Word, t: nat): Byte
    requires accBits + t <= 64
  {
    LowByte(And(Shr(acc, accBits + t), And(Shr(mask, t), Mask(8))))
  }

  /** What it stores: the bits t..t+8 of the slice that ends accBits before the end, cut off at L. */
  lemma OutByteBits(acc: Word, accBits: nat, L: nat, t: nat, r: nat)
    requires accBits + t <= 64 && L <= 64 && r < 8
    ensures FromRight(OutByte(acc, accBits, Mask(L), t), r) == (t + r < L && FromRight(acc, accBits + t + r))
  {
  }

  lemma {:induction false} FlatAt(bytes: seq<Byte>, x: nat, u: nat)
    requires x < |bytes| && u < 8
    ensures Flat(bytes)[8 * x + u] == bytes[x][u]
  {
    var n := |bytes| - 1;
    if x < n {
      FlatAt(bytes[..n], x, u);
    }
  }

  /** Byte x of an element of W bytes holds the bits of the slice that stand 8 (W - 1 - x) places from its end. */
  predicate Holds(b: Byte, slice: seq<Bit>, t: nat) {
    forall r :: 0 <= r < 8 ==> FromRight(b, r) == FromRight(slice, t + r)
  }

  /** The eight bits of w from 8 x on are those of b. */
  predicate ByteAt(w: seq<Bit>, x: nat, b: Byte)
    requires 8 * x + 8 <= |w|
  {
    forall u :: 0 <= u < 8 ==> w[8 * x + u] == b[u]
  }

  lemma {:induction false} FlatIs(chunk: seq<Byte>, w: seq<Bit>)
    requires |w| == 8 * |chunk| && forall x :: 0 <= x < |chunk| ==> ByteAt(w, x, chunk[x])
    ensures Flat(chunk) == w
  {
    if chunk != [] {
      var n := |chunk| - 1;
      var init := w[..8 * n];
      forall x | 0 <= x < n
        ensures ByteAt(init, x, chunk[..n][x])
      {
        assert ByteAt(w, x, chunk[x]);
      }
      FlatIs(chunk[..n], init);
      assert ByteAt(w, n, chunk[n]);
      assert w == init + chunk[n];
    }
  }

  lemma ElementIsPadded(chunk: seq<Byte>, slice: seq<Bit>)
    requires |slice| <= 8 * |chunk|
    requires forall x :: 0 <= x < |chunk| ==> Holds(chunk[x], slice, 8 * (|chunk| - 1 - x))
    ensures Flat(chunk) == Padded(slice, 8 * |chunk|)
  {
    var w := Padded(slice, 8 * |chunk|);
    forall x | 0 <= x < |chunk|
      ensures ByteAt(w, x, chunk[x])
    {
      assert Holds(chunk[x], slice, 8 * (|chunk| - 1 - x));
      PaddedByte(chunk[x], slice, w, |chunk|, x);
    }
    FlatIs(chunk, w);
  }

  lemma PaddedByte(b: Byte, slice: seq<Bit>, w: seq<Bit>, W: nat, x: nat)
    requires |slice| <= 8 * W && x < W && w == Padded(slice, 8 * W) && Holds(b, slice, 8 * (W - 1 - x))
    ensures ByteAt(w, x, b)
  {
    forall u | 0 <= u < 8
      ensures w[8 * x + u] == b[u]
    {
      PaddedBit(b, slice, W, x, u);
    }
  }

  lemma PaddedBit(b: Byte, slice: seq<Bit>, W: nat, x: nat, u: nat)
    requires |slice| <= 8 * W && x < W && u < 8 && Holds(b, slice, 8 * (W - 1 - x))
    ensures b[u] == Padded(slice, 8 * W)[8 * x + u]
  {
    assert FromRight(b, 7 - u) == FromRight(slice, 8 * (W - 1 - x) + 7 - u);
  }

  /** The bits of the accumulator from accBits on, up to the mask's width, are the current slice. */
  lemma OutByteHolds(acc: Word, accBits: nat, L: nat, t: nat, bits: seq<Bit>)
    requires L <= 57 && accBits <= 7 && t <= 56 && accBits + L <= |bits| && Accumulates(acc, bits)
    ensures Holds(OutByte(acc, accBits, Mask(L), t), bits[|bits| - accBits - L..|bits| - accBits], t)
  {
    var slice := bits[|bits| - accBits - L..|bits| - accBits];
    forall r | 0 <= r < 8
      ensures FromRight(OutByte(acc, accBits, Mask(L), t), r) == FromRight(slice, t + r)
    {
      OutByteBits(acc, accBits, L, t, r);
      if t + r < L {
        assert FromRight(acc, accBits + t + r) == FromRight(bits, accBits + t + r);
      }
    }
  }

  /** Bytes needed for L bits. */
  function Bytes(L: nat): (n: nat)
    ensures L <= 8 * n <= L + 7
  {
    (L + 7) / 8
  }

  /** The bytes of one output element: the padding, then the bytes cut from the accumulator. */
  function Element(acc: Word, accBits: nat, L: nat, pad: nat, width: nat): (e: seq<Byte>)
    requires L <= 57 && accBits <= 7 && pad <= width <= pad + 8
    ensures |e| == width
  {
    seq(width, x requires 0 <= x < width =>
      if x < pad then ZERO_BYTE else OutByte(acc, accBits, Mask(L), 8 * (width - 1 - x)))
  }

  /** An element is the current slice, zero-extended. */
  lemma ElementFlat(acc: Word, accBits: nat, L: nat, pad: nat, width: nat, bits: seq<Bit>)
    requires 8 <= L <= 57 && L <= 8 * (width - pad) <= L + 7
    requires accBits <= 7 && accBits + L <= |bits| && Accumulates(acc, bits)
    ensures Flat(Element(acc, accBits, L, pad, width)) ==
            Padded(bits[|bits| - accBits - L..|bits| - accBits], 8 * width)
  {
    var e := Element(acc, accBits, L, pad, width);
    var slice := bits[|bits| - accBits - L..|bits| - accBits];
    forall x | 0 <= x < width
      ensures Holds(e[x], slice, 8 * (width - 1 - x))
    {
      if x >= pad {
        OutByteHolds(acc, accBits, L, 8 * (width - 1 - x), bits);
      }
    }
    ElementIsPadded(e, slice);
  }

  lemma ElementByte(acc: Word, accBits: nat, L: nat, pad: nat, width: nat, x: nat)
    requires L <= 57 && accBits <= 7 && pad <= width <= pad + 8 && x < width
    ensures Element(acc, accBits, L, pad, width)[x] ==
            if x < pad then ZERO_BYTE else OutByte(acc, accBits, Mask(L), 8 * (width - 1 - x))
  {
  }

  /** The byte that the second loop stores. */
  method CutByte(acc: Word, accBits: nat, L: nat, pad: nat, width: nat, x: nat) returns (b: Byte)
    requires L <= 57 && accBits <= 7 && pad <= x < width <= pad + 8
    ensures b == Element(acc, accBits, L, pad, width)[x]
  {
    ElementByte(acc, accBits, L, pad, width, x);
    b := OutByte(acc, accBits, Mask(L), 8 * (width - 1 - x));
  }

  /** out[..] is was[..] with e[..x] written from j on. */
  ghost predicate Written(out: seq<Byte>, was: seq<Byte>, j: nat, e: seq<Byte>, x: nat) {
    && x <= |e| && j + |e| <= |out| == |was|
    && out == was[..j] + e[..x] + was[j + x..]
  }

  lemma WrittenNext(out: seq<Byte>, was: seq<Byte>, j: nat, e: seq<Byte>, x: nat)
    requires Written(out, was, j, e, x) && x < |e|
    ensures Written(out[j + x := e[x]], was, j, e, x + 1)
  {
  }

  /** The two loops that write one output element at out[j..]. */
  method WriteElement(out: array<Byte>, j: nat, acc: Word, accBits: nat, L: nat, pad: nat, width: nat)
    requires L <= 57 && accBits <= 7 && pad <= width <= pad + 8 && j + width <= out.Length
    modifies out
    ensures Written(out[..], old(out[..]), j, Element(acc, accBits, L, pad, width), width)
  {
    ghost var e, was := Element(acc, accBits, L, pad, width), out[..];
    for x := 0 to pad
      invariant Written(out[..], was, j, e, x)
    {
      ElementByte(acc, accBits, L, pad, width, x);
      WrittenNext(out[..], was, j, e, x);
      out[j + x] := ZERO_BYTE;
    }
    for x := pad to width
      invariant Written(out[..], was, j, e, x)
    {
      var b := CutByte(acc, accBits, L, pad, width, x);
      WrittenNext(out[..], was, j, e, x);
      out[j + x] := b;
    }
  }

  lemma FlatPrefix(input: seq<Byte>, i: nat)
    requires i <= |input|
    ensures Flat(input[..i]) == Flat(input)[..8 * i] && Flat(input[..i]) <= Flat(input)
  {
    FlatCut(input, i, input[..i], input[i..]);
    PrefixOf(Flat(input[..i]), Flat(input[i..]), 8 * i);
  }

  lemma FlatCut(input: seq<Byte>, i: nat, a: seq<Byte>, b: seq<Byte>)
    requires i <= |input| && a == input[..i] && b == input[i..]
    ensures Flat(input) == Flat(a) + Flat(b)
  {
    assert input == a + b;
    FlatConcat(a, b);
  }

  lemma PrefixOf(a: seq<Bit>, b: seq<Bit>, n: nat)
    requires n == |a|
    ensures (a + b)[..n] == a && a <= a + b
  {
  }

  lemma Assoc(a: seq<Bit>, b: seq<Bit>, c: seq<Bit>)
    ensures a + (b + c) == (a + b) + c
  {
  }

  lemma SliceOfPrefix(all: seq<Bit>, m: nat, c: nat, L: nat)
    requires c + L <= m <= |all|
    ensures all[..m][c..c + L] == all[c..][..L]
  {
  }

  /** One more element: what is written and what the rest will give still make up the whole. */
  lemma ExpandedNext(done: seq<Byte>, e: seq<Byte>, rest: seq<Bit>, L: nat, n: nat, goal: seq<Bit>)
    requires 0 < L <= n && L <= |rest|
    requires Flat(done) + Expanded(rest, L, n) == goal && Flat(e) == Padded(rest[..L], n)
    ensures Flat(done + e) + Expanded(rest[L..], L, n) == goal
  {
    FlatConcat(done, e);
    Assoc(Flat(done), Flat(e), Expanded(rest[L..], L, n));
  }

  /** Slices read (c bits) and bytes written (j) go in step, so there is room for the next element. */
  lemma Room(j: nat, c: nat, L: nat, width: nat, all: nat, length: nat)
    requires j * L == c * width && c + L <= all && width * all < (length + 1) * L
    ensures j + width <= length && (j + width) * L == (c + L) * width
  {
  }

  /** The emission of one element: the slice in the accumulator is the next one of the input. */
  lemma Emits(all: seq<Bit>, bits: seq<Bit>, c: nat, acc: Word, accBits: nat, L: nat, pad: nat, width: nat)
    requires bits <= all && 8 <= L <= 57 && L <= 8 * (width - pad) <= L + 7
    requires accBits <= 7 && c + L + accBits == |bits| && Accumulates(acc, bits)
    ensures Flat(Element(acc, accBits, L, pad, width)) == Padded(all[c..][..L], 8 * width)
  {
    ElementFlat(acc, accBits, L, pad, width, bits);
    SliceOfPrefix(all, |bits|, c, L);
  }

  /** After c bits of the input have become out[..at]. */
  ghost predicate Sofar(out: seq<Byte>, at: nat, bits: seq<Bit>, c: nat, L: nat, width: nat) {
    && 0 < L <= 8 * width && at <= |out| && c <= |bits| && at * L == c * width
    && Flat(out[..at]) + Expanded(bits[c..], L, 8 * width) == Expanded(bits, L, 8 * width)
  }

  lemma SofarNext(out: seq<Byte>, at: nat, bits: seq<Bit>, c: nat, L: nat, width: nat, e: seq<Byte>, out2: seq<Byte>)
    requires Sofar(out, at, bits, c, L, width) && c + L <= |bits| && |e| == width && at + width <= |out|
    requires Flat(e) == Padded(bits[c..][..L], 8 * width) && Written(out2, out, at, e, width)
    requires (at + width) * L == (c + L) * width
    ensures Sofar(out2, at + width, bits, c + L, L, width)
  {
    ExpandedNext(out[..at], e, bits[c..], L, 8 * width, Expanded(bits, L, 8 * width));
    assert out2[..at + width] == out[..at] + e;
    assert bits[c..][L..] == bits[c + L..];
  }

  /** The branch taken when the accumulator holds a whole slice. */
  method Emit(ghost all: seq<Bit>, ghost bits: seq<Bit>, ghost c: nat, out: array<Byte>, at: nat,
              acc: Word, accBits: nat, L: nat, pad: nat, width: nat)
    requires bits <= all && 8 <= L <= 57 && L <= 8 * (width - pad) <= L + 7
    requires accBits <= 7 && c + L + accBits == |bits| && Accumulates(acc, bits)
    requires width * |all| < (out.Length + 1) * L && Sofar(out[..], at, all, c, L, width)
    modifies out
    ensures at + width <= out.Length && out[at + width..] == old(out[at + width..])
    ensures Sofar(out[..], at + width, all, c + L, L, width)
  {
    Room(at, c, L, width, |all|, out.Length);
    Emits(all, bits, c, acc, accBits, L, pad, width);
    ghost var was := out[..];
    WriteElement(out, at, acc, accBits, L, pad, width);
    SofarNext(was, at, all, c, L, width, Element(acc, accBits, L, pad, width), out[..]);
  }

  lemma ReadNext(input: seq<Byte>, i: nat, acc: Word)
    requires i < |input| && Accumulates(acc, Flat(input[..i]))
    ensures Accumulates(ShiftIn(acc, input[i]), Flat(input[..i + 1]))
    ensures Flat(input[..i + 1]) <= Flat(input)
  {
    FlatNext(input, i);
    FlatPrefix(input, i + 1);
    ShiftInAccumulates(acc, Flat(input[..i]), input[i]);
  }

  /**
   `expandArray`: the output is the input's L-bit slices, each zero-extended to a whole number
   of bytes and padded, for any input length; whatever follows the last whole slice of the
   output buffer is left alone.
   */
  method ExpandArray(input: seq<Byte>, out: array<Byte>, L: nat, pad: nat) returns (ghost j: nat)
    requires 8 <= L <= 57
    requires var width := Bytes(L) + pad;
             out.Length * L <= width * (8 * |input|) < (out.Length + 1) * L
    modifies out
    ensures j <= out.Length && out[j..] == old(out[j..])
    ensures Flat(out[..j]) == Expanded(Flat(input), L, 8 * (Bytes(L) + pad))
  {
    var width := Bytes(L) + pad;
    var accBits, acc, at := 0, Mask(0), 0;
    ghost var c, bits := 0, Flat(input);
    assert out[..0] == [] && bits[0..] == bits;
    for i := 0 to |input|
      invariant c + accBits == 8 * i && 0 <= accBits < L
      invariant Accumulates(acc, Flat(input[..i]))
      invariant 0 <= at <= out.Length && out[at..] == old(out[at..])
      invariant Sofar(out[..], at, bits, c, L, width)
    {
      ReadNext(input, i, acc);
      acc := ShiftIn(acc, input[i]);
      accBits := accBits + 8;
      if accBits >= L {
        accBits := accBits - L;
        Emit(bits, Flat(input[..i + 1]), c, out, at, acc, accBits, L, pad, width);
        at := at + width;
        c := c + L;
      }
    }
    j := at;
  }
}
