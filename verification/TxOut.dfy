/**
 Transaction outputs as coinbase.cpp writes them and as a node reads them: a count byte, then
 for every output eight little-endian amount bytes, a script length and the script. The
 hexadecimal text of the code is the sequence of these bytes.
 */
module TxOut {
  import opened Options
  import opened Arithmetic

  type Bytes = seq<int>

  /** An output as it stands in the transaction: amount bytes and script. */
  datatype Out = Out(amount: Bytes, script: Bytes)

  const TWO63 := 0x8000_0000_0000_0000
  const TWO64 := 0x1_0000_0000_0000_0000

  predicate Int64(v: int) {
    -TWO63 <= v < TWO63
  }

  /** A json_int_t result, wrapped to 64 bits. */
  function Wrap(v: int): (w: int)
    ensures Int64(w) && (Int64(v) <==> w == v)
    decreases if v >= TWO63 then v - TWO63 + 1 else if v < -TWO63 then -v else 0
  {
    if v >= TWO63 then Wrap(v - TWO64) else if v < -TWO63 then Wrap(v + TWO64) else v
  }

  /** The low n bytes of a two's complement number, least significant first. */
  function LowBytes(v: int, n: nat): (bs: Bytes)
    ensures |bs| == n
    decreases n
  {
    if n == 0 then [] else [v % 256] + LowBytes(v / 256, n - 1)
  }

  function Unsigned(bs: Bytes): int {
    if bs == [] then 0 else bs[0] + 256 * Unsigned(bs[1..])
  }

  /** What the low n bytes leave out. */
  function High(v: int, n: nat): int
    decreases n
  {
    if n == 0 then v else High(v / 256, n - 1)
  }

  lemma {:induction false} LowAndHigh(v: int, n: nat)
    ensures 0 <= Unsigned(LowBytes(v, n)) < Pow256(n)
    ensures v == Unsigned(LowBytes(v, n)) + Pow256(n) * High(v, n)
    decreases n
  {
    if n > 0 {
      LowAndHigh(v / 256, n - 1);
      var bs := LowBytes(v, n);
      assert bs[1..] == LowBytes(v / 256, n - 1);
      Regrouped(Pow256(n - 1), High(v / 256, n - 1));
    }
  }

  lemma Regrouped(p: int, h: int)
    ensures 256 * (p * h) == (256 * p) * h
  {
  }

  const WIDTH := 8

  /** `encode_tx_value`. */
  function AmountBytes(v: int): (bs: Bytes)
    ensures |bs| == 8
  {
    LowBytes(v, WIDTH)
  }

  /** Eight bytes read as a signed amount. */
  function SignedAmount(bs: Bytes): int {
    var u := Unsigned(bs);
    if u >= TWO63 then u - TWO64 else u
  }

  lemma EightBytes()
    ensures Pow256(8) == TWO64
  {
  }

  lemma {:induction false} SameLowBytes(v: int, n: nat)
    ensures LowBytes(v + Pow256(n), n) == LowBytes(v, n)
    decreases n
  {
    if n > 0 {
      SameLowBytes(v / 256, n - 1);
      Carry(v, Pow256(n - 1));
    }
  }

  lemma Carry(v: int, p: int)
    ensures (v + 256 * p) % 256 == v % 256 && (v + 256 * p) / 256 == v / 256 + p
  {
  }

  /** Only the low 64 bits of an amount are written. */
  lemma {:induction false} AmountWraps(v: int)
    ensures AmountBytes(Wrap(v)) == AmountBytes(v)
    decreases if v >= TWO63 then v - TWO63 + 1 else if v < -TWO63 then -v else 0
  {
    if v >= TWO63 {
      AmountWraps(v - TWO64);
      SameAmountBytes(v - TWO64);
    } else if v < -TWO63 {
      AmountWraps(v + TWO64);
      SameAmountBytes(v);
    }
  }

  lemma SameAmountBytes(v: int)
    ensures AmountBytes(v + TWO64) == AmountBytes(v)
  {
    EightBytes();
    SameLowBytes(v, WIDTH);
  }

  /** The amount bytes give the amount back. */
  lemma AmountReturns(v: int)
    requires Int64(v)
    ensures SignedAmount(AmountBytes(v)) == v
  {
    EightBytes();
    LowAndHigh(v, WIDTH);
    HighIs(Unsigned(AmountBytes(v)), High(v, WIDTH), v);
  }

  /** Of any number the bytes give back what is left of it in 64 bits. */
  lemma AmountIs(v: int)
    ensures SignedAmount(AmountBytes(v)) == Wrap(v)
  {
    AmountWraps(v);
    AmountReturns(Wrap(v));
  }

  lemma HighIs(u: int, h: int, v: int)
    requires 0 <= u < TWO64 && v == u + TWO64 * h && Int64(v)
    ensures h == if u >= TWO63 then -1 else 0
  {
  }

  // ----- writing and reading -----

  /** An output that a one-byte script length can announce. */
  predicate Valid(o: Out) {
    |o.amount| == 8 && |o.script| <= 252
  }

  function OutBytes(o: Out): Bytes {
    o.amount + [|o.script|] + o.script
  }

  function AllBytes(outs: seq<Out>): Bytes {
    if outs == [] then [] else OutBytes(outs[0]) + AllBytes(outs[1..])
  }

  /** Reading one output; longer scripts would have a longer length field, which is not read here. */
  function ReadOut(bs: Bytes): Option<(Out, Bytes)> {
    if |bs| < 9 || !(0 <= bs[8] <= 252) || |bs| < 9 + bs[8] then None
    else Some((Out(bs[..8], bs[9..9 + bs[8]]), bs[9 + bs[8]..]))
  }

  function ReadOuts(bs: Bytes, n: nat): Option<(seq<Out>, Bytes)> {
    if n == 0 then Some(([], bs))
    else
      match ReadOut(bs)
      case None => None
      case Some((o, rest)) =>
        match ReadOuts(rest, n - 1)
        case None => None
        case Some((os, end)) => Some(([o] + os, end))
  }

  /** Reading an output section: the announced number of outputs, and what follows. */
  function ReadSection(bs: Bytes): Option<(seq<Out>, Bytes)> {
    if bs == [] || !(0 <= bs[0] <= 252) then None else ReadOuts(bs[1..], bs[0])
  }

  lemma ReadOutReturns(o: Out, rest: Bytes)
    requires Valid(o)
    ensures ReadOut(OutBytes(o) + rest) == Some((o, rest))
  {
    var bs, n := OutBytes(o) + rest, |o.script|;
    assert bs[..8] == o.amount && bs[8] == n;
    assert bs[9..9 + n] == o.script && bs[9 + n..] == rest;
  }

  predicate AllValid(outs: seq<Out>) {
    forall i :: 0 <= i < |outs| ==> Valid(outs[i])
  }

  lemma {:induction false} ReadOutsReturns(outs: seq<Out>, rest: Bytes)
    requires AllValid(outs)
    ensures ReadOuts(AllBytes(outs) + rest, |outs|) == Some((outs, rest))
  {
    if outs == [] {
      assert AllBytes(outs) + rest == rest;
    } else {
      var o, tail := outs[0], AllBytes(outs[1..]) + rest;
      assert [o] + outs[1..] == outs;
      AllBytesHead(outs, o, outs[1..]);
      Assoc(OutBytes(o), AllBytes(outs[1..]), rest);
      ReadOutReturns(o, tail);
      ReadOutsReturns(outs[1..], rest);
    }
  }

  function Section(outs: seq<Out>, end: Bytes): Bytes {
    [|outs|] + AllBytes(outs) + end
  }

  /** A section that announces what it holds is read back output by output. */
  lemma SectionReturns(outs: seq<Out>, end: Bytes)
    requires AllValid(outs) && |outs| <= 252
    ensures ReadSection(Section(outs, end)) == Some((outs, end))
  {
    assert Section(outs, end)[1..] == AllBytes(outs) + end;
    ReadOutsReturns(outs, end);
  }

  lemma Assoc(a: Bytes, b: Bytes, c: Bytes)
    ensures a + (b + c) == (a + b) + c
  {
  }

  lemma ConcatTail(a: seq<Out>, b: seq<Out>)
    requires a != []
    ensures (a + b)[0] == a[0] && (a + b)[1..] == a[1..] + b
  {
  }

  lemma AllBytesHead(outs: seq<Out>, o: Out, rest: seq<Out>)
    requires outs != [] && o == outs[0] && rest == outs[1..]
    ensures AllBytes(outs) == OutBytes(o) + AllBytes(rest)
  {
  }

  lemma {:induction false} AllBytesConcat(a: seq<Out>, b: seq<Out>)
    ensures AllBytes(a + b) == AllBytes(a) + AllBytes(b)
  {
    if a == [] {
      assert a + b == b;
    } else {
      ConcatTail(a, b);
      AllBytesHead(a + b, a[0], a[1..] + b);
      AllBytesConcat(a[1..], b);
      Assoc(OutBytes(a[0]), AllBytes(a[1..]), AllBytes(b));
    }
  }

  /** The amounts of outputs, added up as signed numbers. */
  function Total(outs: seq<Out>): int {
    if outs == [] then 0 else SignedAmount(outs[0].amount) + Total(outs[1..])
  }

  lemma {:induction false} TotalConcat(a: seq<Out>, b: seq<Out>)
    ensures Total(a + b) == Total(a) + Total(b)
  {
    if a == [] {
      assert a + b == b;
    } else {
      TotalConcat(a[1..], b);
      assert (a + b)[1..] == a[1..] + b;
    }
  }

  /** Outputs read back in front of others. */
  function Prepended(pre: seq<Out>, r: Option<(seq<Out>, Bytes)>): Option<(seq<Out>, Bytes)> {
    match r case None => None case Some((os, end)) => Some((pre + os, end))
  }

  lemma ReadStep(bs: Bytes, n: nat, o: Out, rest: Bytes)
    requires n > 0 && ReadOut(bs) == Some((o, rest))
    ensures ReadOuts(bs, n) == Prepended([o], ReadOuts(rest, n - 1))
  {
  }

  lemma PrependedCons(pre: seq<Out>, o: Out, rest: seq<Out>, r: Option<(seq<Out>, Bytes)>)
    requires pre != [] && o == pre[0] && rest == pre[1..]
    ensures Prepended([o], Prepended(rest, r)) == Prepended(pre, r)
  {
    if r.Some? {
      assert [o] + (rest + r.value.0) == pre + r.value.0;
    }
  }

  lemma PrependedNone(r: Option<(seq<Out>, Bytes)>)
    ensures Prepended([], r) == r
  {
    if r.Some? {
      assert [] + r.value.0 == r.value.0;
    }
  }

  lemma PrefixStep(pre: seq<Out>, o: Out, rest: seq<Out>, tail: Bytes, n: nat)
    requires pre != [] && o == pre[0] && rest == pre[1..] && Valid(o) && n > 0
    ensures ReadOuts(AllBytes(pre) + tail, n) == Prepended([o], ReadOuts(AllBytes(rest) + tail, n - 1))
  {
    AllBytesHead(pre, o, rest);
    Assoc(OutBytes(o), AllBytes(rest), tail);
    ReadOutReturns(o, AllBytes(rest) + tail);
    ReadStep(AllBytes(pre) + tail, n, o, AllBytes(rest) + tail);
  }

  lemma PrefixNone(tail: Bytes, k: nat)
    ensures ReadOuts(AllBytes([]) + tail, k) == Prepended([], ReadOuts(tail, k))
  {
    assert AllBytes([]) + tail == tail;
    PrependedNone(ReadOuts(tail, k));
  }

  /** Valid outputs are read back whatever follows them. */
  lemma {:induction false} ReadPrefix(pre: seq<Out>, tail: Bytes, n: nat, k: nat)
    requires AllValid(pre) && n == |pre| + k
    ensures ReadOuts(AllBytes(pre) + tail, n) == Prepended(pre, ReadOuts(tail, k))
    decreases |pre|
  {
    if pre == [] {
      PrefixNone(tail, k);
    } else {
      ReadPrefix(pre[1..], tail, n - 1, k);
      PrefixCons(pre, pre[0], pre[1..], tail, n, ReadOuts(tail, k));
    }
  }

  lemma PrefixCons(pre: seq<Out>, o: Out, rest: seq<Out>, tail: Bytes, n: nat, r: Option<(seq<Out>, Bytes)>)
    requires pre != [] && o == pre[0] && rest == pre[1..] && Valid(o) && n > 0
    requires ReadOuts(AllBytes(rest) + tail, n - 1) == Prepended(rest, r)
    ensures ReadOuts(AllBytes(pre) + tail, n) == Prepended(pre, r)
  {
    PrefixStep(pre, o, rest, tail, n);
    PrependedCons(pre, o, rest, r);
  }

  /** What comes first of what is read is what is read first. */
  lemma ReadFirst(bs: Bytes, n: nat)
    requires n > 0 && ReadOuts(bs, n).Some?
    ensures ReadOut(bs).Some? && |ReadOuts(bs, n).value.0| > 0
    ensures ReadOuts(bs, n).value.0[0] == ReadOut(bs).value.0
  {
  }
}
