/**
 The output section that `coinbase_create` appends, coinbase.cpp: the code that writes it, and
 the law it must keep: what a node reads back are the planned outputs, as many as announced,
 and their amounts add up to the template's value.
 */
module Coinbase {
  import opened Options
  import opened TxOut
  import opened CoinbasePlan

  /** `base58_decode`: the 20 key bytes of an address, or nothing. */
  type Decoder = string -> Bytes

  const LOCK_TIME := [0, 0, 0, 0]

  // ----- what the code appends -----

  /** A length written as one byte. */
  function LengthByte(n: nat): (b: nat)
    ensures n < 256 ==> b == n
  {
    n % 256
  }

  function P2shScript(key: Bytes): (s: Bytes)
    ensures |s| == |key| + 3
  {
    [0xa9, LengthByte(|key|)] + key + [0x87]
  }

  /** `p2sh_pack_tx`. */
  function P2shPack(amount: int, key: Bytes): Bytes {
    AmountBytes(amount) + [LengthByte(|P2shScript(key)|)] + P2shScript(key)
  }

  function KeyScript(key: Bytes): Bytes {
    [0x76, 0xa9, 0x14] + key + [0x88, 0xac]
  }

  /** `job_pack_tx` to a key. */
  function KeyPack(amount: int, key: Bytes): Bytes {
    AmountBytes(amount) + [0x19] + KeyScript(key)
  }

  /** `job_pack_tx` without a key: to the pool's own wallet. */
  function MinerPack(c: Coin, amount: int): Bytes {
    if c.p2sh then P2shPack(amount, c.scriptPubkey)
    else if c.pos then AmountBytes(amount) + [0x23, 0x21] + c.pubkey + [0xac]
    else KeyPack(amount, c.scriptPubkey)
  }

  function PayPack(decode: Decoder, p: Pay): Bytes {
    if p.p2sh then P2shPack(p.amount, decode(p.payee)) else KeyPack(p.amount, decode(p.payee))
  }

  function PayAll(decode: Decoder, pays: seq<Pay>): Bytes {
    if pays == [] then [] else PayPack(decode, pays[0]) + PayAll(decode, pays[1..])
  }

  function Sum(pays: seq<Pay>): int {
    if pays == [] then 0 else pays[0].amount + Sum(pays[1..])
  }

  /** The segwit commitment as an output of nothing. */
  function CommitmentBytes(c: Coin): Bytes {
    AmountBytes(0) + [|c.commitment|] + c.commitment
  }

  function Count(plan: Plan): nat {
    (if plan.commit then 1 else 0) + |plan.before| + 1 + |plan.after|
  }

  /** What is left for the miner; the bytes written are its low 64 bits. */
  function Remainder(t: Template, plan: Plan): int {
    plan.times * t.value - Sum(plan.before) - if plan.onTop then 0 else Sum(plan.after)
  }

  /** The section as it is written. */
  function Written(c: Coin, t: Template, decode: Decoder, plan: Plan): Bytes {
    Parts(Count(plan), if plan.commit then CommitmentBytes(c) else [], PayAll(decode, plan.before),
          MinerPack(c, Remainder(t, plan)), PayAll(decode, plan.after))
  }

  function Parts(n: nat, commitment: Bytes, before: Bytes, miner: Bytes, after: Bytes): Bytes {
    [n] + commitment + before + miner + after + LOCK_TIME
  }

  // ----- as outputs -----

  function PayOut(decode: Decoder, p: Pay): Out {
    Out(AmountBytes(p.amount), if p.p2sh then P2shScript(decode(p.payee)) else KeyScript(decode(p.payee)))
  }

  function PayOuts(decode: Decoder, pays: seq<Pay>): (outs: seq<Out>)
    ensures |outs| == |pays|
  {
    if pays == [] then [] else [PayOut(decode, pays[0])] + PayOuts(decode, pays[1..])
  }

  function MinerScript(c: Coin): Bytes {
    if c.p2sh then P2shScript(c.scriptPubkey)
    else if c.pos then [0x21] + c.pubkey + [0xac]
    else KeyScript(c.scriptPubkey)
  }

  function Commitment(c: Coin, plan: Plan): (outs: seq<Out>)
    ensures |outs| == if plan.commit then 1 else 0
  {
    if plan.commit then [Out(AmountBytes(0), c.commitment)] else []
  }

  /** The planned outputs. */
  function Outputs(c: Coin, t: Template, decode: Decoder, plan: Plan): seq<Out> {
    OutParts(Commitment(c, plan), PayOuts(decode, plan.before), Out(AmountBytes(Remainder(t, plan)), MinerScript(c)),
             PayOuts(decode, plan.after))
  }

  function OutParts(commitment: seq<Out>, before: seq<Out>, miner: Out, after: seq<Out>): (outs: seq<Out>)
    ensures |outs| == |commitment| + |before| + 1 + |after|
  {
    commitment + before + [miner] + after
  }

  // ----- when they agree -----

  /** The pool's own wallet is set up as its kind asks. */
  predicate WalletOk(c: Coin) {
    if c.p2sh then |c.scriptPubkey| <= 249 else if c.pos then |c.pubkey| == 33 else |c.scriptPubkey| == 20
  }

  /** The payee's address decodes to a key of the length its script announces. */
  predicate PayeeOk(decode: Decoder, p: Pay) {
    if p.p2sh then |decode(p.payee)| <= 249 else |decode(p.payee)| == 20
  }

  predicate AllPayable(decode: Decoder, pays: seq<Pay>) {
    forall i :: 0 <= i < |pays| ==> PayeeOk(decode, pays[i])
  }

  predicate Payable(c: Coin, decode: Decoder, plan: Plan) {
    && WalletOk(c) && (plan.commit ==> |c.commitment| <= 252)
    && AllPayable(decode, plan.before) && AllPayable(decode, plan.after)
  }

  lemma P2shIsOut(amount: int, key: Bytes)
    requires |key| <= 249
    ensures P2shPack(amount, key) == OutBytes(Out(AmountBytes(amount), P2shScript(key)))
  {
  }

  lemma KeyIsOut(amount: int, key: Bytes)
    requires |key| == 20
    ensures KeyPack(amount, key) == OutBytes(Out(AmountBytes(amount), KeyScript(key)))
  {
  }

  lemma PosIsOut(amount: int, pubkey: Bytes)
    requires |pubkey| == 33
    ensures AmountBytes(amount) + [0x23, 0x21] + pubkey + [0xac] ==
            OutBytes(Out(AmountBytes(amount), [0x21] + pubkey + [0xac]))
  {
  }

  lemma MinerIsOut(c: Coin, amount: int)
    requires WalletOk(c)
    ensures MinerPack(c, amount) == OutBytes(Out(AmountBytes(amount), MinerScript(c))) && |MinerScript(c)| <= 252
  {
    if c.p2sh {
      P2shIsOut(amount, c.scriptPubkey);
    } else if c.pos {
      PosIsOut(amount, c.pubkey);
    } else {
      KeyIsOut(amount, c.scriptPubkey);
    }
  }

  lemma PayIsOut(decode: Decoder, p: Pay)
    requires PayeeOk(decode, p)
    ensures PayPack(decode, p) == OutBytes(PayOut(decode, p)) && Valid(PayOut(decode, p))
  {
  }

  lemma OneOut(o: Out)
    ensures AllBytes([o]) == OutBytes(o)
  {
  }

  lemma OneAmount(o: Out)
    ensures Total([o]) == SignedAmount(o.amount)
  {
    assert [o][1..] == [];
  }

  lemma {:induction false} PaysAreOuts(decode: Decoder, pays: seq<Pay>)
    requires AllPayable(decode, pays)
    ensures PayAll(decode, pays) == AllBytes(PayOuts(decode, pays)) && AllValid(PayOuts(decode, pays))
  {
    if pays != [] {
      var outs, rest := PayOuts(decode, pays), pays[1..];
      PayIsOut(decode, pays[0]);
      AllBytesHead(outs, PayOut(decode, pays[0]), PayOuts(decode, rest));
      PaysAreOuts(decode, rest);
    }
  }

  lemma CommitmentIsOut(c: Coin, plan: Plan)
    requires plan.commit ==> |c.commitment| <= 252
    ensures AllBytes(Commitment(c, plan)) == (if plan.commit then CommitmentBytes(c) else [])
    ensures AllValid(Commitment(c, plan))
  {
  }

  /** Four parts of a section, joined. */
  lemma Joined(a: seq<Out>, b: seq<Out>, o: Out, d: seq<Out>)
    ensures AllBytes(OutParts(a, b, o, d)) == AllBytes(a) + AllBytes(b) + OutBytes(o) + AllBytes(d)
  {
    AllBytesConcat(a, b);
    AllBytesConcat(a + b, [o]);
    AllBytesConcat(a + b + [o], d);
    OneOut(o);
  }

  lemma PartsValid(a: seq<Out>, b: seq<Out>, o: Out, d: seq<Out>)
    requires AllValid(a) && AllValid(b) && Valid(o) && AllValid(d)
    ensures AllValid(OutParts(a, b, o, d))
  {
  }

  lemma Grouped(n: Bytes, a: Bytes, b: Bytes, m: Bytes, d: Bytes, end: Bytes)
    ensures n + a + b + m + d + end == n + (a + b + m + d) + end
  {
  }

  /** Parts that are outputs are read back one after the other. */
  lemma PartsReturn(a: seq<Out>, b: seq<Out>, o: Out, d: seq<Out>, n: nat)
    requires AllValid(a) && AllValid(b) && Valid(o) && AllValid(d) && n == |a| + |b| + 1 + |d| <= 252
    ensures ReadSection(Parts(n, AllBytes(a), AllBytes(b), OutBytes(o), AllBytes(d))) ==
            Some((OutParts(a, b, o, d), LOCK_TIME))
  {
    Joined(a, b, o, d);
    PartsValid(a, b, o, d);
    BytesReturn(OutParts(a, b, o, d), n, AllBytes(a), AllBytes(b), OutBytes(o), AllBytes(d));
  }

  lemma BytesReturn(outs: seq<Out>, n: nat, a: Bytes, b: Bytes, m: Bytes, d: Bytes)
    requires AllValid(outs) && n == |outs| <= 252 && AllBytes(outs) == a + b + m + d
    ensures ReadSection(Parts(n, a, b, m, d)) == Some((outs, LOCK_TIME))
  {
    Grouped([n], a, b, m, d, LOCK_TIME);
    SectionReturns(outs, LOCK_TIME);
  }

  /** The section as written is made of the planned outputs. */
  lemma WrittenParts(c: Coin, t: Template, decode: Decoder, plan: Plan, o: Out)
    requires Payable(c, decode, plan) && o == Out(AmountBytes(Remainder(t, plan)), MinerScript(c))
    ensures Valid(o)
    ensures Written(c, t, decode, plan) ==
            Parts(Count(plan), AllBytes(Commitment(c, plan)), AllBytes(PayOuts(decode, plan.before)), OutBytes(o),
                  AllBytes(PayOuts(decode, plan.after)))
  {
    CommitmentIsOut(c, plan);
    PaysAreOuts(decode, plan.before);
    PaysAreOuts(decode, plan.after);
    MinerIsOut(c, Remainder(t, plan));
  }

  /**
   A node reads back exactly the planned outputs, as many as announced.
   */
  lemma OutputsReturn(c: Coin, t: Template, decode: Decoder, plan: Plan)
    requires Payable(c, decode, plan) && Count(plan) <= 252
    ensures ReadSection(Written(c, t, decode, plan)) == Some((Outputs(c, t, decode, plan), LOCK_TIME))
    ensures |Outputs(c, t, decode, plan)| == Count(plan)
  {
    var o := Out(AmountBytes(Remainder(t, plan)), MinerScript(c));
    WrittenParts(c, t, decode, plan, o);
    CommitmentIsOut(c, plan);
    PaysAreOuts(decode, plan.before);
    PaysAreOuts(decode, plan.after);
    PartsReturn(Commitment(c, plan), PayOuts(decode, plan.before), o, PayOuts(decode, plan.after), Count(plan));
  }

  // ----- the amounts -----

  /** Amounts are json_int_t. */
  predicate AmountsOk(pays: seq<Pay>) {
    forall i :: 0 <= i < |pays| ==> Int64(pays[i].amount)
  }

  lemma {:induction false} PaysTotal(decode: Decoder, pays: seq<Pay>)
    requires AmountsOk(pays)
    ensures Total(PayOuts(decode, pays)) == Sum(pays)
  {
    if pays != [] {
      AmountReturns(pays[0].amount);
      assert PayOuts(decode, pays)[1..] == PayOuts(decode, pays[1..]);
      PaysTotal(decode, pays[1..]);
    }
  }

  lemma CommitmentTotal(c: Coin, plan: Plan)
    ensures Total(Commitment(c, plan)) == 0
  {
    if plan.commit {
      OneAmount(Out(AmountBytes(0), c.commitment));
      AmountReturns(0);
    }
  }

  lemma PartsTotal(a: seq<Out>, b: seq<Out>, o: Out, d: seq<Out>)
    ensures Total(OutParts(a, b, o, d)) == Total(a) + Total(b) + SignedAmount(o.amount) + Total(d)
  {
    TotalConcat(a, b);
    TotalConcat(a + b, [o]);
    TotalConcat(a + b + [o], d);
    OneAmount(o);
  }

  lemma OutputsTotal(c: Coin, t: Template, decode: Decoder, plan: Plan)
    requires AmountsOk(plan.before) && AmountsOk(plan.after)
    ensures Total(Outputs(c, t, decode, plan)) == Sum(plan.before) + Wrap(Remainder(t, plan)) + Sum(plan.after)
  {
    CommitmentTotal(c, plan);
    PaysTotal(decode, plan.before);
    PaysTotal(decode, plan.after);
    AmountIs(Remainder(t, plan));
    PartsTotal(Commitment(c, plan), PayOuts(decode, plan.before), Out(AmountBytes(Remainder(t, plan)), MinerScript(c)),
               PayOuts(decode, plan.after));
  }

  /** What a plan gives out beyond the template's value. */
  function Excess(t: Template, plan: Plan): int {
    (plan.times - 1) * t.value + if plan.onTop then Sum(plan.after) else 0
  }

  lemma ExcessIs(t: Template, plan: Plan)
    ensures Sum(plan.before) + Remainder(t, plan) + Sum(plan.after) == t.value + Excess(t, plan)
  {
    assert (plan.times - 1) * t.value == plan.times * t.value - t.value;
  }

  /**
   The amounts of the planned outputs add up to the template's value and the plan's excess exactly
   when what is left for the miner fits a signed 64-bit number.
   */
  lemma RewardConserved(c: Coin, t: Template, decode: Decoder, plan: Plan)
    requires AmountsOk(plan.before) && AmountsOk(plan.after)
    ensures Total(Outputs(c, t, decode, plan)) == t.value + Excess(t, plan) <==> Int64(Remainder(t, plan))
  {
    OutputsTotal(c, t, decode, plan);
    ExcessIs(t, plan);
  }

  // ----- payees that do not decode -----

  /** Decoding gives 20 bytes or nothing. */
  ghost predicate Decodes(decode: Decoder, pays: seq<Pay>) {
    forall i :: 0 <= i < |pays| ==> |decode(pays[i].payee)| in {0, 20}
  }

  /** The output of an address that does not decode announces 25 script bytes and has 5. */
  lemma EmptyKey(p: Pay, decode: Decoder, tail: Bytes)
    requires !p.p2sh && decode(p.payee) == []
    ensures |PayPack(decode, p)| == 8 + 1 + 5 && PayPack(decode, p)[8] == 25
    ensures var r := ReadOut(PayPack(decode, p) + tail); r.Some? ==> r.value.0 != PayOut(decode, p)
  {
  }

  /** What is read begins with outs. */
  ghost predicate BeginsWith(r: Option<(seq<Out>, Bytes)>, outs: seq<Out>) {
    r.Some? && outs <= r.value.0
  }

  // Payments as pairs of what is written and what was meant, whatever they are.
  type Writer = Pay -> Bytes
  type Meaning = Pay -> Out

  function WriteAll(w: Writer, pays: seq<Pay>): Bytes {
    if pays == [] then [] else w(pays[0]) + WriteAll(w, pays[1..])
  }

  function MeanAll(m: Meaning, pays: seq<Pay>): seq<Out> {
    if pays == [] then [] else [m(pays[0])] + MeanAll(m, pays[1..])
  }

  predicate WellWritten(w: Writer, m: Meaning, p: Pay) {
    w(p) == OutBytes(m(p)) && Valid(m(p))
  }

  /** Whatever follows, the first output read is another one. */
  ghost predicate IllWritten(w: Writer, m: Meaning, p: Pay) {
    forall tail: Bytes :: ReadOut(w(p) + tail).Some? ==> ReadOut(w(p) + tail).value.0 != m(p)
  }

  /** Well written payments, then one that is not. */
  ghost predicate BreaksOff(w: Writer, m: Meaning, pays: seq<Pay>) {
    && pays != []
    && (IllWritten(w, m, pays[0]) || (WellWritten(w, m, pays[0]) && BreaksOff(w, m, pays[1..])))
  }

  /** Where the writing breaks off, what is read is not what was meant. */
  lemma {:induction false} NotReadBack(w: Writer, m: Meaning, pays: seq<Pay>, tail: Bytes, n: nat)
    requires BreaksOff(w, m, pays) && |pays| <= n
    ensures !BeginsWith(ReadOuts(WriteAll(w, pays) + tail, n), MeanAll(m, pays))
  {
    if IllWritten(w, m, pays[0]) {
      FirstNotReadBack(w, m, pays, tail, n);
    } else {
      NotReadBack(w, m, pays[1..], tail, n - 1);
      LaterNotReadBack(w, m, pays, tail, n);
    }
  }

  lemma LaterNotReadBack(w: Writer, m: Meaning, pays: seq<Pay>, tail: Bytes, n: nat)
    requires pays != [] && WellWritten(w, m, pays[0]) && n > 0
    requires !BeginsWith(ReadOuts(WriteAll(w, pays[1..]) + tail, n - 1), MeanAll(m, pays[1..]))
    ensures !BeginsWith(ReadOuts(WriteAll(w, pays) + tail, n), MeanAll(m, pays))
  {
    var o, bs := m(pays[0]), WriteAll(w, pays[1..]) + tail;
    Assoc(w(pays[0]), WriteAll(w, pays[1..]), tail);
    ReadOutReturns(o, bs);
    ReadStep(WriteAll(w, pays) + tail, n, o, bs);
    PrependedOther([o], MeanAll(m, pays[1..]), ReadOuts(bs, n - 1), ReadOuts(WriteAll(w, pays) + tail, n));
  }

  lemma FirstNotReadBack(w: Writer, m: Meaning, pays: seq<Pay>, tail: Bytes, n: nat)
    requires 0 < |pays| <= n && IllWritten(w, m, pays[0])
    ensures !BeginsWith(ReadOuts(WriteAll(w, pays) + tail, n), MeanAll(m, pays))
  {
    var all, bs := WriteAll(w, pays) + tail, WriteAll(w, pays[1..]) + tail;
    Assoc(w(pays[0]), WriteAll(w, pays[1..]), tail);
    assert all == w(pays[0]) + bs;
    if ReadOuts(all, n).Some? {
      ReadFirst(all, n);
    }
  }

  /** How this pool writes payments. */
  function PayWriter(decode: Decoder): Writer {
    (p: Pay) => PayPack(decode, p)
  }

  function PayMeaning(decode: Decoder): Meaning {
    (p: Pay) => PayOut(decode, p)
  }

  lemma {:induction false} PaysAreWritten(decode: Decoder, pays: seq<Pay>)
    ensures PayAll(decode, pays) == WriteAll(PayWriter(decode), pays)
    ensures PayOuts(decode, pays) == MeanAll(PayMeaning(decode), pays)
  {
    if pays != [] {
      PaysAreWritten(decode, pays[1..]);
    }
  }

  lemma {:induction false} SomeBreaksOff(decode: Decoder, pays: seq<Pay>)
    requires Decodes(decode, pays) && !AllPayable(decode, pays)
    ensures BreaksOff(PayWriter(decode), PayMeaning(decode), pays)
  {
    if PayeeOk(decode, pays[0]) {
      PayIsOut(decode, pays[0]);
      RestNotPayable(decode, pays);
      SomeBreaksOff(decode, pays[1..]);
    } else {
      IllWrittenPay(decode, pays[0]);
    }
  }

  lemma IllWrittenPay(decode: Decoder, p: Pay)
    requires !p.p2sh && decode(p.payee) == []
    ensures IllWritten(PayWriter(decode), PayMeaning(decode), p)
  {
    forall tail: Bytes
      ensures var r := ReadOut(PayWriter(decode)(p) + tail); r.Some? ==> r.value.0 != PayMeaning(decode)(p)
    {
      EmptyKey(p, decode, tail);
    }
  }

  lemma RestNotPayable(decode: Decoder, pays: seq<Pay>)
    requires Decodes(decode, pays) && !AllPayable(decode, pays) && PayeeOk(decode, pays[0])
    ensures Decodes(decode, pays[1..]) && !AllPayable(decode, pays[1..])
  {
    var i :| 0 <= i < |pays| && !PayeeOk(decode, pays[i]);
    assert pays[1..][i - 1] == pays[i];
  }

  lemma PrependedOther(pre: seq<Out>, outs: seq<Out>, r: Option<(seq<Out>, Bytes)>, all: Option<(seq<Out>, Bytes)>)
    requires !BeginsWith(r, outs) && all == Prepended(pre, r)
    ensures !BeginsWith(all, pre + outs)
  {
    if r.Some? {
      Longer(pre, outs, r.value.0);
    }
  }

  lemma Longer(pre: seq<Out>, outs: seq<Out>, os: seq<Out>)
    ensures pre + outs <= pre + os ==> outs <= os
  {
    assert (pre + outs)[|pre|..] == outs && (pre + os)[|pre|..] == os;
    assert |outs| <= |os| ==> (pre + os)[..|pre| + |outs|] == pre + os[..|outs|];
    assert |outs| <= |os| ==> (pre + os[..|outs|])[|pre|..] == os[..|outs|];
  }

  /** Valid outputs, then a payee that does not decode: not what was planned. */
  lemma NotAsPlanned(decode: Decoder, pre: seq<Out>, pays: seq<Pay>, tail: Bytes, n: nat, k: nat)
    requires AllValid(pre) && Decodes(decode, pays) && !AllPayable(decode, pays) && |pays| <= k && n == |pre| + k
    ensures !BeginsWith(ReadOuts(AllBytes(pre) + (PayAll(decode, pays) + tail), n), pre + PayOuts(decode, pays))
  {
    SomeBreaksOff(decode, pays);
    NotReadBack(PayWriter(decode), PayMeaning(decode), pays, tail, k);
    PaysAreWritten(decode, pays);
    PrefixOther(pre, PayAll(decode, pays) + tail, n, k, PayOuts(decode, pays));
  }

  lemma PrefixOther(pre: seq<Out>, bs: Bytes, n: nat, k: nat, outs: seq<Out>)
    requires AllValid(pre) && !BeginsWith(ReadOuts(bs, k), outs) && n == |pre| + k
    ensures !BeginsWith(ReadOuts(AllBytes(pre) + bs, n), pre + outs)
  {
    ReadPrefix(pre, bs, n, k);
    PrependedOther(pre, outs, ReadOuts(bs, k), ReadOuts(AllBytes(pre) + bs, n));
  }

  lemma NotThese(r: Option<(seq<Out>, Bytes)>, outs: seq<Out>, all: seq<Out>, end: Bytes)
    requires !BeginsWith(r, outs) && outs <= all
    ensures r != Some((all, end))
  {
  }

  /** The bytes after the count. */
  lemma AfterCount(n: nat, a: Bytes, b: Bytes, m: Bytes, d: Bytes)
    requires n <= 252
    ensures ReadSection(Parts(n, a, b, m, d)) == ReadOuts(a + (b + (m + d + LOCK_TIME)), n)
    ensures ReadSection(Parts(n, a, b, m, d)) == ReadOuts((a + b + m) + (d + LOCK_TIME), n)
  {
    assert Parts(n, a, b, m, d)[1..] == a + (b + (m + d + LOCK_TIME)) == (a + b + m) + (d + LOCK_TIME);
  }

  /** Some payee before the miner does not decode. */
  lemma BadBefore(c: Coin, t: Template, decode: Decoder, plan: Plan)
    requires (plan.commit ==> |c.commitment| <= 252) && Count(plan) <= 252
    requires Decodes(decode, plan.before) && !AllPayable(decode, plan.before)
    ensures ReadSection(Written(c, t, decode, plan)) != Some((Outputs(c, t, decode, plan), LOCK_TIME))
  {
    var a, b := Commitment(c, plan), PayAll(decode, plan.before);
    var m, d := MinerPack(c, Remainder(t, plan)), PayAll(decode, plan.after);
    CommitmentIsOut(c, plan);
    AfterCount(Count(plan), AllBytes(a), b, m, d);
    NotAsPlanned(decode, a, plan.before, m + d + LOCK_TIME, Count(plan), Count(plan) - |a|);
    NotThese(ReadSection(Written(c, t, decode, plan)), a + PayOuts(decode, plan.before),
             Outputs(c, t, decode, plan), LOCK_TIME);
  }

  /** The payee after the miner does not decode. */
  lemma BadAfter(c: Coin, t: Template, decode: Decoder, plan: Plan)
    requires (plan.commit ==> |c.commitment| <= 252) && Count(plan) <= 252 && WalletOk(c)
    requires AllPayable(decode, plan.before) && Decodes(decode, plan.after) && !AllPayable(decode, plan.after)
    ensures ReadSection(Written(c, t, decode, plan)) != Some((Outputs(c, t, decode, plan), LOCK_TIME))
  {
    var o := Out(AmountBytes(Remainder(t, plan)), MinerScript(c));
    CommitmentIsOut(c, plan);
    PaysAreOuts(decode, plan.before);
    MinerIsOut(c, Remainder(t, plan));
    BadLast(decode, Commitment(c, plan), PayOuts(decode, plan.before), o, plan.after, Count(plan));
  }

  lemma BadLast(decode: Decoder, a: seq<Out>, b: seq<Out>, o: Out, pays: seq<Pay>, n: nat)
    requires AllValid(a) && AllValid(b) && Valid(o) && n == |a| + |b| + 1 + |pays| <= 252
    requires Decodes(decode, pays) && !AllPayable(decode, pays)
    ensures ReadSection(Parts(n, AllBytes(a), AllBytes(b), OutBytes(o), PayAll(decode, pays))) !=
            Some((OutParts(a, b, o, PayOuts(decode, pays)), LOCK_TIME))
  {
    AfterCount(n, AllBytes(a), AllBytes(b), OutBytes(o), PayAll(decode, pays));
    var pre := a + b + [o];
    ThreeParts(a, b, o, pre);
    NotAsPlanned(decode, pre, pays, LOCK_TIME, n, |pays|);
    var outs := PayOuts(decode, pays);
    NotThese(ReadOuts(AllBytes(pre) + (PayAll(decode, pays) + LOCK_TIME), n), pre + outs,
                 OutParts(a, b, o, outs), LOCK_TIME);
  }

  lemma ThreeParts(a: seq<Out>, b: seq<Out>, o: Out, pre: seq<Out>)
    requires AllValid(a) && AllValid(b) && Valid(o) && pre == a + b + [o]
    ensures AllValid(pre) && AllBytes(pre) == AllBytes(a) + AllBytes(b) + OutBytes(o)
  {
    AllBytesConcat(a, b);
    AllBytesConcat(a + b, [o]);
    OneOut(o);
  }

  /** With decoders that give 20 bytes or nothing, the plan is read back exactly when every address decodes. */
  lemma ReadBackIffPayable(c: Coin, t: Template, decode: Decoder, plan: Plan)
    requires WalletOk(c) && (plan.commit ==> |c.commitment| <= 252) && Count(plan) <= 252
    requires Decodes(decode, plan.before) && Decodes(decode, plan.after)
    ensures ReadSection(Written(c, t, decode, plan)) == Some((Outputs(c, t, decode, plan), LOCK_TIME)) <==>
            AllPayable(decode, plan.before) && AllPayable(decode, plan.after)
  {
    if !AllPayable(decode, plan.before) {
      BadBefore(c, t, decode, plan);
    } else if !AllPayable(decode, plan.after) {
      BadAfter(c, t, decode, plan);
    } else {
      OutputsReturn(c, t, decode, plan);
    }
  }
}
