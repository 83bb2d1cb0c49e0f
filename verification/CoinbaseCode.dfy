/**
 The code of `coinbase_create`, coinbase.cpp: every branch appends the section of its
 plan.
 */
module CoinbaseCode {
  import opened Options
  import opened TxOut
  import opened CoinbasePlan
  import opened Coinbase

  /** script_dests, npayees and available while a branch runs. */
  datatype Draft = Draft(dests: Bytes, npayees: nat, available: int)

  function Start(t: Template, commit: bool): Draft {
    Draft([], if commit then 2 else 1, t.value)
  }

  /** The draft after paying. */
  function Drafted(decode: Decoder, d: Draft, pays: seq<Pay>): Draft {
    Grown(d, PayAll(decode, pays), |pays|, Sum(pays))
  }

  function Grown(d: Draft, bytes: Bytes, n: nat, amount: int): Draft {
    Draft(d.dests + bytes, d.npayees + n, d.available - amount)
  }

  lemma GrownTwice(d: Draft, b1: Bytes, n1: nat, a1: int, b2: Bytes, n2: nat, a2: int)
    ensures Grown(Grown(d, b1, n1, a1), b2, n2, a2) == Grown(d, b1 + b2, n1 + n2, a1 + a2)
  {
  }

  lemma {:induction false} PayAllConcat(decode: Decoder, a: seq<Pay>, b: seq<Pay>)
    ensures PayAll(decode, a + b) == PayAll(decode, a) + PayAll(decode, b) && Sum(a + b) == Sum(a) + Sum(b)
  {
    if a == [] {
      assert a + b == b;
    } else {
      assert (a + b)[0] == a[0] && (a + b)[1..] == a[1..] + b;
      PayAllConcat(decode, a[1..], b);
      Assoc(PayPack(decode, a[0]), PayAll(decode, a[1..]), PayAll(decode, b));
    }
  }

  lemma DraftedTwice(decode: Decoder, d: Draft, a: seq<Pay>, b: seq<Pay>)
    ensures Drafted(decode, Drafted(decode, d, a), b) == Drafted(decode, d, a + b)
  {
    PayAllConcat(decode, a, b);
    GrownTwice(d, PayAll(decode, a), |a|, Sum(a), PayAll(decode, b), |b|, Sum(b));
  }

  lemma OnePay(decode: Decoder, p: Pay)
    ensures PayAll(decode, [p]) == PayPack(decode, p) && Sum([p]) == p.amount
  {
  }

  lemma NoPay(decode: Decoder, d: Draft)
    ensures Drafted(decode, d, []) == d
  {
  }

  /** One payee: counted, subtracted, packed. */
  method PayOne(decode: Decoder, d: Draft, p: Pay) returns (e: Draft)
    ensures e == Drafted(decode, d, [p])
  {
    OnePay(decode, p);
    e := Draft(d.dests + PayPack(decode, p), d.npayees + 1, d.available - p.amount);
  }

  /** A payment of the reply, made if it names a payee and an amount. */
  method PayDue(decode: Decoder, d: Draft, p: Payment, p2sh: bool) returns (e: Draft)
    ensures e == Drafted(decode, d, Due(p, p2sh))
  {
    NoPay(decode, d);
    e := d;
    if p.payee.Some? && p.amount != 0 {
      e := PayOne(decode, d, Pay(p.amount, p.payee.value, p2sh));
    }
  }

  lemma AllDueNext(ps: seq<Payment>, i: nat, p2sh: bool)
    requires i < |ps|
    ensures AllDue(ps[..i + 1], p2sh) == AllDue(ps[..i], p2sh) + Due(ps[i], p2sh)
  {
    assert ps[..i + 1][..i] == ps[..i];
  }

  /** The loop over a superblock's payments. */
  method PayList(decode: Decoder, d: Draft, ps: seq<Payment>, p2sh: bool) returns (e: Draft)
    ensures e == Drafted(decode, d, AllDue(ps, p2sh))
  {
    e := d;
    NoPay(decode, d);
    for i := 0 to |ps|
      invariant e == Drafted(decode, d, AllDue(ps[..i], p2sh))
    {
      AllDueNext(ps, i, p2sh);
      DraftedTwice(decode, d, AllDue(ps[..i], p2sh), Due(ps[i], p2sh));
      e := PayDue(decode, e, ps[i], p2sh);
    }
    assert ps[..|ps|] == ps;
  }

  method PaySuperblock(decode: Decoder, d: Draft, r: Reply, on: bool, name: string, p2sh: bool) returns (e: Draft)
    ensures e == Drafted(decode, d, Superblock(r, on, name, p2sh))
  {
    NoPay(decode, d);
    e := d;
    if on && name in r.lists {
      e := PayList(decode, d, r.lists[name], p2sh);
    }
  }

  method PayNode(decode: Decoder, d: Draft, r: Reply, on: bool, name: string, p2sh: bool) returns (e: Draft)
    ensures e == Drafted(decode, d, Node(r, on, name, p2sh))
  {
    NoPay(decode, d);
    e := d;
    if on && name in r.objects {
      e := PayDue(decode, d, r.objects[name], p2sh);
    }
  }

  /** A superblock's payments, then a node's. */
  method PayBoth(decode: Decoder, d: Draft, r: Reply, enabled: bool, list: string, on: bool, node: string, p2sh: bool)
    returns (e: Draft)
    ensures e == Drafted(decode, d, Superblock(r, enabled, list, p2sh) + Node(r, on, node, p2sh))
  {
    DraftedTwice(decode, d, Superblock(r, enabled, list, p2sh), Node(r, on, node, p2sh));
    e := PaySuperblock(decode, d, r, enabled, list, p2sh);
    e := PayNode(decode, e, r, on, node, p2sh);
  }

  /** Count, commitment, payees, miner, lock time. */
  method Close(c: Coin, t: Template, decode: Decoder, d: Draft, commit: bool, ghost pays: seq<Pay>)
    returns (coinb2: Bytes)
    requires d == Drafted(decode, Start(t, commit), pays)
    ensures coinb2 == Written(c, t, decode, FromReward(commit, pays, []))
  {
    var commitment := [];
    if commit {
      commitment := CommitmentBytes(c);
    }
    coinb2 := [d.npayees] + commitment + d.dests + MinerPack(c, d.available) + LOCK_TIME;
    NothingAfter([d.npayees] + commitment + d.dests + MinerPack(c, d.available));
    CloseIs(c, t, decode, d, commit, pays);
  }

  lemma CloseIs(c: Coin, t: Template, decode: Decoder, d: Draft, commit: bool, pays: seq<Pay>)
    requires d == Grown(Start(t, commit), PayAll(decode, pays), |pays|, Sum(pays))
    ensures d.dests == PayAll(decode, pays) && PayAll(decode, []) == []
    ensures d.npayees == Count(FromReward(commit, pays, []))
    ensures d.available == Remainder(t, FromReward(commit, pays, []))
  {
    NothingBefore(PayAll(decode, pays));
    assert Sum([]) == 0;
  }

  lemma NothingBefore(a: Bytes)
    ensures [] + a == a
  {
  }

  lemma NothingAfter(a: Bytes)
    ensures a + [] == a
  {
  }

  // ----- the branches -----

  /** DYN. */
  method DynCoinbase(c: Coin, t: Template, decode: Decoder, r: Reply) returns (coinb2: Option<Bytes>)
    ensures coinb2 == SectionOf(c, t, decode, DynPlan(t, r))
  {
    if "dynode" !in r.objects && Flag(r, "dynode_payments") {
      return None;
    }
    var on := Flag(r, "dynode_payments_enforced") && Flag(r, "dynode_payments_started");
    var enabled := Flag(r, "superblocks_enabled");
    var d := PayBoth(decode, Start(t, t.segwit), r, enabled, "superblock", on, "dynode", false);
    ghost var pays := Superblock(r, enabled, "superblock", false) + Node(r, on, "dynode", false);
    var bytes := Close(c, t, decode, d, t.segwit, pays);
    return Some(bytes);
  }

  /** What a plan gives. */
  function SectionOf(c: Coin, t: Template, decode: Decoder, plan: Option<Plan>): Option<Bytes> {
    match plan case None => None case Some(p) => Some(Written(c, t, decode, p))
  }

  /** STAK. */
  method StakCoinbase(c: Coin, t: Template, decode: Decoder, r: Reply) returns (coinb2: Bytes)
    ensures coinb2 == Written(c, t, decode, StakPlan(t, r))
  {
    var treasury := Pay(TREASURY, Treasury(t.height), true);
    var d := Start(t, t.segwit);
    DraftedTwice(decode, d, [treasury], StakNode(r));
    var e := PayOne(decode, d, treasury);
    NoPay(decode, e);
    if Flag(r, "enforce_masternode_payments") && Flag(r, "masternode_payments") {
      e := PayDue(decode, e, Payment(Text(r, "payee"), Number(r, "payee_amount")), false);
    }
    coinb2 := Close(c, t, decode, e, t.segwit, [treasury] + StakNode(r));
  }

  /** Founder, charity, TUX and XVC: the miner first, then the payee, out of the reward or on top of it. */
  method MinerFirst(c: Coin, t: Template, decode: Decoder, commit: bool, p: Pay, onTop: bool) returns (coinb2: Bytes)
    ensures coinb2 == Written(c, t, decode, Plan(1, commit, [], [p], onTop))
  {
    var available, count, commitment := t.value, 2, [];
    if !onTop {
      available := available - p.amount;
    }
    if commit {
      count, commitment := 3, CommitmentBytes(c);
    }
    coinb2 := [count] + commitment + MinerPack(c, available) + PayPack(decode, p) + LOCK_TIME;
    OnePay(decode, p);
    MinerFirstIs(c, t, decode, Plan(1, commit, [], [p], onTop), count, commitment, available, PayPack(decode, p));
  }

  lemma MinerFirstIs(c: Coin, t: Template, decode: Decoder, plan: Plan, n: nat, commitment: Bytes, available: int,
                     after: Bytes)
    requires plan.before == [] && plan.times == 1 && after == PayAll(decode, plan.after)
    requires n == (if plan.commit then 2 else 1) + |plan.after|
    requires commitment == if plan.commit then CommitmentBytes(c) else []
    requires available == t.value - if plan.onTop then 0 else Sum(plan.after)
    ensures [n] + commitment + MinerPack(c, available) + after + LOCK_TIME == Written(c, t, decode, plan)
  {
    assert Remainder(t, plan) == available && PayAll(decode, plan.before) == [];
    assert Count(plan) == n;
    NothingAfter([n] + commitment);
  }

  /** Recent masternodes. */
  method MasternodeCoinbase(c: Coin, t: Template, decode: Decoder, r: Reply) returns (coinb2: Option<Bytes>)
    ensures coinb2 == SectionOf(c, t, decode, MasternodePlan(c, t, r))
  {
    if "masternode" !in r.objects && Flag(r, "masternode_payments") {
      return None;
    }
    DraftedTwice(decode, Start(t, t.segwit), CharityFirst(c, r), SuperblockOrRefund(c, r));
    var d := PayCharity(c, t, decode, r);
    d := PaySuperblockOrRefund(c, decode, d, r);
    var bytes := Close(c, t, decode, d, t.segwit, CharityFirst(c, r) + SuperblockOrRefund(c, r));
    return Some(bytes);
  }

  method PaySuperblockOrRefund(c: Coin, decode: Decoder, d: Draft, r: Reply) returns (e: Draft)
    ensures e == Drafted(decode, d, SuperblockOrRefund(c, r))
  {
    var enabled, name, mac := Flag(r, "superblocks_enabled"), "superblock", c.symbol == "MAC";
    if "screfund" in r.lists && |r.lists["screfund"]| > 0 {
      enabled, name := true, "screfund";
    }
    var on := Flag(r, "masternode_payments_enforced") && Flag(r, "masternode_payments_started");
    e := PayBoth(decode, d, r, enabled, name, on, "masternode", mac);
  }

  /** The charity's share, taken before the others. */
  method PayCharity(c: Coin, t: Template, decode: Decoder, r: Reply) returns (d: Draft)
    ensures d == Drafted(decode, Start(t, t.segwit), CharityFirst(c, r))
  {
    d := Start(t, t.segwit);
    NoPay(decode, d);
    if c.hasCharity {
      d := PayOne(decode, d, Pay(c.charityShare, CharityPayee(c, r), false));
    }
  }

  /** ARC and ENT. */
  method NodeCoinbase(c: Coin, t: Template, decode: Decoder, r: Reply, enforced: string, node: string)
    returns (coinb2: Bytes)
    ensures coinb2 == Written(c, t, decode, NodePlan(r, enforced, node))
  {
    var enabled := Flag(r, "superblocks_enabled");
    var d := PayBoth(decode, Start(t, false), r, enabled, "superblock", Flag(r, enforced), node, false);
    ghost var pays := Superblock(r, enabled, "superblock", false) + Node(r, Flag(r, enforced), node, false);
    coinb2 := Close(c, t, decode, d, false, pays);
  }

  /** CRW. */
  method CrwCoinbase(c: Coin, t: Template, decode: Decoder, r: Reply) returns (coinb2: Bytes)
    ensures coinb2 == Written(c, t, decode, CrwPlan(r))
  {
    var start := Start(t, false);
    NoPay(decode, start);
    var d := start;
    ghost var a: seq<Pay>, b: seq<Pay> := [], [];
    if Flag(r, "enforce_systemnode_payments") && Flag(r, "systemnodes") {
      d := PayDue(decode, d, Payment(Text(r, "payeeSN"), Number(r, "payeeSN_amount")), false);
      a := Due(Payment(Text(r, "payeeSN"), Number(r, "payeeSN_amount")), false);
    }
    NoPay(decode, d);
    ghost var before := d;
    if Flag(r, "enforce_masternode_payments") && Flag(r, "masternodes") {
      d := PayDue(decode, d, Payment(Text(r, "payee"), Number(r, "amount")), false);
      b := Due(Payment(Text(r, "payee"), Number(r, "amount")), false);
    }
    DraftedTwice(decode, start, a, b);
    coinb2 := Close(c, t, decode, d, false, a + b);
  }

  /** Older masternodes. */
  method OldCoinbase(c: Coin, t: Template, decode: Decoder, r: Reply) returns (coinb2: Bytes)
    ensures coinb2 == Written(c, t, decode, OldPlan(t, r))
  {
    if Flag(r, "masternode_payments") && Flag(r, "enforce_masternode_payments") {
      var payee := match Text(r, "payee") case Some(p) => Copied(p) case None => "";
      var p := Pay(Number(r, "payee_amount"), payee, false);
      var d := PayOne(decode, Start(t, t.segwit), p);
      coinb2 := Close(c, t, decode, d, t.segwit, [p]);
    } else {
      NoPay(decode, Start(t, false));
      coinb2 := Close(c, t, decode, Start(t, false), false, []);
    }
  }

  /** The branches after those of single symbols. */
  method LaterCoinbase(c: Coin, t: Template, decode: Decoder, r: Reply) returns (coinb2: Option<Bytes>)
    ensures coinb2 == SectionOf(c, t, decode, LaterPlan(c, t, r))
  {
    var bytes: Bytes;
    if Founder(c, r) != [] {
      bytes := MinerFirst(c, t, decode, t.segwit, Founder(c, r)[0], false);
    } else if c.hasCharity && !c.hasMasternodes {
      bytes := MinerFirst(c, t, decode, t.segwit, Pay(CharityAmount(c, r), CharityPayee(c, r), false), false);
    } else if c.charityLeft && c.dcr {
      return None;
    } else if c.symbol == "XVC" && IncentivePays(c, r) != [] {
      bytes := MinerFirst(c, t, decode, false, IncentivePays(c, r)[0], true);
    } else if c.hasMasternodes && !c.oldMasternodes {
      coinb2 := MasternodeCoinbase(c, t, decode, r);
      return;
    } else {
      bytes := LastCoinbase(c, t, decode, r);
    }
    return Some(bytes);
  }

  /** ARC, ENT, older masternodes and the default. */
  method LastCoinbase(c: Coin, t: Template, decode: Decoder, r: Reply) returns (bytes: Bytes)
    requires c.hasMasternodes ==> c.oldMasternodes
    ensures bytes == Written(c, t, decode, LastPlan(c, t, r))
  {
    if c.symbol == "ARC" {
      bytes := NodeCoinbase(c, t, decode, r, "goldminenode_payments_enforced", "goldminenode");
    } else if c.symbol == "ENT" {
      bytes := NodeCoinbase(c, t, decode, r, "eternitynode_payments_enforced", "eternitynode");
    } else if c.hasMasternodes && c.symbol == "CRW" {
      bytes := CrwCoinbase(c, t, decode, r);
    } else if c.hasMasternodes {
      bytes := OldCoinbase(c, t, decode, r);
    } else {
      NoPay(decode, Start(t, t.segwit));
      bytes := Close(c, t, decode, Start(t, t.segwit), t.segwit, []);
    }
  }

  /** What the DCR branch and TUX change of a coin or a template beforehand does not touch the wallet. */
  lemma SameSection(c: Coin, d: Coin, t: Template, decode: Decoder, plan: Option<Plan>)
    requires d == c.(hasCharity := d.hasCharity, charityLeft := d.charityLeft, charityAddress := d.charityAddress)
    ensures SectionOf(c, t, decode, plan) == SectionOf(d, t, decode, plan)
  {
  }

  /** Six times the value given out once, or the value six times. */
  lemma SixTimes(c: Coin, t: Template, decode: Decoder, plan: Option<Plan>)
    requires plan.Some? ==> plan.value.times == 1
    ensures SectionOf(c, t.(value := DCR_TIMES * t.value), decode, plan) == SectionOf(c, t, decode, Multiplied(plan))
  {
    if plan.Some? {
      assert Remainder(t.(value := DCR_TIMES * t.value), plan.value) == Remainder(t, plan.value.(times := DCR_TIMES));
    }
  }

  /** The later branches look at no more of the template than its segwit flag, and give the value once. */
  lemma LaterIsOnce(c: Coin, t: Template, u: Template, r: Reply)
    requires t.segwit == u.segwit
    ensures LaterPlan(c, t, r) == LaterPlan(c, u, r)
    ensures LaterPlan(c, t, r).Some? ==> LaterPlan(c, t, r).value.times == 1
  {
  }

  /** The DCR branch. */
  method DecredCoinbase(c: Coin, t: Template, decode: Decoder, r: Reply) returns (coinb2: Option<Bytes>)
    ensures coinb2 == SectionOf(c, t, decode, Multiplied(LaterPlan(Decred(c, t), t, r)))
  {
    var d, u := Decred(c, t), t.(value := DCR_TIMES * t.value);
    coinb2 := LaterCoinbase(d, u, decode, r);
    LaterIsOnce(d, t, u, r);
    SameSection(c, d, u, decode, LaterPlan(d, t, r));
    SixTimes(c, t, decode, LaterPlan(d, t, r));
  }

  /** TUX with a donation. */
  method TuxCoinbase(c: Coin, t: Template, decode: Decoder, r: Reply) returns (coinb2: Bytes)
    ensures coinb2 == Written(c, t, decode, TuxPlan(t, r))
  {
    coinb2 := MinerFirst(c, t, decode, t.segwit, Pay(Number(r, "donation_amount"), Donation(r), true), true);
  }

  lemma PayNext(decode: Decoder, pays: seq<Pay>, p: Pay)
    ensures PayAll(decode, pays + [p]) == PayAll(decode, pays) + PayPack(decode, p)
  {
    PayAllConcat(decode, pays, [p]);
    OnePay(decode, p);
  }

  lemma FivePays(decode: Decoder, p: Pay, q: Pay, u: Pay, v: Pay, w: Pay)
    ensures PayAll(decode, [p, q, u, v, w]) ==
            PayPack(decode, p) + PayPack(decode, q) + PayPack(decode, u) + PayPack(decode, v) + PayPack(decode, w)
  {
    OnePay(decode, p);
    PayNext(decode, [p], q);
    PayNext(decode, [p] + [q], u);
    PayNext(decode, [p] + [q] + [u], v);
    PayNext(decode, [p] + [q] + [u] + [v], w);
    assert [p] + [q] + [u] + [v] + [w] == [p, q, u, v, w];
  }

  /** XZC: six outputs. */
  method XzcCoinbase(c: Coin, t: Template, decode: Decoder) returns (coinb2: Bytes)
    ensures coinb2 == Written(c, t, decode, XzcPlan(c))
  {
    var pays := XzcPlan(c).after;
    var dests := PayPack(decode, pays[0]) + PayPack(decode, pays[1]) + PayPack(decode, pays[2]) +
                 PayPack(decode, pays[3]) + PayPack(decode, pays[4]);
    coinb2 := [6] + MinerPack(c, t.value) + dests + LOCK_TIME;
    FivePays(decode, pays[0], pays[1], pays[2], pays[3], pays[4]);
    NothingAfter([6]);
    MinerFirstIs(c, t, decode, XzcPlan(c), 6, [], t.value, dests);
  }

  /** STAK, TUX and the later branches. */
  method LateCoinbase(c: Coin, t: Template, decode: Decoder, r: Reply) returns (coinb2: Option<Bytes>)
    ensures coinb2 == SectionOf(c, t, decode, LatePlan(c, t, r))
  {
    var bytes: Bytes;
    if c.symbol == "STAK" {
      bytes := StakCoinbase(c, t, decode, r);
      coinb2 := Some(bytes);
    } else if c.symbol == "TUX" && Donation(r) != "" {
      bytes := TuxCoinbase(c, t, decode, r);
      coinb2 := Some(bytes);
    } else {
      SameSection(c, Forgetful(c), t, decode, LaterPlan(Forgetful(c), t, r));
      coinb2 := LaterCoinbase(Forgetful(c), t, decode, r);
    }
  }

  /** The output section of `coinbase_create`, branch by branch in its order. */
  method CoinbaseCreate(c: Coin, t: Template, decode: Decoder, r: Reply) returns (coinb2: Option<Bytes>)
    ensures coinb2 == SectionOf(c, t, decode, PlanOf(c, t, r))
  {
    if c.symbol == "DYN" {
      coinb2 := DynCoinbase(c, t, decode, r);
    } else if c.symbol == "EGC" || c.symbol == "LTCR" {
      coinb2 := LaterCoinbase(c, t, decode, r);
    } else if c.symbol == "XZC" {
      var bytes := XzcCoinbase(c, t, decode);
      coinb2 := Some(bytes);
    } else if c.dcr {
      coinb2 := DecredCoinbase(c, t, decode, r);
    } else {
      coinb2 := LateCoinbase(c, t, decode, r);
    }
  }

  /** The incentive that XVC pays on top, where no earlier branch is taken. */
  function OnTop(c: Coin, r: Reply): int {
    if c.symbol == "XVC" && Founder(c, r) == [] && (c.hasCharity ==> c.hasMasternodes) then
      Sum(IncentivePays(c, r)) else 0
  }

  /** What a coin gives out beyond its template's value. */
  function Beyond(c: Coin, t: Template, r: Reply): int {
    if c.symbol == "XZC" then 5 * TruncatedFifth(c.charityShare)
    else if c.dcr && c.symbol != "DYN" && c.symbol != "EGC" && c.symbol != "LTCR" then
      5 * t.value + OnTop(Decred(c, t), r)
    else if c.symbol == "TUX" && Donation(r) != "" then Number(r, "donation_amount")
    else OnTop(c, r)
  }

  predicate Once(plan: Plan) {
    plan.times == 1 && !plan.onTop
  }

  lemma OnceHasNoExcess(t: Template, plan: Plan)
    requires Once(plan)
    ensures Excess(t, plan) == 0
  {
  }

  lemma SingleOnce(c: Coin, t: Template, r: Reply)
    ensures Once(StakPlan(t, r)) && (DynPlan(t, r).Some? ==> Once(DynPlan(t, r).value))
    ensures Once(LastPlan(c, t, r)) && (MasternodePlan(c, t, r).Some? ==> Once(MasternodePlan(c, t, r).value))
  {
  }

  lemma LaterExcess(c: Coin, t: Template, r: Reply, plan: Plan)
    requires LaterPlan(c, t, r) == Some(plan)
    ensures plan.times == 1 && Excess(t, plan) == OnTop(c, r)
  {
    SingleOnce(c, t, r);
    if plan.onTop {
      assert plan == Plan(1, false, [], IncentivePays(c, r), true);
    } else {
      OnceHasNoExcess(t, plan);
    }
  }

  lemma DecredExcess(c: Coin, t: Template, r: Reply, plan: Plan)
    requires Multiplied(LaterPlan(Decred(c, t), t, r)) == Some(plan)
    ensures Excess(t, plan) == 5 * t.value + OnTop(Decred(c, t), r)
  {
    LaterExcess(Decred(c, t), t, r, LaterPlan(Decred(c, t), t, r).value);
  }

  lemma FiveFifths(t: Template, plan: Plan, fifth: int)
    requires plan.times == 1 && plan.onTop && |plan.after| == 5
    requires forall i :: 0 <= i < 5 ==> plan.after[i].amount == fifth
    ensures Excess(t, plan) == 5 * fifth
  {
    SumOfEqual(plan.after, fifth);
  }

  lemma {:induction false} SumOfEqual(pays: seq<Pay>, amount: int)
    requires forall i :: 0 <= i < |pays| ==> pays[i].amount == amount
    ensures Sum(pays) == |pays| * amount
  {
    if pays != [] {
      SumOfEqual(pays[1..], amount);
    }
  }

  lemma EarlyExcess(c: Coin, t: Template, r: Reply, plan: Plan)
    requires PlanOf(c, t, r) == Some(plan) && (c.symbol == "DYN" || c.symbol == "EGC" || c.symbol == "LTCR")
    ensures Excess(t, plan) == 0 == Beyond(c, t, r)
  {
    if c.symbol == "DYN" {
      SingleOnce(c, t, r);
      OnceHasNoExcess(t, plan);
    } else {
      LaterExcess(c, t, r, plan);
    }
  }

  /** STAK, TUX and the later branches. */
  lemma LateExcess(c: Coin, t: Template, r: Reply, plan: Plan)
    requires LatePlan(c, t, r) == Some(plan)
    ensures Excess(t, plan) ==
                if c.symbol == "TUX" && Donation(r) != "" then Number(r, "donation_amount") else OnTop(c, r)
  {
    if c.symbol == "STAK" {
      SingleOnce(c, t, r);
      OnceHasNoExcess(t, plan);
    } else if c.symbol == "TUX" && Donation(r) != "" {
      assert Sum(plan.after) == Number(r, "donation_amount");
    } else {
      LaterExcess(Forgetful(c), t, r, plan);
      assert OnTop(Forgetful(c), r) == OnTop(c, r);
    }
  }

  /** Exactly what every branch gives out beyond the value: nothing but for XZC, TUX, XVC and decred coins. */
  lemma ExcessIsBeyond(c: Coin, t: Template, r: Reply, plan: Plan)
    requires PlanOf(c, t, r) == Some(plan)
    ensures Excess(t, plan) == Beyond(c, t, r)
  {
    if c.symbol == "DYN" || c.symbol == "EGC" || c.symbol == "LTCR" {
      EarlyExcess(c, t, r, plan);
    } else if c.symbol == "XZC" {
      FiveFifths(t, XzcPlan(c), TruncatedFifth(c.charityShare));
    } else if c.dcr {
      DecredExcess(c, t, r, plan);
    } else {
      LateExcess(c, t, r, plan);
    }
  }
  /**
   Every completed branch: what a node reads is as many outputs as announced, followed by the
   lock time, and their amounts add up to the template's value and what the coin gives out beyond
   it, if and only if what is left for the miner fits a signed 64-bit number.
   */
  lemma EveryBranchConserves(c: Coin, t: Template, decode: Decoder, r: Reply, plan: Plan)
    requires PlanOf(c, t, r) == Some(plan) && Payable(c, decode, plan) && Count(plan) <= 252
    requires AmountsOk(plan.before) && AmountsOk(plan.after)
    ensures var coinb2 := SectionOf(c, t, decode, PlanOf(c, t, r)).value;
            && ReadSection(coinb2).Some?
            && var (outs, end) := ReadSection(coinb2).value;
               && |outs| == coinb2[0] && end == LOCK_TIME
               && (Total(outs) == t.value + Beyond(c, t, r) <==> Int64(Remainder(t, plan)))
  {
    OutputsReturn(c, t, decode, plan);
    RewardConserved(c, t, decode, plan);
    ExcessIsBeyond(c, t, r, plan);
  }
}
