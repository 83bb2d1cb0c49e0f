/**
 Who is paid what by the section that `coinbase_create` appends, branch by branch: the outputs a
 node reads back, in terms of the fields of the node's own reply.
 */
module CoinbasePayees {
  import opened Options
  import opened TxOut
  import opened CoinbasePlan
  import opened Coinbase
  import opened CoinbaseCode

  // ----- what an output pays -----

  /** DUP HASH160 20 key EQUALVERIFY CHECKSIG. */
  predicate IsKeyScript(s: Bytes, key: Bytes) {
    && |s| == 25 && s[0] == 118 && s[1] == 169 && s[2] == 20 && s[3..23] == key && s[23] == 136 && s[24] == 172
  }

  /** HASH160 hash EQUAL. */
  predicate IsHashScript(s: Bytes, hash: Bytes) {
    |s| == |hash| + 3 && s[0] == 169 && s[1] == |hash| && s[2..|s| - 1] == hash && s[|s| - 1] == 135
  }

  /** The output pays the amount to the payee's decoded address. */
  predicate Pays(o: Out, decode: Decoder, p: Pay) {
    && (Int64(p.amount) ==> SignedAmount(o.amount) == p.amount)
    && if p.p2sh then IsHashScript(o.script, decode(p.payee)) else IsKeyScript(o.script, decode(p.payee))
  }

  /** The output goes to the pool's own wallet. */
  predicate PaysPool(o: Out, c: Coin) {
    if c.p2sh then IsHashScript(o.script, c.scriptPubkey)
    else if c.pos then |o.script| == 35 && o.script[0] == 33 && o.script[1..34] == c.pubkey && o.script[34] == 172
    else IsKeyScript(o.script, c.scriptPubkey)
  }

  /** The outputs pay these, one after the other. */
  predicate PaysAll(outs: seq<Out>, decode: Decoder, pays: seq<Pay>) {
    |outs| == |pays| && forall i :: 0 <= i < |outs| ==> Pays(outs[i], decode, pays[i])
  }

  /**
   A commitment of nothing if there is one, the payees before the miner, the miner, the payees behind;
   nobody else.
   */
  predicate PaidOut(outs: seq<Out>, c: Coin, decode: Decoder, commit: bool, before: seq<Pay>, after: seq<Pay>) {
    var at := if commit then 1 else 0;
    var miner := at + |before|;
    && |outs| == miner + 1 + |after|
    && (commit ==> SignedAmount(outs[0].amount) == 0 && outs[0].script == c.commitment)
    && PaysAll(outs[at..miner], decode, before) && PaysPool(outs[miner], c) && PaysAll(outs[miner + 1..], decode, after)
  }

  lemma PayOutPays(decode: Decoder, p: Pay)
    requires PayeeOk(decode, p)
    ensures Pays(PayOut(decode, p), decode, p)
  {
    var key := decode(p.payee);
    if Int64(p.amount) {
      AmountReturns(p.amount);
    }
    if p.p2sh {
      assert P2shScript(key)[2..|P2shScript(key)| - 1] == key;
    } else {
      assert KeyScript(key)[3..23] == key;
    }
  }

  lemma {:induction false} PayOutsPay(decode: Decoder, pays: seq<Pay>)
    requires AllPayable(decode, pays)
    ensures PaysAll(PayOuts(decode, pays), decode, pays)
  {
    if pays != [] {
      PayOutPays(decode, pays[0]);
      PayOutsPay(decode, pays[1..]);
    }
  }

  lemma MinerPaysPool(c: Coin, amount: Bytes)
    requires WalletOk(c)
    ensures PaysPool(Out(amount, MinerScript(c)), c)
  {
    if c.p2sh {
      assert P2shScript(c.scriptPubkey)[2..|P2shScript(c.scriptPubkey)| - 1] == c.scriptPubkey;
    } else if c.pos {
      assert ([0x21] + c.pubkey + [0xac])[1..34] == c.pubkey;
    } else {
      assert KeyScript(c.scriptPubkey)[3..23] == c.scriptPubkey;
    }
  }

  /** The planned outputs pay the planned payees. */
  lemma OutputsPay(c: Coin, t: Template, decode: Decoder, plan: Plan)
    requires Payable(c, decode, plan)
    ensures PaidOut(Outputs(c, t, decode, plan), c, decode, plan.commit, plan.before, plan.after)
  {
    PayOutsPay(decode, plan.before);
    PayOutsPay(decode, plan.after);
    var o := Out(AmountBytes(Remainder(t, plan)), MinerScript(c));
    MinerPaysPool(c, o.amount);
    AmountReturns(0);
    PartsPay(c, decode, plan.commit, Commitment(c, plan), PayOuts(decode, plan.before), o, PayOuts(decode, plan.after),
             plan.before, plan.after);
  }

  lemma PartsPay(c: Coin, decode: Decoder, commit: bool, a: seq<Out>, b: seq<Out>, o: Out, d: seq<Out>,
                 before: seq<Pay>, after: seq<Pay>)
    requires |a| == if commit then 1 else 0
    requires commit ==> SignedAmount(a[0].amount) == 0 && a[0].script == c.commitment
    requires PaysAll(b, decode, before) && PaysPool(o, c) && PaysAll(d, decode, after)
    ensures PaidOut(OutParts(a, b, o, d), c, decode, commit, before, after)
  {
    var outs := OutParts(a, b, o, d);
    assert outs[|a|..|a| + |b|] == b && outs[|a| + |b| + 1..] == d;
  }

  /** The section was written, its addresses decode, and outs is what a node reads back. */
  ghost predicate ReadsBack(c: Coin, t: Template, decode: Decoder, r: Reply, outs: seq<Out>) {
    && PlanOf(c, t, r).Some? && Payable(c, decode, PlanOf(c, t, r).value) && Count(PlanOf(c, t, r).value) <= 252
    && ReadSection(SectionOf(c, t, decode, PlanOf(c, t, r)).value) == Some((outs, LOCK_TIME))
  }

  /** What the plan's outputs around the miner's are. */
  predicate Planned(plan: Option<Plan>, commit: bool, before: seq<Pay>, after: seq<Pay>) {
    plan.Some? && plan.value.commit == commit && plan.value.before == before && plan.value.after == after
  }

  /** A node reads back outputs that pay what was planned. */
  lemma ReadsPlan(c: Coin, t: Template, decode: Decoder, r: Reply, outs: seq<Out>, commit: bool, before: seq<Pay>,
                  after: seq<Pay>)
    requires ReadsBack(c, t, decode, r, outs) && Planned(PlanOf(c, t, r), commit, before, after)
    ensures PaidOut(outs, c, decode, commit, before, after)
  {
    PlanPaid(c, t, decode, PlanOf(c, t, r).value, outs);
  }

  lemma PlanPaid(c: Coin, t: Template, decode: Decoder, plan: Plan, outs: seq<Out>)
    requires Payable(c, decode, plan) && Count(plan) <= 252
    requires ReadSection(Written(c, t, decode, plan)) == Some((outs, LOCK_TIME))
    ensures PaidOut(outs, c, decode, plan.commit, plan.before, plan.after)
  {
    OutputsReturn(c, t, decode, plan);
    OutputsPay(c, t, decode, plan);
  }

  // ----- what the reply asks for -----

  predicate On(r: Reply, name: string) {
    name in r.bools && r.bools[name]
  }

  /** The field is there and not zero. */
  predicate Given(r: Reply, name: string) {
    name in r.ints && r.ints[name] != 0
  }

  /** The object is there and names a payee and an amount. */
  predicate Names(r: Reply, name: string) {
    name in r.objects && r.objects[name].payee.Some? && r.objects[name].amount != 0
  }

  /** What the object asks for. */
  function Asked(r: Reply, name: string, p2sh: bool): Pay
    requires Names(r, name)
  {
    Pay(r.objects[name].amount, r.objects[name].payee.value, p2sh)
  }

  function First254(s: string): string {
    s[..if |s| > 254 then 254 else |s|]
  }

  /** The payments at the places `at` of a list, in order: exactly those with a payee and an amount. */
  predicate ListedAt(pays: seq<Pay>, ps: seq<Payment>, p2sh: bool, at: seq<nat>) {
    && |at| == |pays|
    && (forall i, k :: 0 <= i < k < |at| ==> at[i] < at[k])
    && (forall i :: 0 <= i < |at| ==> at[i] < |ps| && ps[at[i]].payee.Some? &&
                                      pays[i] == Pay(ps[at[i]].amount, ps[at[i]].payee.value, p2sh))
    && (forall k :: 0 <= k < |ps| ==> (k in at <==> ps[k].payee.Some? && ps[k].amount != 0))
  }

  /** The payments of the list with this name, if it is asked for and there. */
  ghost predicate Listed(pays: seq<Pay>, r: Reply, on: bool, name: string, p2sh: bool) {
    if on && name in r.lists then exists at :: ListedAt(pays, r.lists[name], p2sh, at) else pays == []
  }

  lemma {:induction false} AllDueListed(ps: seq<Payment>, p2sh: bool) returns (at: seq<nat>)
    ensures ListedAt(AllDue(ps, p2sh), ps, p2sh, at)
  {
    if ps == [] {
      at := [];
    } else {
      var n := |ps| - 1;
      at := AllDueListed(ps[..n], p2sh);
      ListedNext(AllDue(ps[..n], p2sh), ps, p2sh, at);
      if ps[n].payee.Some? && ps[n].amount != 0 {
        at := at + [n];
      }
    }
  }

  lemma ListedNext(pays: seq<Pay>, ps: seq<Payment>, p2sh: bool, at: seq<nat>)
    requires ps != [] && ListedAt(pays, ps[..|ps| - 1], p2sh, at)
    ensures var n := |ps| - 1; var p := ps[n];
            if p.payee.Some? && p.amount != 0 then
              ListedAt(pays + [Pay(p.amount, p.payee.value, p2sh)], ps, p2sh, at + [n])
            else ListedAt(pays, ps, p2sh, at)
  {
    var n := |ps| - 1;
    forall k | 0 <= k < n
      ensures k in at <==> ps[k].payee.Some? && ps[k].amount != 0
    {
      assert ps[..n][k] == ps[k];
    }
    assert n !in at;
  }

  lemma SuperblockListed(r: Reply, on: bool, name: string, p2sh: bool)
    ensures Listed(Superblock(r, on, name, p2sh), r, on, name, p2sh)
  {
    if on && name in r.lists {
      var at := AllDueListed(r.lists[name], p2sh);
    }
  }

  lemma CopiedIs(s: string)
    ensures Copied(s) == First254(s)
  {
  }

  // ----- the branches of single symbols -----

  /** What the node is due, if anything. */
  function NodeDue(r: Reply, on: bool, name: string, p2sh: bool): seq<Pay> {
    if on && Names(r, name) then [Asked(r, name, p2sh)] else []
  }

  lemma NodeIs(r: Reply, on: bool, name: string, p2sh: bool)
    ensures Node(r, on, name, p2sh) == NodeDue(r, on, name, p2sh)
  {
  }

  function DynodeDue(r: Reply): seq<Pay> {
    NodeDue(r, On(r, "dynode_payments_enforced") && On(r, "dynode_payments_started"), "dynode", false)
  }

  lemma DynPlanned(t: Template, r: Reply, block: seq<Pay>)
    requires DynPlan(t, r).Some? && block == Superblock(r, On(r, "superblocks_enabled"), "superblock", false)
    ensures Planned(DynPlan(t, r), t.segwit, block + DynodeDue(r), [])
  {
    NodeIs(r, On(r, "dynode_payments_enforced") && On(r, "dynode_payments_started"), "dynode", false);
  }

  /** DYN: the superblock's payments, then the dynode's. */
  lemma DynPays(c: Coin, t: Template, decode: Decoder, r: Reply, outs: seq<Out>) returns (block: seq<Pay>)
    requires c.symbol == "DYN" && ReadsBack(c, t, decode, r, outs)
    ensures Listed(block, r, On(r, "superblocks_enabled"), "superblock", false)
    ensures PaidOut(outs, c, decode, t.segwit, block + DynodeDue(r), [])
  {
    block := Superblock(r, On(r, "superblocks_enabled"), "superblock", false);
    SuperblockListed(r, On(r, "superblocks_enabled"), "superblock", false);
    DynPlanned(t, r, block);
    ReadsPlan(c, t, decode, r, outs, t.segwit, block + DynodeDue(r), []);
  }

  const TREASURIES := ["3K3bPrW5h7DYEMp2RcXawTCXajcm4ZU9Zh", "33Ssxmn3ehVMgyxgegXhpLGSBpubPjLZQ6",
                       "3HFPNAjesiBY5sSVUmuBFnMEGut69R49ca", "37jLjjfUXQU4bdqVzvpUXyzAqPQSmxyByi"]

  /** Half a coin to the treasury whose turn it is, then the masternode. */
  function StakDue(t: Template, r: Reply): seq<Pay> {
    [Pay(50000000, TREASURIES[t.height % 4], true)] +
    if On(r, "enforce_masternode_payments") && On(r, "masternode_payments") && "payee" in r.texts &&
      Given(r, "payee_amount")
    then [Pay(r.ints["payee_amount"], r.texts["payee"], false)] else []
  }

  lemma StakPlanned(t: Template, r: Reply)
    ensures Planned(Some(StakPlan(t, r)), t.segwit, StakDue(t, r), [])
  {
    assert Treasury(t.height) == TREASURIES[t.height % 4];
  }

  lemma StakIs(c: Coin, t: Template, r: Reply)
    requires c.symbol == "STAK" && !c.dcr
    ensures PlanOf(c, t, r) == Some(StakPlan(t, r))
  {
  }

  lemma StakPays(c: Coin, t: Template, decode: Decoder, r: Reply, outs: seq<Out>)
    requires c.symbol == "STAK" && !c.dcr && ReadsBack(c, t, decode, r, outs)
    ensures PaidOut(outs, c, decode, t.segwit, StakDue(t, r), [])
  {
    StakIs(c, t, r);
    StakPlanned(t, r);
    ReadsPlan(c, t, decode, r, outs, t.segwit, StakDue(t, r), []);
  }

  /** XZC: five fifths of the charity, rounded towards zero. */
  function XzcDue(c: Coin): seq<Pay> {
    var fifth := if c.charityShare < 0 then -((0 - c.charityShare) / 5) else c.charityShare / 5;
    [Pay(fifth, "aCAgTPgtYcA4EysU4UKC86EQd5cTtHtCcr", false), Pay(fifth, c.charityAddress, false),
     Pay(fifth, "aQ18FBVFtnueucZKeVg4srhmzbpAeb1KoN", false),
     Pay(fifth, "a1HwTdCmQV3NspP2QqCGpehoFpi8NY4Zg3", false),
     Pay(fifth, "a1kCCGddf5pMXSipLVD9hBG2MGGVNaJ15U", false)]
  }

  lemma XzcPlanned(c: Coin)
    ensures Planned(Some(XzcPlan(c)), false, [], XzcDue(c))
  {
  }

  lemma XzcPays(c: Coin, t: Template, decode: Decoder, r: Reply, outs: seq<Out>)
    requires c.symbol == "XZC" && ReadsBack(c, t, decode, r, outs)
    ensures PaidOut(outs, c, decode, false, [], XzcDue(c))
  {
    XzcPlanned(c);
    ReadsPlan(c, t, decode, r, outs, false, [], XzcDue(c));
  }

  predicate DonationDue(r: Reply) {
    "donation_payee" in r.texts && r.texts["donation_payee"] != ""
  }

  /** TUX: the donation. */
  function TuxDue(r: Reply): seq<Pay>
    requires DonationDue(r)
  {
    [Pay(if Given(r, "donation_amount") then r.ints["donation_amount"] else 0, r.texts["donation_payee"], true)]
  }

  lemma TuxIs(c: Coin, t: Template, r: Reply)
    requires c.symbol == "TUX" && !c.dcr && DonationDue(r)
    ensures Planned(PlanOf(c, t, r), t.segwit, [], TuxDue(r))
  {
  }

  lemma TuxPays(c: Coin, t: Template, decode: Decoder, r: Reply, outs: seq<Out>)
    requires c.symbol == "TUX" && !c.dcr && DonationDue(r) && ReadsBack(c, t, decode, r, outs)
    ensures PaidOut(outs, c, decode, t.segwit, [], TuxDue(r))
  {
    TuxIs(c, t, r);
    ReadsPlan(c, t, decode, r, outs, t.segwit, [], TuxDue(r));
  }

  // ----- the later branches, for all other coins -----

  /** The coin is none of those that never come here. */
  predicate ComesHere(c: Coin, r: Reply) {
    && c.symbol != "DYN" && c.symbol != "XZC" && (c.symbol == "STAK" ==> c.dcr)
    && (c.symbol == "TUX" ==> c.dcr || !DonationDue(r))
  }

  /** Decred's rules apply: no charity. */
  predicate Sixfold(c: Coin) {
    c.dcr && c.symbol != "EGC" && c.symbol != "LTCR"
  }

  /** The coin as the later branches see it: without charity if decred's rules apply, without its address if TUX. */
  predicate SeenAs(c: Coin, t: Template, d: Coin) {
    && d == c.(hasCharity := c.hasCharity && !Sixfold(c),
               charityLeft := if Sixfold(c) then t.value != 0 else c.charityLeft,
               charityAddress := if c.symbol == "TUX" && !c.dcr then "" else c.charityAddress)
  }

  lemma SeenIs(c: Coin, t: Template, r: Reply, d: Coin)
    requires ComesHere(c, r) && SeenAs(c, t, d)
    ensures PlanOf(c, t, r) == if Sixfold(c) then Multiplied(LaterPlan(d, t, r)) else LaterPlan(d, t, r)
  {
    if Sixfold(c) {
      assert d == Decred(c, t);
    } else if !c.dcr && c.symbol != "EGC" && c.symbol != "LTCR" {
      assert d == Forgetful(c);
    } else {
      assert d == c;
    }
  }

  /** A node reads back outputs that pay what the later branches plan. */
  lemma ReadsLater(c: Coin, t: Template, decode: Decoder, r: Reply, outs: seq<Out>, d: Coin, commit: bool,
                   before: seq<Pay>, after: seq<Pay>)
    requires ComesHere(c, r) && SeenAs(c, t, d) && ReadsBack(c, t, decode, r, outs)
    requires LaterPlan(d, t, r).Some? ==> Planned(LaterPlan(d, t, r), commit, before, after)
    ensures PaidOut(outs, c, decode, commit, before, after)
  {
    SeenIs(c, t, r, d);
    ReadsPlan(c, t, decode, r, outs, commit, before, after);
  }

  predicate FounderDue(d: Coin, r: Reply) {
    !d.hasMasternodes && On(r, "founder_payments_started") && Names(r, "founder")
  }

  function FounderPay(d: Coin, r: Reply): Pay
    requires FounderDue(d, r)
  {
    Pay(r.objects["founder"].amount, First254(r.objects["founder"].payee.value), d.symbol == "PGN")
  }

  lemma FounderLater(d: Coin, t: Template, r: Reply)
    ensures Founder(d, r) == if FounderDue(d, r) then [FounderPay(d, r)] else []
    ensures FounderDue(d, r) ==> Planned(LaterPlan(d, t, r), t.segwit, [], [FounderPay(d, r)])
  {
    if FounderDue(d, r) {
      CopiedIs(r.objects["founder"].payee.value);
    }
  }

  /** The founder, behind the miner. */
  lemma FounderPays(c: Coin, t: Template, decode: Decoder, r: Reply, outs: seq<Out>, d: Coin)
    requires ComesHere(c, r) && SeenAs(c, t, d) && ReadsBack(c, t, decode, r, outs) && FounderDue(d, r)
    ensures PaidOut(outs, c, decode, t.segwit, [], [FounderPay(d, r)])
  {
    FounderLater(d, t, r);
    ReadsLater(c, t, decode, r, outs, d, t.segwit, [], [FounderPay(d, r)]);
  }

  /** The charity's address: the reply's payee, else the coin's. */
  function CharityAddress(d: Coin, r: Reply): string {
    if "payee" in r.texts then First254(r.texts["payee"]) else d.charityAddress
  }

  lemma CharityAddressIs(d: Coin, r: Reply)
    ensures CharityPayee(d, r) == CharityAddress(d, r)
  {
    if "payee" in r.texts {
      CopiedIs(r.texts["payee"]);
    }
  }

  /** The amount the reply gives, else the coin's percentage. */
  function CharityPay(d: Coin, r: Reply): Pay {
    Pay(if "payee_amount" in r.ints && r.ints["payee_amount"] > 0 then r.ints["payee_amount"] else d.charityShare,
        CharityAddress(d, r), false)
  }

  lemma CharityLater(d: Coin, t: Template, r: Reply)
    requires !FounderDue(d, r) && d.hasCharity && !d.hasMasternodes
    ensures Planned(LaterPlan(d, t, r), t.segwit, [], [CharityPay(d, r)])
  {
    FounderLater(d, t, r);
    CharityAddressIs(d, r);
  }

  /** The charity, behind the miner. */
  lemma CharityPays(c: Coin, t: Template, decode: Decoder, r: Reply, outs: seq<Out>, d: Coin)
    requires ComesHere(c, r) && SeenAs(c, t, d) && ReadsBack(c, t, decode, r, outs)
    requires !FounderDue(d, r) && d.hasCharity && !d.hasMasternodes
    ensures PaidOut(outs, c, decode, t.segwit, [], [CharityPay(d, r)])
  {
    CharityLater(d, t, r);
    ReadsLater(c, t, decode, r, outs, d, t.segwit, [], [CharityPay(d, r)]);
  }

  function IncentiveAddress(d: Coin, r: Reply): string
    requires r.incentive.Some?
  {
    if r.incentive.value.address.Some? then First254(r.incentive.value.address.value) else d.charityAddress
  }

  predicate IncentiveDue(d: Coin, r: Reply) {
    && d.symbol == "XVC" && r.incentive.Some? && r.incentive.value.enforced && r.incentive.value.amount != 0
    && IncentiveAddress(d, r) != ""
  }

  function IncentivePay(d: Coin, r: Reply): Pay
    requires IncentiveDue(d, r)
  {
    Pay(r.incentive.value.amount, IncentiveAddress(d, r), false)
  }

  /** Neither founder nor charity alone. */
  predicate NoneEarlier(d: Coin, r: Reply) {
    !FounderDue(d, r) && (d.hasCharity ==> d.hasMasternodes)
  }

  lemma IncentiveLater(d: Coin, t: Template, r: Reply)
    requires NoneEarlier(d, r) && d.symbol == "XVC"
    ensures (IncentivePays(d, r) != []) <==> IncentiveDue(d, r)
    ensures IncentiveDue(d, r) && LaterPlan(d, t, r).Some? ==>
              Planned(LaterPlan(d, t, r), false, [], [IncentivePay(d, r)])
  {
    FounderLater(d, t, r);
    if r.incentive.Some? && r.incentive.value.address.Some? {
      CopiedIs(r.incentive.value.address.value);
    }
  }

  /** XVC's incentive, behind the miner. */
  lemma IncentivePaid(c: Coin, t: Template, decode: Decoder, r: Reply, outs: seq<Out>, d: Coin)
    requires ComesHere(c, r) && SeenAs(c, t, d) && ReadsBack(c, t, decode, r, outs)
    requires NoneEarlier(d, r) && IncentiveDue(d, r)
    ensures PaidOut(outs, c, decode, false, [], [IncentivePay(d, r)])
  {
    IncentiveLater(d, t, r);
    ReadsLater(c, t, decode, r, outs, d, false, [], [IncentivePay(d, r)]);
  }

  predicate NodesTurn(d: Coin, r: Reply) {
    NoneEarlier(d, r) && !IncentiveDue(d, r)
  }

  lemma NodesLater(d: Coin, t: Template, r: Reply)
    requires NodesTurn(d, r) && LaterPlan(d, t, r).Some?
    ensures LaterPlan(d, t, r) ==
            if d.hasMasternodes && !d.oldMasternodes then MasternodePlan(d, t, r) else Some(LastPlan(d, t, r))
  {
    FounderLater(d, t, r);
    if d.symbol == "XVC" {
      IncentiveLater(d, t, r);
    }
  }

  // ----- masternodes -----

  /** The contracts' refunds, if there are any, in the place of the superblock. */
  predicate Refunds(r: Reply) {
    "screfund" in r.lists && r.lists["screfund"] != []
  }

  ghost predicate RefundOrSuperblock(pays: seq<Pay>, r: Reply, p2sh: bool) {
    if Refunds(r) then Listed(pays, r, true, "screfund", p2sh)
    else Listed(pays, r, On(r, "superblocks_enabled"), "superblock", p2sh)
  }

  function CharityPart(d: Coin, r: Reply): seq<Pay> {
    if d.hasCharity then [Pay(d.charityShare, CharityAddress(d, r), false)] else []
  }

  function MasternodeDue(d: Coin, r: Reply): seq<Pay> {
    NodeDue(r, On(r, "masternode_payments_enforced") && On(r, "masternode_payments_started"), "masternode",
            d.symbol == "MAC")
  }

  lemma RefundsPlanned(d: Coin, r: Reply) returns (block: seq<Pay>)
    ensures RefundOrSuperblock(block, r, d.symbol == "MAC")
    ensures SuperblockOrRefund(d, r) == block + MasternodeDue(d, r)
  {
    var mac := d.symbol == "MAC";
    var name := if Refunds(r) then "screfund" else "superblock";
    block := Superblock(r, Refunds(r) || On(r, "superblocks_enabled"), name, mac);
    SuperblockListed(r, Refunds(r) || On(r, "superblocks_enabled"), name, mac);
    NodeIs(r, On(r, "masternode_payments_enforced") && On(r, "masternode_payments_started"), "masternode", mac);
  }

  lemma MasternodePlanned(d: Coin, t: Template, r: Reply) returns (block: seq<Pay>)
    ensures RefundOrSuperblock(block, r, d.symbol == "MAC")
    ensures MasternodePlan(d, t, r).Some? ==>
              Planned(MasternodePlan(d, t, r), t.segwit, CharityPart(d, r) + (block + MasternodeDue(d, r)), [])
  {
    block := RefundsPlanned(d, r);
    CharityAddressIs(d, r);
  }

  /** Recent masternodes: charity, refunds or superblock, masternode. */
  lemma MasternodePays(c: Coin, t: Template, decode: Decoder, r: Reply, outs: seq<Out>, d: Coin)
    returns (block: seq<Pay>)
    requires ComesHere(c, r) && SeenAs(c, t, d) && ReadsBack(c, t, decode, r, outs)
    requires NodesTurn(d, r) && d.hasMasternodes && !d.oldMasternodes
    ensures RefundOrSuperblock(block, r, d.symbol == "MAC")
    ensures PaidOut(outs, c, decode, t.segwit, CharityPart(d, r) + (block + MasternodeDue(d, r)), [])
  {
    block := MasternodePlanned(d, t, r);
    if LaterPlan(d, t, r).Some? {
      NodesLater(d, t, r);
    }
    ReadsLater(c, t, decode, r, outs, d, t.segwit, CharityPart(d, r) + (block + MasternodeDue(d, r)), []);
  }

  // ----- ARC, ENT, CRW, older masternodes and the rest -----

  /** The node of ARC and of ENT. */
  function OtherNodeDue(d: Coin, r: Reply): seq<Pay> {
    if d.symbol == "ARC" then NodeDue(r, On(r, "goldminenode_payments_enforced"), "goldminenode", false)
    else NodeDue(r, On(r, "eternitynode_payments_enforced"), "eternitynode", false)
  }

  lemma NodePlanned(d: Coin, t: Template, r: Reply, block: seq<Pay>)
    requires (d.symbol == "ARC" || d.symbol == "ENT")
    requires block == Superblock(r, On(r, "superblocks_enabled"), "superblock", false)
    ensures Planned(Some(LastPlan(d, t, r)), false, block + OtherNodeDue(d, r), [])
  {
    NodeIs(r, On(r, "goldminenode_payments_enforced"), "goldminenode", false);
    NodeIs(r, On(r, "eternitynode_payments_enforced"), "eternitynode", false);
  }

  /** ARC and ENT: the superblock's payments, then the node's; never a commitment. */
  lemma NodePays(c: Coin, t: Template, decode: Decoder, r: Reply, outs: seq<Out>, d: Coin) returns (block: seq<Pay>)
    requires ComesHere(c, r) && SeenAs(c, t, d) && ReadsBack(c, t, decode, r, outs)
    requires NodesTurn(d, r) && (d.hasMasternodes ==> d.oldMasternodes) && (d.symbol == "ARC" || d.symbol == "ENT")
    ensures Listed(block, r, On(r, "superblocks_enabled"), "superblock", false)
    ensures PaidOut(outs, c, decode, false, block + OtherNodeDue(d, r), [])
  {
    block := Superblock(r, On(r, "superblocks_enabled"), "superblock", false);
    SuperblockListed(r, On(r, "superblocks_enabled"), "superblock", false);
    NodePlanned(d, t, r, block);
    if LaterPlan(d, t, r).Some? {
      NodesLater(d, t, r);
    }
    ReadsLater(c, t, decode, r, outs, d, false, block + OtherNodeDue(d, r), []);
  }

  /** CRW: the systemnode its payeeSN_amount, then the masternode its amount. */
  function CrwDue(r: Reply): seq<Pay> {
    (if On(r, "enforce_systemnode_payments") && On(r, "systemnodes") && "payeeSN" in r.texts &&
     Given(r, "payeeSN_amount")
     then [Pay(r.ints["payeeSN_amount"], r.texts["payeeSN"], false)] else []) +
    (if On(r, "enforce_masternode_payments") && On(r, "masternodes") && "payee" in r.texts && Given(r, "amount")
     then [Pay(r.ints["amount"], r.texts["payee"], false)] else [])
  }

  lemma CrwPlanned(r: Reply)
    ensures Planned(Some(CrwPlan(r)), false, CrwDue(r), [])
  {
  }

  lemma CrwPays(c: Coin, t: Template, decode: Decoder, r: Reply, outs: seq<Out>, d: Coin)
    requires ComesHere(c, r) && SeenAs(c, t, d) && ReadsBack(c, t, decode, r, outs)
    requires NodesTurn(d, r) && d.hasMasternodes && d.oldMasternodes && d.symbol == "CRW"
    ensures PaidOut(outs, c, decode, false, CrwDue(r), [])
  {
    CrwPlanned(r);
    if LaterPlan(d, t, r).Some? {
      NodesLater(d, t, r);
    }
    ReadsLater(c, t, decode, r, outs, d, false, CrwDue(r), []);
  }

  predicate OldOn(r: Reply) {
    On(r, "masternode_payments") && On(r, "enforce_masternode_payments")
  }

  /** The payee its payee_amount, if payments are on and enforced. */
  function OldDue(r: Reply): seq<Pay> {
    if OldOn(r) then
      [Pay(if Given(r, "payee_amount") then r.ints["payee_amount"] else 0,
           if "payee" in r.texts then First254(r.texts["payee"]) else "", false)]
    else []
  }

  lemma OldPlanned(t: Template, r: Reply)
    ensures Planned(Some(OldPlan(t, r)), t.segwit && OldOn(r), OldDue(r), [])
  {
    if "payee" in r.texts {
      CopiedIs(r.texts["payee"]);
    }
  }

  /** Older masternodes; without payments there is no commitment either. */
  lemma OldPays(c: Coin, t: Template, decode: Decoder, r: Reply, outs: seq<Out>, d: Coin)
    requires ComesHere(c, r) && SeenAs(c, t, d) && ReadsBack(c, t, decode, r, outs)
    requires NodesTurn(d, r) && d.hasMasternodes && d.oldMasternodes
    requires d.symbol != "ARC" && d.symbol != "ENT" && d.symbol != "CRW"
    ensures PaidOut(outs, c, decode, t.segwit && OldOn(r), OldDue(r), [])
  {
    OldPlanned(t, r);
    if LaterPlan(d, t, r).Some? {
      NodesLater(d, t, r);
    }
    ReadsLater(c, t, decode, r, outs, d, t.segwit && OldOn(r), OldDue(r), []);
  }

  /** Everybody else: the miner alone. */
  lemma PlainPays(c: Coin, t: Template, decode: Decoder, r: Reply, outs: seq<Out>, d: Coin)
    requires ComesHere(c, r) && SeenAs(c, t, d) && ReadsBack(c, t, decode, r, outs)
    requires NodesTurn(d, r) && !d.hasMasternodes && d.symbol != "ARC" && d.symbol != "ENT"
    ensures PaidOut(outs, c, decode, t.segwit, [], [])
  {
    if LaterPlan(d, t, r).Some? {
      NodesLater(d, t, r);
    }
    ReadsLater(c, t, decode, r, outs, d, t.segwit, [], []);
  }

  // ----- when nothing is appended -----

  /** The reply is of the older kind: the node's object is missing although it is to be paid. */
  predicate OlderKeys(r: Reply, node: string, payments: string) {
    node !in r.objects && On(r, payments)
  }

  lemma NoLater(d: Coin, t: Template, r: Reply)
    ensures LaterPlan(d, t, r).None? <==>
            && NoneEarlier(d, r)
            && ((d.charityLeft && d.dcr) ||
                (!IncentiveDue(d, r) && d.hasMasternodes && !d.oldMasternodes &&
                 OlderKeys(r, "masternode", "masternode_payments")))
  {
    FounderLater(d, t, r);
    if NoneEarlier(d, r) && d.symbol == "XVC" {
      IncentiveLater(d, t, r);
    }
  }

  /** The code returns without a section exactly for older replies, and for decred coins that have come this far. */
  lemma NoSection(c: Coin, t: Template, r: Reply, d: Coin)
    requires SeenAs(c, t, d)
    ensures PlanOf(c, t, r).None? <==>
            (c.symbol == "DYN" && OlderKeys(r, "dynode", "dynode_payments")) ||
            (ComesHere(c, r) && LaterPlan(d, t, r).None?)
  {
    if ComesHere(c, r) {
      SeenIs(c, t, r, d);
    }
  }
}
