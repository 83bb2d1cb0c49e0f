/**
 Who a coinbase pays, coinbase.cpp: the branches of `coinbase_create`, as a function of the
 coin's settings, the template and the node's reply. Most pay out of the block reward; XZC, TUX
 and XVC pay on top of it, and a decred coin starts from six times the template's value.
 */
module CoinbasePlan {
  import opened Options
  import opened TxOut

  /**
   The coin's settings; `dcr` says that its rpcencoding is DCR, `charityShare` is its charity
   percentage of the template's value, and `charityLeft` that an earlier coinbase left a charity amount.
   */
  datatype Coin = Coin(symbol: string, hasMasternodes: bool, oldMasternodes: bool, p2sh: bool, pos: bool, dcr: bool,
                       scriptPubkey: Bytes, pubkey: Bytes, commitment: Bytes,
                       hasCharity: bool, charityAddress: string, charityShare: int, charityLeft: bool)

  datatype Template = Template(value: int, height: nat, segwit: bool)

  datatype Payment = Payment(payee: Option<string>, amount: int)

  datatype Incentive = Incentive(address: Option<string>, enforced: bool, amount: int)

  /** The fields of the node's reply, by kind. */
  datatype Reply = Reply(bools: map<string, bool>, ints: map<string, int>, texts: map<string, string>,
                         lists: map<string, seq<Payment>>, objects: map<string, Payment>, incentive: Option<Incentive>)

  function Flag(r: Reply, name: string): bool {
    name in r.bools && r.bools[name]
  }

  function Number(r: Reply, name: string): int {
    if name in r.ints then r.ints[name] else 0
  }

  function Text(r: Reply, name: string): Option<string> {
    if name in r.texts then Some(r.texts[name]) else None
  }

  /** One output to a payee. */
  datatype Pay = Pay(amount: int, payee: string, p2sh: bool)

  /**
   The outputs around the miner's: how often the template's value is given out, whether there is a
   segwit commitment, who is paid before and after the miner, and whether the latter is on top.
   */
  datatype Plan = Plan(times: nat, commit: bool, before: seq<Pay>, after: seq<Pay>, onTop: bool)

  /** A plan that pays out of the reward. */
  function FromReward(commit: bool, before: seq<Pay>, after: seq<Pay>): Plan {
    Plan(1, commit, before, after, false)
  }

  /** A payment counts when it names a payee and a nonzero amount. */
  function Due(p: Payment, p2sh: bool): seq<Pay> {
    if p.payee.Some? && p.amount != 0 then [Pay(p.amount, p.payee.value, p2sh)] else []
  }

  function AllDue(ps: seq<Payment>, p2sh: bool): seq<Pay> {
    if ps == [] then [] else AllDue(ps[..|ps| - 1], p2sh) + Due(ps[|ps| - 1], p2sh)
  }

  /** The superblock's payments, when superblocks are on. */
  function Superblock(r: Reply, on: bool, name: string, p2sh: bool): seq<Pay> {
    if on && name in r.lists then AllDue(r.lists[name], p2sh) else []
  }

  function Node(r: Reply, on: bool, name: string, p2sh: bool): seq<Pay> {
    if on && name in r.objects then Due(r.objects[name], p2sh) else []
  }

  /** At most 254 characters of an address are looked at where it is copied. */
  function Copied(payee: string): string {
    if |payee| > 254 then payee[..254] else payee
  }

  function CharityPayee(c: Coin, r: Reply): string {
    match Text(r, "payee") case Some(p) => Copied(p) case None => c.charityAddress
  }

  function Treasury(height: nat): string {
    match height % 4
    case 0 => "3K3bPrW5h7DYEMp2RcXawTCXajcm4ZU9Zh"
    case 1 => "33Ssxmn3ehVMgyxgegXhpLGSBpubPjLZQ6"
    case 2 => "3HFPNAjesiBY5sSVUmuBFnMEGut69R49ca"
    case _ => "37jLjjfUXQU4bdqVzvpUXyzAqPQSmxyByi"
  }

  const TREASURY := 50000000

  // ----- the branches -----

  /** DYN: superblock, then the dynode. */
  function DynPlan(t: Template, r: Reply): Option<Plan> {
    if "dynode" !in r.objects && Flag(r, "dynode_payments") then None
    else
      var on := Flag(r, "dynode_payments_enforced") && Flag(r, "dynode_payments_started");
      Some(FromReward(t.segwit,
                      Superblock(r, Flag(r, "superblocks_enabled"), "superblock", false) +
                      Node(r, on, "dynode", false), []))
  }

  /** STAK: the treasury, then the masternode. */
  function StakPlan(t: Template, r: Reply): Plan {
    FromReward(t.segwit, [Pay(TREASURY, Treasury(t.height), true)] + StakNode(r), [])
  }

  function StakNode(r: Reply): seq<Pay> {
    if Flag(r, "enforce_masternode_payments") && Flag(r, "masternode_payments") then
      Due(Payment(Text(r, "payee"), Number(r, "payee_amount")), false)
    else []
  }

  /** The founder, when one is due. */
  function Founder(c: Coin, r: Reply): (pays: seq<Pay>)
    ensures |pays| <= 1
  {
    if !c.hasMasternodes && Flag(r, "founder_payments_started") && "founder" in r.objects then
      var p := r.objects["founder"];
      if p.payee.Some? && p.amount != 0 then [Pay(p.amount, Copied(p.payee.value), c.symbol == "PGN")] else []
    else []
  }

  function CharityAmount(c: Coin, r: Reply): int {
    if Number(r, "payee_amount") <= 0 then c.charityShare else Number(r, "payee_amount")
  }

  function CharityFirst(c: Coin, r: Reply): seq<Pay> {
    if c.hasCharity then [Pay(c.charityShare, CharityPayee(c, r), false)] else []
  }

  /** The superblock, or the contracts' refunds in its place; then the masternode. */
  function SuperblockOrRefund(c: Coin, r: Reply): seq<Pay> {
    var refund := "screfund" in r.lists && |r.lists["screfund"]| > 0;
    var mac := c.symbol == "MAC";
    Superblock(r, refund || Flag(r, "superblocks_enabled"), if refund then "screfund" else "superblock", mac) +
    Node(r, Flag(r, "masternode_payments_enforced") && Flag(r, "masternode_payments_started"), "masternode", mac)
  }

  /** Recent masternodes: charity, superblock or refund, masternode. */
  function MasternodePlan(c: Coin, t: Template, r: Reply): Option<Plan> {
    if "masternode" !in r.objects && Flag(r, "masternode_payments") then None
    else
      Some(FromReward(t.segwit, CharityFirst(c, r) + SuperblockOrRefund(c, r), []))
  }

  /** ARC and ENT: superblock, then the node. */
  function NodePlan(r: Reply, enforced: string, node: string): Plan {
    FromReward(false,
               Superblock(r, Flag(r, "superblocks_enabled"), "superblock", false) +
               Node(r, Flag(r, enforced), node, false), [])
  }

  /** CRW: systemnode, then masternode. */
  function CrwPlan(r: Reply): Plan {
    FromReward(false,
               (if Flag(r, "enforce_systemnode_payments") && Flag(r, "systemnodes") then
                  Due(Payment(Text(r, "payeeSN"), Number(r, "payeeSN_amount")), false)
                else []) +
               (if Flag(r, "enforce_masternode_payments") && Flag(r, "masternodes") then
                  Due(Payment(Text(r, "payee"), Number(r, "amount")), false)
                else []), [])
  }

  /** Older masternodes: the one payee, if payments are on and enforced. */
  function OldPlan(t: Template, r: Reply): Plan {
    if Flag(r, "masternode_payments") && Flag(r, "enforce_masternode_payments") then
      var payee := match Text(r, "payee") case Some(p) => Copied(p) case None => "";
      FromReward(t.segwit, [Pay(Number(r, "payee_amount"), payee, false)], [])
    else FromReward(false, [], [])
  }

  /** XZC: the miner, then five fifths of the charity on top; never a commitment. */
  function XzcPlan(c: Coin): Plan {
    var fifth := TruncatedFifth(c.charityShare);
    Plan(1, false, [],
         [Pay(fifth, "aCAgTPgtYcA4EysU4UKC86EQd5cTtHtCcr", false), Pay(fifth, c.charityAddress, false),
          Pay(fifth, "aQ18FBVFtnueucZKeVg4srhmzbpAeb1KoN", false),
          Pay(fifth, "a1HwTdCmQV3NspP2QqCGpehoFpi8NY4Zg3", false),
          Pay(fifth, "a1kCCGddf5pMXSipLVD9hBG2MGGVNaJ15U", false)], true)
  }

  /** Division by five towards zero. */
  function TruncatedFifth(n: int): int {
    if n >= 0 then n / 5 else -(-n / 5)
  }

  /** TUX: the donation's address; empty if there is none. */
  function Donation(r: Reply): string {
    match Text(r, "donation_payee") case Some(p) => p case None => ""
  }

  function TuxPlan(t: Template, r: Reply): Plan {
    Plan(1, t.segwit, [], [Pay(Number(r, "donation_amount"), Donation(r), true)], true)
  }

  /** XVC: the incentive on top, if it is enforced; never a commitment. */
  function IncentivePays(c: Coin, r: Reply): (pays: seq<Pay>)
    ensures |pays| <= 1
  {
    match r.incentive
    case None => []
    case Some(i) =>
      var payee := match i.address case Some(p) => Copied(p) case None => c.charityAddress;
      if i.enforced && i.amount != 0 && payee != "" then [Pay(i.amount, payee, false)] else []
  }

  /** ARC, ENT, older masternodes and the default. */
  function LastPlan(c: Coin, t: Template, r: Reply): Plan {
    if c.symbol == "ARC" then NodePlan(r, "goldminenode_payments_enforced", "goldminenode")
    else if c.symbol == "ENT" then NodePlan(r, "eternitynode_payments_enforced", "eternitynode")
    else if c.hasMasternodes && c.symbol == "CRW" then CrwPlan(r)
    else if c.hasMasternodes then OldPlan(t, r)
    else FromReward(t.segwit, [], [])
  }

  /** The branches after those of single symbols, in their order; None where there is no output. */
  function LaterPlan(c: Coin, t: Template, r: Reply): Option<Plan> {
    if Founder(c, r) != [] then Some(FromReward(t.segwit, [], Founder(c, r)))
    else if c.hasCharity && !c.hasMasternodes then
      Some(FromReward(t.segwit, [], [Pay(CharityAmount(c, r), CharityPayee(c, r), false)]))
    else if c.charityLeft && c.dcr then None
    else if c.symbol == "XVC" && IncentivePays(c, r) != [] then Some(Plan(1, false, [], IncentivePays(c, r), true))
    else if c.hasMasternodes && !c.oldMasternodes then MasternodePlan(c, t, r)
    else Some(LastPlan(c, t, r))
  }

  const DCR_TIMES := 6

  /** A decred coin gives its template's value six times over and has no charity percentage. */
  function Decred(c: Coin, t: Template): Coin {
    c.(hasCharity := false, charityLeft := t.value != 0)
  }

  function Multiplied(plan: Option<Plan>): Option<Plan> {
    match plan case None => None case Some(p) => Some(p.(times := DCR_TIMES))
  }

  /** Without a donation, TUX forgets its charity address. */
  function Forgetful(c: Coin): Coin {
    if c.symbol == "TUX" then c.(charityAddress := "") else c
  }

  /** STAK, TUX and the later branches. */
  function LatePlan(c: Coin, t: Template, r: Reply): Option<Plan> {
    if c.symbol == "STAK" then Some(StakPlan(t, r))
    else if c.symbol == "TUX" && Donation(r) != "" then Some(TuxPlan(t, r))
    else LaterPlan(Forgetful(c), t, r)
  }

  /** The branches of `coinbase_create` in their order; None where it returns without any output. */
  function PlanOf(c: Coin, t: Template, r: Reply): Option<Plan> {
    if c.symbol == "DYN" then DynPlan(t, r)
    else if c.symbol == "EGC" || c.symbol == "LTCR" then LaterPlan(c, t, r)
    else if c.symbol == "XZC" then Some(XzcPlan(c))
    else if c.dcr then Multiplied(LaterPlan(Decred(c, t), t, r))
    else LatePlan(c, t, r)
  }
}
