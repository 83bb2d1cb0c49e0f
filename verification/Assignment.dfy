/**
 Assigning one client to one job: `job_assign_client` of job.cpp with the 16-slot job
 history of client_core.cpp and the 200 nonce sub-ids of a remote job.
 */
module Assignment {

  const MAX_SUBIDS := 200
  const MAX_HISTORY := 16

  /** Who a job works for: a local coin, or a remote pool with its nonce prefix and difficulty. */
  datatype Owner =
    | Coin(coinId: int)
    | Remote(nonce1: string, nonce2size: int, difficulty: real, ready: bool)

  datatype Job = Job(id: nat, owner: Owner, deleted: bool, profit: real, maxspeed: real,
                     speed: real, count: nat, subids: seq<bool>)

  datatype Client = Client(
    deleted: bool, coinid: int, speed: real,
    jobidNext: nat, jobidSent: nat, jobidLocked: nat, history: seq<nat>,
    subscribe: bool, reconnectable: bool, reconnecting: bool,
    difficulty: real, difficultyRemote: real, difficultyFixed: bool,
    subid: nat, nonce1: string, nonce2size: int,
    nonce1Default: string, nonce2sizeDefault: int,
    nonce1Last: string, nonce2sizeLast: int,
    nonce1Reconnect: string, nonce2sizeReconnect: int)

  /** The globals the code consults: g_autoexchange, g_stratum_reconnect and the decred algorithm. */
  datatype Config = Config(autoexchange: bool, stratumReconnect: bool, decred: bool)

  /** The outcome of one call: whether the caller's loop goes on, and the two objects after it. */
  datatype Assigned = Assigned(go: bool, job: Job, client: Client)

  predicate ClientOk(c: Client) {
    |c.history| == MAX_HISTORY && c.subid < MAX_SUBIDS
  }

  predicate JobOk(j: Job) {
    j.id > 0 && |j.subids| == MAX_SUBIDS
  }

  /** What the code relies on: without autoexchange only coin jobs are offered. */
  predicate Assignable(cfg: Config, j: Job, c: Client) {
    ClientOk(c) && JobOk(j) && (cfg.autoexchange || j.owner.Coin?)
  }

  // ----- job history (client_core.cpp) -----

  /** `client_find_job_history`: the search starts at slot `startat`. */
  predicate InHistory(c: Client, jobid: nat, startat: nat) {
    exists i :: startat <= i < |c.history| && c.history[i] == jobid
  }

  /** `client_add_job_history`: a shift register that ignores 0 and ids it already holds. */
  function AddHistory(c: Client, jobid: nat): (d: Client)
    requires |c.history| == MAX_HISTORY
    ensures |d.history| == MAX_HISTORY && d == c.(history := d.history)
    ensures jobid != 0 ==> jobid in d.history
    ensures forall h :: h in d.history ==> h in c.history || h == jobid
  {
    if jobid == 0 || InHistory(c, jobid, 0) then c
    else c.(history := [jobid] + c.history[..MAX_HISTORY - 1])
  }

  // ----- sub-ids -----

  /** The allocation loop: the first slot not taken, or 200. */
  function FirstFree(subids: seq<bool>, i: nat): (k: nat)
    requires i <= |subids|
    ensures i <= k <= |subids| && (k < |subids| ==> !subids[k])
    ensures forall j :: i <= j < k ==> subids[j]
    decreases |subids| - i
  {
    if i == |subids| || !subids[i] then i else FirstFree(subids, i + 1)
  }

  /** The sub-id a client gets: the one it holds if free, else the first free one; 200 if none. */
  function SubidFor(j: Job, c: Client): nat
    requires ClientOk(c) && JobOk(j)
  {
    if !j.subids[c.subid] then c.subid else FirstFree(j.subids, 0)
  }

  function HexDigit(d: nat): char
    requires d < 16
  {
    "0123456789abcdef"[d]
  }

  /** "%02x" of a number below 256. */
  function Hex2(n: nat): string
    requires n < 256
  {
    [HexDigit(n / 16), HexDigit(n % 16)]
  }

  lemma HexDigitInjective(a: nat, b: nat)
    requires a < 16 && b < 16 && HexDigit(a) == HexDigit(b)
    ensures a == b
  {
  }

  lemma Hex2Injective(a: nat, b: nat)
    requires a < 256 && b < 256 && Hex2(a) == Hex2(b)
    ensures a == b
  {
    HexDigitInjective(a / 16, b / 16);
    HexDigitInjective(a % 16, b % 16);
  }

  // ----- the call -----

  /** Set the next job, count the client, and switch its nonce: over the wire or by reconnecting it. */
  function Finish(j: Job, c: Client): Assigned {
    var d := c.(jobidNext := j.id);
    var k := j.(speed := j.speed + c.speed, count := j.count + 1);
    if d.nonce1 == d.nonce1Last && d.nonce2size == d.nonce2sizeLast then Assigned(true, k, d)
    else if d.subscribe then Assigned(true, k, d.(nonce1Last := d.nonce1, nonce2sizeLast := d.nonce2size))
    else
      Assigned(true, k, d.(nonce1Reconnect := d.nonce1, nonce2sizeReconnect := d.nonce2size,
                           nonce1 := d.nonce1Default, nonce2size := d.nonce2sizeDefault,
                           reconnecting := true, jobidSent := d.jobidNext))
  }

  function DefaultNonce(cfg: Config, c: Client): string {
    if !cfg.decred then c.nonce1Default
    else seq(16, _ => '0') + (if |c.nonce1Default| >= 8 then c.nonce1Default[..8] else c.nonce1Default)
  }

  function AssignCoin(cfg: Config, j: Job, c: Client): Assigned {
    Finish(j, c.(nonce1 := DefaultNonce(cfg, c), nonce2size := c.nonce2sizeDefault,
                 difficultyRemote := 0.0, jobidLocked := 0))
  }

  /** The remote branches after the client has passed the subscription and difficulty tests. */
  function AssignSubid(j: Job, c: Client, difficultyRemote: real): Assigned
    requires ClientOk(c) && JobOk(j) && j.owner.Remote?
  {
    if j.owner.nonce2size == 2 then
      if j.count > 0 then Assigned(false, j, c)
      else Finish(j, c.(nonce1 := j.owner.nonce1, nonce2size := 2, jobidLocked := j.id))
    else if j.id == c.jobidSent then Finish(j, c.(jobidLocked := j.id))
    else
      var s := SubidFor(j, c);
      if s == MAX_SUBIDS then Assigned(false, j, c)
      else
        Finish(j.(subids := j.subids[s := true]),
               c.(subid := s, nonce1 := j.owner.nonce1 + Hex2(s), nonce2size := j.owner.nonce2size - 1,
                  difficultyRemote := difficultyRemote, jobidLocked := j.id))
  }

  function AssignRemote(cfg: Config, j: Job, c: Client): Assigned
    requires ClientOk(c) && JobOk(j) && j.owner.Remote?
  {
    var r := j.owner.difficulty;
    if !c.subscribe && !(cfg.stratumReconnect && c.reconnectable) then Assigned(true, j, c)
    else if c.reconnecting then Assigned(true, j, c)
    else if j.count >= MAX_SUBIDS then Assigned(false, j, c)
    else if r < c.difficulty && (c.difficultyFixed || r * 4.0 < c.difficulty) then Assigned(true, j, c)
    else AssignSubid(j, c, if r < c.difficulty then r else if r > c.difficulty then 0.0 else c.difficultyRemote)
  }

  /** The client has no next job, is not locked elsewhere and has not worked on this job before. */
  predicate Free(j: Job, c: Client) {
    !c.deleted && c.jobidNext == 0 && (c.jobidLocked == 0 || c.jobidLocked == j.id) && !InHistory(c, j.id, 1)
  }

  predicate OverCap(j: Job, c: Client, maxhash: real) {
    maxhash > 0.0 && j.speed + c.speed > maxhash
  }

  predicate WrongCoin(cfg: Config, j: Job, c: Client, maxhash: real)
    requires cfg.autoexchange || j.owner.Coin?
  {
    !cfg.autoexchange && maxhash >= 0.0 && c.coinid != j.owner.coinId
  }

  /** `job_assign_client`. */
  function AssignClient(cfg: Config, j: Job, c: Client, maxhash: real): Assigned
    requires Assignable(cfg, j, c)
  {
    if !Free(j, c) || OverCap(j, c, maxhash) || WrongCoin(cfg, j, c, maxhash) then Assigned(true, j, c)
    else if j.owner.Remote? then AssignRemote(cfg, j, c)
    else AssignCoin(cfg, j, c)
  }

  // ----- what a call does -----

  /** d is c taken by job j: only a free client is taken, and it is locked exactly to a remote job. */
  predicate Taken(j: Job, c: Client, d: Client) {
    && Free(j, c)
    && d.jobidNext == j.id && d.jobidLocked == (if j.owner.Remote? then j.id else 0)
    && !d.deleted && d.speed == c.speed && d.history == c.history && d.coinid == c.coinid && ClientOk(d)
    && (d.jobidSent == c.jobidSent || d.jobidSent == j.id)
  }

  /** k is j after counting c: everything else is as it was, and sub-ids are only ever added. */
  predicate Counted(j: Job, k: Job, c: Client) {
    && k == j.(speed := j.speed + c.speed, count := j.count + 1, subids := k.subids)
    && JobOk(k) && Registered(j, k)
  }

  predicate Registered(j: Job, k: Job) {
    |j.subids| == |k.subids| && forall s :: 0 <= s < |j.subids| ==> j.subids[s] ==> k.subids[s]
  }

  predicate Effect(j: Job, c: Client, a: Assigned) {
    (a.job == j && a.client == c) || (a.go && Taken(j, c, a.client) && Counted(j, a.job, c))
  }

  /** b is c prepared for job j: the fields `Taken` speaks of are as it needs them. */
  predicate Prepared(j: Job, c: Client, b: Client) {
    && b.jobidLocked == (if j.owner.Remote? then j.id else 0)
    && b.deleted == c.deleted && b.jobidSent == c.jobidSent && b.speed == c.speed
    && b.history == c.history && b.coinid == c.coinid && ClientOk(b)
  }

  lemma FinishEffect(j: Job, k: Job, c: Client, b: Client)
    requires Free(j, c) && Prepared(j, c, b) && k == j.(subids := k.subids) && JobOk(k) && Registered(j, k)
    ensures Effect(j, c, Finish(k, b)) && Finish(k, b).go && Finish(k, b).job.subids == k.subids
  {
  }

  lemma AssignSubidEffect(j: Job, c: Client, r: real)
    requires ClientOk(c) && JobOk(j) && j.owner.Remote? && Free(j, c)
    ensures Effect(j, c, AssignSubid(j, c, r))
  {
    var s := SubidFor(j, c);
    if j.owner.nonce2size == 2 {
      if j.count == 0 {
        FinishEffect(j, j, c, c.(nonce1 := j.owner.nonce1, nonce2size := 2, jobidLocked := j.id));
      }
    } else if j.id == c.jobidSent {
      FinishEffect(j, j, c, c.(jobidLocked := j.id));
    } else if s < MAX_SUBIDS {
      FinishEffect(j, j.(subids := j.subids[s := true]), c,
                   c.(subid := s, nonce1 := j.owner.nonce1 + Hex2(s), nonce2size := j.owner.nonce2size - 1,
                      difficultyRemote := r, jobidLocked := j.id));
    }
  }

  lemma AssignRemoteEffect(cfg: Config, j: Job, c: Client)
    requires ClientOk(c) && JobOk(j) && j.owner.Remote? && Free(j, c)
    ensures Effect(j, c, AssignRemote(cfg, j, c))
  {
    var r := j.owner.difficulty;
    AssignSubidEffect(j, c, if r < c.difficulty then r else if r > c.difficulty then 0.0 else c.difficultyRemote);
  }

  /** A call either changes nothing or takes the client and counts it. */
  lemma AssignEffect(cfg: Config, j: Job, c: Client, maxhash: real)
    requires Assignable(cfg, j, c)
    ensures var a := AssignClient(cfg, j, c, maxhash);
            Effect(j, c, a) && (a.client != c ==> !OverCap(j, c, maxhash))
  {
    if Free(j, c) && !OverCap(j, c, maxhash) && !WrongCoin(cfg, j, c, maxhash) {
      if j.owner.Remote? {
        AssignRemoteEffect(cfg, j, c);
      } else {
        FinishEffect(j, j, c, c.(nonce1 := DefaultNonce(cfg, c), nonce2size := c.nonce2sizeDefault,
                                 difficultyRemote := 0.0, jobidLocked := 0));
      }
    }
  }

  // ----- sub-ids over any sequence of calls on one job -----

  /** One call as a job sees it: the client it is offered, as it is at that time, and the cap. */
  datatype Offer = Offer(client: Client, maxhash: real)

  /** Whether the call allocates a sub-id. */
  predicate Allocates(cfg: Config, j: Job, o: Offer)
    requires Assignable(cfg, j, o.client)
  {
    var a := AssignClient(cfg, j, o.client, o.maxhash);
    j.owner.Remote? && j.owner.nonce2size != 2 && a.client.jobidNext != o.client.jobidNext && o.client.jobidSent != j.id
  }

  predicate Offers(cfg: Config, j: Job, os: seq<Offer>) {
    JobOk(j) && (cfg.autoexchange || j.owner.Coin?) && forall i :: 0 <= i < |os| ==> ClientOk(os[i].client)
  }

  /** The job after the calls. */
  function After(cfg: Config, j: Job, os: seq<Offer>): (k: Job)
    requires Offers(cfg, j, os)
    ensures JobOk(k) && k.owner == j.owner && k.id == j.id
    decreases |os|
  {
    if os == [] then j
    else
      AssignEffect(cfg, j, os[0].client, os[0].maxhash);
      After(cfg, AssignClient(cfg, j, os[0].client, os[0].maxhash).job, os[1..])
  }

  /** The sub-ids the calls allocate, in order. */
  function Allocated(cfg: Config, j: Job, os: seq<Offer>): seq<nat>
    requires Offers(cfg, j, os)
    decreases |os|
  {
    if os == [] then []
    else
      var a := AssignClient(cfg, j, os[0].client, os[0].maxhash);
      AssignEffect(cfg, j, os[0].client, os[0].maxhash);
      (if Allocates(cfg, j, os[0]) then [a.client.subid] else []) + Allocated(cfg, a.job, os[1..])
  }

  /** The nonce prefix the client mines with from now on; a reconnecting client gets it when it is back. */
  function GivenNonce(c: Client): string {
    if c.reconnecting then c.nonce1Reconnect else c.nonce1
  }

  /** An allocation takes a slot that was free, marks it, and puts its two hex digits in the nonce. */
  lemma AllocationIsFresh(cfg: Config, j: Job, o: Offer)
    requires Assignable(cfg, j, o.client) && Allocates(cfg, j, o)
    ensures var a := AssignClient(cfg, j, o.client, o.maxhash);
            var s := a.client.subid;
            s < MAX_SUBIDS && !j.subids[s] && a.job.subids == j.subids[s := true] &&
            GivenNonce(a.client) == j.owner.nonce1 + Hex2(s)
  {
  }

  /**
   Over any sequence of calls on one job, the sub-ids allocated are pairwise distinct, below
   200 and different from every sub-id registered before; all of them are registered after.
   */
  lemma {:induction false} AllocatedDistinct(cfg: Config, j: Job, os: seq<Offer>)
    requires Offers(cfg, j, os)
    ensures Registered(j, After(cfg, j, os))
    ensures forall i :: 0 <= i < |Allocated(cfg, j, os)| ==>
                          var s := Allocated(cfg, j, os)[i];
                          s < MAX_SUBIDS && !j.subids[s] && After(cfg, j, os).subids[s]
    ensures forall i, k :: 0 <= i < k < |Allocated(cfg, j, os)| ==>
                             Allocated(cfg, j, os)[i] != Allocated(cfg, j, os)[k]
    decreases |os|
  {
    if os != [] {
      var a := AssignClient(cfg, j, os[0].client, os[0].maxhash);
      AssignEffect(cfg, j, os[0].client, os[0].maxhash);
      AllocatedDistinct(cfg, a.job, os[1..]);
      if Allocates(cfg, j, os[0]) {
        AllocationIsFresh(cfg, j, os[0]);
      }
    }
  }

  /** The nonces that the allocating calls give, in order. */
  function Given(cfg: Config, j: Job, os: seq<Offer>): seq<string>
    requires Offers(cfg, j, os)
    decreases |os|
  {
    if os == [] then []
    else
      var a := AssignClient(cfg, j, os[0].client, os[0].maxhash);
      AssignEffect(cfg, j, os[0].client, os[0].maxhash);
      (if Allocates(cfg, j, os[0]) then [GivenNonce(a.client)] else []) + Given(cfg, a.job, os[1..])
  }

  lemma {:induction false} GivenAre(cfg: Config, j: Job, os: seq<Offer>)
    requires Offers(cfg, j, os) && j.owner.Remote?
    ensures |Given(cfg, j, os)| == |Allocated(cfg, j, os)|
    ensures forall i :: 0 <= i < |Given(cfg, j, os)| ==>
                          Allocated(cfg, j, os)[i] < MAX_SUBIDS &&
                          Given(cfg, j, os)[i] == j.owner.nonce1 + Hex2(Allocated(cfg, j, os)[i])
    decreases |os|
  {
    if os != [] {
      var a := AssignClient(cfg, j, os[0].client, os[0].maxhash);
      AssignEffect(cfg, j, os[0].client, os[0].maxhash);
      GivenAre(cfg, a.job, os[1..]);
      if Allocates(cfg, j, os[0]) {
        AllocationIsFresh(cfg, j, os[0]);
      }
    }
  }

  lemma SuffixesDiffer(p: string, a: nat, b: nat)
    requires a < 256 && b < 256 && a != b
    ensures p + Hex2(a) != p + Hex2(b)
  {
    if p + Hex2(a) == p + Hex2(b) {
      assert Hex2(a) == (p + Hex2(a))[|p|..] && Hex2(b) == (p + Hex2(b))[|p|..];
      Hex2Injective(a, b);
    }
  }

  /** The nonces given over any sequence of calls on one remote job are pairwise different. */
  lemma NoncesDistinct(cfg: Config, j: Job, os: seq<Offer>, i: nat, k: nat)
    requires Offers(cfg, j, os) && j.owner.Remote? && i < k < |Given(cfg, j, os)|
    ensures Given(cfg, j, os)[i] != Given(cfg, j, os)[k]
  {
    GivenAre(cfg, j, os);
    AllocatedDistinct(cfg, j, os);
    SuffixesDiffer(j.owner.nonce1, Allocated(cfg, j, os)[i], Allocated(cfg, j, os)[k]);
  }
}
