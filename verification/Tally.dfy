/**
 What a round of assignments keeps, on lists of clients: who was moved to a job, and that
 the job's `count` and `speed` are the number and total speed of its live clients.
 */
module Tally {
  import opened Assignment

  predicate OnJob(c: Client, id: nat) {
    !c.deleted && c.jobidNext == id
  }

  /** The number of live clients whose next job is `id`. */
  function CountOn(cs: seq<Client>, id: nat): nat {
    if cs == [] then 0
    else CountOn(cs[..|cs| - 1], id) + if OnJob(cs[|cs| - 1], id) then 1 else 0
  }

  /** Their total speed. */
  function SpeedOn(cs: seq<Client>, id: nat): real {
    if cs == [] then 0.0
    else SpeedOn(cs[..|cs| - 1], id) + if OnJob(cs[|cs| - 1], id) then cs[|cs| - 1].speed else 0.0
  }

  predicate Tallied(cs: seq<Client>, j: Job) {
    j.count == CountOn(cs, j.id) && j.speed == SpeedOn(cs, j.id)
  }

  lemma {:induction false} TallyUpdate(cs: seq<Client>, i: nat, d: Client, id: nat)
    requires i < |cs|
    ensures CountOn(cs[i := d], id) + (if OnJob(cs[i], id) then 1 else 0) ==
            CountOn(cs, id) + (if OnJob(d, id) then 1 else 0)
    ensures SpeedOn(cs[i := d], id) + (if OnJob(cs[i], id) then cs[i].speed else 0.0) ==
            SpeedOn(cs, id) + (if OnJob(d, id) then d.speed else 0.0)
  {
    var n := |cs| - 1;
    if i == n {
      assert cs[i := d][..n] == cs[..n];
    } else {
      assert cs[i := d][..n] == cs[..n][i := d];
      TallyUpdate(cs[..n], i, d, id);
    }
  }

  lemma {:induction false} TallyNone(cs: seq<Client>, id: nat)
    requires forall i :: 0 <= i < |cs| ==> !OnJob(cs[i], id)
    ensures CountOn(cs, id) == 0 && SpeedOn(cs, id) == 0.0
  {
    if cs != [] {
      TallyNone(cs[..|cs| - 1], id);
    }
  }

  lemma {:induction false} CountSome(cs: seq<Client>, id: nat, i: nat)
    requires i < |cs| && OnJob(cs[i], id)
    ensures CountOn(cs, id) > 0
  {
    if i < |cs| - 1 {
      CountSome(cs[..|cs| - 1], id, i);
    }
  }

  /** Lists that agree on who is on job `id` have the same tally for it. */
  lemma {:induction false} TallySame(cs: seq<Client>, ds: seq<Client>, id: nat)
    requires |cs| == |ds|
    requires forall i :: 0 <= i < |cs| ==> OnJob(ds[i], id) == OnJob(cs[i], id) && ds[i].speed == cs[i].speed
    ensures CountOn(ds, id) == CountOn(cs, id) && SpeedOn(ds, id) == SpeedOn(cs, id)
  {
    if cs != [] {
      TallySame(cs[..|cs| - 1], ds[..|cs| - 1], id);
    }
  }

  // ----- progress on one job -----

  predicate SameJob(j: Job, k: Job) {
    k == j.(speed := k.speed, count := k.count, subids := k.subids) && JobOk(k) && Registered(j, k)
  }

  /** ds is cs with some free clients taken by job j. */
  predicate Grabbed(j: Job, cs: seq<Client>, ds: seq<Client>) {
    |cs| == |ds| && forall i :: 0 <= i < |cs| ==> ds[i] == cs[i] || Taken(j, cs[i], ds[i])
  }

  predicate NonNegative(cs: seq<Client>) {
    forall i :: 0 <= i < |cs| ==> cs[i].speed >= 0.0
  }

  /** From clients cs and job j to ds and k: the job only grabs, stays tallied and under its cap. */
  predicate Progress(cs: seq<Client>, j: Job, ds: seq<Client>, k: Job, maxhash: real) {
    && SameJob(j, k)
    && Grabbed(j, cs, ds)
    && (Tallied(cs, j) ==> Tallied(ds, k))
    && (maxhash > 0.0 ==> k.speed <= maxhash || k.speed == j.speed)
    && (NonNegative(cs) ==> j.speed <= k.speed)
  }

  lemma GrabbedNonNegative(j: Job, cs: seq<Client>, ds: seq<Client>)
    requires Grabbed(j, cs, ds) && NonNegative(cs)
    ensures NonNegative(ds)
  {
  }

  lemma ProgressTrans(cs: seq<Client>, j: Job, ds: seq<Client>, k: Job, es: seq<Client>, l: Job, maxhash: real)
    requires j.id > 0 && Progress(cs, j, ds, k, maxhash) && Progress(ds, k, es, l, maxhash)
    ensures Progress(cs, j, es, l, maxhash)
  {
  }

  /** One call of `job_assign_client` is progress. */
  lemma ProgressStep(cfg: Config, cs: seq<Client>, j: Job, i: nat, maxhash: real)
    requires i < |cs| && Assignable(cfg, j, cs[i])
    ensures var a := AssignClient(cfg, j, cs[i], maxhash);
            Progress(cs, j, cs[i := a.client], a.job, maxhash)
  {
    var a := AssignClient(cfg, j, cs[i], maxhash);
    AssignEffect(cfg, j, cs[i], maxhash);
    if a.client == cs[i] {
      assert cs[i := a.client] == cs;
    }
    TallyUpdate(cs, i, a.client, j.id);
  }

  // ----- nobody who would fit is left over -----

  /** Whether adding clients can only use up the cap: speeds are not negative, or there is no cap. */
  predicate CapUsedUp(cs: seq<Client>, maxhash: real) {
    NonNegative(cs) || maxhash <= 0.0
  }

  /** The client is free for this job but would not fit under the cap. */
  predicate LeftOut(cfg: Config, j: Job, c: Client, maxhash: real)
    requires cfg.autoexchange || j.owner.Coin?
  {
    Free(j, c) && !WrongCoin(cfg, j, c, maxhash) ==> OverCap(j, c, maxhash)
  }

  /** A job that only grew leaves out whoever it left out before. */
  lemma LeftOutStays(cfg: Config, j: Job, k: Job, c: Client, maxhash: real)
    requires SameJob(j, k) && (cfg.autoexchange || j.owner.Coin?) && LeftOut(cfg, j, c, maxhash)
    requires j.speed <= k.speed || maxhash <= 0.0
    ensures LeftOut(cfg, k, c, maxhash)
  {
  }

  /** After its call, a client of a coin job is taken, not free, or does not fit. */
  lemma LeftOutAfter(cfg: Config, j: Job, c: Client, maxhash: real)
    requires Assignable(cfg, j, c) && j.owner.Coin? && (c.speed >= 0.0 || maxhash <= 0.0)
    ensures var a := AssignClient(cfg, j, c, maxhash);
            a.go && LeftOut(cfg, a.job, a.client, maxhash)
  {
  }
}
