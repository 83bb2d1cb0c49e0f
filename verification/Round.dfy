/**
 One job's turn: the four passes of `job_assign_clients` over the client list (job.cpp).
 */
module Round {
  import opened Assignment
  import opened Tally
  import opened Subids

  /** The list filters of the four passes of `job_assign_clients`. */
  datatype Pass = Locked | Sent | Subscribed | Rest

  predicate Skips(pass: Pass, j: Job, c: Client) {
    match pass
    case Locked => c.jobidLocked != 0 && c.jobidLocked != j.id
    case Sent => c.jobidSent != j.id
    case Subscribed => !c.subscribe
    case Rest => false
  }

  predicate Ready(cfg: Config, j: Job, cs: seq<Client>) {
    JobOk(j) && (cfg.autoexchange || j.owner.Coin?) && forall i :: 0 <= i < |cs| ==> ClientOk(cs[i])
  }

  lemma GrabbedReady(cfg: Config, j: Job, k: Job, cs: seq<Client>, ds: seq<Client>)
    requires Ready(cfg, j, cs) && Grabbed(j, cs, ds) && SameJob(j, k)
    ensures Ready(cfg, k, ds)
  {
  }

  /** Nobody among the first n clients is free for the job and would still fit. */
  predicate AllLeftOut(cfg: Config, j: Job, cs: seq<Client>, n: nat, maxhash: real)
    requires cfg.autoexchange || j.owner.Coin?
  {
    forall i :: 0 <= i < n <= |cs| ==> LeftOut(cfg, j, cs[i], maxhash)
  }

  lemma LeftOutNext(cfg: Config, j: Job, cs: seq<Client>, n: nat, maxhash: real)
    requires j.owner.Coin? && n < |cs| && Assignable(cfg, j, cs[n]) && (cs[n].speed >= 0.0 || maxhash <= 0.0)
    requires AllLeftOut(cfg, j, cs, n, maxhash)
    ensures var a := AssignClient(cfg, j, cs[n], maxhash);
            a.go && AllLeftOut(cfg, a.job, cs[n := a.client], n + 1, maxhash)
  {
    var a := AssignClient(cfg, j, cs[n], maxhash);
    LeftOutAfter(cfg, j, cs[n], maxhash);
    AssignEffect(cfg, j, cs[n], maxhash);
    forall i | 0 <= i < n
      ensures LeftOut(cfg, a.job, cs[i], maxhash)
    {
      LeftOutStays(cfg, j, a.job, cs[i], maxhash);
    }
  }

  /** How a pass leaves job and clients, and whether it came to its end. */
  datatype Passed = Passed(go: bool, job: Job, clients: seq<Client>)

  lemma OneCall(cfg: Config, cs: seq<Client>, j: Job, i: nat, maxhash: real)
    requires Ready(cfg, j, cs) && i < |cs|
    ensures var a := AssignClient(cfg, j, cs[i], maxhash);
            Ready(cfg, a.job, cs[i := a.client]) && Progress(cs, j, cs[i := a.client], a.job, maxhash)
  {
    ProgressStep(cfg, cs, j, i, maxhash);
    var a := AssignClient(cfg, j, cs[i], maxhash);
    GrabbedReady(cfg, j, a.job, cs, cs[i := a.client]);
  }

  /** What a pass does from the i-th client on. */
  function PassFrom(cfg: Config, j: Job, cs: seq<Client>, maxhash: real, pass: Pass, i: nat): (r: Passed)
    requires Ready(cfg, j, cs) && i <= |cs| && j.id > 0
    ensures Ready(cfg, r.job, r.clients) && |r.clients| == |cs| && r.job.id == j.id && r.job.owner == j.owner
    decreases |cs| - i
  {
    if i == |cs| then Passed(true, j, cs)
    else if Skips(pass, j, cs[i]) then PassFrom(cfg, j, cs, maxhash, pass, i + 1)
    else
      OneCall(cfg, cs, j, i, maxhash);
      var a := AssignClient(cfg, j, cs[i], maxhash);
      var ds := cs[i := a.client];
      if a.go then PassFrom(cfg, a.job, ds, maxhash, pass, i + 1) else Passed(false, a.job, ds)
  }

  lemma {:induction false} PassProgress(cfg: Config, j: Job, cs: seq<Client>, maxhash: real, pass: Pass, i: nat)
    requires Ready(cfg, j, cs) && i <= |cs| && j.id > 0
    ensures var r := PassFrom(cfg, j, cs, maxhash, pass, i); Progress(cs, j, r.clients, r.job, maxhash)
    decreases |cs| - i
  {
    if i < |cs| {
      if Skips(pass, j, cs[i]) {
        PassProgress(cfg, j, cs, maxhash, pass, i + 1);
      } else {
        OneCall(cfg, cs, j, i, maxhash);
        var a := AssignClient(cfg, j, cs[i], maxhash);
        var ds := cs[i := a.client];
        if a.go {
          PassProgress(cfg, a.job, ds, maxhash, pass, i + 1);
          var r := PassFrom(cfg, a.job, ds, maxhash, pass, i + 1);
          ProgressTrans(cs, j, ds, a.job, r.clients, r.job, maxhash);
        }
      }
    }
  }

  /** The four passes, the third for remote jobs only. */
  function FourPasses(cfg: Config, j: Job, cs: seq<Client>, maxhash: real): Passed
    requires Ready(cfg, j, cs) && j.id > 0
  {
    var a := PassFrom(cfg, j, cs, maxhash, Locked, 0);
    var b := PassFrom(cfg, a.job, a.clients, maxhash, Sent, 0);
    var c := if j.owner.Remote? then PassFrom(cfg, b.job, b.clients, maxhash, Subscribed, 0) else b;
    PassFrom(cfg, c.job, c.clients, maxhash, Rest, 0)
  }

  /** Nobody free before the i-th client of a coin's job would still fit. */
  predicate Full(cfg: Config, j: Job, cs: seq<Client>, i: nat, maxhash: real) {
    j.owner.Coin? && CapUsedUp(cs, maxhash) && AllLeftOut(cfg, j, cs, i, maxhash)
  }

  lemma FullNext(cfg: Config, cs: seq<Client>, j: Job, i: nat, maxhash: real)
    requires Ready(cfg, j, cs) && i < |cs| && Full(cfg, j, cs, i, maxhash)
    ensures var a := AssignClient(cfg, j, cs[i], maxhash);
            a.go && Full(cfg, a.job, cs[i := a.client], i + 1, maxhash)
  {
    OneCall(cfg, cs, j, i, maxhash);
    if NonNegative(cs) {
      GrabbedNonNegative(j, cs, cs[i := AssignClient(cfg, j, cs[i], maxhash).client]);
    }
    LeftOutNext(cfg, j, cs, i, maxhash);
  }

  /** One pass over the client list; it stops early when a remote job is full. */
  method AssignPass(cfg: Config, cs: seq<Client>, j: Job, maxhash: real, pass: Pass) returns (ds: seq<Client>, k: Job)
    requires Ready(cfg, j, cs)
    ensures Ready(cfg, k, ds) && Progress(cs, j, ds, k, maxhash) && KeepsIds(cs, j, ds, k)
    ensures pass.Rest? && j.owner.Coin? && CapUsedUp(cs, maxhash) ==> AllLeftOut(cfg, k, ds, |ds|, maxhash)
    ensures var r := PassFrom(cfg, j, cs, maxhash, pass, 0); ds == r.clients && k == r.job
  {
    PassProgress(cfg, j, cs, maxhash, pass, 0);
    ghost var full := pass.Rest? && j.owner.Coin? && CapUsedUp(cs, maxhash);
    ds, k := cs, j;
    var li := 0;
    while li < |ds|
      invariant 0 <= li <= |ds| && Ready(cfg, k, ds) && KeepsIds(cs, j, ds, k) && k.id > 0
      invariant full ==> Full(cfg, k, ds, li, maxhash)
      invariant PassFrom(cfg, k, ds, maxhash, pass, li) == PassFrom(cfg, j, cs, maxhash, pass, 0)
    {
      if !Skips(pass, k, ds[li]) {
        var a := AssignClient(cfg, k, ds[li], maxhash);
        OneCall(cfg, ds, k, li, maxhash);
        KeepsIdsStep(cfg, cs, j, ds, k, li, maxhash);
        if full {
          FullNext(cfg, ds, k, li, maxhash);
        }
        ds, k := ds[li := a.client], a.job;
        if !a.go {
          break;
        }
      }
      li := li + 1;
    }
  }

  /**
   `job_assign_clients`: four passes, from a job counted from zero. If no live client was on
   the job before, its count and speed are those of the clients on it after; a positive cap is
   never exceeded; on a coin job no free client that would still fit is left over; and on a
   remote job the sub-ids of all clients on it are distinct if those kept were.
   */
  method AssignClients(cfg: Config, cs: seq<Client>, j: Job, maxhash: real) returns (ds: seq<Client>, k: Job)
    requires Ready(cfg, j, cs)
    ensures Ready(cfg, k, ds) && SameJob(j, k) && Grabbed(j, cs, ds) && KeepsIds(cs, j, ds, k)
    ensures (forall i :: 0 <= i < |cs| ==> !OnJob(cs[i], j.id)) ==> Tallied(ds, k)
    ensures maxhash > 0.0 ==> k.speed <= maxhash
    ensures j.owner.Coin? && CapUsedUp(cs, maxhash) ==> AllLeftOut(cfg, k, ds, |ds|, maxhash)
    ensures var r := FourPasses(cfg, j.(speed := 0.0, count := 0), cs, maxhash); ds == r.clients && k == r.job
  {
    ghost var z := j.(speed := 0.0, count := 0);
    ds, k := cs, j.(speed := 0.0, count := 0);
    var es, l := AssignPass(cfg, ds, k, maxhash, Locked);
    ds, k := AssignPass(cfg, es, l, maxhash, Sent);
    ProgressTrans(cs, z, es, l, ds, k, maxhash);
    if k.owner.Remote? {
      es, l := AssignPass(cfg, ds, k, maxhash, Subscribed);
      ProgressTrans(cs, z, ds, k, es, l, maxhash);
    } else {
      es, l := ds, k;
    }
    if NonNegative(cs) {
      GrabbedNonNegative(z, cs, es);
    }
    ds, k := AssignPass(cfg, es, l, maxhash, Rest);
    ProgressTrans(cs, z, es, l, ds, k, maxhash);
    GrabbedBy(z, j, cs, ds);
    if forall i :: 0 <= i < |cs| ==> !OnJob(cs[i], j.id) {
      TallyNone(cs, j.id);
    }
  }

  lemma GrabbedBy(z: Job, j: Job, cs: seq<Client>, ds: seq<Client>)
    requires z.id == j.id && z.owner == j.owner && Grabbed(z, cs, ds)
    ensures Grabbed(j, cs, ds)
  {
  }

  /** The cap under which `job_assign_clients_left` offers a coin's job. */
  function LeftCap(cfg: Config, nethash: real, factor: real): real {
    nethash * (if cfg.autoexchange then factor else 100.0)
  }

  /** A client whose coin is another one is no candidate, offered or not. */
  lemma NotOffered(cfg: Config, j: Job, c: Client, cap: real)
    requires !cfg.autoexchange && j.owner.Coin? && c.coinid != j.owner.coinId && cap >= 0.0
    ensures LeftOut(cfg, j, c, cap)
  {
  }

  /** One call of that loop, which on a coin job never ends it. */
  method OfferOne(cfg: Config, ghost cs: seq<Client>, ghost j: Job, ds: seq<Client>, k: Job, li: nat, maxhash: real,
                  ghost full: bool)
    returns (es: seq<Client>, l: Job)
    requires li < |ds| && Ready(cfg, k, ds) && k.owner.Coin? && Progress(cs, j, ds, k, maxhash) && j.id > 0
    requires full ==> CapUsedUp(cs, maxhash) && AllLeftOut(cfg, k, ds, li, maxhash)
    ensures |es| == |ds| && Ready(cfg, l, es) && Progress(cs, j, es, l, maxhash)
    ensures full ==> AllLeftOut(cfg, l, es, li + 1, maxhash)
    ensures AssignClient(cfg, k, ds[li], maxhash).go
  {
    var a := AssignClient(cfg, k, ds[li], maxhash);
    ProgressStep(cfg, ds, k, li, maxhash);
    ProgressTrans(cs, j, ds, k, ds[li := a.client], a.job, maxhash);
    GrabbedReady(cfg, k, a.job, ds, ds[li := a.client]);
    if full {
      if NonNegative(cs) {
        GrabbedNonNegative(j, cs, ds);
      }
      LeftOutNext(cfg, k, ds, li, maxhash);
    }
    es, l := ds[li := a.client], a.job;
  }

  /**
   The client loop of `job_assign_clients_left` for one coin. A cap that was kept stays kept; with
   autoexchange and no positive factor nothing happens; otherwise, with nonnegative speeds, no
   free client that would still fit is left over.
   */
  method AssignLeft(cfg: Config, cs: seq<Client>, j: Job, coinId: int, nethash: real, factor: real, ghost cap: real)
    returns (ds: seq<Client>, k: Job, left: real)
    requires Ready(cfg, j, cs) && j.owner == Coin(coinId) && cap == LeftCap(cfg, nethash, factor)
    ensures Ready(cfg, k, ds) && Progress(cs, j, ds, k, cap)
    ensures cfg.autoexchange ==> left == factor
    ensures cfg.autoexchange && factor <= 0.0 ==> ds == cs && k == j
    ensures (cfg.autoexchange ==> factor > 0.0) && cap >= 0.0 && CapUsedUp(cs, cap) ==>
              AllLeftOut(cfg, k, ds, |ds|, cap)
  {
    ds, k, left := cs, j, factor;
    ghost var full := (cfg.autoexchange ==> factor > 0.0) && cap >= 0.0 && CapUsedUp(cs, cap);
    var li := 0;
    while li < |ds|
      invariant 0 <= li <= |ds| && Ready(cfg, k, ds) && Progress(cs, j, ds, k, cap)
      invariant cfg.autoexchange ==> left == factor
      invariant cfg.autoexchange && factor <= 0.0 ==> ds == cs && k == j
      invariant full ==> AllLeftOut(cfg, k, ds, li, cap)
    {
      if !cfg.autoexchange {
        left := if ds[li].coinid == coinId then 100.0 else 0.0;
      }
      if left > 0.0 {
        assert nethash * left == cap;
        ds, k := OfferOne(cfg, cs, j, ds, k, li, nethash * left, full);
      } else if full {
        NotOffered(cfg, k, ds[li], cap);
      }
      li := li + 1;
    }
  }
}
