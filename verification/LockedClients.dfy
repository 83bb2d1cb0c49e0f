/**
 The clients locked to a remote job, which `job_assign_locked_clients` of job_core.cpp puts on it
 and counts: what its count and speed are, when they are those of the clients on the job, and
 that the sub-ids it registers are safe from later allocations.
 */
module LockedClients {
  import opened Assignment
  import opened Tally

  /** The clients locked to job `id`, deleted ones included. */
  function CountLocked(cs: seq<Client>, id: nat): nat {
    if cs == [] then 0
    else CountLocked(cs[..|cs| - 1], id) + if cs[|cs| - 1].jobidLocked == id then 1 else 0
  }

  function SpeedLocked(cs: seq<Client>, id: nat): real {
    if cs == [] then 0.0
    else SpeedLocked(cs[..|cs| - 1], id) + if cs[|cs| - 1].jobidLocked == id then cs[|cs| - 1].speed else 0.0
  }

  /** Of them, the deleted ones. */
  function CountDead(cs: seq<Client>, id: nat): nat {
    if cs == [] then 0
    else CountDead(cs[..|cs| - 1], id) + if cs[|cs| - 1].jobidLocked == id && cs[|cs| - 1].deleted then 1 else 0
  }

  function SpeedDead(cs: seq<Client>, id: nat): real {
    if cs == [] then 0.0
    else
      var c := cs[|cs| - 1];
      SpeedDead(cs[..|cs| - 1], id) + if c.jobidLocked == id && c.deleted then c.speed else 0.0
  }

  /** Live clients that are on the job without being locked to it. */
  function CountStray(cs: seq<Client>, id: nat): nat {
    if cs == [] then 0
    else CountStray(cs[..|cs| - 1], id) + if OnJob(cs[|cs| - 1], id) && cs[|cs| - 1].jobidLocked != id then 1 else 0
  }

  function SpeedStray(cs: seq<Client>, id: nat): real {
    if cs == [] then 0.0
    else
      var c := cs[|cs| - 1];
      SpeedStray(cs[..|cs| - 1], id) + if OnJob(c, id) && c.jobidLocked != id then c.speed else 0.0
  }

  function PutOne(c: Client, id: nat): Client {
    c.(jobidNext := if c.jobidLocked == id then id else c.jobidNext)
  }

  /** Everybody locked to job `id` is put on it. */
  predicate PutOn(cs: seq<Client>, ds: seq<Client>, id: nat) {
    |ds| == |cs| && forall i :: 0 <= i < |cs| ==> ds[i] == PutOne(cs[i], id)
  }

  /** The sub-ids of the clients locked to the job, among the first n, are registered with it. */
  predicate IdsRegistered(cs: seq<Client>, n: nat, k: Job) {
    forall i :: 0 <= i < n <= |cs| && cs[i].jobidLocked == k.id ==> cs[i].subid < |k.subids| && k.subids[cs[i].subid]
  }

  lemma {:induction false} LockedSplit(cs: seq<Client>, ds: seq<Client>, id: nat)
    requires PutOn(cs, ds, id)
    ensures CountOn(ds, id) + CountDead(cs, id) == CountLocked(cs, id) + CountStray(cs, id)
    ensures SpeedOn(ds, id) + SpeedDead(cs, id) == SpeedLocked(cs, id) + SpeedStray(cs, id)
  {
    if cs != [] {
      var n := |cs| - 1;
      LockedSplit(cs[..n], ds[..n], id);
    }
  }

  /**
   A job that counts the clients locked to it is tallied exactly when its deleted clients
   balance the live clients on it that are not locked to it, in number and in speed.
   */
  lemma LockedTally(cs: seq<Client>, ds: seq<Client>, k: Job)
    requires PutOn(cs, ds, k.id) && k.count == CountLocked(cs, k.id) && k.speed == SpeedLocked(cs, k.id)
    ensures Tallied(ds, k) <==>
            CountDead(cs, k.id) == CountStray(cs, k.id) && SpeedDead(cs, k.id) == SpeedStray(cs, k.id)
  {
    LockedSplit(cs, ds, k.id);
  }

  lemma {:induction false} NoneDead(cs: seq<Client>, id: nat)
    ensures CountDead(cs, id) == 0 <==> forall i :: 0 <= i < |cs| && cs[i].jobidLocked == id ==> !cs[i].deleted
    ensures CountDead(cs, id) == 0 ==> SpeedDead(cs, id) == 0.0
  {
    if cs != [] {
      NoneDead(cs[..|cs| - 1], id);
    }
  }

  lemma {:induction false} NoneStray(cs: seq<Client>, id: nat)
    requires forall i :: 0 <= i < |cs| ==> cs[i].jobidNext != id
    ensures CountStray(cs, id) == 0 && SpeedStray(cs, id) == 0.0
  {
    if cs != [] {
      NoneStray(cs[..|cs| - 1], id);
    }
  }

  /** For a job that was nobody's next one before, that is: exactly when no deleted client is locked to it. */
  lemma NewLockedTally(cs: seq<Client>, ds: seq<Client>, k: Job)
    requires PutOn(cs, ds, k.id) && k.count == CountLocked(cs, k.id) && k.speed == SpeedLocked(cs, k.id)
    requires forall i :: 0 <= i < |cs| ==> cs[i].jobidNext != k.id
    ensures Tallied(ds, k) <==> forall i :: 0 <= i < |cs| && cs[i].jobidLocked == k.id ==> !cs[i].deleted
  {
    NoneStray(cs, k.id);
    NoneDead(cs, k.id);
    LockedTally(cs, ds, k);
  }

  lemma LockedNext(cs: seq<Client>, n: nat, id: nat)
    requires n < |cs|
    ensures CountLocked(cs[..n + 1], id) == CountLocked(cs[..n], id) + if cs[n].jobidLocked == id then 1 else 0
    ensures SpeedLocked(cs[..n + 1], id) == SpeedLocked(cs[..n], id) +
                if cs[n].jobidLocked == id then cs[n].speed else 0.0
  {
    assert cs[..n + 1][..n] == cs[..n];
  }

  /** One turn of the loop: a client locked to the job is counted and its sub-id registered. */
  function CountIn(k: Job, c: Client): (l: Job)
    requires JobOk(k) && ClientOk(c)
    ensures SameJob(k, l)
  {
    if c.jobidLocked != k.id then k
    else k.(subids := k.subids[c.subid := true], speed := k.speed + c.speed, count := k.count + 1)
  }

  /** The loop of `job_assign_locked_clients`. */
  method AssignLocked(cs: seq<Client>, j: Job) returns (ds: seq<Client>, k: Job)
    requires JobOk(j) && forall i :: 0 <= i < |cs| ==> ClientOk(cs[i])
    ensures SameJob(j, k) && PutOn(cs, ds, j.id) && IdsRegistered(cs, |cs|, k)
    ensures k.count == CountLocked(cs, j.id) && k.speed == SpeedLocked(cs, j.id)
  {
    ds, k := cs, j.(speed := 0.0, count := 0);
    var li := 0;
    while li < |ds|
      invariant 0 <= li <= |ds| == |cs| && SameJob(j, k)
      invariant forall i :: 0 <= i < li ==> ds[i] == PutOne(cs[i], j.id)
      invariant forall i :: li <= i < |cs| ==> ds[i] == cs[i]
      invariant k.count == CountLocked(cs[..li], j.id) && k.speed == SpeedLocked(cs[..li], j.id)
      invariant IdsRegistered(cs, li, k)
    {
      LockedNext(cs, li, j.id);
      k := CountIn(k, ds[li]);
      ds := ds[li := PutOne(ds[li], j.id)];
      li := li + 1;
    }
    assert cs[..li] == cs;
  }

  /**
   Sub-ids of clients locked to a job, once registered, are handed out to nobody: not by any
   sequence of calls on the job.
   */
  lemma LockedIdsKept(cfg: Config, cs: seq<Client>, k: Job, os: seq<Offer>, i: nat, a: nat)
    requires Offers(cfg, k, os) && IdsRegistered(cs, |cs|, k)
    requires i < |cs| && cs[i].jobidLocked == k.id && a < |Allocated(cfg, k, os)|
    ensures Allocated(cfg, k, os)[a] != cs[i].subid
  {
    AllocatedDistinct(cfg, k, os);
  }
}
