/**
 The sub-ids of everybody on a remote job, whether allocated by a call of `job_assign_client` or
 kept by a client that was already sent the job: when they, and the nonces made of them, are
 pairwise distinct.
 */
module Subids {
  import opened Assignment
  import opened Tally

  /** A live client that is on the job, or would keep its sub-id if put on it. */
  predicate Holds(c: Client, id: nat) {
    !c.deleted && (c.jobidNext == id || c.jobidSent == id)
  }

  /** Remote jobs that tell their clients apart by sub-ids. */
  predicate HasSubids(j: Job) {
    j.owner.Remote? && j.owner.nonce2size != 2
  }

  /** The client's sub-id is registered with the job and stands in its nonce. */
  predicate HoldsRegistered(c: Client, j: Job)
    requires j.owner.Remote?
  {
    c.subid < |j.subids| == MAX_SUBIDS && j.subids[c.subid] && GivenNonce(c) == j.owner.nonce1 + Hex2(c.subid)
  }

  /** The holders' sub-ids are registered and pairwise distinct. */
  predicate IdsOk(cs: seq<Client>, j: Job)
    requires j.owner.Remote?
  {
    && (forall i :: 0 <= i < |cs| && Holds(cs[i], j.id) ==> HoldsRegistered(cs[i], j))
    && (forall i, l :: 0 <= i < l < |cs| && Holds(cs[i], j.id) && Holds(cs[l], j.id) ==> cs[i].subid != cs[l].subid)
  }

  /** What a call does to the sub-id of the client it takes. */
  lemma TakenId(cfg: Config, j: Job, c: Client, maxhash: real)
    requires Assignable(cfg, j, c) && HasSubids(j) && AssignClient(cfg, j, c, maxhash).client != c
    ensures var a := AssignClient(cfg, j, c, maxhash);
            var d := a.client;
            && !c.deleted && d.jobidNext == j.id && !d.deleted && d.subid < MAX_SUBIDS
            && (if c.jobidSent == j.id then d.subid == c.subid &&
                a.job.subids == j.subids && GivenNonce(d) == GivenNonce(c)
                else !j.subids[d.subid] && a.job.subids == j.subids[d.subid := true] &&
                     GivenNonce(d) == j.owner.nonce1 + Hex2(d.subid))
  {
    AssignEffect(cfg, j, c, maxhash);
    if c.jobidSent != j.id {
      AllocationIsFresh(cfg, j, Offer(c, maxhash));
    }
  }

  /** One call keeps the holders' sub-ids registered and distinct. */
  lemma IdsStep(cfg: Config, cs: seq<Client>, j: Job, i: nat, maxhash: real)
    requires i < |cs| && Assignable(cfg, j, cs[i]) && HasSubids(j) && IdsOk(cs, j)
    ensures var a := AssignClient(cfg, j, cs[i], maxhash);
            a.job.owner == j.owner && a.job.id == j.id && IdsOk(cs[i := a.client], a.job)
  {
    var a := AssignClient(cfg, j, cs[i], maxhash);
    AssignEffect(cfg, j, cs[i], maxhash);
    if a.client == cs[i] {
      assert cs[i := a.client] == cs;
    } else {
      TakenId(cfg, j, cs[i], maxhash);
      Replaced(cs, j, i, a.client, a.job);
    }
  }

  /** Client i takes a sub-id that is its own, or that nobody had. */
  lemma Replaced(cs: seq<Client>, j: Job, i: nat, d: Client, k: Job)
    requires i < |cs| && j.owner.Remote? && k.id == j.id && k.owner == j.owner && IdsOk(cs, j)
    requires Registered(j, k) && HoldsRegistered(d, k)
    requires (Holds(cs[i], j.id) && d.subid == cs[i].subid) || (d.subid < |j.subids| && !j.subids[d.subid])
    ensures IdsOk(cs[i := d], k)
  {
  }

  /** From clients cs and job j to ds and k the holders' sub-ids stay registered and distinct. */
  predicate KeepsIds(cs: seq<Client>, j: Job, ds: seq<Client>, k: Job) {
    HasSubids(j) && IdsOk(cs, j) ==> HasSubids(k) && IdsOk(ds, k)
  }

  lemma KeepsIdsStep(cfg: Config, cs: seq<Client>, j: Job, ds: seq<Client>, k: Job, i: nat, maxhash: real)
    requires i < |ds| && Assignable(cfg, k, ds[i]) && KeepsIds(cs, j, ds, k)
    ensures var a := AssignClient(cfg, k, ds[i], maxhash); KeepsIds(cs, j, ds[i := a.client], a.job)
  {
    if HasSubids(j) && IdsOk(cs, j) {
      IdsStep(cfg, ds, k, i, maxhash);
    }
  }

  /** Two live clients on the job then have different nonces. */
  lemma NoncesApart(cs: seq<Client>, j: Job, i: nat, l: nat)
    requires HasSubids(j) && IdsOk(cs, j) && i < l < |cs| && OnJob(cs[i], j.id) && OnJob(cs[l], j.id)
    ensures cs[i].subid != cs[l].subid && GivenNonce(cs[i]) != GivenNonce(cs[l])
  {
    assert HoldsRegistered(cs[i], j) && HoldsRegistered(cs[l], j);
    SuffixesDiffer(j.owner.nonce1, cs[i].subid, cs[l].subid);
  }

  // ----- exactly when one call keeps them distinct -----

  /** The same for those on the job only. */
  predicate OnIdsOk(cs: seq<Client>, j: Job) {
    && (forall i :: 0 <= i < |cs| && OnJob(cs[i], j.id) ==> cs[i].subid < |j.subids| && j.subids[cs[i].subid])
    && (forall i, l :: 0 <= i < l < |cs| && OnJob(cs[i], j.id) && OnJob(cs[l], j.id) ==> cs[i].subid != cs[l].subid)
  }

  /** The client's own sub-id is registered, and nobody on the job has it. */
  predicate KeepsSafely(cs: seq<Client>, j: Job, c: Client) {
    && c.subid < |j.subids| && j.subids[c.subid]
    && forall l :: 0 <= l < |cs| && OnJob(cs[l], j.id) ==> cs[l].subid != c.subid
  }

  /**
   With the sub-ids on the job registered and distinct, a call leaves them so if and only if it
   takes nobody, or allocates, or takes a client that keeps a registered sub-id of its own.
   */
  lemma OnIdsStep(cfg: Config, cs: seq<Client>, j: Job, i: nat, maxhash: real)
    requires i < |cs| && Assignable(cfg, j, cs[i]) && HasSubids(j) && OnIdsOk(cs, j)
    ensures var a := AssignClient(cfg, j, cs[i], maxhash);
            OnIdsOk(cs[i := a.client], a.job) <==>
            a.client == cs[i] || cs[i].jobidSent != j.id || KeepsSafely(cs, j, cs[i])
  {
    var a := AssignClient(cfg, j, cs[i], maxhash);
    AssignEffect(cfg, j, cs[i], maxhash);
    if a.client == cs[i] {
      assert cs[i := a.client] == cs;
    } else {
      TakenId(cfg, j, cs[i], maxhash);
      PutOnJob(cs, j, i, a.client, a.job);
    }
  }

  lemma PutOnJob(cs: seq<Client>, j: Job, i: nat, d: Client, k: Job)
    requires i < |cs| && k.id == j.id && OnIdsOk(cs, j) && OnJob(d, j.id) && !OnJob(cs[i], j.id)
    requires d.subid < |j.subids| == |k.subids| && (k.subids == j.subids || k.subids == j.subids[d.subid := true])
    ensures OnIdsOk(cs[i := d], k) <==>
            k.subids[d.subid] && forall l :: 0 <= l < |cs| && OnJob(cs[l], j.id) ==> cs[l].subid != d.subid
  {
    var ds := cs[i := d];
    if OnIdsOk(ds, k) {
      assert OnJob(ds[i], k.id);
      forall l | 0 <= l < |cs| && OnJob(cs[l], j.id)
        ensures cs[l].subid != d.subid
      {
        assert ds[l] == cs[l];
      }
    }
  }

  // ----- a round in which two clients get one sub-id -----

  /** Job 2 of a remote with nothing registered; a client that was sent it and one that was not. */
  const REMOTE_JOB := Job(2, Remote("81", 4, 1.0, true), false, 1.0, 0.0, 0.0, 0, seq(MAX_SUBIDS, _ => false))
  const SENT_CLIENT := Client(false, 7, 5.0, 0, 2, 2, seq(MAX_HISTORY, _ => 0), true, true, false, 1.0, 0.0, false,
                              0, "8100", 3, "01", 4, "8100", 3, "", 0)
  const OTHER_CLIENT := SENT_CLIENT.(jobidSent := 0, jobidLocked := 0, nonce1 := "01", nonce1Last := "01")

  /**
   Without registration: the client that was sent the job keeps sub-id 0, which the call does not
   register, and the next one is allocated it again, with the same nonce.
   */
  lemma KeptIdGivenAgain(cfg: Config)
    requires cfg.autoexchange
    ensures !IdsOk([SENT_CLIENT, OTHER_CLIENT], REMOTE_JOB)
    ensures var a := AssignClient(cfg, REMOTE_JOB, SENT_CLIENT, -1.0);
            var b := AssignClient(cfg, a.job, OTHER_CLIENT, -1.0);
            && a.client.jobidNext == 2 == b.client.jobidNext && a.client.subid == 0 == b.client.subid
            && GivenNonce(a.client) == GivenNonce(b.client)
  {
    assert Holds(SENT_CLIENT, 2) && !HoldsRegistered(SENT_CLIENT, REMOTE_JOB);
    assert [SENT_CLIENT, OTHER_CLIENT][0] == SENT_CLIENT;
    var a := AssignClient(cfg, REMOTE_JOB, SENT_CLIENT, -1.0);
    assert SubidFor(a.job, OTHER_CLIENT) == 0;
    assert "81" + Hex2(0) == "8100";
  }
}
