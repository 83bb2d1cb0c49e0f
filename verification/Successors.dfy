/**
 A remote's new job with unchanged difficulty and nonce, remote.cpp: what becomes of the clients
 of the old one.
 */
module Successors {
  import opened Assignment
  import opened Tally
  import opened Subids
  import opened PoolState
  import opened LockedClients

  /** Whoever was locked to the old job is on the new one and locked to it; nobody else changes. */
  function MovedOver(c: Client, was: nat, id: nat): Client {
    if c.jobidLocked == was then c.(jobidLocked := id, jobidNext := id) else c
  }

  /** No client carries the id yet. */
  predicate Unseen(cs: seq<Client>, id: nat) {
    forall i :: 0 <= i < |cs| ==> cs[i].jobidNext != id && cs[i].jobidLocked != id && cs[i].jobidSent != id
  }

  /** An id not handed out yet. */
  lemma FreshId(jobs: map<nat, Job>, nextId: nat, cs: seq<Client>)
    requires ClientsOk(jobs, nextId, cs)
    ensures Unseen(cs, nextId + 1)
  {
    forall i | 0 <= i < |cs|
      ensures cs[i].jobidNext != nextId + 1 && cs[i].jobidLocked != nextId + 1 && cs[i].jobidSent != nextId + 1
    {
      assert ClientFits(jobs, nextId, cs[i]);
    }
  }

  predicate AllMoved(cs: seq<Client>, es: seq<Client>, was: nat, id: nat) {
    |es| == |cs| && forall i :: 0 <= i < |cs| ==> es[i] == MovedOver(cs[i], was, id)
  }

  lemma MovedAre(cs: seq<Client>, ds: seq<Client>, es: seq<Client>, was: nat, id: nat)
    requires was != 0 && id != 0 && Unseen(cs, id) && AllRelocked(cs, ds, was, id) && PutOn(ds, es, id)
    ensures AllMoved(cs, es, was, id)
    ensures forall i :: 0 <= i < |cs| ==> (ds[i].jobidLocked == id <==> cs[i].jobidLocked == was)
    ensures forall i :: 0 <= i < |cs| ==> ds[i].jobidNext != id && ds[i].deleted == cs[i].deleted
  {
  }

  lemma {:induction false} RelockedCount(cs: seq<Client>, ds: seq<Client>, was: nat, id: nat)
    requires |ds| == |cs| && forall i :: 0 <= i < |cs| ==> ds[i].speed == cs[i].speed
    requires forall i :: 0 <= i < |cs| ==> (ds[i].jobidLocked == id <==> cs[i].jobidLocked == was)
    ensures CountLocked(ds, id) == CountLocked(cs, was) && SpeedLocked(ds, id) == SpeedLocked(cs, was)
  {
    if cs != [] {
      RelockedCount(cs[..|cs| - 1], ds[..|cs| - 1], was, id);
    }
  }

  /** The new job counts those that moved over, and is tallied exactly when none of them is deleted. */
  lemma SuccessorTally(cs: seq<Client>, ds: seq<Client>, es: seq<Client>, was: nat, k: Job)
    requires was != 0 && k.id != 0 && Unseen(cs, k.id) && AllRelocked(cs, ds, was, k.id) && PutOn(ds, es, k.id)
    requires k.count == CountLocked(ds, k.id) && k.speed == SpeedLocked(ds, k.id)
    ensures AllMoved(cs, es, was, k.id)
    ensures k.count == CountLocked(cs, was) && k.speed == SpeedLocked(cs, was)
    ensures Tallied(es, k) <==> forall i :: 0 <= i < |cs| && cs[i].jobidLocked == was ==> !cs[i].deleted
  {
    MovedAre(cs, ds, es, was, k.id);
    RelockedCount(cs, ds, was, k.id);
    NewLockedTally(ds, es, k);
  }

  /** The new job tells its clients apart as the old one did. */
  predicate SameNonces(j: Job, k: Job) {
    HasSubids(j) && HasSubids(k) && k.owner.nonce1 == j.owner.nonce1
  }

  /** Under the lock law, sub-ids that were registered and distinct on the old job are so on its successor. */
  predicate StillDistinct(cs: seq<Client>, js: map<nat, Job>, was: nat, es: seq<Client>, k: Job) {
    was in js && SameNonces(js[was], k) && LocksOk(cs) && IdsOk(cs, js[was]) ==> HasSubids(k) && IdsOk(es, k)
  }

  lemma IdsMoveOver(cs: seq<Client>, ds: seq<Client>, es: seq<Client>, j: Job, k: Job)
    requires j.id != 0 && k.id != 0 && Unseen(cs, k.id)
    requires AllRelocked(cs, ds, j.id, k.id) && AllMoved(cs, es, j.id, k.id)
    requires JobOk(k) && IdsRegistered(ds, |ds|, k) && SameNonces(j, k) && LocksOk(cs) && IdsOk(cs, j)
    ensures IdsOk(es, k)
  {
    forall i | 0 <= i < |es| && Holds(es[i], k.id)
      ensures Holds(cs[i], j.id) && es[i].subid == cs[i].subid && HoldsRegistered(es[i], k)
    {
      assert LockLaw(cs[i]) && cs[i].jobidLocked == j.id;
      assert HoldsRegistered(cs[i], j);
      assert ds[i].jobidLocked == k.id;
    }
  }

  lemma StillDistinctIds(cs: seq<Client>, ds: seq<Client>, es: seq<Client>, js: map<nat, Job>, was: nat, k: Job)
    requires was != 0 && k.id != 0 && Unseen(cs, k.id) && AllRelocked(cs, ds, was, k.id) && AllMoved(cs, es, was, k.id)
    requires JobOk(k) && IdsRegistered(ds, |ds|, k) && (was in js ==> js[was].id == was)
    ensures StillDistinct(cs, js, was, es, k)
  {
    if was in js && SameNonces(js[was], k) && LocksOk(cs) && IdsOk(cs, js[was]) {
      IdsMoveOver(cs, ds, es, js[was], k);
    }
  }

  /** No sequence of calls on job k hands out the sub-id of a client that was locked to `was`. */
  ghost predicate NeverGiven(cfg: Config, cs: seq<Client>, was: nat, k: Job) {
    forall os, i, a :: Offers(cfg, k, os) && 0 <= i < |cs| && cs[i].jobidLocked == was &&
                           0 <= a < |Allocated(cfg, k, os)| ==>
                         Allocated(cfg, k, os)[a] != cs[i].subid
  }

  lemma MovedIdsKept(cfg: Config, cs: seq<Client>, ds: seq<Client>, was: nat, k: Job)
    requires was != 0 && k.id != 0 && AllRelocked(cs, ds, was, k.id) && IdsRegistered(ds, |ds|, k)
    ensures NeverGiven(cfg, cs, was, k)
  {
    forall os, i, a | Offers(cfg, k, os) && 0 <= i < |cs| && cs[i].jobidLocked == was &&
                      0 <= a < |Allocated(cfg, k, os)|
      ensures Allocated(cfg, k, os)[a] != cs[i].subid
    {
      LockedIdsKept(cfg, ds, k, os, i, a);
    }
  }
}
