/**
 What the jobs' turns of a round leave behind, whichever jobs come later: under which cap a job
 took its clients, whom it left free, and whom it still holds locked.
 */
module Turns {
  import opened Assignment
  import opened Tally
  import opened Round
  import opened StableSort
  import opened PoolState

  /** The job is alive, and its coin or its remote can be mined. */
  predicate MayMine(j: Job, minable: set<int>) {
    && !j.deleted
    && (j.owner.Coin? ==> j.owner.coinId in minable) && (j.owner.Remote? ==> j.owner.ready)
  }

  /** The job's own cap is kept. */
  predicate UnderMax(j: Job) {
    j.maxspeed > 0.0 ==> j.speed <= j.maxspeed
  }

  /** Compared with the start of the round: the speeds are the same, and nobody free has been locked since. */
  predicate Since(start: seq<Client>, cs: seq<Client>) {
    |cs| == |start| &&
    forall i :: 0 <= i < |cs| ==>
      cs[i].speed == start[i].speed &&
      (start[i].jobidLocked == 0 && cs[i].jobidNext == 0 ==> cs[i].jobidLocked == 0)
  }

  /** Whoever was not locked at the start and is free for the job would break its cap. */
  predicate LeftFree(cfg: Config, start: seq<Client>, cs: seq<Client>, j: Job)
    requires |cs| == |start| && (cfg.autoexchange || j.owner.Coin?)
  {
    forall i :: 0 <= i < |cs| && start[i].jobidLocked == 0 ==> LeftOut(cfg, j, cs[i], j.maxspeed)
  }

  /** Nobody is locked to the job without being on it. */
  predicate HoldsOnlyItsOwn(cs: seq<Client>, id: nat) {
    forall i :: 0 <= i < |cs| && !cs[i].deleted && cs[i].jobidLocked == id ==> cs[i].jobidNext == id
  }

  /** The job has had its turn. */
  predicate TurnHad(cfg: Config, start: seq<Client>, cs: seq<Client>, j: Job, minable: set<int>) {
    && MayMine(j, minable) && HoldsOnlyItsOwn(cs, j.id) && |cs| == |start| && (cfg.autoexchange || j.owner.Coin?)
    && (j.owner.Coin? && CapUsedUp(start, j.maxspeed) ==> LeftFree(cfg, start, cs, j))
  }

  /** All these jobs have had their turn. */
  predicate TurnsHad(cfg: Config, start: seq<Client>, cs: seq<Client>, jobs: map<nat, Job>, minable: set<int>,
                     visited: set<nat>) {
    forall v :: v in visited ==> v in jobs && jobs[v].id == v && TurnHad(cfg, start, cs, jobs[v], minable)
  }

  predicate AllUnderMax(jobs: map<nat, Job>, visited: set<nat>) {
    forall v :: v in visited ==> v in jobs && UnderMax(jobs[v])
  }

  // ----- other jobs' turns, and unlocking -----

  lemma SinceGrabbed(start: seq<Client>, cs: seq<Client>, ds: seq<Client>, g: Job)
    requires Since(start, cs) && Grabbed(g, cs, ds) && g.id != 0
    ensures Since(start, ds)
  {
  }

  lemma SinceUnlocked(start: seq<Client>, cs: seq<Client>, ds: seq<Client>, jobid: nat)
    requires Since(start, cs) && |ds| == |cs| && forall i :: 0 <= i < |cs| ==> ds[i] == UnlockOne(cs[i], jobid)
    ensures Since(start, ds)
  {
  }

  lemma SinceNonNegative(start: seq<Client>, cs: seq<Client>, maxhash: real)
    requires Since(start, cs) && CapUsedUp(start, maxhash)
    ensures CapUsedUp(cs, maxhash)
  {
  }

  /** Another job's turn. */
  lemma TurnStays(cfg: Config, start: seq<Client>, cs: seq<Client>, ds: seq<Client>, j: Job, minable: set<int>, g: Job)
    requires TurnHad(cfg, start, cs, j, minable) && Grabbed(g, cs, ds) && g.id != j.id && g.id != 0 && j.id != 0
    ensures TurnHad(cfg, start, ds, j, minable)
  {
    forall i | 0 <= i < |cs|
      ensures !ds[i].deleted && ds[i].jobidLocked == j.id ==> ds[i].jobidNext == j.id
      ensures LeftOut(cfg, j, cs[i], j.maxspeed) ==> LeftOut(cfg, j, ds[i], j.maxspeed)
    {
      assert ds[i] == cs[i] || Taken(g, cs[i], ds[i]);
    }
  }

  lemma TurnStaysUnlocked(cfg: Config, start: seq<Client>, cs: seq<Client>, ds: seq<Client>, j: Job, minable: set<int>,
                          jobid: nat)
    requires TurnHad(cfg, start, cs, j, minable) && Since(start, cs) && j.id != 0
    requires |ds| == |cs| && forall i :: 0 <= i < |cs| ==> ds[i] == UnlockOne(cs[i], jobid)
    ensures TurnHad(cfg, start, ds, j, minable)
  {
    forall i | 0 <= i < |cs| && start[i].jobidLocked == 0
      ensures LeftOut(cfg, j, cs[i], j.maxspeed) ==> LeftOut(cfg, j, ds[i], j.maxspeed)
    {
      assert cs[i].jobidNext == 0 ==> ds[i] == cs[i];
    }
  }

  lemma TurnsStay(cfg: Config, start: seq<Client>, cs: seq<Client>, ds: seq<Client>, js: map<nat, Job>,
                  minable: set<int>,
                  visited: set<nat>, g: Job, k: Job)
    requires TurnsHad(cfg, start, cs, js, minable, visited) && g.id !in visited && g.id in js && g.id != 0 &&
             0 !in visited
    requires Grabbed(g, cs, ds)
    ensures TurnsHad(cfg, start, ds, js[g.id := k], minable, visited)
  {
    forall v | v in visited
      ensures TurnHad(cfg, start, ds, js[g.id := k][v], minable)
    {
      TurnStays(cfg, start, cs, ds, js[v], minable, g);
    }
  }

  lemma TurnsStayUnlocked(cfg: Config, start: seq<Client>, cs: seq<Client>, ds: seq<Client>, jobs: map<nat, Job>,
                          minable: set<int>, visited: set<nat>, jobid: nat)
    requires TurnsHad(cfg, start, cs, jobs, minable, visited) && Since(start, cs) && 0 !in visited
    requires |ds| == |cs| && forall i :: 0 <= i < |cs| ==> ds[i] == UnlockOne(cs[i], jobid)
    ensures TurnsHad(cfg, start, ds, jobs, minable, visited)
  {
    forall v | v in visited
      ensures TurnHad(cfg, start, ds, jobs[v], minable)
    {
      TurnStaysUnlocked(cfg, start, cs, ds, jobs[v], minable, jobid);
    }
  }

  /** A job's own turn: what it has grabbed, whom it left, and then the unlocking. */
  lemma OwnTurn(cfg: Config, start: seq<Client>, ds: seq<Client>, es: seq<Client>, k: Job, minable: set<int>)
    requires Since(start, ds) && MayMine(k, minable) && (cfg.autoexchange || k.owner.Coin?) && k.id != 0
    requires k.owner.Coin? && CapUsedUp(start, k.maxspeed) ==> AllLeftOut(cfg, k, ds, |ds|, k.maxspeed)
    requires |es| == |ds| && forall i :: 0 <= i < |ds| ==> es[i] == UnlockOne(ds[i], k.id)
    ensures TurnHad(cfg, start, es, k, minable)
  {
    forall i | 0 <= i < |ds| && start[i].jobidLocked == 0
      ensures LeftOut(cfg, k, ds[i], k.maxspeed) ==> LeftOut(cfg, k, es[i], k.maxspeed)
    {
      assert ds[i].jobidNext == 0 ==> es[i] == ds[i];
    }
  }

  lemma NotYetVisited(jobs: map<nat, Job>, order: seq<nat>, li: nat, visited: set<nat>)
    requires OrderOk(jobs, order) && li < |order| && forall v :: v in visited ==> v in order[..li]
    ensures order[li] !in visited
  {
  }

  /** After a job's turn and its unlocking, that job has had its turn too. */
  lemma TurnUnlocked(cfg: Config, start: seq<Client>, cs: seq<Client>, ds: seq<Client>, es: seq<Client>,
                     jobs: map<nat, Job>, minable: set<int>, visited: set<nat>, jid: nat)
    requires Since(start, cs) && Since(start, ds) && TurnsHad(cfg, start, ds, jobs, minable, visited) && 0 !in visited
    requires jid in jobs && jobs[jid].id == jid != 0 && MayMine(jobs[jid], minable)
    requires (cfg.autoexchange || jobs[jid].owner.Coin?) && AllUnderMax(jobs, visited) && UnderMax(jobs[jid])
    requires jobs[jid].owner.Coin? && CapUsedUp(cs, jobs[jid].maxspeed) ==>
               AllLeftOut(cfg, jobs[jid], ds, |ds|, jobs[jid].maxspeed)
    requires |es| == |ds| && forall i :: 0 <= i < |ds| ==> es[i] == UnlockOne(ds[i], jid)
    ensures Since(start, es) && TurnsHad(cfg, start, es, jobs, minable, visited + {jid})
    ensures AllUnderMax(jobs, visited + {jid})
  {
    if CapUsedUp(start, jobs[jid].maxspeed) {
      SinceNonNegative(start, cs, jobs[jid].maxspeed);
    }
    OwnTurn(cfg, start, ds, es, jobs[jid], minable);
    TurnsStayUnlocked(cfg, start, ds, es, jobs, minable, visited, jid);
    SinceUnlocked(start, ds, es, jid);
  }

  // ----- the leftover passes -----

  /** A coin's job takes more: it still leaves out whom it left out. */
  lemma MoreTaken(cfg: Config, start: seq<Client>, cs: seq<Client>, j: Job, ds: seq<Client>, k: Job, minable: set<int>)
    requires TurnHad(cfg, start, cs, j, minable) && Since(start, cs) && Grabbed(j, cs, ds) && SameJob(j, k)
    requires NonNegative(cs) ==> j.speed <= k.speed
    requires j.owner.Coin? && j.id != 0
    ensures TurnHad(cfg, start, ds, k, minable)
  {
    forall i | 0 <= i < |cs|
      ensures !ds[i].deleted && ds[i].jobidLocked == j.id ==> ds[i].jobidNext == j.id
    {
      assert ds[i] == cs[i] || Taken(j, cs[i], ds[i]);
    }
    if CapUsedUp(start, j.maxspeed) {
      SinceNonNegative(start, cs, j.maxspeed);
      forall i | 0 <= i < |cs| && start[i].jobidLocked == 0
        ensures LeftOut(cfg, k, ds[i], k.maxspeed)
      {
        LeftOutStays(cfg, j, k, cs[i], j.maxspeed);
        assert ds[i] == cs[i] || Taken(j, cs[i], ds[i]);
      }
    }
  }

  lemma TurnsMore(cfg: Config, start: seq<Client>, cs: seq<Client>, js: map<nat, Job>, j: Job, ds: seq<Client>, k: Job,
                  minable: set<int>, visited: set<nat>)
    requires TurnsHad(cfg, start, cs, js, minable, visited) && Since(start, cs) && Grabbed(j, cs, ds) && SameJob(j, k)
    requires NonNegative(cs) ==> j.speed <= k.speed
    requires j.id in visited && js[j.id] == j && j.owner.Coin? && 0 !in visited
    ensures TurnsHad(cfg, start, ds, js[j.id := k], minable, visited)
  {
    forall v | v in visited
      ensures TurnHad(cfg, start, ds, js[j.id := k][v], minable)
    {
      if v == j.id {
        MoreTaken(cfg, start, cs, j, ds, k, minable);
      } else {
        TurnStays(cfg, start, cs, ds, js[v], minable, j);
      }
    }
  }

  /** Under its own cap, or the job of a minable coin and under the cap of the leftover passes, if that is one. */
  predicate UnderSome(cfg: Config, coins: seq<CoinD>, minable: set<int>, j: Job) {
    UnderMax(j) || exists k :: 0 <= k < |coins| && coins[k].job == j.id && coins[k].id in minable &&
                               (LeftCap(cfg, coins[k].nethash, 1.0) > 0.0 ==>
                                j.speed <= LeftCap(cfg, coins[k].nethash, 1.0))
  }

  predicate AllUnderSome(cfg: Config, coins: seq<CoinD>, minable: set<int>, jobs: map<nat, Job>, visited: set<nat>) {
    forall v :: v in visited ==> v in jobs && jobs[v].id == v && UnderSome(cfg, coins, minable, jobs[v])
  }

  /** A coin's turn in a leftover pass that really offers. */
  lemma UnderSomeMore(cfg: Config, coins: seq<CoinD>, minable: set<int>, li: nat, j: Job, k: Job)
    requires li < |coins| && coins[li].job == j.id && coins[li].id in minable && SameJob(j, k)
    requires UnderSome(cfg, coins, minable, j)
    requires var cap := LeftCap(cfg, coins[li].nethash, 1.0); cap > 0.0 ==> k.speed <= cap || k.speed == j.speed
    ensures UnderSome(cfg, coins, minable, k)
  {
    var cap := LeftCap(cfg, coins[li].nethash, 1.0);
    if cap > 0.0 && k.speed > cap && !UnderMax(j) {
      var l :| 0 <= l < |coins| && coins[l].job == j.id && coins[l].id in minable &&
               (LeftCap(cfg, coins[l].nethash, 1.0) > 0.0 ==> j.speed <= LeftCap(cfg, coins[l].nethash, 1.0));
      assert LeftCap(cfg, coins[l].nethash, 1.0) > 0.0 ==> k.speed <= LeftCap(cfg, coins[l].nethash, 1.0);
    } else if !(cap > 0.0 && k.speed > cap) {
      assert coins[li].job == k.id;
    }
  }

  lemma MaxIsSome(cfg: Config, coins: seq<CoinD>, minable: set<int>, jobs: map<nat, Job>, visited: set<nat>)
    ensures AllUnderMax(jobs, visited) && (forall v :: v in visited && v in jobs ==> jobs[v].id == v) ==>
              AllUnderSome(cfg, coins, minable, jobs, visited)
  {
  }

  /** Without autoexchange the caps of the passes do not depend on the factor. */
  lemma SameCaps(cfg: Config, jobs: map<nat, Job>, minable: set<int>, coins: seq<CoinD>, n: nat, cs: seq<Client>)
    requires !cfg.autoexchange && n <= |coins|
    ensures CoinsDone(cfg, jobs, minable, coins, n, cs, -1.0) <==> CoinsDone(cfg, jobs, minable, coins, n, cs, 1.0)
  {
    assert forall k :: 0 <= k < n ==> LeftCap(cfg, coins[k].nethash, -1.0) == LeftCap(cfg, coins[k].nethash, 1.0);
  }

  /** Resetting next jobs beforehand changes neither locks nor speeds. */
  lemma SinceReset(cfg: Config, start: seq<Client>, cs: seq<Client>, ds: seq<Client>, jobs: map<nat, Job>,
                   minable: set<int>, visited: set<nat>)
    requires |cs| == |start| && forall i :: 0 <= i < |cs| ==> cs[i] == ResetOne(start[i], 0)
    requires Since(cs, ds) && TurnsHad(cfg, cs, ds, jobs, minable, visited)
    ensures Since(start, ds) && TurnsHad(cfg, start, ds, jobs, minable, visited)
  {
    forall v | v in visited
      ensures TurnHad(cfg, start, ds, jobs[v], minable)
    {
      assert TurnHad(cfg, cs, ds, jobs[v], minable);
      assert NonNegative(start) <==> NonNegative(cs) by {
        SameSpeeds(start, cs);
      }
    }
  }

  lemma SameSpeeds(start: seq<Client>, cs: seq<Client>)
    requires |cs| == |start| && forall i :: 0 <= i < |cs| ==> cs[i] == ResetOne(start[i], 0)
    ensures NonNegative(start) <==> NonNegative(cs)
  {
    if NonNegative(cs) {
      forall i | 0 <= i < |start|
        ensures start[i].speed >= 0.0
      {
        assert cs[i].speed == start[i].speed;
      }
    }
  }

  /**
   Passes of factor 1 offer under that cap, passes without a positive one offer nothing; without
   autoexchange all do.
   */
  predicate Offering(cfg: Config, factor: real) {
    !cfg.autoexchange || factor == 1.0 || factor <= 0.0
  }

  lemma AllUnderSomeMore(cfg: Config, coins: seq<CoinD>, minable: set<int>, js: map<nat, Job>, visited: set<nat>,
                         li: nat,
                         factor: real, j: Job, k: Job)
    requires AllUnderSome(cfg, coins, minable, js, visited) && Offering(cfg, factor)
    requires li < |coins| && coins[li].job == j.id && coins[li].id in minable && SameJob(j, k)
    requires j.id in js && js[j.id] == j && (cfg.autoexchange && factor <= 0.0 ==> k == j)
    requires var cap := LeftCap(cfg, coins[li].nethash, factor); cap > 0.0 ==> k.speed <= cap || k.speed == j.speed
    ensures AllUnderSome(cfg, coins, minable, js[j.id := k], visited)
  {
    if j.id in visited {
      if k != j {
        UnderSomeMore(cfg, coins, minable, li, j, k);
      }
    }
  }

  // ----- the order of the turns -----

  /** The list is the old one in a stable rearrangement by profit, highest first. */
  ghost predicate ByProfit(js: map<nat, Job>, was: seq<nat>, order: seq<nat>) {
    && (forall k :: 0 <= k < |was| ==> was[k] in js) && (forall k :: 0 <= k < |order| ==> order[k] in js)
    && NonIncreasing(EntriesOf(js, order)) && Stable(EntriesOf(js, was), EntriesOf(js, order))
  }

  lemma ByProfitSame(js: map<nat, Job>, ks: map<nat, Job>, was: seq<nat>, order: seq<nat>)
    requires ByProfit(js, was, order) && SameJobs(js, ks)
    ensures ByProfit(ks, was, order)
  {
    assert EntriesOf(ks, order) == EntriesOf(js, order) && EntriesOf(ks, was) == EntriesOf(js, was);
  }
}
