/**
 The job scheduler: `job_update` of job.cpp with the helper loops of job_core.cpp, the job
 creations that run between updates, and `job_broadcast` of job_send.cpp. Each method is one
 atomic step on the pool; jobs are kept by id, as the code's pointers and ids go together.
 */
module Scheduler {
  import opened Assignment
  import opened Tally
  import opened Subids
  import opened Round
  import opened StableSort
  import opened PoolState
  import opened Turns
  import opened LockedClients
  import opened Connections
  import opened Successors
  import CommonLists

  class Pool {
    const cfg: Config
    var clients: seq<Client>
    var jobs: map<nat, Job>
    var order: seq<nat>
    var coins: seq<CoinD>
    var minable: set<int>
    var nextId: nat

    ghost predicate Valid()
      reads this
    {
      && JobsOk(cfg, jobs, nextId)
      && ClientsOk(jobs, nextId, clients)
      && OrderOk(jobs, order)
      && CoinsOk(jobs, order, coins)
    }

    constructor (cfg: Config)
      ensures Valid() && this.cfg == cfg && clients == [] && jobs == map[] && nextId == 0
    {
      this.cfg := cfg;
      clients, jobs, order, coins, minable, nextId := [], map[], [], [], {}, 0;
    }

    // ----- clients, coins and jobs coming and going -----

    /**
     A client connects (client.cpp); `peer` is the place of the earlier connection with its notify id,
     |clients| if there is none.
     */
    method Connect(coinid: int, nonce1: string, difficulty: real, subscribe: bool, reconnectable: bool, fixed: bool,
                   peer: nat)
      requires Valid()
      modifies this`clients
      ensures Valid() && |clients| == |old(clients)| + 1 && clients[..|old(clients)|] == old(clients)
      ensures var c := NewClient(cfg, coinid, nonce1, difficulty, subscribe, reconnectable, fixed);
              var d := Settle(if peer < |old(clients)| then Rejoined(c, old(clients)[peer]) else c);
              clients[|old(clients)|] == d.(jobidSent := FirstSent(jobs, order, minable, d))
    {
      var c := NewClient(cfg, coinid, nonce1, difficulty, subscribe, reconnectable, fixed);
      if peer < |clients| {
        assert ClientFits(jobs, nextId, clients[peer]);
        RejoinedFits(cfg, jobs, nextId, c, clients[peer]);
        c := Rejoined(c, clients[peer]);
      }
      var d := Settle(c);
      d := d.(jobidSent := FirstSent(jobs, order, minable, d));
      ghost var cs := clients;
      clients := clients + [d];
      forall i | 0 <= i < |clients|
        ensures ClientFits(jobs, nextId, clients[i])
      {
        assert i < |cs| ==> ClientFits(jobs, nextId, cs[i]);
      }
    }

    /** `object_delete` of a client. */
    method Disconnect(i: nat)
      requires Valid() && i < |clients|
      modifies this`clients
      ensures Valid() && clients == old(clients)[i := old(clients)[i].(deleted := true)]
      ensures KeepsAllIds(jobs, old(clients), clients)
    {
      assert forall k :: 0 <= k < |clients| ==> ClientFits(jobs, nextId, clients[k]);
      FewerHolders(cfg, jobs, nextId, clients, clients[i := clients[i].(deleted := true)]);
      clients := clients[i := clients[i].(deleted := true)];
    }

    /** `object_prune` of the client list; `held` are those whose lock count is not zero. */
    method PruneClients(held: set<nat>)
      requires Valid()
      modifies this`clients
      ensures Valid() && clients == KeptClients(old(clients), held)
    {
      var kept := [];
      for li := 0 to |clients|
        invariant kept == KeptClients(clients[..li], held)
        invariant ClientsOk(jobs, nextId, kept) && clients == old(clients)
      {
        assert clients[..li + 1][..li] == clients[..li] && ClientFits(jobs, nextId, clients[li]);
        if !(clients[li].deleted && li !in held) {
          kept := kept + [clients[li]];
        }
      }
      assert clients[..|clients|] == clients;
      clients := kept;
    }

    /** `object_prune` of the job list; `held` are those whose lock count is not zero. */
    method PruneJobs(held: set<nat>)
      requires Valid()
      modifies this`jobs, this`order
      ensures Valid() && jobs == KeptJobs(old(jobs), held) && order == KeptOrder(old(jobs), old(order), held)
    {
      PrunedFits(cfg, jobs, nextId, clients, order, coins, held);
      var kept := [];
      for li := 0 to |order|
        invariant kept == KeptOrder(jobs, order[..li], held) && jobs == old(jobs) && order == old(order)
      {
        assert order[..li + 1][..li] == order[..li];
        if JobStays(jobs, held, order[li]) {
          kept := kept + [order[li]];
        }
      }
      assert order[..|order|] == order;
      jobs, order := KeptJobs(jobs, held), kept;
    }

    /** A coin is loaded; it has no job yet. */
    method LoadCoin(id: int, nethash: real)
      requires Valid() && forall k :: 0 <= k < |coins| ==> coins[k].id != id
      modifies this`coins
      ensures Valid() && coins == old(coins) + [CoinD(id, nethash, 0)]
    {
      assert forall k :: 0 <= k < |coins| ==> CoinFits(jobs, order, coins[k]);
      coins := coins + [CoinD(id, nethash, 0)];
    }

    /** The verdicts of `coind_can_mine` change. */
    method SetMinable(coinids: set<int>)
      requires Valid()
      modifies this`minable
      ensures Valid() && minable == coinids
    {
      minable := coinids;
    }

    // ----- the helper loops of job_core.cpp -----

    /** `job_reset_clients`: of one job, or of all when jobid is 0 (a null job). */
    method ResetClients(jobid: nat)
      requires Valid()
      modifies this`clients
      ensures Valid() && |clients| == |old(clients)|
      ensures forall i :: 0 <= i < |clients| ==> clients[i] == ResetOne(old(clients)[i], jobid)
      ensures KeepsAllIds(jobs, old(clients), clients)
    {
      var li := 0;
      while li < |clients|
        invariant 0 <= li <= |clients| == |old(clients)|
        invariant forall i :: 0 <= i < li ==> clients[i] == ResetOne(old(clients)[i], jobid)
        invariant forall i :: li <= i < |clients| ==> clients[i] == old(clients)[i]
      {
        var client := clients[li];
        if !client.deleted && (jobid == 0 || jobid == client.jobidNext) {
          clients := clients[li := client.(jobidNext := 0)];
        }
        li := li + 1;
      }
      assert forall i :: 0 <= i < |clients| ==> ClientFits(jobs, nextId, old(clients)[i]);
      FewerHolders(cfg, jobs, nextId, old(clients), clients);
    }

    /** `job_unlock_clients`: of one job, or of all when jobid is 0. */
    method UnlockClients(jobid: nat)
      requires Valid()
      modifies this`clients
      ensures Valid() && |clients| == |old(clients)|
      ensures forall i :: 0 <= i < |clients| ==> clients[i] == UnlockOne(old(clients)[i], jobid)
      ensures KeepsAllIds(jobs, old(clients), clients)
    {
      var li := 0;
      while li < |clients|
        invariant 0 <= li <= |clients| == |old(clients)|
        invariant forall i :: 0 <= i < li ==> clients[i] == UnlockOne(old(clients)[i], jobid)
        invariant forall i :: li <= i < |clients| ==> clients[i] == old(clients)[i]
      {
        var client := clients[li];
        if !client.deleted && client.jobidLocked != 0 && client.jobidLocked != client.jobidNext &&
           (jobid == 0 || client.jobidLocked == jobid) {
          clients := clients[li := client.(jobidLocked := 0)];
        }
        li := li + 1;
      }
      assert forall i :: 0 <= i < |clients| ==> ClientFits(jobs, nextId, old(clients)[i]);
      FewerHolders(cfg, jobs, nextId, old(clients), clients);
    }

    /** `job_has_free_client`. */
    method HasFreeClient() returns (free: bool)
      ensures free <==> !NobodyFree(clients)
    {
      var li := 0;
      while li < |clients|
        invariant 0 <= li <= |clients|
        invariant forall i :: 0 <= i < li ==> !OnJob(clients[i], 0)
      {
        if !clients[li].deleted && clients[li].jobidNext == 0 {
          return true;
        }
        li := li + 1;
      }
      return false;
    }

    /** `job_assign_clients` on the pool. */
    method AssignJob(jid: nat, maxhash: real)
      requires Valid() && jid in jobs
      modifies this`clients, this`jobs
      ensures Valid() && jid in jobs && jobs == old(jobs)[jid := jobs[jid]]
      ensures SameJob(old(jobs[jid]), jobs[jid]) && Grabbed(old(jobs[jid]), old(clients), clients)
      ensures KeepsIds(old(clients), old(jobs[jid]), clients, jobs[jid])
      ensures (forall i :: 0 <= i < |old(clients)| ==> !OnJob(old(clients)[i], jid)) ==> Tallied(clients, jobs[jid])
      ensures maxhash > 0.0 ==> jobs[jid].speed <= maxhash
      ensures jobs[jid].owner.Coin? && CapUsedUp(old(clients), maxhash) ==>
                AllLeftOut(cfg, jobs[jid], clients, |clients|, maxhash)
      ensures Ready(cfg, old(jobs[jid]), old(clients)) && old(jobs[jid]).id > 0
      ensures var r := FourPasses(cfg, old(jobs[jid]).(speed := 0.0, count := 0), old(clients), maxhash);
              clients == r.clients && jobs[jid] == r.job
    {
      ReadyFor(cfg, jobs, nextId, clients, jid);
      var ds, k := AssignClients(cfg, clients, jobs[jid], maxhash);
      GrabbedFits(jobs, nextId, jobs[jid], k, clients, ds);
      JobReplaced(cfg, jobs, nextId, order, coins, jid, k);
      clients, jobs := ds, jobs[jid := k];
    }

    /** `job_sort` on the job list. */
    method SortJobs()
      requires Valid()
      modifies this`order
      ensures Valid() && forall x :: x in order <==> x in old(order)
      ensures ByProfit(jobs, old(order), order)
    {
      var sorted := CommonLists.Sorted(EntriesOf(jobs, order));
      var o := IdsOf(sorted);
      SortedOrder(jobs, order, sorted);
      CoinsReordered(jobs, order, o, coins);
      order := o;
    }

    /** One job's turn in a settled round. */
    method SettleByVisit(jid: nat, ghost visited: set<nat>)
      requires Valid() && Settled(jobs, clients, visited) && jid in jobs && jid != 0 && !jobs[jid].deleted
      requires forall i :: 0 <= i < |clients| ==> !OnJob(clients[i], jid)
      modifies this`clients, this`jobs
      ensures Valid() && Settled(jobs, clients, visited + {jid}) && |clients| == |old(clients)|
      ensures SameJobs(old(jobs), jobs) && jobs == old(jobs)[jid := jobs[jid]] &&
              Grabbed(old(jobs)[jid], old(clients), clients)
      ensures UnderMax(jobs[jid])
      ensures jobs[jid].owner.Coin? && CapUsedUp(old(clients), jobs[jid].maxspeed) ==>
                AllLeftOut(cfg, jobs[jid], clients, |clients|, jobs[jid].maxspeed)
    {
      ghost var cs, js := clients, jobs;
      AssignJob(jid, jobs[jid].maxspeed);
      SettleVisit(js, cs, visited, js[jid], clients, jobs[jid]);
    }

    /** Unlocking changes no next job, so the round stays settled; unlocking all gives the lock law. */
    method UnlockSettled(jid: nat, ghost visited: set<nat>)
      requires Valid() && Settled(jobs, clients, visited)
      modifies this`clients
      ensures Valid() && Settled(jobs, clients, visited) && |clients| == |old(clients)|
      ensures forall i :: 0 <= i < |clients| ==> clients[i] == UnlockOne(old(clients)[i], jid)
      ensures jid == 0 ==> LocksOk(clients)
    {
      UnlockClients(jid);
      SettledSame(jobs, old(clients), clients, visited);
    }

    /** The jobs that had their turn since the start of the round. */
    ghost predicate Underway(start: seq<Client>, visited: set<nat>)
      reads this
    {
      && 0 !in visited && Since(start, clients) && TurnsHad(cfg, start, clients, jobs, minable, visited)
      && AllUnderMax(jobs, visited)
    }

    /** One turn of the job loop: assign, then unlock whoever was locked to the job in vain. */
    method VisitJob(jid: nat, ghost visited: set<nat>, ghost li: nat, ghost start: seq<Client>)
      returns (ghost after: set<nat>)
      requires Valid() && li < |order| && jid == order[li] && Settled(jobs, clients, visited)
      requires MayMine(jobs[jid], minable) && Underway(start, visited)
      requires forall v :: v in visited ==> v in order[..li]
      modifies this`clients, this`jobs
      ensures Valid() && after == visited + {jid} && Settled(jobs, clients, after) && |clients| == |old(clients)|
      ensures SameJobs(old(jobs), jobs) && Underway(start, after)
    {
      after := visited + {jid};
      ghost var cs, js := clients, jobs;
      NobodyOn(jobs, clients, visited, order, li);
      NotYetVisited(jobs, order, li, visited);
      SettleByVisit(jid, visited);
      ghost var ds := clients;
      SinceGrabbed(start, cs, ds, js[jid]);
      TurnsStay(cfg, start, cs, ds, js, minable, visited, js[jid], jobs[jid]);
      UnlockSettled(jid, after);
      TurnUnlocked(cfg, start, cs, ds, clients, jobs, minable, visited, jid);
    }

    /** The body of the job loop: whether it ends here. */
    method VisitNext(li: nat, ghost visited: set<nat>, ghost start: seq<Client>)
      returns (ghost after: set<nat>, done: bool)
      requires Valid() && li < |order| && Settled(jobs, clients, visited) && Underway(start, visited)
      requires TurnsTaken(jobs, order, li, minable, visited)
      modifies this`clients, this`jobs
      ensures Valid() && Settled(jobs, clients, after) && |clients| == |old(clients)| && SameJobs(old(jobs), jobs)
      ensures TurnsTaken(jobs, order, li + 1, minable, after) && Underway(start, after)
      ensures done ==> NobodyFree(clients) && order[li] in after
    {
      ghost var js := jobs;
      after, done := visited, false;
      var jid := order[li];
      if CanMine(jobs[jid], minable) {
        after := VisitJob(jid, visited, li, start);
        var free := HasFreeClient();
        done := !free;
      }
      TurnTaken(js, jobs, order, li, minable, visited, after);
    }

    /**
     The job loop of `job_update`: every minable job in turn, until nobody is free. The first n
     jobs of the order had their turn; the loop ends early only after a turn that left nobody free.
     Every job that had its turn is under its own cap and has left free only whom that cap forbids.
     */
    method VisitJobs() returns (ghost visited: set<nat>, ghost n: nat)
      requires Valid() && forall i :: 0 <= i < |clients| ==> clients[i].deleted || clients[i].jobidNext == 0
      modifies this`clients, this`jobs
      ensures Valid() && Settled(jobs, clients, visited) && |clients| == |old(clients)|
      ensures SameJobs(old(jobs), jobs) && Underway(old(clients), visited)
      ensures n <= |order| && AllVisited(jobs, order[..n], minable, visited)
      ensures n < |order| ==> NobodyFree(clients) && n > 0 && order[n - 1] in visited
    {
      visited := {};
      ghost var start := clients;
      var li := 0;
      while li < |order|
        invariant Valid() && 0 <= li <= |order| && Settled(jobs, clients, visited) && |clients| == |old(clients)|
        invariant SameJobs(old(jobs), jobs) && Underway(start, visited)
        invariant TurnsTaken(jobs, order, li, minable, visited)
      {
        var done;
        visited, done := VisitNext(li, visited, start);
        li := li + 1;
        if done {
          n := li;
          return;
        }
      }
      n := |order|;
    }

    /** One coin's turn of the leftover passes. */
    method OfferLeft(coind: CoinD, ghost li: nat, factor: real, ghost start: real, ghost visited: set<nat>)
      returns (f: real)
      requires Valid() && Settled(jobs, clients, visited) && li < |coins| && coins[li] == coind
      requires coind.job != 0 && coind.job in visited && LocksOk(clients) && (cfg.autoexchange ==> factor == start)
      modifies this`clients, this`jobs
      ensures Valid() && Settled(jobs, clients, visited) && SameJobs(old(jobs), jobs) && |clients| == |old(clients)|
      ensures LocksOk(clients) && (cfg.autoexchange ==> f == start)
      ensures coind.job in old(jobs) && coind.job in jobs && jobs == old(jobs)[coind.job := jobs[coind.job]]
      ensures Grabbed(old(jobs)[coind.job], old(clients), clients)
      ensures CapKept(old(jobs), jobs, coind.job, LeftCap(cfg, coind.nethash, start))
      ensures SameJob(old(jobs)[coind.job], jobs[coind.job])
      ensures NonNegative(old(clients)) ==> old(jobs)[coind.job].speed <= jobs[coind.job].speed
      ensures cfg.autoexchange && start <= 0.0 ==> clients == old(clients) && jobs[coind.job] == old(jobs)[coind.job]
      ensures (cfg.autoexchange ==> start > 0.0) && NonNegative(old(clients)) ==>
                CoinDone(cfg, jobs, minable, coind, clients, LeftCap(cfg, coind.nethash, start))
    {
      assert CoinFits(jobs, order, coind);
      ReadyFor(cfg, jobs, nextId, clients, coind.job);
      var j := jobs[coind.job];
      ghost var cap := LeftCap(cfg, coind.nethash, start);
      var ds, k;
      ds, k, f := AssignLeft(cfg, clients, j, coind.id, coind.nethash, factor, cap);
      SettleVisit(jobs, clients, visited, j, ds, k);
      assert visited + {coind.job} == visited;
      GrabbedFits(jobs, nextId, j, k, clients, ds);
      JobReplaced(cfg, jobs, nextId, order, coins, coind.job, k);
      clients, jobs := ds, jobs[coind.job := k];
    }

    /** Before coin li's turn: js are the jobs as they were at first. */
    ghost predicate LeftAt(li: nat, factor: real, js: map<nat, Job>, full: bool)
      reads this
    {
      && li <= |coins| && CapsKept(cfg, js, jobs, coins, factor) && UntouchedFrom(js, jobs, coins, li)
      && (full ==> NonNegative(clients) && CoinsDone(cfg, jobs, minable, coins, li, clients, factor))
    }

    /** The turns stay had, and every job is under its own cap or that of the passes. */
    ghost predicate Carried(begun: seq<Client>, visited: set<nat>)
      reads this
    {
      && 0 !in visited && Since(begun, clients) && TurnsHad(cfg, begun, clients, jobs, minable, visited)
      && AllUnderSome(cfg, coins, minable, jobs, visited)
    }

    /** One coin's turn leaves all turns had. */
    method CarryTurn(li: nat, f: real, ghost factor: real, ghost visited: set<nat>, ghost begun: seq<Client>)
      returns (g: real)
      requires Valid() && Settled(jobs, clients, visited) && LocksOk(clients) && CoinsVisited(coins, minable, visited)
      requires li < |coins| && coins[li].id in minable && coins[li].job != 0 && (cfg.autoexchange ==> f == factor)
      modifies this`clients, this`jobs
      ensures Valid() && Settled(jobs, clients, visited) && LocksOk(clients) && |clients| == |old(clients)|
      ensures SameJobs(old(jobs), jobs) && (cfg.autoexchange ==> g == factor)
      ensures var id := coins[li].job;
              && id in old(jobs) && id in jobs && jobs == old(jobs)[id := jobs[id]]
              && Grabbed(old(jobs)[id], old(clients), clients)
      ensures CapKept(old(jobs), jobs, coins[li].job, LeftCap(cfg, coins[li].nethash, factor))
      ensures cfg.autoexchange && factor <= 0.0 ==> clients == old(clients) && jobs == old(jobs)
      ensures (cfg.autoexchange ==> factor > 0.0) && NonNegative(old(clients)) ==>
                CoinDone(cfg, jobs, minable, coins[li], clients, LeftCap(cfg, coins[li].nethash, factor))
      ensures old(Carried(begun, visited)) && Offering(cfg, factor) ==> Carried(begun, visited)
    {
      ghost var js, cs, id := jobs, clients, coins[li].job;
      assert CoinFits(jobs, order, coins[li]);
      g := OfferLeft(coins[li], li, f, factor, visited);
      if old(Carried(begun, visited)) && Offering(cfg, factor) {
        SinceGrabbed(begun, cs, clients, js[id]);
        TurnsMore(cfg, begun, cs, js, js[id], clients, jobs[id], minable, visited);
        AllUnderSomeMore(cfg, coins, minable, js, visited, li, factor, js[id], jobs[id]);
      }
    }

    /** The body of the loop over the coins. */
    method LeftTurn(li: nat, f: real, ghost factor: real, ghost visited: set<nat>, ghost js: map<nat, Job>,
                    ghost full: bool, ghost begun: seq<Client>)
      returns (g: real)
      requires Valid() && Settled(jobs, clients, visited) && LocksOk(clients) && CoinsVisited(coins, minable, visited)
      requires li < |coins| && LeftAt(li, factor, js, full) && (cfg.autoexchange ==> f == factor)
      requires full ==> (cfg.autoexchange ==> factor > 0.0)
      modifies this`clients, this`jobs
      ensures Valid() && Settled(jobs, clients, visited) && LocksOk(clients) && |clients| == |old(clients)|
      ensures SameJobs(old(jobs), jobs) && LeftAt(li + 1, factor, js, full) && (cfg.autoexchange ==> g == factor)
      ensures cfg.autoexchange && factor <= 0.0 ==> clients == old(clients) && jobs == old(jobs)
      ensures old(Carried(begun, visited)) && Offering(cfg, factor) ==> Carried(begun, visited)
    {
      g := f;
      var coind := coins[li];
      if coind.id in minable && coind.job != 0 {
        ghost var ks, cs := jobs, clients;
        g := CarryTurn(li, f, factor, visited, begun);
        CapsTurn(cfg, js, ks, order, coins, li, factor, jobs[coind.job]);
        if full {
          GrabbedNonNegative(ks[coind.job], cs, clients);
          CoinTurn(cfg, ks, order, minable, coins, li, cs, factor, ks[coind.job], clients, jobs[coind.job]);
        }
      }
    }

    /**
     `job_assign_clients_left`: offer whoever is still free to each minable coin's job. With nobody
     free nothing happens; a cap that a coin's job kept stays kept; and with a positive factor and
     nonnegative speeds, either nobody is free or no coin's job could still take anybody.
     */
    method AssignClientsLeft(factor: real, ghost visited: set<nat>, ghost begun: seq<Client>)
      requires Valid() && Settled(jobs, clients, visited) && LocksOk(clients)
      requires NobodyFree(clients) || CoinsVisited(coins, minable, visited)
      modifies this`clients, this`jobs
      ensures Valid() && Settled(jobs, clients, visited) && SameJobs(old(jobs), jobs) && |clients| == |old(clients)|
      ensures LocksOk(clients) && (NobodyFree(clients) || CoinsVisited(coins, minable, visited))
      ensures NobodyFree(old(clients)) ==> clients == old(clients) && jobs == old(jobs)
      ensures CapsKept(cfg, old(jobs), jobs, coins, factor)
      ensures (cfg.autoexchange ==> factor > 0.0) && NonNegative(old(clients)) ==>
                NobodyFree(clients) || CoinsDone(cfg, jobs, minable, coins, |coins|, clients, factor)
      ensures cfg.autoexchange && factor <= 0.0 ==> clients == old(clients) && jobs == old(jobs)
      ensures old(Carried(begun, visited)) && Offering(cfg, factor) ==> Carried(begun, visited)
    {
      ghost var full := (cfg.autoexchange ==> factor > 0.0) && NonNegative(clients);
      ghost var js := jobs;
      var f := factor;
      var li := 0;
      while li < |coins|
        invariant Valid() && Settled(jobs, clients, visited) && LocksOk(clients) && |clients| == |old(clients)|
        invariant 0 <= li <= |coins| && LeftAt(li, factor, js, full)
        invariant SameJobs(js, jobs) && (cfg.autoexchange ==> f == factor)
        invariant NobodyFree(clients) || CoinsVisited(coins, minable, visited)
        invariant NobodyFree(old(clients)) ==> clients == old(clients) && jobs == js
        invariant cfg.autoexchange && factor <= 0.0 ==> clients == old(clients) && jobs == js
        invariant old(Carried(begun, visited)) && Offering(cfg, factor) ==> Carried(begun, visited)
      {
        var free := HasFreeClient();
        if !free {
          return;
        }
        f := LeftTurn(li, f, factor, visited, js, full, begun);
        li := li + 1;
      }
    }

    /** `coind_create_job` with force: the old job is marked deleted and a new one listed at the end. */
    method CreateCoinJob(k: nat, profit: real, maxspeed: real)
      requires Valid() && k < |coins|
      modifies this`jobs, this`order, this`coins, this`nextId
      ensures Valid() && nextId == old(nextId) + 1 && order == old(order) + [nextId]
      ensures coins == old(coins)[k := old(coins[k]).(job := nextId)]
      ensures jobs ==
              Retired(old(jobs), old(coins[k].job))[nextId := NewJob(nextId, Coin(old(coins[k].id)), profit, maxspeed)]
    {
      var id := nextId + 1;
      NewJobFits(cfg, jobs, nextId, clients, order, coins, k, profit, maxspeed);
      jobs := Retired(jobs, coins[k].job)[id := NewJob(id, Coin(coins[k].id), profit, maxspeed)];
      order := order + [id];
      coins := coins[k := coins[k].(job := id)];
      nextId := id;
    }

    /** The uncapped assignment of the last resort. */
    method AssignLast(jid: nat, ghost kept: set<nat>, ghost created: bool)
      requires Valid() && jid in jobs && jobs[jid].owner.Coin? && !jobs[jid].deleted && Settled(jobs, clients, kept)
      requires LocksOk(clients) && forall i :: 0 <= i < |clients| ==> !OnJob(clients[i], jid)
      requires created ==> forall i :: 0 <= i < |clients| ==> !InHistory(clients[i], jid, 1)
      modifies this`clients, this`jobs
      ensures Valid() && |clients| == |old(clients)|
      ensures Settled(jobs, clients, kept + {jid}) && SameJobs(old(jobs), jobs)
      ensures LocksOk(clients) && (created ==> NobodyFree(clients)) && jobs == old(jobs)[jid := jobs[jid]]
    {
      ghost var cs, js := clients, jobs;
      AssignJob(jid, -1.0);
      SettleVisit(js, cs, kept, js[jid], clients, jobs[jid]);
      if created {
        EverybodyTaken(cfg, js[jid], jobs[jid], cs, clients);
      }
    }

    /** The first coin's job lets go of its clients. */
    method ResetForLast(was: nat, ghost visited: set<nat>)
      requires Valid() && Settled(jobs, clients, visited) && LocksOk(clients)
      requires was != 0 && was in jobs && jobs[was].owner.Coin?
      modifies this`clients
      ensures Valid() && Settled(jobs, clients, visited - {was}) && LocksOk(clients) && |clients| == |old(clients)|
      ensures forall i :: 0 <= i < |clients| ==> !OnJob(clients[i], was)
    {
      ghost var cs := clients;
      ResetClients(was);
      SettledReset(jobs, cs, clients, visited, was);
      LocksAfterReset(jobs, nextId, cs, clients, was);
    }

    /** A fresh job for the first coin, if its creation succeeds; nobody has seen it. */
    method RenewFirst(created: bool, profit: real, maxspeed: real, ghost kept: set<nat>)
      requires Valid() && Settled(jobs, clients, kept) && coins != [] && coins[0].job != 0 && coins[0].job !in kept
      requires forall i :: 0 <= i < |clients| ==> !OnJob(clients[i], coins[0].job)
      modifies this`jobs, this`order, this`coins, this`nextId
      ensures Valid() && Settled(jobs, clients, kept) && coins != [] && coins[0].job in jobs && coins[0].job != 0
      ensures jobs[coins[0].job].owner.Coin? && !jobs[coins[0].job].deleted
      ensures forall i :: 0 <= i < |clients| ==> !OnJob(clients[i], coins[0].job)
      ensures if created then nextId == old(nextId) + 1 == coins[0].job &&
                 order == old(order) + [nextId] else order == old(order)
      ensures created ==> forall i :: 0 <= i < |clients| ==> !InHistory(clients[i], coins[0].job, 1)
      ensures old(coins[0].job) in jobs && jobs[old(coins[0].job)] == RetiredIf(old(jobs)[old(coins[0].job)], created)
      ensures !created ==> coins == old(coins)
      ensures OlderOnly(old(jobs), jobs, coins[0].job) && OthersSame(old(jobs), jobs, old(coins[0].job), coins[0].job)
    {
      ghost var was, js := coins[0].job, jobs;
      assert CoinFits(jobs, order, coins[0]);
      if created {
        assert forall i :: 0 <= i < |clients| ==> ClientFits(jobs, nextId, clients[i]);
        CreateCoinJob(0, profit, maxspeed);
        SettledNew(js, jobs, clients, kept, was, nextId);
      }
      assert CoinFits(jobs, order, coins[0]);
    }

    /**
     The last resort of `job_update`: give whoever is left a fresh job of the first coin, without a
     cap. The coin's old job, if it was replaced, keeps its count and speed; if it was tallied
     before, it still is exactly when nobody was on it.
     */
    method LastResort(created: bool, profit: real, maxspeed: real, ghost visited: set<nat>)
      returns (ghost done: set<nat>)
      requires Valid() && Settled(jobs, clients, visited) && coins != [] && coins[0].job != 0 && LocksOk(clients)
      requires AllVisited(jobs, order, minable, visited)
      modifies this`clients, this`jobs, this`order, this`coins, this`nextId
      ensures Valid() && |clients| == |old(clients)| && coins != [] && LocksOk(clients)
      ensures done == visited + {old(coins[0].job), coins[0].job} && RoundDone(jobs, clients, done)
      ensures ResortDone(old(jobs), jobs, clients, done, old(coins[0].job), created)
      ensures OthersSame(old(jobs), jobs, old(coins[0].job), coins[0].job)
      ensures AllVisited(jobs, order, minable, done)
      ensures created ==> NobodyFree(clients) && nextId == old(nextId) + 1 && coins[0].job == nextId
      ensures !created ==> coins == old(coins)
      ensures created && old(coins[0].job) in visited ==>
                (Tallied(clients, jobs[old(coins[0].job)]) <==>
                 forall i :: 0 <= i < |clients| ==> !OnJob(old(clients)[i], old(coins[0].job)))
    {
      ghost var was, rest, cs, os := coins[0].job, jobs, clients, order;
      assert CoinFits(jobs, order, coins[0]);
      ResetForLast(coins[0].job, visited);
      RenewFirst(created, profit, maxspeed, visited - {was});
      ghost var ks := jobs;
      AssignLast(coins[0].job, visited - {was}, created);
      done := visited + {was, coins[0].job};
      ResortTally(rest, jobs, cs, clients, visited, was, coins[0].job, created);
      ResortVisits(rest, ks, jobs, os, order, minable, visited, was, coins[0].job);
    }

    /** The first job of the first coin, with all clients reset from cs, which never saw it. */
    method ServeUnlocked(ghost cs: seq<Client>, profit: real, maxspeed: real)
      requires Valid() && coins != [] && coins[0].job == 0 && |cs| == |clients|
      requires forall i :: 0 <= i < |cs| ==> clients[i] == ResetOne(cs[i], 0)
      requires forall i :: 0 <= i < |cs| ==> ClientFits(jobs, nextId, cs[i]) && ClientFits(jobs, nextId, clients[i])
      modifies this`clients, this`jobs, this`order, this`coins, this`nextId
      ensures Valid() && coins != [] && nextId == old(nextId) + 1 == coins[0].job && OnlyOn(clients, nextId)
      ensures nextId in jobs && jobs == old(jobs)[nextId := jobs[nextId]] && Tallied(clients, jobs[nextId])
      ensures SameLocks(cs, clients) && (LocksOk(clients) <==> NobodyLocked(clients)) && UnlockedServed(clients)
    {
      ghost var ds := clients;
      CreateCoinJob(0, profit, maxspeed);
      ghost var j := jobs[coins[0].job];
      AssignJob(coins[0].job, -1.0);
      LocksAfterNew(j, cs, ds, clients);
      UnlockedTaken(cfg, j, jobs[coins[0].job], ds, clients);
    }

    /**
     The last resort when the first coin has no job: all clients are reset, and its new job, if
     creation succeeds, takes whoever is not locked. Locks stay, so the lock law holds exactly when
     nobody is locked; of the other jobs those that count somebody are no longer tallied.
     */
    method LastResortNew(created: bool, profit: real, maxspeed: real)
      requires Valid() && coins != [] && coins[0].job == 0
      modifies this`clients, this`jobs, this`order, this`coins, this`nextId
      ensures Valid() && |clients| == |old(clients)| && coins != [] && OnlyOn(clients, coins[0].job)
      ensures SameLocks(old(clients), clients) && (LocksOk(clients) <==> NobodyLocked(clients))
      ensures if created then nextId == old(nextId) + 1 == coins[0].job else coins == old(coins) && jobs == old(jobs)
      ensures created ==> nextId in jobs && jobs == old(jobs)[nextId := jobs[nextId]] && Tallied(clients, jobs[nextId])
      ensures created ==> UnlockedServed(clients)
      ensures OthersForgotten(jobs, clients, coins[0].job)
    {
      ghost var cs := clients;
      ResetClients(0);
      if created {
        assert forall i :: 0 <= i < |clients| ==>
                 ClientFits(jobs, nextId, cs[i]) && ClientFits(jobs, nextId, clients[i]);
        ServeUnlocked(cs, profit, maxspeed);
      }
      OthersEmpty(cfg, jobs, nextId, clients, coins[0].job);
    }

    /** The turns up to the leftover passes: reset, sort, visit, unlock. */
    method JobTurns(sorted: seq<CoinD>) returns (ghost visited: set<nat>, ghost n: nat)
      requires Valid() && CoinsOk(jobs, order, sorted)
      modifies this`clients, this`jobs, this`order, this`coins
      ensures Valid() && Settled(jobs, clients, visited) && coins == sorted && |clients| == |old(clients)|
      ensures LocksOk(clients) && SameJobs(old(jobs), jobs) && ByProfit(jobs, old(order), order)
      ensures n <= |order| && AllVisited(jobs, order[..n], minable, visited)
      ensures n < |order| ==> NobodyFree(clients) && n > 0 && order[n - 1] in visited
      ensures n == |order| ==> CoinsVisited(coins, minable, visited)
      ensures Underway(old(clients), visited)
    {
      ghost var start := clients;
      ResetClients(0);
      ghost var before, js, cs := order, jobs, clients;
      SortJobs();
      CoinsReordered(jobs, before, order, sorted);
      visited, n := VisitJobs();
      ghost var ds := clients;
      SinceReset(cfg, start, cs, ds, jobs, minable, visited);
      UnlockSettled(0, visited);
      TurnsStayUnlocked(cfg, start, ds, clients, jobs, minable, visited, 0);
      SinceUnlocked(start, ds, clients, 0);
      ByProfitSame(js, jobs, before, order);
      CoinsKept(js, jobs, order, sorted);
      coins := sorted;
      if n == |order| {
        assert order[..n] == order;
        VisitedCoins(jobs, order, coins, minable, visited);
      }
    }

    /**
     Everything `job_update` does before the last resort. The jobs have their turns in the order of
     profit; afterwards each that had one is under its own cap or that of the leftover passes, holds
     nobody locked but its own, and has left free, of those not locked before the round, only whom
     its own cap forbids; and with nonnegative speeds nobody is free or no coin's job could take
     anybody under the passes' cap.
     */
    method RegularPasses(sorted: seq<CoinD>) returns (ghost visited: set<nat>, ghost n: nat)
      requires Valid() && CoinsOk(jobs, order, sorted)
      modifies this`clients, this`jobs, this`order, this`coins
      ensures Valid() && Settled(jobs, clients, visited) && coins == sorted && |clients| == |old(clients)|
      ensures LocksOk(clients) && jobs.Keys == old(jobs.Keys) && ByProfit(jobs, old(order), order)
      ensures n <= |order| && AllVisited(jobs, order[..n], minable, visited)
      ensures n < |order| ==> NobodyFree(clients) && n > 0 && order[n - 1] in visited
      ensures Carried(old(clients), visited)
      ensures NonNegative(old(clients)) ==>
                NobodyFree(clients) || CoinsDone(cfg, jobs, minable, coins, |coins|, clients, 1.0)
    {
      ghost var start := clients;
      visited, n := JobTurns(sorted);
      ghost var js := jobs;
      LeftPasses(visited, n, start);
      ByProfitSame(js, jobs, old(order), order);
    }

    /** The three leftover passes; they change nothing of which jobs had their turn. */
    method LeftPasses(ghost visited: set<nat>, ghost n: nat, ghost begun: seq<Client>)
      requires Valid() && Settled(jobs, clients, visited) && LocksOk(clients) && Underway(begun, visited)
      requires n <= |order| && AllVisited(jobs, order[..n], minable, visited)
      requires NobodyFree(clients) || (n == |order| && CoinsVisited(coins, minable, visited))
      modifies this`clients, this`jobs
      ensures Valid() && Settled(jobs, clients, visited) && LocksOk(clients) && |clients| == |old(clients)|
      ensures SameJobs(old(jobs), jobs) && AllVisited(jobs, order[..n], minable, visited)
      ensures n < |order| ==> NobodyFree(clients)
      ensures Carried(begun, visited)
      ensures NonNegative(begun) ==>
                NobodyFree(clients) || CoinsDone(cfg, jobs, minable, coins, |coins|, clients, 1.0)
    {
      ghost var js := jobs;
      MaxIsSome(cfg, coins, minable, jobs, visited);
      AssignClientsLeft(1.0, visited, begun);
      AssignClientsLeft(1.0, visited, begun);
      ghost var cs := clients;
      AssignClientsLeft(-1.0, visited, begun);
      AllVisitedSame(js, jobs, order[..n], minable, visited);
      if NonNegative(begun) && !cfg.autoexchange {
        SameCaps(cfg, jobs, minable, coins, |coins|, clients);
      }
    }

    /**
     `job_update`, one atomic step up to the broadcast. `sorted` is the coin list as `coind_sort`
     leaves it, `created` whether a forced job creation succeeds; `resorted` says whether the
     last resort was taken, which happens when somebody is still free after the regular passes,
     and `rest` is how these left the jobs.

     Unless the last resort finds the first coin without a job: every live client ends unlocked or
     locked to exactly its next job; the live clients' next jobs are visited ones; every visited job
     is alive and tallied, but for the first coin's old job if the last resort replaced it, which is
     deleted and tallied exactly when it counted nothing before; the first n jobs of the list had
     their turn, that is, the minable ones among them are visited, and n falls short of the list only
     if a turn left nobody free, in which case there was no last resort; and if creation succeeds too,
     every live client has a next job.

     If the first coin has no job, the last resort leaves the locks as they are: the lock law holds
     exactly when nobody is locked. The new job is tallied and has every client that is not locked;
     of the other jobs exactly those that count nothing are tallied.

     Only the last resort's job may be over its cap: every other one that had its turn is under its
     own or under that of the leftover passes.
     */
    method JobUpdate(sorted: seq<CoinD>, created: bool, profit: real, maxspeed: real)
      returns (ghost visited: set<nat>, ghost n: nat, ghost resorted: bool, ghost rest: map<nat, Job>)
      requires Valid() && CoinsOk(jobs, order, sorted)
      modifies this`clients, this`jobs, this`order, this`coins, this`nextId
      ensures Valid() && |clients| == |old(clients)| && rest.Keys == old(jobs.Keys)
      ensures !resorted ==> jobs == rest && Settled(jobs, clients, visited) && (sorted == [] || NobodyFree(clients))
      ensures !resorted ==> Carried(old(clients), visited) && ByProfit(jobs, old(order), order)
      ensures resorted ==> sorted != [] && coins != []
      ensures resorted && sorted[0].job != 0 ==> ResortDone(rest, jobs, clients, visited, sorted[0].job, created)
      ensures resorted && sorted[0].job != 0 ==>
                forall v :: v in visited && v != sorted[0].job && v != coins[0].job ==>
                    UnderSome(cfg, sorted, minable, jobs[v])
      ensures !resorted || sorted[0].job != 0 ==> LocksOk(clients) && RoundDone(jobs, clients, visited)
      ensures !resorted || sorted[0].job != 0 ==> n <= |order| && AllVisited(jobs, order[..n], minable, visited)
      ensures (!resorted || sorted[0].job != 0) && n < |order| ==>
                !resorted && NobodyFree(clients) && n > 0 && order[n - 1] in visited
      ensures resorted && sorted[0].job != 0 && created ==> NobodyFree(clients)
      ensures resorted && sorted[0].job == 0 ==> (LocksOk(clients) <==> NobodyLocked(clients))
      ensures resorted && sorted[0].job == 0 ==>
                OnlyOn(clients, coins[0].job) && OthersForgotten(jobs, clients, coins[0].job)
      ensures resorted && sorted[0].job == 0 && created ==>
                coins[0].job in jobs && Tallied(clients, jobs[coins[0].job]) && UnlockedServed(clients)
    {
      visited, n := RegularPasses(sorted);
      resorted, rest := false, jobs;
      var free := HasFreeClient();
      if free && coins != [] {
        resorted := true;
        if coins[0].job == 0 {
          LastResortNew(created, profit, maxspeed);
        } else {
          assert order[..n] == order;
          visited := LastResort(created, profit, maxspeed, visited);
          n := |order|;
          assert order[..n] == order;
        }
      } else {
        SettledDone(jobs, clients, visited);
      }
    }

    /** `job_broadcast`: whoever is on the job and was not sent it gets it now; `dropped` are those whose
        socket timed out for the third time, `silent` those without a socket. */
    method Broadcast(jid: nat, silent: set<nat>, dropped: set<nat>)
      requires Valid() && jid in jobs
      modifies this`clients
      ensures Valid() && |clients| == |old(clients)|
      ensures forall i :: 0 <= i < |clients| ==> clients[i] == Sent1(old(clients)[i], jid, i in silent, i in dropped)
      ensures KeepsAllIds(jobs, old(clients), clients)
    {
      assert forall i :: 0 <= i < |clients| ==> ClientFits(jobs, nextId, clients[i]);
      var ds := SendToAll(clients, jid, silent, dropped);
      forall i | 0 <= i < |ds|
        ensures ClientFits(jobs, nextId, ds[i])
      {
        assert ClientFits(jobs, nextId, clients[i]);
      }
      FewerHolders(cfg, jobs, nextId, clients, ds);
      clients := ds;
    }

    /** `job_relock_clients`. */
    method RelockClients(was: nat, now: nat)
      requires Valid() && now in jobs && jobs[now].owner.Remote?
      modifies this`clients
      ensures Valid() && AllRelocked(old(clients), clients, was, now) && KeepsAllIds(jobs, old(clients), clients)
    {
      if was == 0 || now == 0 {
        FewerHolders(cfg, jobs, nextId, clients, clients);
        return;
      }
      var li := 0;
      while li < |clients|
        invariant 0 <= li <= |clients| == |old(clients)| && Valid()
        invariant forall i :: 0 <= i < li ==> clients[i] == Relocked(old(clients)[i], was, now)
        invariant forall i :: li <= i < |clients| ==> clients[i] == old(clients)[i]
      {
        assert ClientFits(jobs, nextId, clients[li]);
        if clients[li].jobidLocked == was {
          var client := clients[li].(jobidLocked := now);
          assert ClientFits(jobs, nextId, client);
          clients := clients[li := client];
        }
        li := li + 1;
      }
      FewerHolders(cfg, jobs, nextId, old(clients), clients);
    }

    /**
     `remote_create_job`: the old job is marked deleted; if the message is complete, a successor job
     with a fresh id takes over its locks.
     */
    method CreateRemoteJob(was: nat, complete: bool, owner: Owner, profit: real, maxspeed: real) returns (id: nat)
      requires Valid() && owner.Remote? && cfg.autoexchange && (was in jobs ==> jobs[was].owner.Remote?)
      modifies this`clients, this`jobs, this`order, this`nextId
      ensures Valid() && |clients| == |old(clients)|
      ensures !complete ==> id == was && jobs == Retired(old(jobs), was)
      ensures !complete ==> clients == old(clients) && order == old(order) && nextId == old(nextId)
      ensures complete ==> id == nextId == old(nextId) + 1 && order == old(order) + [id]
      ensures complete ==> jobs == Retired(old(jobs), was)[id := NewJob(id, owner, profit, maxspeed)]
      ensures complete ==> AllRelocked(old(clients), clients, was, id)
    {
      if !complete {
        RetiredFits(cfg, jobs, nextId, clients, order, coins, was);
        id, jobs := was, Retired(jobs, was);
        return;
      }
      id := nextId + 1;
      NewRemoteFits(cfg, jobs, nextId, clients, order, coins, was, owner, profit, maxspeed);
      jobs := Retired(jobs, was)[id := NewJob(id, owner, profit, maxspeed)];
      order := order + [id];
      nextId := id;
      RelockClients(was, id);
    }

    /**
     `job_assign_locked_clients`: everybody locked to the job is on it, their sub-ids are registered,
     and the job counts them, deleted ones included (see LockedClients.LockedTally for when that is
     its tally).
     */
    method AssignLockedClients(jid: nat)
      requires Valid() && jid in jobs
      modifies this`clients, this`jobs
      ensures Valid() && jid in jobs && jobs == old(jobs)[jid := jobs[jid]] && SameJob(old(jobs[jid]), jobs[jid])
      ensures PutOn(old(clients), clients, jid) && IdsRegistered(old(clients), |old(clients)|, jobs[jid])
      ensures jobs[jid].count == CountLocked(old(clients), jid) && jobs[jid].speed == SpeedLocked(old(clients), jid)
    {
      ReadyFor(cfg, jobs, nextId, clients, jid);
      var ds, k := AssignLocked(clients, jobs[jid]);
      forall i | 0 <= i < |ds|
        ensures ClientFits(jobs[jid := k], nextId, ds[i])
      {
        assert ClientFits(jobs, nextId, clients[i]);
      }
      JobReplaced(cfg, jobs, nextId, order, coins, jid, k);
      clients, jobs := ds, jobs[jid := k];
    }

    /**
     A remote's new job with unchanged difficulty and nonce (remote.cpp): its clients go over to the
     successor with their sub-ids, which no later call on the job hands out again and which stay
     distinct if they were; the job counts them, and is tallied exactly when none of them is deleted.
     All other clients and jobs are as they were.
     */
    method SucceedRemoteJob(was: nat, owner: Owner, profit: real, maxspeed: real) returns (id: nat)
      requires Valid() && owner.Remote? && cfg.autoexchange && was != 0 && (was in jobs ==> jobs[was].owner.Remote?)
      modifies this`clients, this`jobs, this`order, this`nextId
      ensures Valid() && id == nextId == old(nextId) + 1 && order == old(order) + [id]
      ensures id in jobs && jobs == Retired(old(jobs), was)[id := jobs[id]]
      ensures SameJob(NewJob(id, owner, profit, maxspeed), jobs[id]) && AllMoved(old(clients), clients, was, id)
      ensures jobs[id].count == CountLocked(old(clients), was) && jobs[id].speed == SpeedLocked(old(clients), was)
      ensures Tallied(clients, jobs[id]) <==>
              forall i :: 0 <= i < |clients| && old(clients)[i].jobidLocked == was ==> !old(clients)[i].deleted
      ensures NeverGiven(cfg, old(clients), was, jobs[id])
      ensures StillDistinct(old(clients), old(jobs), was, clients, jobs[id])
    {
      ghost var cs, js := clients, jobs;
      FreshId(jobs, nextId, clients);
      id := CreateRemoteJob(was, true, owner, profit, maxspeed);
      ghost var ds := clients;
      AssignLockedClients(id);
      SuccessorTally(cs, ds, clients, was, jobs[id]);
      MovedIdsKept(cfg, cs, ds, was, jobs[id]);
      StillDistinctIds(cs, ds, clients, js, was, jobs[id]);
    }
  }
}
