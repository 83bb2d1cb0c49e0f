/**
 The states of the scheduler's pool and what its steps do to single clients and jobs: the
 invariant of every reachable state, the lock law, the tallies of a round, and the lemmas that
 the methods of the pool rest on.
 */
module PoolState {
  import opened Assignment
  import opened Tally
  import opened Subids
  import opened Round
  import opened StableSort

  datatype CoinD = CoinD(id: int, nethash: real, job: nat)

  // ----- what every reachable state satisfies -----

  predicate JobsOk(cfg: Config, jobs: map<nat, Job>, nextId: nat) {
    forall id :: id in jobs ==>
                   jobs[id].id == id && JobOk(jobs[id]) && id <= nextId && (cfg.autoexchange || jobs[id].owner.Coin?)
  }

  /** Ids a client carries were handed out; a lock is never on a coin job. */
  predicate ClientFits(jobs: map<nat, Job>, nextId: nat, c: Client) {
    && ClientOk(c) && c.jobidNext <= nextId && c.jobidLocked <= nextId && c.jobidSent <= nextId
    && (c.jobidLocked in jobs ==> jobs[c.jobidLocked].owner.Remote?)
    && (forall i :: 0 <= i < |c.history| ==> c.history[i] <= nextId)
  }

  predicate ClientsOk(jobs: map<nat, Job>, nextId: nat, cs: seq<Client>) {
    forall i :: 0 <= i < |cs| ==> ClientFits(jobs, nextId, cs[i])
  }

  predicate OrderOk(jobs: map<nat, Job>, order: seq<nat>) {
    && (forall k :: 0 <= k < |order| ==> order[k] in jobs)
    && (forall k, l :: 0 <= k < l < |order| ==> order[k] != order[l])
  }

  /** A coin's job, if it has one, is listed, its own and alive. */
  predicate CoinFits(jobs: map<nat, Job>, order: seq<nat>, d: CoinD) {
    d.job != 0 ==> d.job in jobs && d.job in order && jobs[d.job].owner == Coin(d.id) && !jobs[d.job].deleted
  }

  predicate CoinsOk(jobs: map<nat, Job>, order: seq<nat>, coins: seq<CoinD>) {
    && (forall k :: 0 <= k < |coins| ==> CoinFits(jobs, order, coins[k]))
    && (forall k, l :: 0 <= k < l < |coins| ==> coins[k].id != coins[l].id)
  }

  // ----- the lock law -----

  /** The client is unlocked, or locked to exactly its next job. */
  predicate LockLaw(c: Client) {
    c.deleted || c.jobidLocked == 0 || c.jobidLocked == c.jobidNext
  }

  predicate LocksOk(cs: seq<Client>) {
    forall i :: 0 <= i < |cs| ==> LockLaw(cs[i])
  }

  predicate NobodyFree(cs: seq<Client>) {
    forall i :: 0 <= i < |cs| ==> !OnJob(cs[i], 0)
  }

  function ResetOne(c: Client, jobid: nat): Client {
    if !c.deleted && (jobid == 0 || jobid == c.jobidNext) then c.(jobidNext := 0) else c
  }

  function UnlockOne(c: Client, jobid: nat): Client {
    if !c.deleted && c.jobidLocked != 0 && c.jobidLocked != c.jobidNext && (jobid == 0 || c.jobidLocked == jobid)
    then c.(jobidLocked := 0) else c
  }

  /**
   After a round: next jobs are visited ones, and a visited job is tallied exactly when it is
   still alive or had nothing to forget.
   */
  predicate RoundDone(jobs: map<nat, Job>, cs: seq<Client>, visited: set<nat>) {
    && (forall i :: 0 <= i < |cs| ==> cs[i].deleted || cs[i].jobidNext == 0 || cs[i].jobidNext in visited)
    && (forall v :: v in visited && v in jobs ==>
                      (Tallied(cs, jobs[v]) <==> !jobs[v].deleted || (jobs[v].count == 0 && jobs[v].speed == 0.0)))
  }

  /**
   After a last resort on the first coin's job, with the jobs as `rest` before it: the only visited
   job that is deleted is the first coin's old one, if a new one was created, and it has its old
   count and speed. All others are tallied; that one exactly when it counted nothing before.
   */
  predicate ResortDone(rest: map<nat, Job>, jobs: map<nat, Job>, cs: seq<Client>, visited: set<nat>, first: nat,
                       created: bool) {
    && first in visited && first in rest
    && (forall i :: 0 <= i < |cs| ==> cs[i].deleted || cs[i].jobidNext == 0 || cs[i].jobidNext in visited)
    && (forall v :: v in visited ==> v in jobs && (jobs[v].deleted <==> created && v == first))
    && (created ==> jobs[first] == rest[first].(deleted := true))
    && (forall v :: v in visited ==>
          (Tallied(cs, jobs[v]) <==> (created && v == first ==> rest[first].count == 0 && rest[first].speed == 0.0)))
  }

  function NewJob(id: nat, owner: Owner, profit: real, maxspeed: real): (j: Job)
    ensures !j.deleted && |j.subids| == MAX_SUBIDS && forall s :: 0 <= s < MAX_SUBIDS ==> !j.subids[s]
  {
    Job(id, owner, false, profit, maxspeed, 0.0, 0, seq(MAX_SUBIDS, _ => false))
  }

  /** `object_delete` of a job, if there is one. */
  function Retired(jobs: map<nat, Job>, id: nat): map<nat, Job> {
    if id in jobs then jobs[id := jobs[id].(deleted := true)] else jobs
  }

  /** All jobs but these two are as they were. */
  predicate OthersSame(js: map<nat, Job>, ks: map<nat, Job>, a: nat, b: nat) {
    forall v :: v in js && v != a && v != b ==> v in ks && ks[v] == js[v]
  }

  function RetiredIf(j: Job, gone: bool): Job {
    if gone then j.(deleted := true) else j
  }

  function Relocked(c: Client, was: nat, now: nat): Client {
    if was != 0 && now != 0 && c.jobidLocked == was then c.(jobidLocked := now) else c
  }

  predicate AllRelocked(cs: seq<Client>, ds: seq<Client>, was: nat, now: nat) {
    |ds| == |cs| && forall i :: 0 <= i < |cs| ==> ds[i] == Relocked(cs[i], was, now)
  }

  /** What `job_broadcast` does to one client. */
  function Sent1(c: Client, jid: nat, silent: bool, dropped: bool): Client
    requires |c.history| == MAX_HISTORY
  {
    if c.deleted || silent || c.jobidNext != jid || c.jobidSent == jid then c
    else AddHistory(c.(jobidSent := jid), jid).(deleted := dropped)
  }

  /** Only counts, speeds and sub-ids of jobs differ. */
  predicate SameJobs(js: map<nat, Job>, ks: map<nat, Job>) {
    && js.Keys == ks.Keys
    && forall id :: id in js ==> ks[id] == js[id].(speed := ks[id].speed, count := ks[id].count,
                                                   subids := ks[id].subids)
  }

  predicate CoinsVisited(coins: seq<CoinD>, minable: set<int>, visited: set<nat>) {
    forall k :: 0 <= k < |coins| && coins[k].id in minable && coins[k].job != 0 ==> coins[k].job in visited
  }

  lemma GrabbedFits(jobs: map<nat, Job>, nextId: nat, j: Job, k: Job, cs: seq<Client>, ds: seq<Client>)
    requires ClientsOk(jobs, nextId, cs) && Grabbed(j, cs, ds)
    requires j.id in jobs && jobs[j.id].owner == j.owner && j.id <= nextId
    requires k.id == j.id && k.owner == j.owner
    ensures ClientsOk(jobs[j.id := k], nextId, ds)
  {
    forall i | 0 <= i < |ds|
      ensures ClientFits(jobs[j.id := k], nextId, ds[i])
    {
      assert ClientFits(jobs, nextId, cs[i]);
    }
  }

  /** A job's grabbing leaves every other job's tally alone. */
  lemma GrabbedOthers(j: Job, cs: seq<Client>, ds: seq<Client>, other: Job)
    requires Grabbed(j, cs, ds) && other.id != j.id && other.id != 0 && Tallied(cs, other)
    ensures Tallied(ds, other)
  {
    TallySame(cs, ds, other.id);
  }

  // ----- the sub-ids on the pool's remote jobs -----

  /** The clients' sub-ids stay registered and distinct on every remote job on which they were. */
  predicate KeepsAllIds(jobs: map<nat, Job>, cs: seq<Client>, ds: seq<Client>) {
    forall id :: id in jobs && jobs[id].owner.Remote? && IdsOk(cs, jobs[id]) ==> IdsOk(ds, jobs[id])
  }

  /** Sub-id and nonce are as they were, and the client is on no job and was sent none that it did not hold before. */
  predicate FewerHolds(c: Client, d: Client) {
    && d.subid == c.subid && GivenNonce(d) == GivenNonce(c) && (c.deleted ==> d.deleted)
    && (d.jobidNext == c.jobidNext || d.jobidNext == 0) && (d.jobidSent == c.jobidSent || d.jobidSent == c.jobidNext)
  }

  lemma FewerHolders(cfg: Config, jobs: map<nat, Job>, nextId: nat, cs: seq<Client>, ds: seq<Client>)
    requires JobsOk(cfg, jobs, nextId) && |ds| == |cs| && forall i :: 0 <= i < |cs| ==> FewerHolds(cs[i], ds[i])
    ensures KeepsAllIds(jobs, cs, ds)
  {
    forall id | id in jobs && jobs[id].owner.Remote? && IdsOk(cs, jobs[id])
      ensures IdsOk(ds, jobs[id])
    {
      forall i | 0 <= i < |ds| && Holds(ds[i], id)
        ensures Holds(cs[i], id) && HoldsRegistered(ds[i], jobs[id]) && ds[i].subid == cs[i].subid
      {
        assert HoldsRegistered(cs[i], jobs[id]);
      }
    }
  }

  // ----- the state of a round -----

  /** Live clients have no next job or a visited one, and every visited job is alive and tallied. */
  predicate Settled(jobs: map<nat, Job>, cs: seq<Client>, visited: set<nat>) {
    && (forall i :: 0 <= i < |cs| ==> cs[i].deleted || cs[i].jobidNext == 0 || cs[i].jobidNext in visited)
    && (forall v :: v in visited ==> v != 0 && v in jobs && jobs[v].id == v && !jobs[v].deleted && Tallied(cs, jobs[v]))
  }

  /** A round with job j grabbing from cs to ds and becoming k. */
  lemma SettleVisit(jobs: map<nat, Job>, cs: seq<Client>, visited: set<nat>, j: Job, ds: seq<Client>, k: Job)
    requires Settled(jobs, cs, visited) && j.id in jobs && j.id != 0 && !j.deleted
    requires Grabbed(j, cs, ds) && SameJob(j, k) && Tallied(ds, k)
    ensures Settled(jobs[j.id := k], ds, visited + {j.id})
  {
    forall v | v in visited && v != j.id
      ensures Tallied(ds, jobs[v])
    {
      GrabbedOthers(j, cs, ds, jobs[v]);
    }
  }

  /** Changing locks leaves a round settled. */
  lemma SettledSame(jobs: map<nat, Job>, cs: seq<Client>, ds: seq<Client>, visited: set<nat>)
    requires Settled(jobs, cs, visited) && |ds| == |cs|
    requires forall i :: 0 <= i < |cs| ==> ds[i] == cs[i].(jobidLocked := ds[i].jobidLocked)
    ensures Settled(jobs, ds, visited)
  {
    forall v | v in visited
      ensures Tallied(ds, jobs[v])
    {
      TallySame(cs, ds, v);
    }
  }

  /** Nobody is on a job that is not among the visited ones: its tally holds exactly when it counts nothing. */
  lemma UnvisitedTally(jobs: map<nat, Job>, cs: seq<Client>, visited: set<nat>, v: nat)
    requires Settled(jobs, cs, visited) && v !in visited && v != 0 && v in jobs && jobs[v].id == v
    ensures Tallied(cs, jobs[v]) <==> jobs[v].count == 0 && jobs[v].speed == 0.0
  {
    TallyNone(cs, v);
  }

  lemma SettledDone(jobs: map<nat, Job>, cs: seq<Client>, visited: set<nat>)
    requires Settled(jobs, cs, visited)
    ensures RoundDone(jobs, cs, visited)
  {
  }

  /** A settled round whose first coin's job was retired on the way, or was not, is done. */
  lemma SettledIsDone(rest: map<nat, Job>, jobs: map<nat, Job>, cs: seq<Client>, after: set<nat>, was: nat,
                      created: bool)
    requires Settled(jobs, cs, after) && was != 0 && was in jobs && was in rest && jobs[was].id == was
    requires if created then jobs[was] == rest[was].(deleted := true) else was in after
    ensures ResortDone(rest, jobs, cs, after + {was}, was, created) && RoundDone(jobs, cs, after + {was})
  {
    if created {
      UnvisitedTally(jobs, cs, after, was);
    }
  }

  /** A tallied job counts nothing exactly when nobody is on it. */
  lemma CountsNothing(cs: seq<Client>, j: Job)
    requires Tallied(cs, j)
    ensures j.count == 0 && j.speed == 0.0 <==> forall i :: 0 <= i < |cs| ==> !OnJob(cs[i], j.id)
  {
    if i :| 0 <= i < |cs| && OnJob(cs[i], j.id) {
      CountSome(cs, j.id, i);
    } else {
      TallyNone(cs, j.id);
    }
  }

  /** Coin 7's job 1 with a cap of 5, one client of speed 5 on it, and a client nobody took. */
  const STALE_JOB := Job(1, Coin(7), false, 1.0, 5.0, 5.0, 1, seq(MAX_SUBIDS, _ => false))
  const STALE_CLIENT := Client(false, 7, 5.0, 1, 0, 0, seq(MAX_HISTORY, _ => 0), true, true, false, 1.0, 0.0, false,
                               0, "01", 4, "01", 4, "01", 4, "", 0)
  const LEFT_CLIENT := STALE_CLIENT.(jobidNext := 0)

  /**
   Where the tally is false after a round: the last resort resets job 1, retires it and gives
   both clients job 2; the retired job still counts one client, and nobody is on it.
   */
  lemma RetiredJobStaysCounted(cfg: Config)
    requires cfg.autoexchange
    ensures var jobs, cs := map[1 := STALE_JOB], [STALE_CLIENT, LEFT_CLIENT];
            Settled(jobs, cs, {1}) && OverCap(STALE_JOB, LEFT_CLIENT, STALE_JOB.maxspeed)
    ensures var a := AssignClient(cfg, NewJob(2, Coin(7), 1.0, 5.0), ResetOne(STALE_CLIENT, 1), -1.0);
            var b := AssignClient(cfg, a.job, ResetOne(LEFT_CLIENT, 1), -1.0);
            var ks, ds := Retired(map[1 := STALE_JOB], 1)[2 := b.job], [a.client, b.client];
            RoundDone(ks, ds, {1, 2}) && ks[1].deleted && ks[1].count == 1 && CountOn(ds, 1) == 0 && ks[2].count == 2
  {
    var jobs, cs := map[1 := STALE_JOB], [STALE_CLIENT, LEFT_CLIENT];
    TwoClients(STALE_CLIENT, LEFT_CLIENT, 1);
    var a := AssignClient(cfg, NewJob(2, Coin(7), 1.0, 5.0), ResetOne(STALE_CLIENT, 1), -1.0);
    var b := AssignClient(cfg, a.job, ResetOne(LEFT_CLIENT, 1), -1.0);
    TwoClients(a.client, b.client, 1);
    TwoClients(a.client, b.client, 2);
  }

  lemma TwoClients(c: Client, d: Client, id: nat)
    ensures CountOn([c, d], id) == (if OnJob(c, id) then 1 else 0) + (if OnJob(d, id) then 1 else 0)
    ensures SpeedOn([c, d], id) == (if OnJob(c, id) then c.speed else 0.0) + (if OnJob(d, id) then d.speed else 0.0)
  {
    var one, two := [c], [c, d];
    assert two[..1] == one && one[..0] == [];
    assert CountOn(one, id) == CountOn([], id) + if OnJob(c, id) then 1 else 0;
    assert SpeedOn(one, id) == SpeedOn([], id) + if OnJob(c, id) then c.speed else 0.0;
  }

  /** `job_can_mine`, with `coind_can_mine` and `remote_can_mine` as given verdicts. */
  predicate CanMine(j: Job, minable: set<int>) {
    !j.deleted && match j.owner case Remote(_, _, _, ready) => ready case Coin(c) => c in minable
  }

  predicate AllVisited(jobs: map<nat, Job>, order: seq<nat>, minable: set<int>, visited: set<nat>) {
    forall k :: 0 <= k < |order| && order[k] in jobs && CanMine(jobs[order[k]], minable) ==> order[k] in visited
  }

  /** Every job but this one was there before, and what was deleted still is. */
  predicate OlderOnly(js: map<nat, Job>, ks: map<nat, Job>, id: nat) {
    forall x :: x in ks && x != id ==> x in js && ks[x].owner == js[x].owner && (js[x].deleted ==> ks[x].deleted)
  }

  /** Counting and retiring make no job minable that was not, and a new one is visited. */
  lemma AllVisitedStays(js: map<nat, Job>, ks: map<nat, Job>, order: seq<nat>, minable: set<int>, visited: set<nat>,
                        id: nat)
    requires AllVisited(js, order, minable, visited) && OlderOnly(js, ks, id)
    ensures AllVisited(ks, order, minable, visited + {id}) && AllVisited(ks, order + [id], minable, visited + {id})
  {
    forall k | 0 <= k < |order| && order[k] in ks && CanMine(ks[order[k]], minable)
      ensures order[k] in visited + {id}
    {
      assert order[k] in order;
    }
  }

  lemma AllVisitedSame(js: map<nat, Job>, ks: map<nat, Job>, order: seq<nat>, minable: set<int>, visited: set<nat>)
    requires AllVisited(js, order, minable, visited) && SameJobs(js, ks)
    ensures AllVisited(ks, order, minable, visited)
  {
  }

  /** The first n jobs of the order had their turn, and no others. */
  predicate TurnsTaken(jobs: map<nat, Job>, order: seq<nat>, n: nat, minable: set<int>, visited: set<nat>) {
    n <= |order| && AllVisited(jobs, order[..n], minable, visited) && forall v :: v in visited ==> v in order[..n]
  }

  lemma TurnTaken(js: map<nat, Job>, ks: map<nat, Job>, order: seq<nat>, n: nat, minable: set<int>,
                  visited: set<nat>, after: set<nat>)
    requires TurnsTaken(js, order, n, minable, visited) && n < |order| && SameJobs(js, ks) && order[n] in js
    requires after == if CanMine(js[order[n]], minable) then visited + {order[n]} else visited
    ensures TurnsTaken(ks, order, n + 1, minable, after)
  {
    assert order[..n + 1] == order[..n] + [order[n]];
  }

  /** Once every minable job was visited, so was the job of every minable coin. */
  lemma VisitedCoins(jobs: map<nat, Job>, order: seq<nat>, coins: seq<CoinD>, minable: set<int>, visited: set<nat>)
    requires CoinsOk(jobs, order, coins)
    ensures AllVisited(jobs, order, minable, visited) ==> CoinsVisited(coins, minable, visited)
  {
    if AllVisited(jobs, order, minable, visited) {
      forall k | 0 <= k < |coins| && coins[k].id in minable && coins[k].job != 0
        ensures coins[k].job in visited
      {
        assert CoinFits(jobs, order, coins[k]);
        var i :| 0 <= i < |order| && order[i] == coins[k].job;
      }
    }
  }

  /** What a last resort leaves of the visits: was is the first coin's job before it, now the one after. */
  lemma ResortVisits(rest: map<nat, Job>, ks: map<nat, Job>, jobs: map<nat, Job>, os: seq<nat>, order: seq<nat>,
                     minable: set<int>, visited: set<nat>, was: nat, now: nat)
    requires AllVisited(rest, os, minable, visited) && OlderOnly(rest, ks, now) && SameJobs(ks, jobs)
    requires order == os || order == os + [now]
    ensures AllVisited(jobs, order, minable, visited + {was, now})
  {
    AllVisitedStays(rest, ks, os, minable, visited, now);
    AllVisitedSame(ks, jobs, order, minable, visited + {now});
  }

  lemma ResortTally(rest: map<nat, Job>, jobs: map<nat, Job>, cs: seq<Client>, ds: seq<Client>, visited: set<nat>,
                    was: nat, now: nat, created: bool)
    requires Settled(rest, cs, visited) && Settled(jobs, ds, visited - {was} + {now}) && was != 0
    requires was in jobs && was in rest && jobs[was].id == was == rest[was].id
    requires if created then jobs[was] == rest[was].(deleted := true) else was == now
    ensures ResortDone(rest, jobs, ds, visited + {was, now}, was, created) && RoundDone(jobs, ds, visited + {was, now})
    ensures created && was in visited ==> (Tallied(ds, jobs[was]) <==> forall i :: 0 <= i < |cs| ==> !OnJob(cs[i], was))
  {
    var after := visited - {was} + {now};
    assert after + {was} == visited + {was, now};
    SettledIsDone(rest, jobs, ds, after, was, created);
    if was in visited {
      CountsNothing(cs, rest[was]);
    }
  }

  // ----- the coins' turns in the leftover passes -----

  /** Nobody is left whom this coin's job could still take under the cap. */
  predicate CoinDone(cfg: Config, jobs: map<nat, Job>, minable: set<int>, d: CoinD, cs: seq<Client>, cap: real) {
    d.id in minable && d.job in jobs && d.job != 0 && cap >= 0.0 ==>
      jobs[d.job].owner.Coin? && AllLeftOut(cfg, jobs[d.job], cs, |cs|, cap)
  }

  /** The job's speed is under the cap, or what it was. */
  predicate CapKept(js: map<nat, Job>, ks: map<nat, Job>, id: nat, cap: real) {
    id in js && id in ks && cap > 0.0 ==> ks[id].speed <= cap || ks[id].speed == js[id].speed
  }

  predicate CoinsDone(cfg: Config, jobs: map<nat, Job>, minable: set<int>, coins: seq<CoinD>, n: nat,
                      cs: seq<Client>, factor: real) {
    forall k :: 0 <= k < n <= |coins| ==>
      CoinDone(cfg, jobs, minable, coins[k], cs, LeftCap(cfg, coins[k].nethash, factor))
  }

  predicate CapsKept(cfg: Config, js: map<nat, Job>, ks: map<nat, Job>, coins: seq<CoinD>, factor: real) {
    forall k :: 0 <= k < |coins| ==> CapKept(js, ks, coins[k].job, LeftCap(cfg, coins[k].nethash, factor))
  }

  /** The jobs of the coins from n on are as they were. */
  predicate UntouchedFrom(js: map<nat, Job>, ks: map<nat, Job>, coins: seq<CoinD>, n: nat) {
    forall k :: n <= k < |coins| && coins[k].job in js ==> coins[k].job in ks && ks[coins[k].job] == js[coins[k].job]
  }

  lemma CoinJobsDiffer(jobs: map<nat, Job>, order: seq<nat>, coins: seq<CoinD>, k: nat, l: nat)
    requires CoinsOk(jobs, order, coins) && k < |coins| && l < |coins| && k != l && coins[k].job != 0
    ensures coins[k].job != coins[l].job
  {
    assert CoinFits(jobs, order, coins[k]) && CoinFits(jobs, order, coins[l]);
  }

  /** Clients that another job takes are no candidates any more. */
  lemma LeftOutOfGrabbed(cfg: Config, j: Job, cs: seq<Client>, ds: seq<Client>, other: Job, cap: real)
    requires Grabbed(j, cs, ds) && j.id != 0 && other.owner.Coin? && AllLeftOut(cfg, other, cs, |cs|, cap)
    ensures AllLeftOut(cfg, other, ds, |ds|, cap)
  {
    forall i | 0 <= i < |ds|
      ensures LeftOut(cfg, other, ds[i], cap)
    {
      assert LeftOut(cfg, other, cs[i], cap) && (ds[i] == cs[i] || Taken(j, cs[i], ds[i]));
    }
  }

  /** A coin's turn leaves the earlier coins done. */
  lemma CoinTurn(cfg: Config, jobs: map<nat, Job>, order: seq<nat>, minable: set<int>, coins: seq<CoinD>, li: nat,
                 cs: seq<Client>, factor: real, j: Job, ds: seq<Client>, k: Job)
    requires CoinsOk(jobs, order, coins) && li < |coins| && coins[li].job == j.id != 0 && j.id in jobs
    requires CoinsDone(cfg, jobs, minable, coins, li, cs, factor) && Grabbed(j, cs, ds)
    requires CoinDone(cfg, jobs[j.id := k], minable, coins[li], ds, LeftCap(cfg, coins[li].nethash, factor))
    ensures CoinsDone(cfg, jobs[j.id := k], minable, coins, li + 1, ds, factor)
  {
    forall l | 0 <= l < li
      ensures CoinDone(cfg, jobs[j.id := k], minable, coins[l], ds, LeftCap(cfg, coins[l].nethash, factor))
    {
      var d, cap := coins[l], LeftCap(cfg, coins[l].nethash, factor);
      assert CoinDone(cfg, jobs, minable, d, cs, cap);
      if d.id in minable && d.job in jobs && d.job != 0 && cap >= 0.0 {
        CoinJobsDiffer(jobs, order, coins, l, li);
        LeftOutOfGrabbed(cfg, j, cs, ds, jobs[d.job], cap);
      }
    }
  }

  /** The caps of all coins stay kept, and the later coins' jobs untouched. */
  lemma CapsTurn(cfg: Config, js: map<nat, Job>, jobs: map<nat, Job>, order: seq<nat>, coins: seq<CoinD>, li: nat,
                 factor: real, k: Job)
    requires CoinsOk(jobs, order, coins) && li < |coins| && coins[li].job != 0 && coins[li].job in jobs
    requires CapsKept(cfg, js, jobs, coins, factor) && UntouchedFrom(js, jobs, coins, li)
    requires CapKept(jobs, jobs[coins[li].job := k], coins[li].job, LeftCap(cfg, coins[li].nethash, factor))
    ensures CapsKept(cfg, js, jobs[coins[li].job := k], coins, factor)
    ensures UntouchedFrom(js, jobs[coins[li].job := k], coins, li + 1)
  {
    var ks := jobs[coins[li].job := k];
    forall l | 0 <= l < |coins|
      ensures CapKept(js, ks, coins[l].job, LeftCap(cfg, coins[l].nethash, factor))
      ensures l > li && coins[l].job in js ==> coins[l].job in ks && ks[coins[l].job] == js[coins[l].job]
    {
      assert CapKept(js, jobs, coins[l].job, LeftCap(cfg, coins[l].nethash, factor));
      if l != li {
        CoinJobsDiffer(jobs, order, coins, li, l);
      }
    }
  }

  lemma RetiredFits(cfg: Config, jobs: map<nat, Job>, nextId: nat, cs: seq<Client>, order: seq<nat>,
                    coins: seq<CoinD>, was: nat)
    requires JobsOk(cfg, jobs, nextId) && ClientsOk(jobs, nextId, cs)
    requires OrderOk(jobs, order) && CoinsOk(jobs, order, coins)
    requires was in jobs ==> jobs[was].owner.Remote?
    ensures var js := Retired(jobs, was);
            JobsOk(cfg, js, nextId) && ClientsOk(js, nextId, cs) && OrderOk(js, order) && CoinsOk(js, order, coins)
  {
    var js := Retired(jobs, was);
    forall i | 0 <= i < |cs|
      ensures ClientFits(js, nextId, cs[i])
    {
      assert ClientFits(jobs, nextId, cs[i]);
    }
    forall i | 0 <= i < |coins|
      ensures CoinFits(js, order, coins[i])
    {
      assert CoinFits(jobs, order, coins[i]);
    }
  }

  lemma NewRemoteFits(cfg: Config, jobs: map<nat, Job>, nextId: nat, cs: seq<Client>, order: seq<nat>,
                      coins: seq<CoinD>,
                      was: nat, owner: Owner, profit: real, maxspeed: real)
    requires JobsOk(cfg, jobs, nextId) && ClientsOk(jobs, nextId, cs)
    requires OrderOk(jobs, order) && CoinsOk(jobs, order, coins)
    requires owner.Remote? && cfg.autoexchange && (was in jobs ==> jobs[was].owner.Remote?)
    ensures var id := nextId + 1;
            var js := Retired(jobs, was)[id := NewJob(id, owner, profit, maxspeed)];
            JobsOk(cfg, js, id) && ClientsOk(js, id, cs) && OrderOk(js, order + [id]) &&
            CoinsOk(js, order + [id], coins)
  {
    var id := nextId + 1;
    var js := Retired(jobs, was)[id := NewJob(id, owner, profit, maxspeed)];
    forall i | 0 <= i < |cs|
      ensures ClientFits(js, id, cs[i])
    {
      assert ClientFits(jobs, nextId, cs[i]);
    }
    forall i | 0 <= i < |coins|
      ensures CoinFits(js, order + [id], coins[i])
    {
      assert CoinFits(jobs, order, coins[i]);
    }
  }

  lemma CoinsKept(js: map<nat, Job>, ks: map<nat, Job>, order: seq<nat>, coins: seq<CoinD>)
    requires CoinsOk(js, order, coins) && SameJobs(js, ks)
    ensures CoinsOk(ks, order, coins)
  {
    forall k | 0 <= k < |coins|
      ensures CoinFits(ks, order, coins[k])
    {
      assert CoinFits(js, order, coins[k]);
    }
  }

  lemma NewJobFits(cfg: Config, jobs: map<nat, Job>, nextId: nat, cs: seq<Client>, order: seq<nat>, coins: seq<CoinD>,
                   k: nat, profit: real, maxspeed: real)
    requires JobsOk(cfg, jobs, nextId) && ClientsOk(jobs, nextId, cs) && OrderOk(jobs, order)
    requires CoinsOk(jobs, order, coins) && k < |coins|
    ensures var id := nextId + 1;
            var js := Retired(jobs, coins[k].job)[id := NewJob(id, Coin(coins[k].id), profit, maxspeed)];
            JobsOk(cfg, js, id) && ClientsOk(js, id, cs) && OrderOk(js, order + [id]) &&
            CoinsOk(js, order + [id], coins[k := coins[k].(job := id)])
  {
    var id := nextId + 1;
    var js := Retired(jobs, coins[k].job)[id := NewJob(id, Coin(coins[k].id), profit, maxspeed)];
    forall i | 0 <= i < |cs|
      ensures ClientFits(js, id, cs[i])
    {
      assert ClientFits(jobs, nextId, cs[i]);
    }
    var ds := coins[k := coins[k].(job := id)];
    forall i | 0 <= i < |ds|
      ensures CoinFits(js, order + [id], ds[i])
    {
      assert CoinFits(jobs, order, coins[i]) && CoinFits(jobs, order, coins[k]);
      if i == k {
        assert (order + [id])[|order|] == id;
      }
    }
  }

  lemma SettledReset(jobs: map<nat, Job>, cs: seq<Client>, ds: seq<Client>, visited: set<nat>, was: nat)
    requires Settled(jobs, cs, visited) && was != 0 && |ds| == |cs|
    requires forall i :: 0 <= i < |cs| ==> ds[i] == ResetOne(cs[i], was)
    ensures Settled(jobs, ds, visited - {was}) && forall i :: 0 <= i < |ds| ==> !OnJob(ds[i], was)
  {
    forall v | v in visited - {was}
      ensures Tallied(ds, jobs[v])
    {
      TallySame(cs, ds, v);
    }
  }

  /** Nobody is locked to a coin job, so resetting one leaves nobody locked. */
  lemma LocksAfterReset(jobs: map<nat, Job>, nextId: nat, cs: seq<Client>, ds: seq<Client>, was: nat)
    requires ClientsOk(jobs, nextId, cs) && was != 0 && was in jobs && jobs[was].owner.Coin? && |ds| == |cs|
    requires forall i :: 0 <= i < |cs| ==> LockLaw(cs[i]) && ds[i] == ResetOne(cs[i], was)
    ensures forall i :: 0 <= i < |ds| ==> LockLaw(ds[i])
  {
    forall i | 0 <= i < |ds|
      ensures LockLaw(ds[i])
    {
      assert ClientFits(jobs, nextId, cs[i]);
    }
  }

  lemma SettledNew(js: map<nat, Job>, ks: map<nat, Job>, cs: seq<Client>, kept: set<nat>, was: nat, id: nat)
    requires Settled(js, cs, kept) && was !in kept && id !in js && id in ks && ks == Retired(js, was)[id := ks[id]]
    ensures Settled(ks, cs, kept)
  {
  }

  /** Without a cap and with a job nobody has seen, every free client is taken. */
  /** Every live client is without a next job, or on job `id`. */
  predicate OnlyOn(cs: seq<Client>, id: nat) {
    forall i :: 0 <= i < |cs| ==> cs[i].deleted || cs[i].jobidNext == 0 || cs[i].jobidNext == id
  }

  predicate NobodyLocked(cs: seq<Client>) {
    forall i :: 0 <= i < |cs| ==> cs[i].deleted || cs[i].jobidLocked == 0
  }

  predicate SameLocks(cs: seq<Client>, ds: seq<Client>) {
    |ds| == |cs| && forall i :: 0 <= i < |cs| ==>
                        ds[i].jobidLocked == cs[i].jobidLocked && ds[i].deleted == cs[i].deleted
  }

  /** Every live client that is not locked has a next job. */
  predicate UnlockedServed(cs: seq<Client>) {
    forall i :: 0 <= i < |cs| ==> cs[i].deleted || cs[i].jobidNext != 0 || cs[i].jobidLocked != 0
  }

  /** The jobs that nobody is on are tallied exactly when they count nothing. */
  predicate OthersForgotten(jobs: map<nat, Job>, cs: seq<Client>, id: nat) {
    forall v :: v in jobs && v != 0 && v != id ==>
      (Tallied(cs, jobs[v]) <==> jobs[v].count == 0 && jobs[v].speed == 0.0)
  }

  /** A lone job leaves every other one without a client. */
  lemma OthersEmpty(cfg: Config, jobs: map<nat, Job>, nextId: nat, cs: seq<Client>, id: nat)
    requires JobsOk(cfg, jobs, nextId) && OnlyOn(cs, id)
    ensures OthersForgotten(jobs, cs, id)
  {
    forall v | v in jobs && v != 0 && v != id
      ensures Tallied(cs, jobs[v]) <==> jobs[v].count == 0 && jobs[v].speed == 0.0
    {
      TallyNone(cs, v);
    }
  }

  /** When all were reset, and a coin's job that nobody was locked to took some: locks are as they were, and the
      lock law holds exactly when there is none. */
  lemma LocksAfterNew(j: Job, cs: seq<Client>, ds: seq<Client>, es: seq<Client>)
    requires j.owner.Coin? && j.id != 0 && |ds| == |cs| && Grabbed(j, ds, es)
    requires forall i :: 0 <= i < |cs| ==> ds[i] == ResetOne(cs[i], 0) && cs[i].jobidLocked != j.id
    ensures OnlyOn(es, j.id) && SameLocks(cs, es)
    ensures LocksOk(es) <==> NobodyLocked(cs)
  {
    forall i | 0 <= i < |cs|
      ensures LockLaw(es[i]) <==> cs[i].deleted || cs[i].jobidLocked == 0
    {
      assert es[i] == ds[i] || Taken(j, ds[i], es[i]);
    }
  }

  /** Whoever is not locked is taken by a new job without a cap. */
  lemma UnlockedTaken(cfg: Config, j: Job, k: Job, cs: seq<Client>, ds: seq<Client>)
    requires j.id != 0 && j.owner.Coin? && Grabbed(j, cs, ds) && k.id == j.id && k.owner == j.owner
    requires AllLeftOut(cfg, k, ds, |ds|, -1.0) && forall i :: 0 <= i < |cs| ==> !InHistory(cs[i], j.id, 1)
    ensures UnlockedServed(ds)
  {
    forall i | 0 <= i < |ds|
      ensures ds[i].deleted || ds[i].jobidNext != 0 || ds[i].jobidLocked != 0
    {
      assert LeftOut(cfg, k, ds[i], -1.0);
      assert ds[i].history == cs[i].history;
    }
  }

  lemma EverybodyTaken(cfg: Config, j: Job, k: Job, cs: seq<Client>, ds: seq<Client>)
    requires j.owner.Coin? && SameJob(j, k) && Grabbed(j, cs, ds) && AllLeftOut(cfg, k, ds, |ds|, -1.0) && j.id != 0
    requires forall i :: 0 <= i < |cs| ==> LockLaw(cs[i]) && !InHistory(cs[i], j.id, 1)
    ensures forall i :: 0 <= i < |ds| ==> !OnJob(ds[i], 0)
  {
    forall i | 0 <= i < |ds|
      ensures !OnJob(ds[i], 0)
    {
      assert LeftOut(cfg, k, ds[i], -1.0);
      assert ds[i] == cs[i] || Taken(j, cs[i], ds[i]);
    }
  }

  function EntriesOf(jobs: map<nat, Job>, order: seq<nat>): (es: seq<Entry>)
    requires forall k :: 0 <= k < |order| ==> order[k] in jobs
    ensures |es| == |order|
  {
    seq(|order|, k requires 0 <= k < |order| => Entry(order[k], jobs[order[k]].profit))
  }

  function IdsOf(es: seq<Entry>): (o: seq<nat>)
    ensures |o| == |es|
  {
    seq(|es|, k requires 0 <= k < |es| => es[k].id)
  }

  lemma SameMultisetMembers<T>(a: seq<T>, b: seq<T>)
    requires multiset(a) == multiset(b)
    ensures forall x :: x in a <==> x in b
  {
    forall x
      ensures x in a <==> x in b
    {
      assert x in a <==> x in multiset(a);
      assert x in b <==> x in multiset(b);
    }
  }

  /** Rearranging keeps entries distinct. */
  lemma DistinctRearranged<T>(a: seq<T>, b: seq<T>)
    requires multiset(a) == multiset(b) && forall k, l :: 0 <= k < l < |a| ==> a[k] != a[l]
    ensures forall k, l :: 0 <= k < l < |b| ==> b[k] != b[l]
  {
    forall k, l | 0 <= k < l < |b|
      ensures b[k] != b[l]
    {
      if b[k] == b[l] {
        assert b == b[..k] + [b[k]] + b[k + 1..l] + [b[l]] + b[l + 1..];
        assert multiset(b)[b[k]] >= 2;
        DistinctOnce(a, b[k]);
      }
    }
  }

  lemma {:induction false} DistinctOnce<T>(a: seq<T>, x: T)
    requires forall k, l :: 0 <= k < l < |a| ==> a[k] != a[l]
    ensures multiset(a)[x] <= 1
  {
    if a != [] {
      assert a == [a[0]] + a[1..];
      DistinctOnce(a[1..], x);
      if a[0] == x {
        assert x !in a[1..];
      }
    }
  }

  /** A stable rearrangement of the entries is a rearrangement of the ids. */
  lemma SortedOrder(jobs: map<nat, Job>, order: seq<nat>, sorted: seq<Entry>)
    requires OrderOk(jobs, order) && Stable(EntriesOf(jobs, order), sorted)
    ensures var o := IdsOf(sorted);
            OrderOk(jobs, o) && EntriesOf(jobs, o) == sorted && forall x :: x in o <==> x in order
  {
    var es, o := EntriesOf(jobs, order), IdsOf(sorted);
    StableMultiset(es, sorted);
    SameMultisetMembers(es, sorted);
    DistinctRearranged(es, sorted);
    forall k | 0 <= k < |o|
      ensures o[k] in jobs && o[k] in order && sorted[k] == Entry(o[k], jobs[o[k]].profit)
    {
      assert sorted[k] in es;
    }
    forall x | x in order
      ensures x in o
    {
      var k :| 0 <= k < |order| && order[k] == x;
      assert es[k] in sorted;
      var l :| 0 <= l < |sorted| && sorted[l] == es[k];
      assert o[l] == x;
    }
    assert EntriesOf(jobs, o) == sorted;
  }

  lemma NobodyOn(jobs: map<nat, Job>, cs: seq<Client>, visited: set<nat>, order: seq<nat>, li: nat)
    requires Settled(jobs, cs, visited) && li < |order| && OrderOk(jobs, order)
    requires forall v :: v in visited ==> v in order[..li]
    requires forall id :: id in jobs ==> id != 0
    ensures order[li] !in visited && order[li] != 0
    ensures forall i :: 0 <= i < |cs| ==> !OnJob(cs[i], order[li])
  {
    assert order[li] !in order[..li];
  }

  lemma CoinsReordered(jobs: map<nat, Job>, order: seq<nat>, o: seq<nat>, coins: seq<CoinD>)
    requires CoinsOk(jobs, order, coins) && forall x :: x in o <==> x in order
    ensures CoinsOk(jobs, o, coins)
  {
    forall k | 0 <= k < |coins|
      ensures CoinFits(jobs, o, coins[k])
    {
      assert CoinFits(jobs, order, coins[k]);
    }
  }

  lemma ReadyFor(cfg: Config, jobs: map<nat, Job>, nextId: nat, cs: seq<Client>, jid: nat)
    requires JobsOk(cfg, jobs, nextId) && ClientsOk(jobs, nextId, cs) && jid in jobs
    ensures Ready(cfg, jobs[jid], cs)
  {
    forall i | 0 <= i < |cs|
      ensures ClientOk(cs[i])
    {
      assert ClientFits(jobs, nextId, cs[i]);
    }
  }

  lemma JobReplaced(cfg: Config, jobs: map<nat, Job>, nextId: nat, order: seq<nat>, coins: seq<CoinD>, jid: nat, k: Job)
    requires JobsOk(cfg, jobs, nextId) && OrderOk(jobs, order) && CoinsOk(jobs, order, coins)
    requires jid in jobs && SameJob(jobs[jid], k)
    ensures JobsOk(cfg, jobs[jid := k], nextId)
    ensures OrderOk(jobs[jid := k], order) && CoinsOk(jobs[jid := k], order, coins)
  {
    forall i | 0 <= i < |coins|
      ensures CoinFits(jobs[jid := k], order, coins[i])
    {
      assert CoinFits(jobs, order, coins[i]);
    }
  }

  /** The loop of `job_broadcast`. */
  method SendToAll(cs: seq<Client>, jid: nat, silent: set<nat>, dropped: set<nat>) returns (ds: seq<Client>)
    requires forall i :: 0 <= i < |cs| ==> ClientOk(cs[i])
    ensures |ds| == |cs|
    ensures forall i :: 0 <= i < |cs| ==> ClientOk(cs[i]) && ds[i] == Sent1(cs[i], jid, i in silent, i in dropped)
  {
    ds := cs;
    for li := 0 to |cs|
      invariant |ds| == |cs|
      invariant forall i :: 0 <= i < li ==> ds[i] == Sent1(cs[i], jid, i in silent, i in dropped)
      invariant forall i :: li <= i < |cs| ==> ds[i] == cs[i]
    {
      var client := ds[li];
      if !client.deleted && li !in silent && client.jobidNext == jid && client.jobidSent != jid {
        client := AddHistory(client.(jobidSent := jid), jid);
        if li in dropped {
          client := client.(deleted := true);
        }
        ds := ds[li := client];
      }
    }
  }
}
