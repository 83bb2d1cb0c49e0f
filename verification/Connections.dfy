/**
 How clients and jobs come and go between updates: connecting and reconnecting (client.cpp),
 `object_delete` and `object_prune` on the client and job lists (object.cpp).
 */
module Connections {
  import opened Assignment
  import opened PoolState
  import opened Pruning

  const EXTRANONCE2_SIZE := 4

  /** A client as `client_subscribe` sets it up, before anything is copied from an earlier connection. */
  function NewClient(cfg: Config, coinid: int, nonce1: string, difficulty: real, subscribe: bool, reconnectable: bool,
                     fixed: bool): Client {
    var size := if cfg.decred then 12 else EXTRANONCE2_SIZE;
    var c := Client(false, coinid, 1.0, 0, 0, 0, seq(MAX_HISTORY, _ => 0), subscribe, reconnectable, false,
                    difficulty, 0.0, fixed, 0, nonce1, size, nonce1, size, "", 0, "", 0);
    c.(nonce1 := DefaultNonce(cfg, c))
  }

  /** What a connection takes over from the earlier one: all of it after a reconnect that the pool asked for. */
  function Rejoined(c: Client, earlier: Client): Client {
    if earlier.reconnecting then
      c.(jobidLocked := earlier.jobidLocked, difficulty := earlier.difficulty,
         nonce2sizeDefault := earlier.nonce2sizeDefault, nonce1Default := earlier.nonce1Default,
         nonce2size := earlier.nonce2sizeReconnect, nonce1 := earlier.nonce1Reconnect,
         speed := earlier.speed, subid := earlier.subid, history := earlier.history)
    else c.(difficulty := earlier.difficulty, speed := earlier.speed, history := earlier.history)
  }

  function Settle(c: Client): Client {
    c.(nonce1Last := c.nonce1, nonce2sizeLast := c.nonce2size)
  }

  /** `job_get_last(0)`: the first minable coin job of the list, 0 if there is none. */
  function FirstCoinJob(jobs: map<nat, Job>, order: seq<nat>, minable: set<int>, i: nat): (id: nat)
    requires i <= |order| && forall k :: 0 <= k < |order| ==> order[k] in jobs
    ensures id == 0 || (id in jobs && CanMine(jobs[id], minable) && jobs[id].owner.Coin?)
    decreases |order| - i
  {
    if i == |order| then 0
    else if CanMine(jobs[order[i]], minable) && jobs[order[i]].owner.Coin? then order[i]
    else FirstCoinJob(jobs, order, minable, i + 1)
  }

  /** The job a new connection is sent: the one it is locked to, if it exists, else the first coin job. */
  function FirstSent(jobs: map<nat, Job>, order: seq<nat>, minable: set<int>, c: Client): (id: nat)
    requires forall k :: 0 <= k < |order| ==> order[k] in jobs
    ensures id == 0 || id in jobs
  {
    if c.jobidLocked != 0 && c.jobidLocked in jobs then c.jobidLocked else FirstCoinJob(jobs, order, minable, 0)
  }

  // ----- what a connection comes to -----

  /** On no job, sent and locked to none, remembering none, and counted with speed 1. */
  predicate Unused(c: Client) {
    && !c.deleted && !c.reconnecting && c.jobidNext == 0 && c.jobidSent == 0 && c.jobidLocked == 0
    && |c.history| == 16 && (forall i :: 0 <= i < 16 ==> c.history[i] == 0) && c.speed == 1.0
    && c.subid == 0 && c.difficultyRemote == 0.0
  }

  /** Ready to mine with this nonce, which is noted as the one last told. */
  predicate MinesWith(c: Client, nonce1: string, size: int) {
    c.nonce1 == c.nonce1Last == nonce1 && c.nonce2size == c.nonce2sizeLast == size
  }

  /** A client that nobody knew: unused, with its own nonce, in decred's form where that is used. */
  lemma ConnectedAlone(cfg: Config, coinid: int, nonce1: string, difficulty: real, subscribe: bool, reconnectable: bool,
                       fixed: bool)
    ensures var c := Settle(NewClient(cfg, coinid, nonce1, difficulty, subscribe, reconnectable, fixed));
            && Unused(c) && c.coinid == coinid && c.difficulty == difficulty && c.difficultyFixed == fixed
            && c.subscribe == subscribe && c.reconnectable == reconnectable && c.nonce1Default == nonce1
            && (!cfg.decred ==> MinesWith(c, nonce1, 4) && c.nonce2sizeDefault == 4)
            && (cfg.decred && |nonce1| >= 8 ==>
                  MinesWith(c, "0000000000000000" + nonce1[..8], 12) && c.nonce2sizeDefault == 12)
  {
    assert "0000000000000000" == seq(16, _ => '0');
  }

  /** The same client again: difficulty, speed and history go on, and nothing else of it. */
  predicate Continues(c: Client, earlier: Client, d: Client) {
    && d.difficulty == earlier.difficulty && d.speed == earlier.speed && d.history == earlier.history
    && d.deleted == c.deleted && d.coinid == c.coinid && d.difficultyFixed == c.difficultyFixed
    && d.jobidNext == c.jobidNext && d.jobidSent == c.jobidSent && d.reconnecting == c.reconnecting
    && d.subscribe == c.subscribe && d.reconnectable == c.reconnectable
  }

  /**
   A client that was told to reconnect mines with the nonce it was told and keeps its lock, its
   sub-id and the defaults it had; another one begins with its own.
   */
  lemma ConnectedAgain(c: Client, earlier: Client)
    ensures var d := Settle(Rejoined(c, earlier));
            && Continues(c, earlier, d)
            && if earlier.reconnecting then
                 && MinesWith(d, earlier.nonce1Reconnect, earlier.nonce2sizeReconnect)
                 && d.jobidLocked == earlier.jobidLocked && d.subid == earlier.subid
                 && d.nonce1Default == earlier.nonce1Default && d.nonce2sizeDefault == earlier.nonce2sizeDefault
               else
                 && MinesWith(d, c.nonce1, c.nonce2size) && d.jobidLocked == c.jobidLocked && d.subid == c.subid
                 && d.nonce1Default == c.nonce1Default && d.nonce2sizeDefault == c.nonce2sizeDefault
  {
  }

  /** A live job of a coin that can be mined. */
  predicate ForEverybody(j: Job, minable: set<int>) {
    !j.deleted && j.owner.Coin? && j.owner.coinId in minable
  }

  lemma {:induction false} FirstCoinJobIs(jobs: map<nat, Job>, order: seq<nat>, minable: set<int>, i: nat)
    returns (k: nat)
    requires i <= |order| && forall k :: 0 <= k < |order| ==> order[k] in jobs
    ensures i <= k <= |order| && FirstCoinJob(jobs, order, minable, i) == if k < |order| then order[k] else 0
    ensures k < |order| ==> ForEverybody(jobs[order[k]], minable)
    ensures forall m :: i <= m < k ==> !ForEverybody(jobs[order[m]], minable)
    decreases |order| - i
  {
    if i == |order| || ForEverybody(jobs[order[i]], minable) {
      k := i;
    } else {
      k := FirstCoinJobIs(jobs, order, minable, i + 1);
    }
  }

  /** The new connection is sent the job it is locked to, if there is one, else the first of the list for everybody. */
  lemma SentFirst(jobs: map<nat, Job>, order: seq<nat>, minable: set<int>, c: Client) returns (k: nat)
    requires forall k :: 0 <= k < |order| ==> order[k] in jobs
    ensures k <= |order| && (k < |order| ==> ForEverybody(jobs[order[k]], minable))
    ensures forall m :: 0 <= m < k ==> !ForEverybody(jobs[order[m]], minable)
    ensures FirstSent(jobs, order, minable, c) ==
            if c.jobidLocked != 0 && c.jobidLocked in jobs then c.jobidLocked
            else if k < |order| then order[k] else 0
  {
    k := FirstCoinJobIs(jobs, order, minable, 0);
  }

  lemma RejoinedFits(cfg: Config, jobs: map<nat, Job>, nextId: nat, c: Client, earlier: Client)
    requires ClientFits(jobs, nextId, c) && ClientFits(jobs, nextId, earlier)
    ensures ClientFits(jobs, nextId, Settle(Rejoined(c, earlier)))
  {
  }

  // ----- pruning -----

  /** The clients `object_prune` keeps: the live ones and those still held. */
  function KeptClients(cs: seq<Client>, held: set<nat>): seq<Client> {
    if cs == [] then []
    else
      var n := |cs| - 1;
      KeptClients(cs[..n], held) + if cs[n].deleted && n !in held then [] else [cs[n]]
  }

  function ClientStays(cs: seq<Client>, held: set<nat>): (stays: seq<bool>)
    ensures |stays| == |cs|
  {
    seq(|cs|, k requires 0 <= k < |cs| => !cs[k].deleted || k in held)
  }

  /** Everybody live or held stays, in order and unchanged, and nobody else. */
  lemma {:induction false} ClientsKept(cs: seq<Client>, held: set<nat>) returns (at: seq<nat>)
    ensures KeptAt(cs, ClientStays(cs, held), KeptClients(cs, held), at)
  {
    if cs == [] {
      at := [];
    } else {
      var n := |cs| - 1;
      at := ClientsKept(cs[..n], held);
      assert ClientStays(cs, held)[..n] == ClientStays(cs[..n], held);
      KeptAtNext(cs, ClientStays(cs, held), n, KeptClients(cs[..n], held), at);
      if !cs[n].deleted || n in held {
        at := at + [n];
      }
    }
  }

  predicate JobStays(jobs: map<nat, Job>, held: set<nat>, id: nat)
    requires id in jobs
  {
    !jobs[id].deleted || id in held
  }

  /** The jobs and the list that pruning keeps. */
  function KeptJobs(jobs: map<nat, Job>, held: set<nat>): map<nat, Job> {
    map id | id in jobs && JobStays(jobs, held, id) :: jobs[id]
  }

  function KeptOrder(jobs: map<nat, Job>, order: seq<nat>, held: set<nat>): (o: seq<nat>)
    requires forall k :: 0 <= k < |order| ==> order[k] in jobs
    ensures forall x :: x in o <==> x in order && x in jobs && JobStays(jobs, held, x)
  {
    if order == [] then []
    else
      var n := |order| - 1;
      KeptOrder(jobs, order[..n], held) + if JobStays(jobs, held, order[n]) then [order[n]] else []
  }

  lemma {:induction false} KeptOrderDistinct(jobs: map<nat, Job>, order: seq<nat>, held: set<nat>)
    requires OrderOk(jobs, order)
    ensures forall k, l :: 0 <= k < l < |KeptOrder(jobs, order, held)| ==>
                             KeptOrder(jobs, order, held)[k] != KeptOrder(jobs, order, held)[l]
  {
    if order != [] {
      var n := |order| - 1;
      KeptOrderDistinct(jobs, order[..n], held);
      assert order[n] !in order[..n];
    }
  }

  /** A coin's job is alive, so pruning keeps it. */
  lemma PrunedFits(cfg: Config, jobs: map<nat, Job>, nextId: nat, cs: seq<Client>, order: seq<nat>, coins: seq<CoinD>,
                   held: set<nat>)
    requires JobsOk(cfg, jobs, nextId) && ClientsOk(jobs, nextId, cs)
    requires OrderOk(jobs, order) && CoinsOk(jobs, order, coins)
    ensures var js, o := KeptJobs(jobs, held), KeptOrder(jobs, order, held);
            JobsOk(cfg, js, nextId) && ClientsOk(js, nextId, cs) && OrderOk(js, o) && CoinsOk(js, o, coins)
  {
    var js, o := KeptJobs(jobs, held), KeptOrder(jobs, order, held);
    forall i | 0 <= i < |cs|
      ensures ClientFits(js, nextId, cs[i])
    {
      assert ClientFits(jobs, nextId, cs[i]);
    }
    forall k | 0 <= k < |o|
      ensures o[k] in js
    {
      assert o[k] in o;
    }
    KeptOrderDistinct(jobs, order, held);
    forall i | 0 <= i < |coins|
      ensures CoinFits(js, o, coins[i])
    {
      assert CoinFits(jobs, order, coins[i]);
    }
  }
}
