/**
 Exactly which clients `job_assign_client` takes, when it ends the caller's loop, and what it makes
 of a client that it takes, condition by condition.
 */
module Taking {
  import opened Assignment

  /** No next job, no lock on another job, and the job not among the 15 before the latest. */
  predicate Available(j: Job, c: Client)
    requires |c.history| == MAX_HISTORY
  {
    && !c.deleted && c.jobidNext == 0 && (c.jobidLocked != 0 ==> c.jobidLocked == j.id)
    && forall i :: 1 <= i < 16 ==> c.history[i] != j.id
  }

  /**
   With a positive cap the client's speed fits under it; without autoexchange a capped job takes its own
   coin's clients.
   */
  predicate Allowed(cfg: Config, j: Job, c: Client, maxhash: real)
    requires cfg.autoexchange || j.owner.Coin?
  {
    && (maxhash > 0.0 ==> j.speed + c.speed <= maxhash)
    && (cfg.autoexchange || maxhash < 0.0 || c.coinid == j.owner.coinId)
  }

  /** The client can be told a new nonce, and is not just being told one. */
  predicate Reachable(cfg: Config, c: Client) {
    (c.subscribe || (cfg.stratumReconnect && c.reconnectable)) && !c.reconnecting
  }

  /** The remote's difficulty is not below the client's, or not below a quarter of one that may change. */
  predicate DifficultyFits(r: real, c: Client) {
    c.difficulty <= r || (!c.difficultyFixed && c.difficulty <= 4.0 * r)
  }

  /** The job has room for one more nonce. */
  predicate RoomFor(j: Job, c: Client)
    requires j.owner.Remote? && JobOk(j)
  {
    if j.owner.nonce2size == 2 then j.count == 0
    else c.jobidSent == j.id || exists s :: 0 <= s < MAX_SUBIDS && !j.subids[s]
  }

  predicate Takes(cfg: Config, j: Job, c: Client, maxhash: real)
    requires Assignable(cfg, j, c)
  {
    && Available(j, c) && Allowed(cfg, j, c, maxhash)
    && (j.owner.Remote? ==>
          Reachable(cfg, c) && j.count < MAX_SUBIDS && DifficultyFits(j.owner.difficulty, c) && RoomFor(j, c))
  }

  lemma FreeIs(j: Job, c: Client)
    requires |c.history| == MAX_HISTORY
    ensures Free(j, c) <==> Available(j, c)
  {
  }

  lemma RoomIs(j: Job, c: Client)
    requires ClientOk(c) && JobOk(j)
    ensures SubidFor(j, c) < MAX_SUBIDS <==> exists s :: 0 <= s < MAX_SUBIDS && !j.subids[s]
  {
    if exists s :: 0 <= s < MAX_SUBIDS && !j.subids[s] {
      var s :| 0 <= s < MAX_SUBIDS && !j.subids[s];
      assert FirstFree(j.subids, 0) <= s;
    } else {
      assert FirstFree(j.subids, 0) == MAX_SUBIDS;
    }
  }

  /** The loop goes on, unless an available reachable client finds a remote job full. */
  predicate Ends(cfg: Config, j: Job, c: Client, maxhash: real)
    requires Assignable(cfg, j, c)
  {
    && j.owner.Remote? && Available(j, c) && Allowed(cfg, j, c, maxhash) && Reachable(cfg, c)
    && (j.count >= MAX_SUBIDS || (DifficultyFits(j.owner.difficulty, c) && !RoomFor(j, c)))
  }

  lemma SubidTakes(j: Job, c: Client, r: real)
    requires ClientOk(c) && JobOk(j) && j.owner.Remote? && c.jobidNext == 0
    ensures var a := AssignSubid(j, c, r); (a.client.jobidNext == j.id <==> RoomFor(j, c)) && (a.go <==> RoomFor(j, c))
  {
    RoomIs(j, c);
  }

  lemma RemoteTakes(cfg: Config, j: Job, c: Client)
    requires ClientOk(c) && JobOk(j) && j.owner.Remote? && c.jobidNext == 0
    ensures var a := AssignRemote(cfg, j, c);
            && (a.client.jobidNext == j.id <==>
                Reachable(cfg, c) && j.count < MAX_SUBIDS && DifficultyFits(j.owner.difficulty, c) && RoomFor(j, c))
            && (!a.go <==> Reachable(cfg, c) &&
                           (j.count >= MAX_SUBIDS || (DifficultyFits(j.owner.difficulty, c) && !RoomFor(j, c))))
  {
    var r := j.owner.difficulty;
    SubidTakes(j, c, if r < c.difficulty then r else if r > c.difficulty then 0.0 else c.difficultyRemote);
  }

  /** Taken are exactly the clients for which all conditions hold; the loop ends exactly at a full remote job. */
  lemma TakenExactly(cfg: Config, j: Job, c: Client, maxhash: real)
    requires Assignable(cfg, j, c)
    ensures var a := AssignClient(cfg, j, c, maxhash);
            && (Takes(cfg, j, c, maxhash) <==> a.client != c) &&
               (Takes(cfg, j, c, maxhash) ==> a.client.jobidNext == j.id)
            && (!a.go <==> Ends(cfg, j, c, maxhash))
  {
    FreeIs(j, c);
    AssignEffect(cfg, j, c, maxhash);
    if j.owner.Remote? && Available(j, c) {
      RemoteTakes(cfg, j, c);
    }
  }

  // ----- what a taken client becomes -----

  /** The nonce and nonce size the client is to mine with. */
  datatype Nonce = Nonce(nonce1: string, size: int)

  function NonceNow(c: Client): Nonce {
    Nonce(c.nonce1, c.nonce2size)
  }

  /** Told over the wire if it subscribes, else by reconnecting: then it keeps its default until it is back. */
  predicate ToldNonce(c: Client, d: Client, n: Nonce) {
    if n == Nonce(c.nonce1Last, c.nonce2sizeLast) then
      NonceNow(d) == n && d.reconnecting == c.reconnecting && d.jobidSent == c.jobidSent &&
      d.nonce1Last == c.nonce1Last && d.nonce2sizeLast == c.nonce2sizeLast
    else if c.subscribe then
      NonceNow(d) == n && d.reconnecting == c.reconnecting && d.jobidSent == c.jobidSent &&
      n == Nonce(d.nonce1Last, d.nonce2sizeLast)
    else
      n == Nonce(d.nonce1Reconnect, d.nonce2sizeReconnect) && d.reconnecting && d.jobidSent == d.jobidNext &&
      NonceNow(d) == Nonce(c.nonce1Default, c.nonce2sizeDefault)
  }

  /**
   The nonce of a client on a remote job: the remote's own, with the client's two digits unless it has
   but one client.
   */
  predicate RemoteNonce(j: Job, c: Client, d: Client, n: Nonce)
    requires j.owner.Remote? && JobOk(j) && ClientOk(c) && d.subid < MAX_SUBIDS
  {
    if j.owner.nonce2size == 2 then n == Nonce(j.owner.nonce1, 2) && d.subid == c.subid
    else if c.jobidSent == j.id then n == NonceNow(c) && d.subid == c.subid
    else
      && n == Nonce(j.owner.nonce1 + ["0123456789abcdef"[d.subid / 16], "0123456789abcdef"[d.subid % 16]],
                    j.owner.nonce2size - 1)
      && d.difficultyRemote == (if c.difficulty > j.owner.difficulty then j.owner.difficulty
                                else if c.difficulty < j.owner.difficulty then 0.0 else c.difficultyRemote)
      && (!j.subids[c.subid] ==> d.subid == c.subid)
  }

  lemma TakenByCoin(cfg: Config, j: Job, c: Client, maxhash: real)
    requires Assignable(cfg, j, c) && j.owner.Coin? && AssignClient(cfg, j, c, maxhash).client != c
    ensures var d := AssignClient(cfg, j, c, maxhash).client;
            && d.jobidLocked == 0 && d.difficultyRemote == 0.0 && d.subid == c.subid
            && (!cfg.decred ==> ToldNonce(c, d, Nonce(c.nonce1Default, c.nonce2sizeDefault)))
            && (cfg.decred && |c.nonce1Default| >= 8 ==>
                  ToldNonce(c, d, Nonce("0000000000000000" + c.nonce1Default[..8], c.nonce2sizeDefault)))
  {
    assert "0000000000000000" == seq(16, _ => '0');
  }

  lemma FinishTells(k: Job, c: Client, b: Client)
    requires b == c.(nonce1 := b.nonce1, nonce2size := b.nonce2size, subid := b.subid, jobidLocked := b.jobidLocked,
                     difficultyRemote := b.difficultyRemote)
    ensures var d := Finish(k, b).client;
            && ToldNonce(c, d, NonceNow(b)) && d.subid == b.subid && d.jobidLocked == b.jobidLocked
            && d.difficultyRemote == b.difficultyRemote
  {
  }

  lemma TakenBySubid(j: Job, c: Client, r: real) returns (n: Nonce)
    requires JobOk(j) && ClientOk(c) && j.owner.Remote? && AssignSubid(j, c, r).client != c && c.jobidNext == 0
    requires r == if c.difficulty > j.owner.difficulty then j.owner.difficulty
                  else if c.difficulty < j.owner.difficulty then 0.0 else c.difficultyRemote
    ensures var d := AssignSubid(j, c, r).client;
            d.subid < MAX_SUBIDS && d.jobidLocked == j.id && RemoteNonce(j, c, d, n) && ToldNonce(c, d, n)
  {
    if j.owner.nonce2size == 2 {
      n := Nonce(j.owner.nonce1, 2);
      FinishTells(j, c, c.(nonce1 := j.owner.nonce1, nonce2size := 2, jobidLocked := j.id));
    } else if c.jobidSent == j.id {
      n := NonceNow(c);
      FinishTells(j, c, c.(jobidLocked := j.id));
    } else {
      var s := SubidFor(j, c);
      n := Nonce(j.owner.nonce1 + Hex2(s), j.owner.nonce2size - 1);
      FinishTells(j.(subids := j.subids[s := true]), c,
                  c.(subid := s, nonce1 := n.nonce1, nonce2size := n.size, difficultyRemote := r, jobidLocked := j.id));
    }
  }

  lemma TakenByRemote(cfg: Config, j: Job, c: Client, maxhash: real) returns (n: Nonce)
    requires Assignable(cfg, j, c) && j.owner.Remote? && AssignClient(cfg, j, c, maxhash).client != c
    ensures var d := AssignClient(cfg, j, c, maxhash).client;
            d.subid < MAX_SUBIDS && d.jobidLocked == j.id && RemoteNonce(j, c, d, n) && ToldNonce(c, d, n)
  {
    var r := j.owner.difficulty;
    n := TakenBySubid(j, c, if r < c.difficulty then r else if r > c.difficulty then 0.0 else c.difficultyRemote);
  }
}
