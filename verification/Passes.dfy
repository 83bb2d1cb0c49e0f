/**
 Whom the four passes of `job_assign_clients` are for, and what is left of their order: the pass
 for locked clients visits everybody who could be taken, so that on a coin's job the four are one
 scan in list order.
 */
module Passes {
  import opened Assignment
  import opened Tally
  import opened Round
  import opened Taking

  /** Whom a pass is for. */
  predicate IsFor(pass: Pass, j: Job, c: Client) {
    match pass
    case Locked => c.jobidLocked in {0, j.id}
    case Sent => c.jobidSent == j.id
    case Subscribed => c.subscribe
    case Rest => true
  }

  lemma ForSame(pass: Pass, j: Job, k: Job, c: Client)
    requires SameJob(j, k)
    ensures IsFor(pass, k, c) == IsFor(pass, j, c)
  {
  }

  /** Out of the remote job's reach, but for its room. */
  predicate Unreached(cfg: Config, j: Job, c: Client, maxhash: real)
    requires j.owner.Remote? && |c.history| == MAX_HISTORY && cfg.autoexchange
  {
    !(Available(j, c) && Allowed(cfg, j, c, maxhash) && Reachable(cfg, c) && DifficultyFits(j.owner.difficulty, c))
  }

  lemma StaysUnreached(cfg: Config, j: Job, k: Job, c: Client, maxhash: real)
    requires j.owner.Remote? && |c.history| == MAX_HISTORY && cfg.autoexchange && SameJob(j, k)
    requires Unreached(cfg, j, c, maxhash) && j.speed <= k.speed
    ensures Unreached(cfg, k, c, maxhash)
  {
  }

  /** A call that lets the loop go on takes the client or leaves it unreached. */
  lemma CallReaches(cfg: Config, j: Job, c: Client, maxhash: real)
    requires Assignable(cfg, j, c) && j.owner.Remote? && cfg.autoexchange && AssignClient(cfg, j, c, maxhash).go
    requires c.speed >= 0.0
    ensures var a := AssignClient(cfg, j, c, maxhash); Unreached(cfg, a.job, a.client, maxhash)
  {
    TakenExactly(cfg, j, c, maxhash);
    AssignEffect(cfg, j, c, maxhash);
  }

  /** From job j and clients cs to k and ds, and whether the pass goes on: one client's turn. */
  predicate OneTurn(cfg: Config, j: Job, cs: seq<Client>, k: Job, ds: seq<Client>, i: nat) {
    && i < |cs| == |ds| && Ready(cfg, k, ds) && SameJob(j, k)
    && (NonNegative(cs) ==> NonNegative(ds) && j.speed <= k.speed)
    && forall m :: 0 <= m < |cs| && m != i ==> ds[m] == cs[m]
  }

  /** The i-th client's turn in a pass, and the turns after it. */
  lemma TurnOf(cfg: Config, j: Job, cs: seq<Client>, maxhash: real, pass: Pass, i: nat)
    returns (k: Job, ds: seq<Client>, go: bool)
    requires Ready(cfg, j, cs) && i < |cs| && j.id > 0
    ensures OneTurn(cfg, j, cs, k, ds, i)
    ensures PassFrom(cfg, j, cs, maxhash, pass, i) ==
            if go then PassFrom(cfg, k, ds, maxhash, pass, i + 1) else Passed(false, k, ds)
    ensures ds[i] != cs[i] ==> IsFor(pass, j, cs[i])
    ensures j.owner.Remote? && NonNegative(cs) && go && IsFor(pass, j, cs[i]) ==> Unreached(cfg, k, ds[i], maxhash)
  {
    if Skips(pass, j, cs[i]) {
      k, ds, go := j, cs, true;
    } else {
      OneCall(cfg, cs, j, i, maxhash);
      var a := AssignClient(cfg, j, cs[i], maxhash);
      k, ds, go := a.job, cs[i := a.client], a.go;
      if NonNegative(cs) {
        GrabbedNonNegative(j, cs, ds);
      }
      if j.owner.Remote? && NonNegative(cs) && go {
        CallReaches(cfg, j, cs[i], maxhash);
      }
    }
  }

  /** A pass changes nobody but those it is for. */
  lemma {:induction false} PassTakes(cfg: Config, j: Job, cs: seq<Client>, maxhash: real, pass: Pass, i: nat, n: nat)
    requires Ready(cfg, j, cs) && i <= |cs| && j.id > 0 && n < |cs|
    ensures var r := PassFrom(cfg, j, cs, maxhash, pass, i);
            r.clients[n] != cs[n] ==> n >= i && IsFor(pass, j, cs[n])
    decreases |cs| - i
  {
    if i < |cs| {
      var k, ds, go := TurnOf(cfg, j, cs, maxhash, pass, i);
      if go {
        PassTakes(cfg, k, ds, maxhash, pass, i + 1, n);
        ForSame(pass, j, k, ds[n]);
      }
    }
  }

  lemma PassedBy(cfg: Config, j: Job, cs: seq<Client>, maxhash: real, pass: Pass, n: nat)
    requires Ready(cfg, j, cs) && n < |cs| && j.id > 0 && j.owner.Remote? && NonNegative(cs)
    requires Unreached(cfg, j, cs[n], maxhash)
    ensures var r := PassFrom(cfg, j, cs, maxhash, pass, n + 1); Unreached(cfg, r.job, r.clients[n], maxhash)
  {
    PassTakes(cfg, j, cs, maxhash, pass, n + 1, n);
    PassProgress(cfg, j, cs, maxhash, pass, n + 1);
    StaysUnreached(cfg, j, PassFrom(cfg, j, cs, maxhash, pass, n + 1).job, cs[n], maxhash);
  }

  /** A pass of a remote job that comes to its end leaves nobody it is for within reach. */
  lemma {:induction false} PassReaches(cfg: Config, j: Job, cs: seq<Client>, maxhash: real, pass: Pass, i: nat, n: nat)
    requires Ready(cfg, j, cs) && i <= n < |cs| && j.id > 0 && j.owner.Remote? && NonNegative(cs)
    ensures var r := PassFrom(cfg, j, cs, maxhash, pass, i);
            r.go && IsFor(pass, j, cs[n]) ==> Unreached(cfg, r.job, r.clients[n], maxhash)
    decreases |cs| - i
  {
    var k, ds, go := TurnOf(cfg, j, cs, maxhash, pass, i);
    if go && i < n {
      PassReaches(cfg, k, ds, maxhash, pass, i + 1, n);
      ForSame(pass, j, k, cs[n]);
    } else if go && IsFor(pass, j, cs[n]) {
      PassedBy(cfg, k, ds, maxhash, pass, n);
    }
  }

  /** The pass for locked clients is a pass over everybody: whom it skips could not be taken. */
  lemma {:induction false} LockedPassIsRest(cfg: Config, j: Job, cs: seq<Client>, maxhash: real, i: nat)
    requires Ready(cfg, j, cs) && i <= |cs| && j.id > 0
    ensures PassFrom(cfg, j, cs, maxhash, Locked, i) == PassFrom(cfg, j, cs, maxhash, Rest, i)
    decreases |cs| - i
  {
    if i < |cs| {
      OneCall(cfg, cs, j, i, maxhash);
      var a := AssignClient(cfg, j, cs[i], maxhash);
      LockedPassIsRest(cfg, a.job, cs[i := a.client], maxhash, i + 1);
      if Skips(Locked, j, cs[i]) {
        assert a == Assigned(true, j, cs[i]) && cs[i := a.client] == cs;
      }
    }
  }

  /** Where everybody is left out no pass takes anybody. */
  lemma {:induction false} FullPass(cfg: Config, j: Job, cs: seq<Client>, maxhash: real, pass: Pass, i: nat)
    requires Ready(cfg, j, cs) && i <= |cs| && j.id > 0 && Full(cfg, j, cs, |cs|, maxhash)
    ensures PassFrom(cfg, j, cs, maxhash, pass, i) == Passed(true, j, cs)
    decreases |cs| - i
  {
    if i < |cs| {
      FullPass(cfg, j, cs, maxhash, pass, i + 1);
      assert LeftOut(cfg, j, cs[i], maxhash);
      assert cs[i := cs[i]] == cs;
    }
  }

  lemma {:induction false} ScanFills(cfg: Config, j: Job, cs: seq<Client>, maxhash: real, i: nat)
    requires Ready(cfg, j, cs) && i <= |cs| && j.id > 0 && Full(cfg, j, cs, i, maxhash)
    ensures var r := PassFrom(cfg, j, cs, maxhash, Rest, i); r.go && Full(cfg, r.job, r.clients, |r.clients|, maxhash)
    decreases |cs| - i
  {
    if i < |cs| {
      OneCall(cfg, cs, j, i, maxhash);
      FullNext(cfg, cs, j, i, maxhash);
      var a := AssignClient(cfg, j, cs[i], maxhash);
      ScanFills(cfg, a.job, cs[i := a.client], maxhash, i + 1);
    }
  }

  /** On a coin's job with nonnegative speeds, or without a cap, the four passes are one scan in list order. */
  lemma OneScan(cfg: Config, j: Job, cs: seq<Client>, maxhash: real)
    requires Ready(cfg, j, cs) && j.id > 0 && j.owner.Coin? && CapUsedUp(cs, maxhash)
    ensures FourPasses(cfg, j, cs, maxhash) == PassFrom(cfg, j, cs, maxhash, Rest, 0)
  {
    LockedPassIsRest(cfg, j, cs, maxhash, 0);
    ScanFills(cfg, j, cs, maxhash, 0);
    var a := PassFrom(cfg, j, cs, maxhash, Rest, 0);
    FullPass(cfg, a.job, a.clients, maxhash, Sent, 0);
    FullPass(cfg, a.job, a.clients, maxhash, Rest, 0);
  }
}
