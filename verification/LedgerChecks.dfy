/**
 What a submit must pass, stated on the request and the verdicts alone: exactly which steps of the
 ledger append a share, a credit, a block or merged-mining blocks, and for every credit and every
 block of a run the submit that earned it.
 */
module LedgerChecks {
  import opened Options
  import opened Ledger

  /** The submit's time is the template's, or a valid one where rolling is allowed. */
  predicate TimeOk(v: Verdict) {
    v.ntimeSame || (v.ntimeValid && v.rollAllowed)
  }

  /** Every check but the one for duplicates. */
  predicate Passes(equihash: bool, v: Verdict) {
    && v.nonceOk && TimeOk(v) && v.diffOk
    && (if equihash then v.solutionOk else v.sizeOk && v.suffixOk && v.hashOk)
  }

  /** The answers: which number is sent exactly when. */
  lemma Answers(equihash: bool, v: Verdict, duplicate: bool)
    ensures ErrorCode(equihash, v, duplicate) == 0 <==> Passes(equihash, v) && !duplicate
    ensures ErrorCode(equihash, v, duplicate) == 20 <==> !v.nonceOk
    ensures ErrorCode(equihash, v, duplicate) == 23 <==> v.nonceOk && !TimeOk(v)
    ensures ErrorCode(equihash, v, duplicate) == 22 <==> v.nonceOk && TimeOk(v) && duplicate
  {
  }

  lemma LaterAnswers(equihash: bool, v: Verdict)
    requires v.nonceOk && TimeOk(v)
    ensures ErrorCode(equihash, v, false) == 24 <==> !equihash && !v.sizeOk
    ensures ErrorCode(equihash, v, false) == 27 <==> !equihash && v.sizeOk && !v.suffixOk
    ensures ErrorCode(equihash, v, false) == 25 <==>
            if equihash then !v.solutionOk else v.sizeOk && v.suffixOk && !v.hashOk
    ensures ErrorCode(equihash, v, false) == 26 <==> !v.diffOk && Passes(equihash, v.(diffOk := true))
  {
  }

  /** Job i of the list is the one with the id, and alive. */
  predicate LiveAt(jobs: seq<Job>, id: nat, i: nat) {
    i < |jobs| && jobs[i].id == id && !jobs[i].deleted && forall k :: 0 <= k < i ==> jobs[k].id != id
  }

  /** The key of a share for a job. */
  function ShareKey(c: Client, q: Request): Key {
    Key(q.jobid, q.extranonce2, q.ntime, q.nonce, c.nonce1)
  }

  /** A submit for live job i that passes every check and is no duplicate. */
  predicate GoodAt(st: State, c: Client, q: Request, v: Verdict, i: nat) {
    LiveAt(st.jobs, q.jobid, i) && !ShareFound(st.shares, ShareKey(c, q)) && Passes(q.equihash, v)
  }

  predicate Good(st: State, c: Client, q: Request, v: Verdict) {
    exists i :: 0 <= i < |st.jobs| && GoodAt(st, c, q, v, i)
  }

  /** A good submit for a coin's job without an accepted block goes to the nodes. */
  predicate Reaches(st: State, c: Client, q: Request, v: Verdict) {
    exists i :: 0 <= i < |st.jobs| && GoodAt(st, c, q, v, i) && st.jobs[i].owner.CoinJob? && !st.jobs[i].blockFound
  }

  /** The credit is the client's difficulty, to its user and worker, for the coin or the remote of the job. */
  predicate CreditIs(cr: Credit, c: Client, q: Request, j: Job) {
    && cr.key == ShareKey(c, q) && cr.amount == c.difficulty
    && cr.account.userid == c.userid && cr.account.workerid == c.workerid
    && cr.account.coinid == (if j.owner.CoinJob? then j.owner.coinid else 0)
    && cr.account.remoteid == (if j.owner.RemoteJob? then j.owner.remoteid else 0)
  }

  lemma FoundIs(jobs: seq<Job>, id: nat, i: nat)
    requires LiveAt(jobs, id, i)
    ensures FindJob(jobs, id, 0) == i
  {
  }

  lemma GoodIs(st: State, c: Client, q: Request, v: Verdict)
    ensures var i := FindJob(st.jobs, q.jobid, 0);
            && (Good(st, c, q, v) <==> GoodAt(st, c, q, v, i))
            && (Reaches(st, c, q, v) <==> GoodAt(st, c, q, v, i) && st.jobs[i].owner.CoinJob? && !st.jobs[i].blockFound)
  {
    forall i | 0 <= i < |st.jobs| && GoodAt(st, c, q, v, i)
      ensures FindJob(st.jobs, q.jobid, 0) == i
    {
      FoundIs(st.jobs, q.jobid, i);
    }
  }

  // ----- one step -----

  /** A credit is appended exactly by a good submit, and is what the submit has earned. */
  lemma StepCredits(st: State, op: Op)
    ensures !(op.DoClientSubmit? && Good(st, op.c, op.q, op.v)) ==> Step(st, op).credits == st.credits
    ensures op.DoClientSubmit? && Good(st, op.c, op.q, op.v) ==>
              var crs := Step(st, op).credits;
              && |crs| == |st.credits| + 1 && crs[..|st.credits|] == st.credits
              && forall i: nat :: GoodAt(st, op.c, op.q, op.v, i) ==>
                   CreditIs(crs[|st.credits|], op.c, op.q, st.jobs[i])
  {
    if op.DoClientSubmit? {
      SubmitCredits(st, op.c, op.q, op.v);
    }
  }

  lemma SubmitCredits(st: State, c: Client, q: Request, v: Verdict)
    ensures !Good(st, c, q, v) ==> Submit(st, c, q, v).credits == st.credits
    ensures Good(st, c, q, v) ==>
              var crs := Submit(st, c, q, v).credits;
              && |crs| == |st.credits| + 1 && crs[..|st.credits|] == st.credits
              && forall i: nat :: GoodAt(st, c, q, v, i) ==> CreditIs(crs[|st.credits|], c, q, st.jobs[i])
  {
    GoodIs(st, c, q, v);
    var i := FindJob(st.jobs, q.jobid, 0);
    if i < |st.jobs| && !st.jobs[i].deleted {
      Answers(q.equihash, v, ShareFound(st.shares, KeyOf(c, Some(st.jobs[i]), q)));
      assert KeyOf(c, Some(st.jobs[i]), q) == ShareKey(c, q);
      forall k: nat | GoodAt(st, c, q, v, k)
        ensures k == i
      {
        FoundIs(st.jobs, q.jobid, k);
      }
    }
  }

  /** A share is noted for every submit but one for a deleted job; without a job under id 0. */
  lemma StepShares(st: State, c: Client, q: Request, v: Verdict)
    ensures var ss := Submit(st, c, q, v).shares;
            if Listed(st.jobs, q.jobid) then
              ss == st.shares + if exists i :: 0 <= i < |st.jobs| && LiveAt(st.jobs, q.jobid, i)
                                then [Share(ShareKey(c, q), false)] else []
            else ss == st.shares + [Share(ShareKey(c, q.(jobid := 0)), false)]
  {
    var i := FindJob(st.jobs, q.jobid, 0);
    if i < |st.jobs| {
      assert Listed(st.jobs, q.jobid);
      assert LiveAt(st.jobs, q.jobid, i) <==> !st.jobs[i].deleted;
      forall k | 0 <= k < |st.jobs| && LiveAt(st.jobs, q.jobid, k)
        ensures k == i
      {
        FoundIs(st.jobs, q.jobid, k);
      }
    }
  }

  /** The job's block is recorded exactly when its node accepts a share below the target that reaches it. */
  predicate Wins(st: State, op: Op) {
    op.DoClientSubmit? && Reaches(st, op.c, op.q, op.v) && op.v.coinTarget && op.v.coinAccepts
  }

  lemma StepBlocks(st: State, op: Op)
    ensures Step(st, op).blocks == st.blocks + if Wins(st, op) then [op.q.jobid] else []
  {
    if op.DoClientSubmit? {
      SubmitBlocks(st, op.c, op.q, op.v);
    }
  }

  lemma SubmitBlocks(st: State, c: Client, q: Request, v: Verdict)
    ensures Submit(st, c, q, v).blocks ==
            st.blocks + if Reaches(st, c, q, v) && v.coinTarget && v.coinAccepts then [q.jobid] else []
    ensures Submit(st, c, q, v).auxBlocks ==
            st.auxBlocks + if Reaches(st, c, q, v) then AuxOf(q.jobid, v.auxAccepted) else []
  {
    GoodIs(st, c, q, v);
    var i := FindJob(st.jobs, q.jobid, 0);
    if i < |st.jobs| && !st.jobs[i].deleted {
      Answers(q.equihash, v, ShareFound(st.shares, KeyOf(c, Some(st.jobs[i]), q)));
      assert KeyOf(c, Some(st.jobs[i]), q) == ShareKey(c, q);
    }
  }

  // ----- every credit and every block of a run -----

  /** Step k of the run is a good submit that earned the credit. */
  predicate EarnedBy(ops: seq<Op>, cr: Credit, k: nat) {
    && k < |ops| && ops[k].DoClientSubmit?
    && var st := Run(ops[..k]);
       exists i :: 0 <= i < |st.jobs| && GoodAt(st, ops[k].c, ops[k].q, ops[k].v, i) &&
                   CreditIs(cr, ops[k].c, ops[k].q, st.jobs[i])
  }

  lemma EarlierSteps(ops: seq<Op>, n: nat, k: nat)
    requires k < n <= |ops|
    ensures ops[..n][..k] == ops[..k] && ops[..n][k] == ops[k]
  {
  }

  /** Every credit of a run was earned by a submit of the run that passed every check. */
  lemma {:induction false} CreditEarned(ops: seq<Op>, n: nat) returns (k: nat)
    requires n < |Run(ops).credits|
    ensures EarnedBy(ops, Run(ops).credits[n], k)
  {
    var m := |ops| - 1;
    var st := Run(ops[..m]);
    StepCredits(st, ops[m]);
    if n < |st.credits| {
      k := CreditEarned(ops[..m], n);
      EarlierSteps(ops, m, k);
      assert Run(ops).credits[n] == st.credits[n];
    } else {
      k := m;
    }
  }

  /** Every recorded block was won by such a submit that the coin's node accepted. */
  lemma {:induction false} BlockWon(ops: seq<Op>, n: nat) returns (k: nat)
    requires n < |Run(ops).blocks|
    ensures k < |ops| && Wins(Run(ops[..k]), ops[k]) && Run(ops).blocks[n] == ops[k].q.jobid
  {
    var m := |ops| - 1;
    var st := Run(ops[..m]);
    StepBlocks(st, ops[m]);
    if n < |st.blocks| {
      k := BlockWon(ops[..m], n);
      EarlierSteps(ops, m, k);
    } else {
      k := m;
    }
  }

  /** The merged-mining blocks that one step records. */
  function Recorded(st: State, op: Op): seq<AuxBlock> {
    if op.DoClientSubmit? && Reaches(st, op.c, op.q, op.v) then AuxOf(op.q.jobid, op.v.auxAccepted) else []
  }

  /** Nothing but a submit that reaches the chains' nodes records blocks, one for every chain that accepts. */
  lemma StepRecords(st: State, op: Op)
    ensures Step(st, op).auxBlocks == st.auxBlocks + Recorded(st, op)
  {
    if op.DoClientSubmit? {
      SubmitBlocks(st, op.c, op.q, op.v);
    }
  }

  /** Every recorded merged-mining block was won by such a submit, accepted by its chain's node. */
  lemma {:induction false} AuxBlockWon(ops: seq<Op>, n: nat) returns (k: nat)
    requires n < |Run(ops).auxBlocks|
    ensures k < |ops| && ops[k].DoClientSubmit? && Reaches(Run(ops[..k]), ops[k].c, ops[k].q, ops[k].v)
    ensures Run(ops).auxBlocks[n].jobid == ops[k].q.jobid && Run(ops).auxBlocks[n].chain in ops[k].v.auxAccepted
  {
    var m := |ops| - 1;
    var st := Run(ops[..m]);
    StepRecords(st, ops[m]);
    if n < |st.auxBlocks| {
      k := AuxBlockWon(ops[..m], n);
      EarlierSteps(ops, m, k);
    } else {
      k := m;
      assert Run(ops).auxBlocks[n] == Recorded(st, ops[m])[n - |st.auxBlocks|];
    }
  }
}
