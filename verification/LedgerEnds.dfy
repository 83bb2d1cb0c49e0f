/**
 What ends: once a job is deleted nothing is earned on it any more, whatever else happens.
 */
module LedgerEnds {
  import opened Options
  import opened Ledger
  import opened LedgerSafety
  import opened LedgerChecks

  /** No live job has this id, and none will be given it. */
  predicate Gone(st: State, id: nat) {
    id <= st.nextId && forall k :: 0 <= k < |st.jobs| && st.jobs[k].id == id ==> st.jobs[k].deleted
  }

  /** Deleting marks that job and changes nothing else. */
  lemma DeleteGone(st: State, i: nat)
    requires JobsInv(st.jobs, st.nextId) && i < |st.jobs|
    ensures var s := Step(st, DeleteJob(i));
            && Gone(s, st.jobs[i].id) && s == st.(jobs := s.jobs) && |s.jobs| == |st.jobs|
            && s.jobs[i] == st.jobs[i].(deleted := true)
            && forall k :: 0 <= k < |st.jobs| && k != i ==> s.jobs[k] == st.jobs[k]
  {
  }

  lemma SubmitGone(st: State, c: Client, q: Request, v: Verdict, id: nat)
    requires Gone(st, id)
    ensures Gone(Submit(st, c, q, v), id)
  {
  }

  lemma PruneGone(st: State, id: nat)
    requires Gone(st, id)
    ensures Gone(Step(st, PruneJobs), id)
  {
    var s := Step(st, PruneJobs);
    var at := JobsKept(st.jobs);
    forall k | 0 <= k < |s.jobs| && s.jobs[k].id == id
      ensures s.jobs[k].deleted
    {
      assert s.jobs[k] == AllReleased(st.jobs)[at[k]];
    }
  }

  /** It stays so through every step, and no step earns anything on it. */
  lemma GoneStays(st: State, op: Op, id: nat)
    requires Gone(st, id)
    ensures Gone(Step(st, op), id)
    ensures forall m :: |st.credits| <= m < |Step(st, op).credits| ==> Step(st, op).credits[m].key.jobid != id
    ensures forall m :: |st.blocks| <= m < |Step(st, op).blocks| ==> Step(st, op).blocks[m] != id
  {
    StepCredits(st, op);
    StepBlocks(st, op);
    match op {
      case DoClientSubmit(c, q, v) =>
        SubmitGone(st, c, q, v, id);
        if Good(st, c, q, v) {
          var i :| 0 <= i < |st.jobs| && GoodAt(st, c, q, v, i);
          assert q.jobid != id;
          assert CreditIs(Step(st, op).credits[|st.credits|], c, q, st.jobs[i]);
        }
      case PruneJobs => PruneGone(st, id);
      case _ =>
    }
  }

  /** Credits and blocks are only ever appended. */
  lemma StepKeeps(st: State, op: Op)
    ensures st.credits <= Step(st, op).credits && st.blocks <= Step(st, op).blocks
  {
    StepCredits(st, op);
    StepBlocks(st, op);
  }

  predicate EarnsNone(st: State, s: State, id: nat) {
    && st.credits <= s.credits && st.blocks <= s.blocks
    && (forall m :: |st.credits| <= m < |s.credits| ==> s.credits[m].key.jobid != id)
    && (forall m :: |st.blocks| <= m < |s.blocks| ==> s.blocks[m] != id)
  }

  lemma EarnsNext(st: State, s: State, op: Op, id: nat)
    requires Gone(s, id) && EarnsNone(st, s, id)
    ensures Gone(Step(s, op), id) && EarnsNone(st, Step(s, op), id)
  {
    GoneStays(s, op, id);
    StepKeeps(s, op);
  }

  /** After k steps of the run the job is gone, and since the n-th nothing was earned on it. */
  ghost predicate Over(ops: seq<Op>, n: nat, k: nat, id: nat)
    requires n <= k <= |ops|
  {
    forall st, s :: st == Run(ops[..n]) && s == Run(ops[..k]) ==> Gone(s, id) && EarnsNone(st, s, id)
  }

  /** The n-th step of the run deletes a job with this id. */
  predicate DeletedAt(ops: seq<Op>, n: nat, id: nat) {
    && n < |ops| && ops[n].DeleteJob? && ops[n].i < |Run(ops[..n]).jobs|
    && Run(ops[..n]).jobs[ops[n].i].id == id
  }

  lemma OverAtFirst(ops: seq<Op>, n: nat, id: nat)
    requires OpsOk(ops) && DeletedAt(ops, n, id)
    ensures Over(ops, n, n + 1, id)
  {
    RunInv(ops[..n]);
    DeleteGone(Run(ops[..n]), ops[n].i);
    RunNext(ops, n);
  }

  lemma RunNext(ops: seq<Op>, k: nat)
    requires k < |ops|
    ensures Run(ops[..k + 1]) == Step(Run(ops[..k]), ops[k])
  {
    assert ops[..k + 1][..k] == ops[..k];
  }

  lemma OverNext(ops: seq<Op>, n: nat, k: nat, id: nat)
    requires n <= k < |ops| && Over(ops, n, k, id)
    ensures Over(ops, n, k + 1, id)
  {
    RunNext(ops, k);
    assert EarnsNone(Run(ops[..n]), Run(ops[..k]), id);
    EarnsNext(Run(ops[..n]), Run(ops[..k]), ops[k], id);
  }

  /** From the n-th step of a run on, which deletes a job, no credit and no block of the run is for that job. */
  lemma {:induction false} NothingAfterDeletion(ops: seq<Op>, n: nat, k: nat, id: nat)
    requires OpsOk(ops) && DeletedAt(ops, n, id) && n < k <= |ops|
    ensures Over(ops, n, k, id)
    decreases k
  {
    if k == n + 1 {
      OverAtFirst(ops, n, id);
    } else {
      NothingAfterDeletion(ops, n, k - 1, id);
      OverNext(ops, n, k - 1, id);
    }
  }
}
