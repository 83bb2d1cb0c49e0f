/**
 Merged-mining blocks over runs of the ledger. They have no guard of their own: a chain's block
 is recorded for every good share of an open job that the chain's node accepts. Here is exactly
 when no chain has two blocks recorded for one job.
 */
module LedgerAux {
  import opened Options
  import opened Ledger
  import opened LedgerChecks
  import opened LedgerSafety

  ghost predicate NoRepeats<T>(s: seq<T>) {
    forall i, j :: 0 <= i < j < |s| ==> s[i] != s[j]
  }

  /** The chains that accept are different ones, and none has a block on record for the job. */
  ghost predicate ChainsNew(st: State, jobid: nat, chains: seq<int>) {
    NoRepeats(chains) && forall i :: 0 <= i < |chains| ==> AuxBlock(jobid, chains[i]) !in st.auxBlocks
  }

  /** What must be so before a step for it to record no block twice. */
  ghost predicate AuxSafe(st: State, op: Op) {
    op.DoClientSubmit? && Reaches(st, op.c, op.q, op.v) ==> ChainsNew(st, op.q.jobid, op.v.auxAccepted)
  }

  lemma AppendRepeats<T>(s: seq<T>, t: seq<T>)
    ensures NoRepeats(s + t) <==> NoRepeats(s) && NoRepeats(t) && forall i :: 0 <= i < |t| ==> t[i] !in s
  {
    if NoRepeats(s + t) {
      PartsDiffer(s, t);
    }
  }

  lemma PartsDiffer<T>(s: seq<T>, t: seq<T>)
    requires NoRepeats(s + t)
    ensures NoRepeats(s) && NoRepeats(t) && forall i :: 0 <= i < |t| ==> t[i] !in s
  {
    var u := s + t;
    forall i, j | 0 <= i < j < |s|
      ensures s[i] != s[j]
    {
      assert u[i] != u[j];
    }
    forall i, j | 0 <= i < j < |t|
      ensures t[i] != t[j]
    {
      assert u[|s| + i] != u[|s| + j];
    }
    forall i, k | 0 <= i < |t| && 0 <= k < |s|
      ensures s[k] != t[i]
    {
      assert u[k] != u[|s| + i];
    }
  }

  lemma AuxOfRepeats(jobid: nat, chains: seq<int>)
    ensures NoRepeats(AuxOf(jobid, chains)) <==> NoRepeats(chains)
  {
    var bs := AuxOf(jobid, chains);
    if NoRepeats(bs) {
      forall i, j | 0 <= i < j < |chains|
        ensures chains[i] != chains[j]
      {
        assert bs[i] != bs[j];
      }
    }
  }

  /** With no block recorded twice before, a step leaves none after if and only if it is safe. */
  lemma StepRepeats(st: State, op: Op)
    ensures NoRepeats(Step(st, op).auxBlocks) <==> NoRepeats(st.auxBlocks) && AuxSafe(st, op)
  {
    StepRecords(st, op);
    AppendRepeats(st.auxBlocks, Recorded(st, op));
    if op.DoClientSubmit? && Reaches(st, op.c, op.q, op.v) {
      AuxOfRepeats(op.q.jobid, op.v.auxAccepted);
      var bs := AuxOf(op.q.jobid, op.v.auxAccepted);
      assert (forall i :: 0 <= i < |bs| ==> bs[i] !in st.auxBlocks) <==>
             forall i :: 0 <= i < |op.v.auxAccepted| ==> AuxBlock(op.q.jobid, op.v.auxAccepted[i]) !in st.auxBlocks;
    }
  }

  ghost predicate AuxSafeAt(ops: seq<Op>, k: nat)
    requires k < |ops|
  {
    AuxSafe(Run(ops[..k]), ops[k])
  }

  /**
   Over any run: no chain has two blocks recorded for one job if and only if at every submit that
   reaches the chains' nodes, those that accept are different ones without a block for that job.
   */
  lemma {:induction false} RunRepeats(ops: seq<Op>)
    ensures NoRepeats(Run(ops).auxBlocks) <==> forall k :: 0 <= k < |ops| ==> AuxSafeAt(ops, k)
  {
    if ops != [] {
      var n := |ops| - 1;
      RunRepeats(ops[..n]);
      StepRepeats(Run(ops[..n]), ops[n]);
      SafeBefore(ops, n);
      LastToo(ops, n);
    }
  }

  lemma LastToo(ops: seq<Op>, n: nat)
    requires |ops| == n + 1
    ensures (forall k :: 0 <= k < |ops| ==> AuxSafeAt(ops, k)) <==>
            (forall k :: 0 <= k < n ==> AuxSafeAt(ops, k)) && AuxSafe(Run(ops[..n]), ops[n])
  {
    assert AuxSafeAt(ops, n) <==> AuxSafe(Run(ops[..n]), ops[n]);
  }

  lemma SafeBefore(ops: seq<Op>, n: nat)
    requires n <= |ops|
    ensures (forall k :: 0 <= k < n ==> AuxSafeAt(ops[..n], k)) <==> (forall k :: 0 <= k < n ==> AuxSafeAt(ops, k))
  {
    forall k | 0 <= k < n
      ensures AuxSafeAt(ops[..n], k) <==> AuxSafeAt(ops, k)
    {
      assert ops[..n][..k] == ops[..k];
    }
  }

  /** Once a job's own block is on record, no merged-mining block of that job is recorded any more. */
  lemma ClosedForAux(ops: seq<Op>, op: Op, i: nat)
    requires OpsOk(ops) && i < |Recorded(Run(ops), op)|
    ensures Recorded(Run(ops), op)[i].jobid !in Run(ops).blocks
  {
    RunInv(ops);
    var st := Run(ops);
    forall b | 0 <= b < |st.blocks|
      ensures st.blocks[b] != op.q.jobid
    {
      assert Closed(st.jobs, st.blocks[b]);
    }
  }

  // ----- a run in which a chain has two blocks for one job -----

  lemma RunThree(a: Op, b: Op, c: Op)
    ensures Run([a, b, c]) == Step(Step(Step(INITIAL, a), b), c)
  {
    var one, two, three := [a], [a, b], [a, b, c];
    assert three[..2] == two && two[..1] == one && one[..0] == [];
    RunLast(three);
    RunLast(two);
    RunLast(one);
  }

  lemma RunLast(ops: seq<Op>)
    requires ops != []
    ensures Run(ops) == Step(Run(ops[..|ops| - 1]), ops[|ops| - 1])
  {
  }

  lemma AuxTwice(st: State, c: Client, q1: Request, q2: Request, v: Verdict)
    requires st.jobs == [Job(1, CoinJob(7), false, false, 0, false)] && st.shares == [] && st.auxBlocks == []
    requires q1.jobid == 1 == q2.jobid && q1.nonce != q2.nonce
    requires ErrorCode(q1.equihash, v, false) == 0 == ErrorCode(q2.equihash, v, false)
    requires !v.coinTarget && v.auxAccepted == [9]
    ensures Submit(Submit(st, c, q1, v), c, q2, v).auxBlocks == [AuxBlock(1, 9), AuxBlock(1, 9)]
  {
    StepRecords(st, DoClientSubmit(c, q1, v));
    StepRecords(Submit(st, c, q1, v), DoClientSubmit(c, q2, v));
  }

  /** Two good shares of job 1, both accepted by chain 9. */
  lemma AuxBlocksRepeat()
    ensures exists ops :: OpsOk(ops) && Run(ops).auxBlocks == [AuxBlock(1, 9), AuxBlock(1, 9)]
  {
    var v := Verdict(true, true, true, true, true, true, true, true, true, false, false, [9]);
    var c := Client(1, 1, "81000001", 1.0);
    var q1, q2 := Request(false, 1, "00", "5b000000", "00000001"), Request(false, 1, "00", "5b000000", "00000002");
    assert q1.nonce[7] != q2.nonce[7];
    var o1, o2, o3 := CreateJob(CoinJob(7)), DoClientSubmit(c, q1, v), DoClientSubmit(c, q2, v);
    RunThree(o1, o2, o3);
    AuxTwice(Step(INITIAL, o1), c, q1, q2, v);
    assert OpsOk([o1, o2, o3]);
  }
}
