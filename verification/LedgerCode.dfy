/**
 The loops of share.cpp, object.cpp and client_submit.cpp over the pool's lists, each proved
 to be the corresponding step of the ledger machine.
 */
module LedgerCode {
  import opened Options
  import opened Ledger
  import opened LedgerSafety

  /** The insert loop's cut: full inserts so far, then what is in the buffer. */
  lemma {:induction false} BatchesCut(full: seq<seq<Row>>, rest: seq<Row>)
    requires (forall i :: 0 <= i < |full| ==> |full[i]| == BATCH) && |rest| < BATCH
    ensures Batches(Flatten(full) + rest) == full + if rest == [] then [] else [rest]
  {
    if full == [] {
      assert Flatten(full) + rest == rest;
    } else {
      var tail := full[1..];
      BatchesCut(tail, rest);
      var all := Flatten(full) + rest;
      assert all[..BATCH] == full[0] && all[BATCH..] == Flatten(tail) + rest;
      if |all| <= BATCH {
        assert Flatten(tail) + rest == [];
        assert all == full[0];
      }
      assert full == [full[0]] + tail;
    }
  }

  lemma SendableNext(rows: seq<Row>, n: nat)
    requires n < |rows|
    ensures Sendable(rows[..n + 1]) ==
            Sendable(rows[..n]) + if rows[n].deleted || rows[n].account.workerid == 0 then [] else [rows[n]]
  {
    assert rows[..n + 1][..n] == rows[..n];
  }

  /** One flush: a full buffer becomes an insert. */
  lemma FlushFull(full: seq<seq<Row>>, buffer: seq<Row>)
    ensures Flatten(full + [buffer]) + [] == Flatten(full) + buffer
  {
    FlattenAppend(full, [buffer]);
    assert [buffer][1..] == [];
  }

  /** One insert statement closed when the buffer is full. */
  method Flush(full: seq<seq<Row>>, buffer: seq<Row>) returns (full2: seq<seq<Row>>, buffer2: seq<Row>)
    requires |buffer| <= BATCH && AllFull(full)
    ensures |buffer2| < BATCH && AllFull(full2)
    ensures Flatten(full2) + buffer2 == Flatten(full) + buffer
  {
    full2, buffer2 := full, buffer;
    if |buffer| >= BATCH {
      FlushFull(full, buffer);
      full2, buffer2 := full + [buffer], [];
    }
  }

  predicate AllFull(full: seq<seq<Row>>) {
    forall i :: 0 <= i < |full| ==> |full[i]| == BATCH
  }

  /** The loop of `share_write`: the rows of the list go out in inserts of at most 1000, in order. */
  method WriteLoop(rows: seq<Row>) returns (marked: seq<Row>, sent: seq<seq<Row>>)
    ensures marked == AllDeleted(rows) && sent == Batches(Sendable(rows))
  {
    marked, sent := [], [];
    var buffer: seq<Row> := [];
    for li := 0 to |rows|
      invariant marked == AllDeleted(rows)[..li]
      invariant |buffer| < BATCH
      invariant AllFull(sent)
      invariant Flatten(sent) + buffer == Sendable(rows[..li])
    {
      SendableNext(rows, li);
      if !rows[li].deleted && rows[li].account.workerid != 0 {
        MoveRow(Flatten(sent), buffer, rows[li]);
        sent, buffer := Flush(sent, buffer + [rows[li]]);
      }
      marked := marked + [rows[li].(deleted := true)];
    }
    assert rows[..|rows|] == rows;
    BatchesCut(sent, buffer);
    if buffer != [] {
      sent := sent + [buffer];
    }
  }

  lemma MoveRow(a: seq<Row>, b: seq<Row>, r: Row)
    ensures a + (b + [r]) == (a + b) + [r]
  {
  }

  class ShareLedger {
    var jobs: seq<Job>
    var shares: seq<Share>
    var rows: seq<Row>
    var nextId: nat
    var batches: seq<seq<Row>>
    var blocks: seq<nat>
    var auxBlocks: seq<AuxBlock>
    var accounts: seq<Account>
    ghost var credits: seq<Credit>

    ghost function View(): State
      reads this
    {
      State(jobs, shares, rows, nextId, batches, accounts, credits, blocks, auxBlocks)
    }

    constructor ()
      ensures View() == INITIAL && Inv(View())
    {
      jobs, shares, rows, nextId, batches, blocks, auxBlocks, accounts, credits := [], [], [], 0, [], [], [], [], [];
      new;
      RunInv([]);
    }

    /** `object_find` on the job list. */
    method ObjectFind(id: nat) returns (k: nat)
      ensures k == FindJob(jobs, id, 0)
    {
      k := 0;
      while k < |jobs|
        invariant k <= |jobs| && FindJob(jobs, id, 0) == FindJob(jobs, id, k)
      {
        if jobs[k].id == id {
          return;
        }
        k := k + 1;
      }
    }

    /** `share_find`. */
    method ShareFind(key: Key) returns (found: bool)
      ensures found <==> ShareFound(shares, key)
    {
      var li := 0;
      while li < |shares|
        invariant 0 <= li <= |shares|
        invariant forall i :: 0 <= i < li ==> shares[i].deleted || shares[i].key != key
      {
        if !shares[li].deleted && shares[li].key == key {
          return true;
        }
        li := li + 1;
      }
      return false;
    }

    /** `share_add_worker`, with the search of `share_find_worker`. */
    method AddWorker(c: Client, job: Option<Job>, valid: bool)
      modifies this`rows, this`accounts
      ensures rows == CreditedRows(old(rows), |old(accounts)|, c, job, valid)
      ensures accounts == OpenedRows(old(rows), old(accounts), c, job, valid)
    {
      var k := 0;
      while k < |rows| && !RowMatches(rows[k], c, job, valid)
        invariant k <= |rows| && FindRow(rows, c, job, valid, 0) == FindRow(rows, c, job, valid, k)
      {
        k := k + 1;
      }
      if k == |rows| {
        rows := rows + [Row(|accounts|, AccountOf(c, job), valid, 0.0, false)];
        accounts := accounts + [AccountOf(c, job)];
      }
      if valid {
        rows := rows[k := rows[k].(difficulty := rows[k].difficulty + c.difficulty)];
      }
      assert k == FindRow(old(rows), c, job, valid, 0);
    }

    /** `share_add`. */
    method AddShare(c: Client, job: Option<Job>, valid: bool, q: Request)
      modifies this`rows, this`accounts, this`shares, this`credits
      ensures View() == ShareAdd(old(View()), c, job, valid, q)
    {
      AddWorker(c, job, valid);
      shares := shares + [Share(KeyOf(c, job, q), false)];
      if valid {
        credits := credits + [Credit(KeyOf(c, job, q), AccountOf(c, job), c.difficulty)];
      }
    }

    /** `client_do_submit`. */
    method ClientDoSubmit(i: nat, v: Verdict)
      requires i < |jobs|
      modifies this`jobs, this`blocks, this`auxBlocks
      ensures View() == DoSubmit(old(View()), i, v)
    {
      if jobs[i].blockFound {
        return;
      }
      if jobs[i].deleted {
        return;
      }
      var id := jobs[i].id;
      for i := 0 to |v.auxAccepted|
        invariant auxBlocks == old(auxBlocks) + AuxOf(id, v.auxAccepted[..i])
        invariant jobs == old(jobs) && blocks == old(blocks)
      {
        auxBlocks := auxBlocks + [AuxBlock(id, v.auxAccepted[i])];
        assert v.auxAccepted[..i + 1] == v.auxAccepted[..i] + [v.auxAccepted[i]];
      }
      assert v.auxAccepted[..|v.auxAccepted|] == v.auxAccepted;
      if v.coinTarget && v.coinAccepts {
        jobs := jobs[i := jobs[i].(blockFound := true)];
        blocks := blocks + [jobs[i].id];
      }
    }

    /** The checks of a submit in order: the number of the first that fails, 0 if all pass. */
    method Check(key: Key, equihash: bool, v: Verdict) returns (code: nat)
      ensures code == ErrorCode(equihash, v, ShareFound(shares, key))
    {
      if !v.nonceOk {
        return 20;
      }
      if !v.ntimeSame {
        if !v.ntimeValid {
          return 23;
        }
        if !v.rollAllowed {
          return 23;
        }
      }
      var duplicate := ShareFind(key);
      if duplicate {
        return 22;
      }
      if equihash {
        if !v.solutionOk {
          return 25;
        }
      } else {
        if !v.sizeOk {
          return 24;
        }
        if !v.suffixOk {
          return 27;
        }
        if !v.hashOk {
          return 25;
        }
      }
      if !v.diffOk {
        return 26;
      }
      return 0;
    }

    /** The checks of a submit, then the credit or the error. */
    method Judge(i: nat, c: Client, q: Request, v: Verdict) returns (code: nat)
      requires i < |jobs|
      modifies this`jobs, this`shares, this`rows, this`accounts, this`credits, this`blocks, this`auxBlocks
      ensures View() == Judged(old(View()), i, c, q, v)
      ensures code == ErrorCode(q.equihash, v, ShareFound(old(shares), KeyOf(c, Some(old(jobs)[i]), q)))
    {
      var job := jobs[i];
      code := Check(KeyOf(c, Some(job), q), q.equihash, v);
      if code != 0 {
        AddShare(c, Some(job), false, q);
      } else {
        if job.owner.CoinJob? {
          ClientDoSubmit(i, v);
        }
        AddShare(c, Some(job), true, q);
      }
    }

    /**
     `client_submit` and `client_submit_equi`: whichever way it ends, the lock taken on the job is
     released, and `code` is the answer: 0 for true.
     */
    method ClientSubmit(c: Client, q: Request, v: Verdict) returns (code: nat)
      modifies this`jobs, this`shares, this`rows, this`accounts, this`credits, this`blocks, this`auxBlocks
      ensures View() == Step(old(View()), DoClientSubmit(c, q, v))
      ensures code == Answer(old(View()), c, q, v)
    {
      var i := ObjectFind(q.jobid);
      if i == |jobs| {
        AddShare(c, None, false, q);
        return 21;
      }
      ghost var before := View();
      jobs := jobs[i := Locked(jobs[i], 1)];
      code := 0;
      if !jobs[i].deleted {
        code := Judge(i, c, q, v);
        LockCommutes(before, i, c, q, v);
      }
      jobs := jobs[i := Locked(jobs[i], -1)];
      assert before.jobs[i].deleted ==> jobs == before.jobs;
    }

    /** `share_write`. */
    method ShareWrite()
      modifies this`rows, this`batches
      ensures View() == Step(old(View()), WriteRows)
    {
      var sent: seq<seq<Row>>;
      rows, sent := WriteLoop(rows);
      batches := batches + sent;
    }

    /** `share_prune`: a share goes when its job has left the job list. */
    method SharePrune()
      modifies this`shares
      ensures View() == Step(old(View()), PruneShares)
    {
      var li := 0;
      while li < |shares|
        invariant 0 <= li <= |shares| == |old(shares)|
        invariant forall i :: 0 <= i < li ==> shares[i] == SharesPruned(jobs, old(shares))[i]
        invariant forall i :: li <= i < |shares| ==> shares[i] == old(shares)[i]
      {
        if !shares[li].deleted {
          var k := ObjectFind(shares[li].key.jobid);
          if k == |jobs| {
            shares := shares[li := shares[li].(deleted := true)];
          }
        }
        li := li + 1;
      }
    }

    /** `object_prune` on the job list: items are unlinked while the list is walked. */
    method JobPrune()
      modifies this`jobs
      ensures View() == Step(old(View()), PruneJobs)
    {
      ghost var js := jobs;
      ghost var seen := 0;
      var li := 0;
      while li < |jobs|
        invariant 0 <= li <= |jobs| && seen <= |js|
        invariant jobs[..li] == PrunedJobs(js[..seen]) && jobs[li..] == js[seen..]
        decreases |js| - seen
      {
        assert jobs[li] == jobs[li..][0] == js[seen];
        PruneNext(js, seen);
        ghost var was := jobs;
        if jobs[li].deleted && jobs[li].lockCount == 0 {
          jobs := jobs[..li] + jobs[li + 1..];
          assert jobs[..li] == was[..li] && jobs[li..] == was[li..][1..];
        } else {
          if jobs[li].lockCount != 0 && jobs[li].unlock {
            jobs := jobs[li := Locked(jobs[li], -1)];
          }
          li := li + 1;
          assert jobs[..li] == was[..li - 1] + [jobs[li - 1]] && jobs[li..] == was[li - 1..][1..];
        }
        assert js[seen + 1..] == js[seen..][1..];
        seen := seen + 1;
      }
      assert js[..seen] == js && jobs[..li] == jobs;
    }
  }

  /** `object_lock` and `object_unlock`. */
  function Locked(j: Job, n: int): Job {
    j.(lockCount := j.lockCount + n)
  }

  /** The lock held during a submit does not change what the submit does. */
  lemma LockCommutes(st: State, i: nat, c: Client, q: Request, v: Verdict)
    requires i < |st.jobs|
    ensures var s := Judged(st.(jobs := st.jobs[i := Locked(st.jobs[i], 1)]), i, c, q, v);
            |s.jobs| == |st.jobs| && s.(jobs := s.jobs[i := Locked(s.jobs[i], -1)]) == Judged(st, i, c, q, v)
  {
    var t := st.(jobs := st.jobs[i := Locked(st.jobs[i], 1)]);
    LockInSubmit(st, i, v);
    assert t.jobs[i := Locked(t.jobs[i], -1)] == st.jobs;
  }

  lemma LockInSubmit(st: State, i: nat, v: Verdict)
    requires i < |st.jobs|
    ensures var s := DoSubmit(st.(jobs := st.jobs[i := Locked(st.jobs[i], 1)]), i, v);
            |s.jobs| == |st.jobs| && s.(jobs := s.jobs[i := Locked(s.jobs[i], -1)]) == DoSubmit(st, i, v)
  {
  }

  lemma PruneNext(js: seq<Job>, n: nat)
    requires n < |js|
    ensures PrunedJobs(js[..n + 1]) ==
            PrunedJobs(js[..n]) + if js[n].deleted && js[n].lockCount == 0 then []
                                  else if js[n].lockCount != 0 && js[n].unlock then [Locked(js[n], -1)]
                                  else [js[n]]
  {
    assert js[..n + 1][..n] == js[..n];
  }
}
