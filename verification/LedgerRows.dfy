/**
 Worker rows over runs of the ledger: every row that was opened for a worker is at any time in
 exactly one place, the live list or the rows written, and is written at most once.
 */
module LedgerRows {
  import opened Options
  import opened Ledger
  import opened LedgerSafety

  predicate DistinctNums(rows: seq<Row>) {
    forall i, j :: 0 <= i < j < |rows| ==> rows[i].num != rows[j].num
  }

  /** Some row has the number. */
  predicate HasNum(rows: seq<Row>, num: nat) {
    exists i :: 0 <= i < |rows| && rows[i].num == num
  }

  predicate LiveNum(rows: seq<Row>, num: nat) {
    exists i :: 0 <= i < |rows| && !rows[i].deleted && rows[i].num == num
  }

  /** Every row carries the account it was opened for. */
  predicate Numbered(rows: seq<Row>, accounts: seq<Account>) {
    forall i :: 0 <= i < |rows| ==> rows[i].num < |accounts| && rows[i].account == accounts[rows[i].num]
  }

  function Written(st: State): seq<Row> {
    Flatten(st.batches)
  }

  /** A row number is written, or live, but not both; and one of them if the row is a worker's. */
  predicate InOnePlace(rows: seq<Row>, written: seq<Row>, accounts: seq<Account>, num: nat)
    requires num < |accounts|
  {
    && !(HasNum(written, num) && LiveNum(rows, num))
    && (accounts[num].workerid != 0 ==> HasNum(written, num) || LiveNum(rows, num))
  }

  predicate RowsOnce(rows: seq<Row>, written: seq<Row>, accounts: seq<Account>) {
    && DistinctNums(rows) && DistinctNums(written) && Numbered(rows, accounts) && Numbered(written, accounts)
    && forall num :: 0 <= num < |accounts| ==> InOnePlace(rows, written, accounts, num)
  }

  ghost predicate OnceInv(st: State) {
    RowsOnce(st.rows, Written(st), st.accounts)
  }

  // ----- share_add_worker -----

  /** Crediting a row leaves every number where it was. */
  lemma CreditKeeps(rows: seq<Row>, written: seq<Row>, accounts: seq<Account>, k: nat, difficulty: real)
    requires RowsOnce(rows, written, accounts) && k < |rows|
    ensures RowsOnce(rows[k := rows[k].(difficulty := difficulty)], written, accounts)
  {
    var rs := rows[k := rows[k].(difficulty := difficulty)];
    assert forall i :: 0 <= i < |rows| ==>
                         rs[i].num == rows[i].num && rs[i].deleted == rows[i].deleted &&
                         rs[i].account == rows[i].account;
    forall num | 0 <= num < |accounts|
      ensures InOnePlace(rs, written, accounts, num)
    {
      assert InOnePlace(rows, written, accounts, num);
      if LiveNum(rows, num) {
        var i :| 0 <= i < |rows| && !rows[i].deleted && rows[i].num == num;
        assert !rs[i].deleted && rs[i].num == num;
      }
    }
  }

  /** A new row has a number of its own. */
  lemma OpenKeeps(rows: seq<Row>, written: seq<Row>, accounts: seq<Account>, r: Row)
    requires RowsOnce(rows, written, accounts) && r.num == |accounts| && !r.deleted
    ensures RowsOnce(rows + [r], written, accounts + [r.account])
  {
    var rs, as' := rows + [r], accounts + [r.account];
    forall num | 0 <= num < |as'|
      ensures InOnePlace(rs, written, as', num)
    {
      assert rs[|rows|] == r;
      if num < |accounts| {
        assert InOnePlace(rows, written, accounts, num);
        if LiveNum(rows, num) {
          var i :| 0 <= i < |rows| && !rows[i].deleted && rows[i].num == num;
          assert !rs[i].deleted && rs[i].num == num;
        }
      }
    }
  }

  lemma AddKeeps(st: State, c: Client, job: Option<Job>, valid: bool, q: Request)
    requires OnceInv(st)
    ensures OnceInv(ShareAdd(st, c, job, valid, q))
  {
    var k := FindRow(st.rows, c, job, valid, 0);
    var amount := if valid then c.difficulty else 0.0;
    if k < |st.rows| {
      CreditKeeps(st.rows, Written(st), st.accounts, k, st.rows[k].difficulty + amount);
    } else {
      OpenKeeps(st.rows, Written(st), st.accounts, Row(|st.accounts|, AccountOf(c, job), valid, amount, false));
    }
  }

  // ----- share_write -----

  /** What is sent are the live rows of workers. */
  lemma {:induction false} SendableAre(rows: seq<Row>)
    requires DistinctNums(rows)
    ensures DistinctNums(Sendable(rows))
    ensures forall r :: r in Sendable(rows) <==> r in rows && !r.deleted && r.account.workerid != 0
  {
    if rows != [] {
      var n := |rows| - 1;
      SendableAre(rows[..n]);
      assert rows == rows[..n] + [rows[n]];
      forall i | 0 <= i < |Sendable(rows[..n])|
        ensures Sendable(rows[..n])[i].num != rows[n].num
      {
        assert Sendable(rows[..n])[i] in rows[..n];
      }
    }
  }

  lemma WriteKeeps(rows: seq<Row>, written: seq<Row>, accounts: seq<Account>)
    requires RowsOnce(rows, written, accounts)
    ensures RowsOnce(AllDeleted(rows), written + Sendable(rows), accounts)
  {
    var sent := Sendable(rows);
    SendableAre(rows);
    forall i | 0 <= i < |sent|
      ensures sent[i] in rows && sent[i].num < |accounts| && sent[i].account == accounts[sent[i].num]
      ensures !HasNum(written, sent[i].num)
    {
      assert sent[i] in sent;
      var k :| 0 <= k < |rows| && rows[k] == sent[i];
      assert LiveNum(rows, sent[i].num);
      assert InOnePlace(rows, written, accounts, sent[i].num);
    }
    SentNumbered(written, sent, accounts);
    forall num | 0 <= num < |accounts|
      ensures InOnePlace(AllDeleted(rows), written + sent, accounts, num)
    {
      assert InOnePlace(rows, written, accounts, num);
      SentPlace(rows, written, accounts, num);
    }
  }

  lemma SentNumbered(written: seq<Row>, sent: seq<Row>, accounts: seq<Account>)
    requires DistinctNums(written) && DistinctNums(sent) && Numbered(written, accounts) && Numbered(sent, accounts)
    requires forall i :: 0 <= i < |sent| ==> !HasNum(written, sent[i].num)
    ensures DistinctNums(written + sent) && Numbered(written + sent, accounts)
  {
  }

  /** A worker's row that was live is among those written now. */
  lemma SentPlace(rows: seq<Row>, written: seq<Row>, accounts: seq<Account>, num: nat)
    requires num < |accounts| && DistinctNums(rows)
    requires Numbered(rows, accounts) && InOnePlace(rows, written, accounts, num)
    ensures accounts[num].workerid != 0 ==> HasNum(written + Sendable(rows), num)
  {
    var all := written + Sendable(rows);
    if accounts[num].workerid != 0 {
      if HasNum(written, num) {
        var i :| 0 <= i < |written| && written[i].num == num;
        assert all[i].num == num;
      } else {
        var i :| 0 <= i < |rows| && !rows[i].deleted && rows[i].num == num;
        SendableAre(rows);
        assert rows[i] in Sendable(rows);
        var k :| 0 <= k < |Sendable(rows)| && Sendable(rows)[k] == rows[i];
        assert all[|written| + k].num == num;
      }
    }
  }

  // ----- pruning -----

  lemma {:induction false} PrunedAre(rows: seq<Row>)
    requires DistinctNums(rows)
    ensures DistinctNums(PrunedRows(rows))
    ensures forall r :: r in PrunedRows(rows) <==> r in rows && !r.deleted
  {
    if rows != [] {
      var n := |rows| - 1;
      PrunedAre(rows[..n]);
      assert rows == rows[..n] + [rows[n]];
      forall i | 0 <= i < |PrunedRows(rows[..n])|
        ensures PrunedRows(rows[..n])[i].num != rows[n].num
      {
        assert PrunedRows(rows[..n])[i] in rows[..n];
      }
    }
  }

  lemma PruneKeeps(rows: seq<Row>, written: seq<Row>, accounts: seq<Account>)
    requires RowsOnce(rows, written, accounts)
    ensures RowsOnce(PrunedRows(rows), written, accounts)
  {
    PrunedAre(rows);
    var rs := PrunedRows(rows);
    forall i | 0 <= i < |rs|
      ensures rs[i] in rows && !rs[i].deleted
    {
      assert rs[i] in rs;
    }
    forall num | 0 <= num < |accounts|
      ensures InOnePlace(rs, written, accounts, num)
    {
      assert InOnePlace(rows, written, accounts, num);
      if LiveNum(rows, num) {
        var i :| 0 <= i < |rows| && !rows[i].deleted && rows[i].num == num;
        assert rows[i] in rs;
      }
      if LiveNum(rs, num) {
        var i :| 0 <= i < |rs| && !rs[i].deleted && rs[i].num == num;
        assert rs[i] in rows;
      }
    }
  }

  // ----- the machine -----

  lemma StepOnce(st: State, op: Op)
    requires OnceInv(st)
    ensures OnceInv(Step(st, op))
  {
    match op {
      case DoClientSubmit(c, q, v) => SubmitOnce(st, c, q, v);
      case WriteRows =>
        BatchesAll(Sendable(st.rows));
        FlattenAppend(st.batches, Batches(Sendable(st.rows)));
        WriteKeeps(st.rows, Written(st), st.accounts);
      case PruneRowList => PruneKeeps(st.rows, Written(st), st.accounts);
      case _ =>
    }
  }

  lemma SubmitOnce(st: State, c: Client, q: Request, v: Verdict)
    requires OnceInv(st)
    ensures OnceInv(Submit(st, c, q, v))
  {
    var i := FindJob(st.jobs, q.jobid, 0);
    if i == |st.jobs| {
      AddKeeps(st, c, None, false, q);
    } else if !st.jobs[i].deleted {
      var j := st.jobs[i];
      AddKeeps(st, c, Some(j), false, q);
      AddKeeps(if j.owner.CoinJob? then DoSubmit(st, i, v) else st, c, Some(j), true, q);
    }
  }

  lemma {:induction false} RunOnce(ops: seq<Op>)
    ensures OnceInv(Run(ops))
  {
    if ops != [] {
      var n := |ops| - 1;
      RunOnce(ops[..n]);
      StepOnce(Run(ops[..n]), ops[n]);
    }
  }

  /** Over any run: no row is written twice, whatever the batch boundaries. */
  lemma NoRowTwice(ops: seq<Op>, i: nat, j: nat)
    requires i < j < |Flatten(Run(ops).batches)|
    ensures Flatten(Run(ops).batches)[i].num != Flatten(Run(ops).batches)[j].num
  {
    RunOnce(ops);
  }

  /** Over any run: a row opened for a worker has been written, once, or is live; never both, never neither. */
  lemma WrittenOrLive(ops: seq<Op>, num: nat)
    requires num < |Run(ops).accounts| && Run(ops).accounts[num].workerid != 0
    ensures HasNum(Flatten(Run(ops).batches), num) <==> !LiveNum(Run(ops).rows, num)
  {
    RunOnce(ops);
    assert InOnePlace(Run(ops).rows, Written(Run(ops)), Run(ops).accounts, num);
  }
}
