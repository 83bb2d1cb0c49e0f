/**
 What holds after any interleaving of the ledger's steps: no share is credited twice, no job
 records two blocks, and per account the difficulty written and still held is the difficulty
 credited.
 */
module LedgerSafety {
  import opened Options
  import opened Ledger
  import opened Pruning

  // ----- the invariant -----

  predicate OwnerOk(o: Owner) {
    match o case CoinJob(id) => id != 0 case RemoteJob(id) => id != 0
  }

  predicate JobsInv(jobs: seq<Job>, nextId: nat) {
    && (forall i :: 0 <= i < |jobs| ==> 0 < jobs[i].id <= nextId && OwnerOk(jobs[i].owner))
    && (forall i, j :: 0 <= i < j < |jobs| ==> jobs[i].id != jobs[j].id)
  }

  /** No key is credited twice; and while its job is listed, a live share guards it. */
  predicate CreditsInv(st: State) {
    && (forall i, j :: 0 <= i < j < |st.credits| ==> st.credits[i].key != st.credits[j].key)
    && (forall i :: 0 <= i < |st.credits| ==> Guarded(st, st.credits[i].key))
  }

  predicate Guarded(st: State, key: Key) {
    0 < key.jobid <= st.nextId && (Listed(st.jobs, key.jobid) ==> ShareFound(st.shares, key))
  }

  /** No job has two recorded blocks; and while it is listed, block_found says so. */
  predicate BlocksInv(st: State) {
    && (forall i, j :: 0 <= i < j < |st.blocks| ==> st.blocks[i] != st.blocks[j])
    && (forall i :: 0 <= i < |st.blocks| ==> 0 < st.blocks[i] <= st.nextId && Closed(st.jobs, st.blocks[i]))
  }

  predicate Closed(jobs: seq<Job>, id: nat) {
    forall i :: 0 <= i < |jobs| && jobs[i].id == id ==> jobs[i].blockFound
  }

  predicate SameRow(r: Row, s: Row) {
    r.account == s.account && r.valid == s.valid
  }

  /** At most one live row per account and validity. */
  predicate RowsInv(rows: seq<Row>) {
    && (forall i :: 0 <= i < |rows| ==> rows[i].account.coinid == 0 || rows[i].account.remoteid == 0)
    && (forall i, j :: 0 <= i < j < |rows| && !rows[i].deleted && !rows[j].deleted ==> !SameRow(rows[i], rows[j]))
  }

  function Held(rows: seq<Row>, a: Account): real {
    if rows == [] then 0.0
    else
      var r := rows[|rows| - 1];
      Held(rows[..|rows| - 1], a) + if !r.deleted && r.account == a then r.difficulty else 0.0
  }

  function Sent(rows: seq<Row>, a: Account): real {
    if rows == [] then 0.0
    else
      var r := rows[|rows| - 1];
      Sent(rows[..|rows| - 1], a) + if r.account == a then r.difficulty else 0.0
  }

  function Earned(credits: seq<Credit>, a: Account): real {
    if credits == [] then 0.0
    else
      var c := credits[|credits| - 1];
      Earned(credits[..|credits| - 1], a) + if c.account == a then c.amount else 0.0
  }

  /** Difficulty written plus difficulty held is difficulty credited, for every account with a worker. */
  ghost predicate Conserved(st: State) {
    forall a: Account :: a.workerid != 0 ==> Sent(Flatten(st.batches), a) + Held(st.rows, a) == Earned(st.credits, a)
  }

  ghost predicate Inv(st: State) {
    JobsInv(st.jobs, st.nextId) && CreditsInv(st) && BlocksInv(st) && RowsInv(st.rows) && Conserved(st)
  }

  // ----- submits -----

  lemma FoundAfterAppend(shares: seq<Share>, s: Share, key: Key)
    ensures ShareFound(shares, key) ==> ShareFound(shares + [s], key)
    ensures !s.deleted ==> ShareFound(shares + [s], s.key)
  {
    var ss := shares + [s];
    if ShareFound(shares, key) {
      var i :| 0 <= i < |shares| && !shares[i].deleted && shares[i].key == key;
      assert !ss[i].deleted && ss[i].key == key;
    }
    assert ss[|shares|] == s;
  }

  /** Credits after `share_add`: a valid share's key must be of a listed job and not found before. */
  lemma CreditsAfterAdd(st: State, c: Client, job: Option<Job>, valid: bool, q: Request)
    requires CreditsInv(st)
    requires valid ==> job.Some? && 0 < job.value.id <= st.nextId && Listed(st.jobs, job.value.id) &&
                       !ShareFound(st.shares, KeyOf(c, job, q))
    ensures CreditsInv(ShareAdd(st, c, job, valid, q))
  {
    var key := KeyOf(c, job, q);
    var s := ShareAdd(st, c, job, valid, q);
    forall i | 0 <= i < |s.credits|
      ensures Guarded(s, s.credits[i].key)
    {
      if i < |st.credits| {
        assert Guarded(st, st.credits[i].key);
      }
      FoundAfterAppend(st.shares, Share(key, false), s.credits[i].key);
    }
    if valid {
      forall i | 0 <= i < |st.credits|
        ensures st.credits[i].key != key
      {
        assert Guarded(st, st.credits[i].key);
      }
    }
  }

  lemma HeldUpdate(rows: seq<Row>, k: nat, r: Row, a: Account)
    requires k < |rows|
    ensures Held(rows[k := r], a) + (if !rows[k].deleted && rows[k].account == a then rows[k].difficulty else 0.0) ==
            Held(rows, a) + (if !r.deleted && r.account == a then r.difficulty else 0.0)
  {
    var n := |rows| - 1;
    if k == n {
      assert rows[k := r][..n] == rows[..n];
    } else {
      assert rows[k := r][..n] == rows[..n][k := r];
      HeldUpdate(rows[..n], k, r, a);
    }
  }

  /** A row matches a client and a job exactly when it is theirs. */
  lemma MatchIsAccount(r: Row, c: Client, job: Option<Job>, valid: bool)
    requires r.account.coinid == 0 || r.account.remoteid == 0
    requires job.Some? ==> OwnerOk(job.value.owner)
    ensures RowMatches(r, c, job, valid) <==> !r.deleted && r.account == AccountOf(c, job) && r.valid == valid
  {
  }

  lemma RowsAfterAdd(rows: seq<Row>, num: nat, c: Client, job: Option<Job>, valid: bool)
    requires RowsInv(rows) && (job.Some? ==> OwnerOk(job.value.owner))
    ensures RowsInv(CreditedRows(rows, num, c, job, valid))
    ensures forall a :: Held(CreditedRows(rows, num, c, job, valid), a) ==
                        Held(rows, a) + if valid && a == AccountOf(c, job) then c.difficulty else 0.0
  {
    var k := FindRow(rows, c, job, valid, 0);
    var rs := CreditedRows(rows, num, c, job, valid);
    if k < |rows| {
      MatchIsAccount(rows[k], c, job, valid);
      forall a
        ensures Held(rs, a) == Held(rows, a) + if valid && a == AccountOf(c, job) then c.difficulty else 0.0
      {
        HeldUpdate(rows, k, rs[k], a);
      }
    } else {
      forall i | 0 <= i < |rows|
        ensures rows[i].deleted || !SameRow(rows[i], rs[|rows|])
      {
        MatchIsAccount(rows[i], c, job, valid);
      }
      assert rs[..|rows|] == rows;
    }
  }

  lemma EarnedAppend(credits: seq<Credit>, c: Credit, a: Account)
    ensures Earned(credits + [c], a) == Earned(credits, a) + if c.account == a then c.amount else 0.0
  {
  }

  lemma ConservedAfterAdd(st: State, c: Client, job: Option<Job>, valid: bool, q: Request)
    requires Conserved(st) && RowsInv(st.rows) && (job.Some? ==> OwnerOk(job.value.owner))
    ensures Conserved(ShareAdd(st, c, job, valid, q)) && RowsInv(ShareAdd(st, c, job, valid, q).rows)
  {
    RowsAfterAdd(st.rows, |st.accounts|, c, job, valid);
    var s := ShareAdd(st, c, job, valid, q);
    forall a: Account | a.workerid != 0
      ensures Sent(Flatten(s.batches), a) + Held(s.rows, a) == Earned(s.credits, a)
    {
      EarnedAppend(st.credits, Credit(KeyOf(c, job, q), AccountOf(c, job), c.difficulty), a);
    }
  }

  lemma DoSubmitInv(st: State, i: nat, v: Verdict)
    requires Inv(st) && i < |st.jobs|
    ensures Inv(DoSubmit(st, i, v))
    ensures var s := DoSubmit(st, i, v);
            s.shares == st.shares && s.nextId == st.nextId && |s.jobs| == |st.jobs| && s.jobs[i].id == st.jobs[i].id
  {
    var s, j := DoSubmit(st, i, v), st.jobs[i];
    assert forall k :: 0 <= k < |st.jobs| ==> s.jobs[k].id == st.jobs[k].id;
    SameListed(st.jobs, s.jobs);
    forall k | 0 <= k < |s.credits|
      ensures Guarded(s, s.credits[k].key)
    {
      assert Guarded(st, st.credits[k].key);
    }
    forall k | 0 <= k < |s.blocks|
      ensures 0 < s.blocks[k] <= s.nextId && Closed(s.jobs, s.blocks[k])
    {
      if k < |st.blocks| {
        assert Closed(st.jobs, st.blocks[k]);
      }
    }
    if !j.blockFound {
      forall k | 0 <= k < |st.blocks|
        ensures st.blocks[k] != j.id
      {
        assert Closed(st.jobs, st.blocks[k]);
      }
    }
  }

  lemma SameListed(jobs: seq<Job>, js: seq<Job>)
    requires |jobs| == |js| && forall k :: 0 <= k < |jobs| ==> js[k].id == jobs[k].id
    ensures forall id :: Listed(js, id) <==> Listed(jobs, id)
  {
  }

  lemma ShareAddInv(st: State, c: Client, job: Option<Job>, valid: bool, q: Request)
    requires Inv(st) && (job.Some? ==> OwnerOk(job.value.owner))
    requires valid ==> job.Some? && 0 < job.value.id <= st.nextId && Listed(st.jobs, job.value.id) &&
                       !ShareFound(st.shares, KeyOf(c, job, q))
    ensures Inv(ShareAdd(st, c, job, valid, q))
  {
    CreditsAfterAdd(st, c, job, valid, q);
    ConservedAfterAdd(st, c, job, valid, q);
  }

  lemma SubmitInv(st: State, c: Client, q: Request, v: Verdict)
    requires Inv(st)
    ensures Inv(Submit(st, c, q, v))
  {
    var i := FindJob(st.jobs, q.jobid, 0);
    if i == |st.jobs| {
      ShareAddInv(st, c, None, false, q);
    } else if !st.jobs[i].deleted {
      var j := st.jobs[i];
      var s := if j.owner.CoinJob? then DoSubmit(st, i, v) else st;
      DoSubmitInv(st, i, v);
      assert Listed(s.jobs, j.id) by {
        assert s.jobs[i].id == j.id;
      }
      ShareAddInv(st, c, Some(j), false, q);
      if ErrorCode(q.equihash, v, ShareFound(st.shares, KeyOf(c, Some(j), q))) == 0 {
        ShareAddInv(s, c, Some(j), true, q);
      }
    }
  }

  // ----- the job list -----

  /** Same ids, owners and block_found flags: deleting and locking jobs does not touch the ledger. */
  lemma JobsTouched(st: State, js: seq<Job>)
    requires Inv(st) && |js| == |st.jobs|
    requires forall k :: 0 <= k < |js| ==>
                           js[k].id == st.jobs[k].id && js[k].owner == st.jobs[k].owner &&
                           js[k].blockFound == st.jobs[k].blockFound
    ensures Inv(st.(jobs := js))
  {
  }

  lemma CreateJobInv(st: State, owner: Owner)
    requires Inv(st) && OwnerOk(owner)
    ensures Inv(Step(st, CreateJob(owner)))
  {
  }

  /** Every job that pruning keeps is one of the old ones. */
  predicate KeptFrom(jobs: seq<Job>, j: Job) {
    exists i :: 0 <= i < |jobs| && jobs[i].id == j.id && jobs[i].owner == j.owner && jobs[i].blockFound == j.blockFound
  }

  /** Whether `object_prune` leaves a job in the list. */
  predicate JobStays(j: Job) {
    !j.deleted || j.lockCount != 0
  }

  /** A releasing job that is locked gives back one lock. */
  function Released(j: Job): Job {
    if j.lockCount != 0 && j.unlock then j.(lockCount := j.lockCount - 1) else j
  }

  function AllReleased(jobs: seq<Job>): (rs: seq<Job>)
    ensures |rs| == |jobs|
  {
    seq(|jobs|, k requires 0 <= k < |jobs| => Released(jobs[k]))
  }

  function JobsStay(jobs: seq<Job>): (stays: seq<bool>)
    ensures |stays| == |jobs|
  {
    seq(|jobs|, k requires 0 <= k < |jobs| => JobStays(jobs[k]))
  }

  /**
   Pruning keeps exactly the jobs that are live or locked, in their order, and changes nothing of
   them but the lock count of a releasing one, which loses one; `at` says where the kept ones were.
   */
  lemma {:induction false} JobsKept(jobs: seq<Job>) returns (at: seq<nat>)
    ensures KeptAt(AllReleased(jobs), JobsStay(jobs), PrunedJobs(jobs), at)
  {
    if jobs == [] {
      at := [];
    } else {
      var n := |jobs| - 1;
      at := JobsKept(jobs[..n]);
      assert AllReleased(jobs)[..n] == AllReleased(jobs[..n]) && JobsStay(jobs)[..n] == JobsStay(jobs[..n]);
      KeptAtNext(AllReleased(jobs), JobsStay(jobs), n, PrunedJobs(jobs[..n]), at);
      if JobStays(jobs[n]) {
        at := at + [n];
      }
    }
  }

  /** So the kept jobs are old ones, and their ids stay distinct. */
  lemma PrunedJobsKept(jobs: seq<Job>)
    requires forall i, j :: 0 <= i < j < |jobs| ==> jobs[i].id != jobs[j].id
    ensures forall k :: 0 <= k < |PrunedJobs(jobs)| ==> KeptFrom(jobs, PrunedJobs(jobs)[k])
    ensures forall k, l :: 0 <= k < l < |PrunedJobs(jobs)| ==> PrunedJobs(jobs)[k].id != PrunedJobs(jobs)[l].id
  {
    var at := JobsKept(jobs);
    forall k | 0 <= k < |at|
      ensures KeptFrom(jobs, PrunedJobs(jobs)[k])
    {
      assert jobs[at[k]].id == PrunedJobs(jobs)[k].id;
    }
  }

  lemma PruneJobsInv(st: State)
    requires Inv(st)
    ensures Inv(Step(st, PruneJobs))
  {
    var s := Step(st, PruneJobs);
    PrunedJobsKept(st.jobs);
    forall k | 0 <= k < |s.jobs|
      ensures 0 < s.jobs[k].id <= s.nextId && OwnerOk(s.jobs[k].owner)
    {
      assert KeptFrom(st.jobs, s.jobs[k]);
    }
    forall k | 0 <= k < |s.credits|
      ensures Guarded(s, s.credits[k].key)
    {
      assert Guarded(st, st.credits[k].key);
      if Listed(s.jobs, s.credits[k].key.jobid) {
        var i :| 0 <= i < |s.jobs| && s.jobs[i].id == s.credits[k].key.jobid;
        assert KeptFrom(st.jobs, s.jobs[i]);
      }
    }
    forall k | 0 <= k < |s.blocks|
      ensures Closed(s.jobs, s.blocks[k])
    {
      assert Closed(st.jobs, st.blocks[k]);
      forall i | 0 <= i < |s.jobs| && s.jobs[i].id == s.blocks[k]
        ensures s.jobs[i].blockFound
      {
        assert KeptFrom(st.jobs, s.jobs[i]);
      }
    }
  }

  // ----- the share list -----

  lemma {:induction false} PrunedSharesFound(shares: seq<Share>, key: Key)
    ensures ShareFound(PrunedShares(shares), key) <==> ShareFound(shares, key)
  {
    if shares != [] {
      var n := |shares| - 1;
      var s, rest := shares[n], PrunedShares(shares[..n]);
      PrunedSharesFound(shares[..n], key);
      assert shares == shares[..n] + [s];
      AppendFound(shares[..n], s, key);
      AppendFound(rest, s, key);
    }
  }

  lemma AppendFound(shares: seq<Share>, s: Share, key: Key)
    ensures ShareFound(shares + [s], key) <==> ShareFound(shares, key) || (!s.deleted && s.key == key)
  {
    FoundAfterAppend(shares, s, key);
    if ShareFound(shares + [s], key) && !(!s.deleted && s.key == key) {
      var i :| 0 <= i < |shares + [s]| && !(shares + [s])[i].deleted && (shares + [s])[i].key == key;
      assert shares[i].key == key;
    }
  }

  lemma SharesChanged(st: State, ss: seq<Share>)
    requires Inv(st)
    requires forall k :: 0 <= k < |st.credits| && Listed(st.jobs, st.credits[k].key.jobid) ==>
                           (ShareFound(st.shares, st.credits[k].key) ==> ShareFound(ss, st.credits[k].key))
    ensures Inv(st.(shares := ss))
  {
  }

  lemma PruneSharesInv(st: State)
    requires Inv(st)
    ensures Inv(Step(st, PruneShares)) && Inv(Step(st, PruneShareList))
  {
    var ss := SharesPruned(st.jobs, st.shares);
    forall k | 0 <= k < |st.credits| && Listed(st.jobs, st.credits[k].key.jobid) &&
               ShareFound(st.shares, st.credits[k].key)
      ensures ShareFound(ss, st.credits[k].key)
    {
      var key := st.credits[k].key;
      var i :| 0 <= i < |st.shares| && !st.shares[i].deleted && st.shares[i].key == key;
      assert ss[i] == st.shares[i];
    }
    SharesChanged(st, ss);
    forall k | 0 <= k < |st.credits|
      ensures ShareFound(PrunedShares(st.shares), st.credits[k].key) <==> ShareFound(st.shares, st.credits[k].key)
    {
      PrunedSharesFound(st.shares, st.credits[k].key);
    }
    SharesChanged(st, PrunedShares(st.shares));
  }

  // ----- the worker rows -----

  lemma {:induction false} SentAppend(a: seq<Row>, b: seq<Row>, acc: Account)
    ensures Sent(a + b, acc) == Sent(a, acc) + Sent(b, acc)
  {
    if b == [] {
      assert a + b == a;
    } else {
      assert (a + b)[..|a + b| - 1] == a + b[..|b| - 1];
      SentAppend(a, b[..|b| - 1], acc);
    }
  }

  lemma {:induction false} FlattenAppend(a: seq<seq<Row>>, b: seq<seq<Row>>)
    ensures Flatten(a + b) == Flatten(a) + Flatten(b)
  {
    if a == [] {
      assert a + b == b;
    } else {
      assert (a + b)[1..] == a[1..] + b;
      FlattenAppend(a[1..], b);
    }
  }

  /** The inserts hold the rows once each, in order, and no insert has more than 1000. */
  lemma {:induction false} BatchesAll(rows: seq<Row>)
    ensures Flatten(Batches(rows)) == rows
    ensures forall i :: 0 <= i < |Batches(rows)| ==> 0 < |Batches(rows)[i]| <= BATCH
    decreases |rows|
  {
    if |rows| > BATCH {
      var bs := Batches(rows[BATCH..]);
      BatchesAll(rows[BATCH..]);
      assert ([rows[..BATCH]] + bs)[1..] == bs;
      assert rows == rows[..BATCH] + rows[BATCH..];
    } else if rows != [] {
      assert [rows][1..] == [];
    }
  }

  lemma {:induction false} SentIsHeld(rows: seq<Row>, a: Account)
    requires a.workerid != 0
    ensures Sent(Sendable(rows), a) == Held(rows, a)
  {
    if rows != [] {
      var n := |rows| - 1;
      SentIsHeld(rows[..n], a);
      var rest := Sendable(rows[..n]);
      assert (rest + [rows[n]])[..|rest|] == rest;
    }
  }

  lemma {:induction false} HeldDeleted(rows: seq<Row>, a: Account)
    requires forall i :: 0 <= i < |rows| ==> rows[i].deleted
    ensures Held(rows, a) == 0.0
  {
    if rows != [] {
      HeldDeleted(rows[..|rows| - 1], a);
    }
  }

  lemma WriteRowsInv(st: State)
    requires Inv(st)
    ensures Inv(Step(st, WriteRows))
  {
    var s := Step(st, WriteRows);
    var out := Sendable(st.rows);
    BatchesAll(out);
    FlattenAppend(st.batches, Batches(out));
    forall a: Account | a.workerid != 0
      ensures Sent(Flatten(s.batches), a) + Held(s.rows, a) == Earned(s.credits, a)
    {
      SentAppend(Flatten(st.batches), out, a);
      SentIsHeld(st.rows, a);
      HeldDeleted(s.rows, a);
    }
    RowsDeleted(st, s);
  }

  lemma RowsDeleted(st: State, s: State)
    requires CreditsInv(st) && BlocksInv(st) && RowsInv(st.rows)
    requires s == st.(rows := AllDeleted(st.rows), batches := s.batches)
    ensures CreditsInv(s) && BlocksInv(s) && RowsInv(s.rows)
  {
  }

  lemma {:induction false} PrunedRowsInv(rows: seq<Row>)
    requires RowsInv(rows)
    ensures RowsInv(PrunedRows(rows))
    ensures forall a :: Held(PrunedRows(rows), a) == Held(rows, a)
    ensures forall k :: 0 <= k < |PrunedRows(rows)| ==> PrunedRows(rows)[k] in rows && !PrunedRows(rows)[k].deleted
  {
    if rows != [] {
      var n := |rows| - 1;
      var rest := PrunedRows(rows[..n]);
      PrunedRowsInv(rows[..n]);
      if !rows[n].deleted {
        assert (rest + [rows[n]])[..|rest|] == rest;
        forall k | 0 <= k < |rest|
          ensures !SameRow(rest[k], rows[n])
        {
          var i :| 0 <= i < n && rows[..n][i] == rest[k];
          assert !SameRow(rows[i], rows[n]);
        }
      }
    }
  }

  lemma PruneRowListInv(st: State)
    requires Inv(st)
    ensures Inv(Step(st, PruneRowList))
  {
    PrunedRowsInv(st.rows);
    var s := Step(st, PruneRowList);
    forall k | 0 <= k < |s.credits|
      ensures Guarded(s, s.credits[k].key)
    {
      assert Guarded(st, st.credits[k].key);
    }
  }

  // ----- every run -----

  lemma StepInv(st: State, op: Op)
    requires Inv(st) && OpOk(op)
    ensures Inv(Step(st, op))
  {
    match op {
      case DoClientSubmit(c, q, v) => SubmitInv(st, c, q, v);
      case CreateJob(owner) => CreateJobInv(st, owner);
      case DeleteJob(i) => JobsTouched(st, Step(st, op).jobs);
      case LockJob(i, _, _) => JobsTouched(st, Step(st, op).jobs);
      case PruneJobs => PruneJobsInv(st);
      case PruneShareList => PruneSharesInv(st);
      case PruneShares => PruneSharesInv(st);
      case WriteRows => WriteRowsInv(st);
      case PruneRowList => PruneRowListInv(st);
    }
  }

  /** In every reachable state no key has been credited twice, and the ledger is conserved. */
  lemma {:induction false} RunInv(ops: seq<Op>)
    requires OpsOk(ops)
    ensures Inv(Run(ops))
  {
    if ops != [] {
      RunInv(ops[..|ops| - 1]);
      StepInv(Run(ops[..|ops| - 1]), ops[|ops| - 1]);
    } else {
      forall a: Account
        ensures Sent(Flatten([]), a) + Held([], a) == Earned([], a)
      {
      }
    }
  }

  /** Over any run: no (job, extranonce2, ntime, nonce, nonce1) is credited as valid twice. */
  lemma NoDoubleCredit(ops: seq<Op>, i: nat, j: nat)
    requires OpsOk(ops) && i < j < |Run(ops).credits|
    ensures Run(ops).credits[i].key != Run(ops).credits[j].key
  {
    RunInv(ops);
  }

  /** Over any run: no job has two accepted blocks on record. */
  lemma OneBlockPerJob(ops: seq<Op>, i: nat, j: nat)
    requires OpsOk(ops) && i < j < |Run(ops).blocks|
    ensures Run(ops).blocks[i] != Run(ops).blocks[j]
  {
    RunInv(ops);
  }

  /** Over any run: what was written and what is held add up to what was credited. */
  lemma Conservation(ops: seq<Op>, a: Account)
    requires OpsOk(ops) && a.workerid != 0
    ensures Sent(Flatten(Run(ops).batches), a) + Held(Run(ops).rows, a) == Earned(Run(ops).credits, a)
  {
    RunInv(ops);
  }
}
