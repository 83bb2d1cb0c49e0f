/**
 The share ledger of share.cpp, object.cpp and client_submit.cpp as a state machine: submits,
 job creation and deletion, share writing and pruning, each one atomic step, in any order.
 */
module Ledger {
  import opened Options

  // ----- entities -----

  datatype Owner = CoinJob(coinid: int) | RemoteJob(remoteid: int)

  datatype Job = Job(id: nat, owner: Owner, deleted: bool, blockFound: bool, lockCount: int, unlock: bool)

  /** What identifies a share. */
  datatype Key = Key(jobid: nat, extranonce2: string, ntime: string, nonce: string, nonce1: string)

  datatype Share = Share(key: Key, deleted: bool)

  datatype Account = Account(userid: int, workerid: int, coinid: int, remoteid: int)

  /** A worker row; `difficulty` is what it has been credited. Rows are numbered as they are opened. */
  datatype Row = Row(num: nat, account: Account, valid: bool, difficulty: real, deleted: bool)

  /** `difficulty` is difficulty_actual over the algorithm's multiplier. */
  datatype Client = Client(userid: int, workerid: int, nonce1: string, difficulty: real)

  datatype Request = Request(equihash: bool, jobid: nat, extranonce2: string, ntime: string, nonce: string)

  /**
   The verdicts of the code the ledger does not look into: parsing, hashing, targets, the coins'
   nodes. `auxAccepted` are the merged-mining chains, in slot order, whose node accepts the share.
   */
  datatype Verdict = Verdict(nonceOk: bool, ntimeSame: bool, ntimeValid: bool, rollAllowed: bool,
                             sizeOk: bool, suffixOk: bool, hashOk: bool, solutionOk: bool, diffOk: bool,
                             coinTarget: bool, coinAccepts: bool, auxAccepted: seq<int>)

  /** A block of a merged-mining chain, recorded for a share of a job. */
  datatype AuxBlock = AuxBlock(jobid: nat, chain: int)

  datatype Credit = Credit(key: Key, account: Account, amount: real)

  /** The lists, what the database was sent, and logs of opened rows, credits and recorded blocks. */
  datatype State = State(jobs: seq<Job>, shares: seq<Share>, rows: seq<Row>, nextId: nat, batches: seq<seq<Row>>,
                         accounts: seq<Account>, credits: seq<Credit>, blocks: seq<nat>, auxBlocks: seq<AuxBlock>)

  const INITIAL := State([], [], [], 0, [], [], [], [], [])

  const BATCH := 1000

  // ----- object.cpp -----

  /** `object_find`: the first object with the id, deleted or not; |jobs| if there is none. */
  function FindJob(jobs: seq<Job>, id: nat, i: nat): (k: nat)
    requires i <= |jobs|
    ensures i <= k <= |jobs| && (k < |jobs| ==> jobs[k].id == id)
    ensures forall j :: i <= j < k ==> jobs[j].id != id
    decreases |jobs| - i
  {
    if i == |jobs| || jobs[i].id == id then i else FindJob(jobs, id, i + 1)
  }

  predicate Listed(jobs: seq<Job>, id: nat) {
    exists i :: 0 <= i < |jobs| && jobs[i].id == id
  }

  /** What `object_prune` keeps of a list of jobs: deleted unlocked ones go, releasing ones lose a lock. */
  function PrunedJobs(jobs: seq<Job>): seq<Job> {
    if jobs == [] then []
    else
      var j, rest := jobs[|jobs| - 1], PrunedJobs(jobs[..|jobs| - 1]);
      if j.deleted && j.lockCount == 0 then rest
      else if j.lockCount != 0 && j.unlock then rest + [j.(lockCount := j.lockCount - 1)]
      else rest + [j]
  }

  /** Shares and worker rows are never locked: pruning drops exactly the deleted ones. */
  function PrunedShares(shares: seq<Share>): seq<Share> {
    if shares == [] then []
    else
      var s, rest := shares[|shares| - 1], PrunedShares(shares[..|shares| - 1]);
      if s.deleted then rest else rest + [s]
  }

  function PrunedRows(rows: seq<Row>): seq<Row> {
    if rows == [] then []
    else
      var r, rest := rows[|rows| - 1], PrunedRows(rows[..|rows| - 1]);
      if r.deleted then rest else rest + [r]
  }

  // ----- share.cpp -----

  /** `share_find`: whether a live share has the key. */
  predicate ShareFound(shares: seq<Share>, key: Key) {
    exists i :: 0 <= i < |shares| && !shares[i].deleted && shares[i].key == key
  }

  /** The test of `share_find_worker`. */
  predicate RowMatches(r: Row, c: Client, job: Option<Job>, valid: bool) {
    && !r.deleted && r.account.userid == c.userid && r.account.workerid == c.workerid && r.valid == valid
    && match job
       case None => r.account.coinid == 0 && r.account.remoteid == 0
       case Some(j) =>
         match j.owner
         case CoinJob(id) => r.account.coinid == id
         case RemoteJob(id) => r.account.remoteid == id
  }

  function FindRow(rows: seq<Row>, c: Client, job: Option<Job>, valid: bool, i: nat): (k: nat)
    requires i <= |rows|
    ensures i <= k <= |rows| && (k < |rows| ==> RowMatches(rows[k], c, job, valid))
    ensures forall j :: i <= j < k ==> !RowMatches(rows[j], c, job, valid)
    decreases |rows| - i
  {
    if i == |rows| || RowMatches(rows[i], c, job, valid) then i else FindRow(rows, c, job, valid, i + 1)
  }

  function AccountOf(c: Client, job: Option<Job>): Account {
    match job
    case None => Account(c.userid, c.workerid, 0, 0)
    case Some(j) =>
      match j.owner
      case CoinJob(id) => Account(c.userid, c.workerid, id, 0)
      case RemoteJob(id) => Account(c.userid, c.workerid, 0, id)
  }

  /** `share_add_worker`: the matching row, or a new one with the next number, is credited if the share is valid. */
  function CreditedRows(rows: seq<Row>, num: nat, c: Client, job: Option<Job>, valid: bool): seq<Row> {
    var amount := if valid then c.difficulty else 0.0;
    var k := FindRow(rows, c, job, valid, 0);
    if k < |rows| then rows[k := rows[k].(difficulty := rows[k].difficulty + amount)]
    else rows + [Row(num, AccountOf(c, job), valid, amount, false)]
  }

  /** The log of opened rows: their accounts, by number. */
  function OpenedRows(rows: seq<Row>, accounts: seq<Account>, c: Client, job: Option<Job>, valid: bool): seq<Account> {
    if FindRow(rows, c, job, valid, 0) < |rows| then accounts else accounts + [AccountOf(c, job)]
  }

  function KeyOf(c: Client, job: Option<Job>, q: Request): Key {
    Key(if job.None? then 0 else job.value.id, q.extranonce2, q.ntime, q.nonce, c.nonce1)
  }

  /** `share_add`. */
  function ShareAdd(st: State, c: Client, job: Option<Job>, valid: bool, q: Request): State {
    var key := KeyOf(c, job, q);
    st.(rows := CreditedRows(st.rows, |st.accounts|, c, job, valid),
        accounts := OpenedRows(st.rows, st.accounts, c, job, valid),
        shares := st.shares + [Share(key, false)],
        credits := if valid then st.credits + [Credit(key, AccountOf(c, job), c.difficulty)] else st.credits)
  }

  /** `share_prune`: a share outlives its job's place in the job list by at most one pruning. */
  function SharesPruned(jobs: seq<Job>, shares: seq<Share>): (ss: seq<Share>)
    ensures |ss| == |shares|
  {
    seq(|shares|, i requires 0 <= i < |shares| =>
      if shares[i].deleted || Listed(jobs, shares[i].key.jobid) then shares[i] else shares[i].(deleted := true))
  }

  /** The rows `share_write` sends, in list order: live ones with a worker id. */
  function Sendable(rows: seq<Row>): seq<Row> {
    if rows == [] then []
    else
      var r, rest := rows[|rows| - 1], Sendable(rows[..|rows| - 1]);
      if r.deleted || r.account.workerid == 0 then rest else rest + [r]
  }

  function AllDeleted(rows: seq<Row>): (rs: seq<Row>)
    ensures |rs| == |rows|
  {
    seq(|rows|, i requires 0 <= i < |rows| => rows[i].(deleted := true))
  }

  /** Sequences cut into inserts of 1000 rows and one of what is left over. */
  function Batches(rows: seq<Row>): seq<seq<Row>>
    decreases |rows|
  {
    if rows == [] then []
    else if |rows| <= BATCH then [rows]
    else [rows[..BATCH]] + Batches(rows[BATCH..])
  }

  function Flatten(bs: seq<seq<Row>>): seq<Row> {
    if bs == [] then [] else bs[0] + Flatten(bs[1..])
  }

  // ----- client_submit.cpp -----

  /** The error of the first check that fails, in the code's order; 0 if the share is good. */
  function ErrorCode(equihash: bool, v: Verdict, duplicate: bool): nat {
    if !v.nonceOk then 20
    else if !v.ntimeSame && (!v.ntimeValid || !v.rollAllowed) then 23
    else if duplicate then 22
    else if !equihash && !v.sizeOk then 24
    else if !equihash && !v.suffixOk then 27
    else if equihash && !v.solutionOk then 25
    else if !equihash && !v.hashOk then 25
    else if !v.diffOk then 26
    else 0
  }

  /** The blocks recorded for a job on the chains that accept. */
  function AuxOf(jobid: nat, chains: seq<int>): (bs: seq<AuxBlock>)
    ensures |bs| == |chains| && forall i :: 0 <= i < |bs| ==> bs[i] == AuxBlock(jobid, chains[i])
  {
    seq(|chains|, i requires 0 <= i < |chains| => AuxBlock(jobid, chains[i]))
  }

  /** The part of `client_do_submit` that touches the ledger: the first accepted block closes the job. */
  function DoSubmit(st: State, i: nat, v: Verdict): State
    requires i < |st.jobs|
  {
    var j := st.jobs[i];
    if j.blockFound || j.deleted then st
    else
      var s := st.(auxBlocks := st.auxBlocks + AuxOf(j.id, v.auxAccepted));
      if v.coinTarget && v.coinAccepts then
        s.(jobs := st.jobs[i := j.(blockFound := true)], blocks := st.blocks + [j.id])
      else s
  }

  /** The checks and their outcome on a job that was found and is not deleted. */
  function Judged(st: State, i: nat, c: Client, q: Request, v: Verdict): State
    requires i < |st.jobs|
  {
    var j := st.jobs[i];
    if ErrorCode(q.equihash, v, ShareFound(st.shares, KeyOf(c, Some(j), q))) != 0 then
      ShareAdd(st, c, Some(j), false, q)
    else
      ShareAdd(if j.owner.CoinJob? then DoSubmit(st, i, v) else st, c, Some(j), true, q)
  }

  /** `client_submit` and `client_submit_equi` once the message has been taken apart. */
  function Submit(st: State, c: Client, q: Request, v: Verdict): State {
    var i := FindJob(st.jobs, q.jobid, 0);
    if i == |st.jobs| then ShareAdd(st, c, None, false, q)
    else if st.jobs[i].deleted then st
    else Judged(st, i, c, q, v)
  }

  /** The number a submit is answered with, 0 for true. */
  function Answer(st: State, c: Client, q: Request, v: Verdict): nat {
    var i := FindJob(st.jobs, q.jobid, 0);
    if i == |st.jobs| then 21
    else if st.jobs[i].deleted then 0
    else ErrorCode(q.equihash, v, ShareFound(st.shares, KeyOf(c, Some(st.jobs[i]), q)))
  }

  // ----- the machine -----

  datatype Op =
    | DoClientSubmit(c: Client, q: Request, v: Verdict)
    | CreateJob(owner: Owner)
    | DeleteJob(i: nat)
    | LockJob(i: nat, count: int, unlock: bool)
    | PruneJobs
    | PruneShareList
    | PruneShares
    | WriteRows
    | PruneRowList

  predicate OpOk(op: Op) {
    op.CreateJob? ==> match op.owner case CoinJob(id) => id != 0 case RemoteJob(id) => id != 0
  }

  function Step(st: State, op: Op): State {
    match op
    case DoClientSubmit(c, q, v) => Submit(st, c, q, v)
    case CreateJob(owner) =>
      st.(jobs := st.jobs + [Job(st.nextId + 1, owner, false, false, 0, false)], nextId := st.nextId + 1)
    case DeleteJob(i) => if i < |st.jobs| then st.(jobs := st.jobs[i := st.jobs[i].(deleted := true)]) else st
    case LockJob(i, count, unlock) =>
      if i < |st.jobs| then st.(jobs := st.jobs[i := st.jobs[i].(lockCount := count, unlock := unlock)]) else st
    case PruneJobs => st.(jobs := PrunedJobs(st.jobs))
    case PruneShareList => st.(shares := PrunedShares(st.shares))
    case PruneShares => st.(shares := SharesPruned(st.jobs, st.shares))
    case WriteRows => st.(rows := AllDeleted(st.rows), batches := st.batches + Batches(Sendable(st.rows)))
    case PruneRowList => st.(rows := PrunedRows(st.rows))
  }

  function Run(ops: seq<Op>): State {
    if ops == [] then INITIAL else Step(Run(ops[..|ops| - 1]), ops[|ops| - 1])
  }

  predicate OpsOk(ops: seq<Op>) {
    forall i :: 0 <= i < |ops| ==> OpOk(ops[i])
  }
}
