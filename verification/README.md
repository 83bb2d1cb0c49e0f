# Stratum server model

A Dafny model of the parts of a mining-pool stratum server that carry its invariants: the job
scheduler, the share ledger, the intrusive job list and its sort, the two permutation engines that
pick hash orders, the Merkle code for coinbases and merged mining, the two-pass JSON parser, the bit
and word arithmetic of Equihash, scrypt, NeoScrypt, Base58 and compact targets, and the coinbase
outputs. `dafny verify dfyconfig.toml` checks everything.

The methods follow the code's own loops and updates; each is proved to compute a specification
function or to keep a stated invariant, and what the system promises is proved about those.
SHA-256d, Salsa20/8, ChaCha, BLAKE2b and BLAKE2s are function parameters of fixed output width.
A list-locked operation of the server is one atomic step.

| file | component |
|---|---|
| Assignment, Taking, JobHistory, Tally, Subids, Round, Passes, LockedClients, PoolState, Turns, Scheduler | job.cpp, job_core.cpp, client_core.cpp, job_send.cpp |
| Connections, Pruning | client.cpp, object.cpp, db.cpp |
| Successors | remote.cpp |
| Ledger, LedgerChecks, LedgerSafety, LedgerEnds, LedgerAux, LedgerRows, LedgerCode | share.cpp, object.cpp, client_submit.cpp |
| StableSort, CommonList | list.cpp, the sort of job_core.cpp |
| Ranking, Permutations, HashOrder | algos/timetravel.c, algos/x11evo.c |
| Merkle, AuxTree | merkle.cpp, coind_aux.cpp, coinbase.cpp |
| JsonMachine, JsonFirstPass, JsonTwoPass, JsonText, JsonRuns, JsonNumbers, JsonValues, JsonTrees, JsonWords, JsonLanguage, JsonParser | json.cpp |
| Bits, Equihash, EquihashVerify | algos/equi.c |
| Buffers, Scrypt, RoMix, Smix | algos/scrypt.c |
| FastKdf, NeoBlkMix | algos/neoscrypt.c |
| Base58 | base58.cpp |
| Compact, CompactLaws | util.cpp |
| TxOut, CoinbasePlan, Coinbase, CoinbaseCode, CoinbasePayees | coinbase.cpp |
| Arithmetic, Options | shared arithmetic, missing values |

## Where the code departs from what one would expect

- x11evo: the day number is cast to `int` before the division, so from INITIAL_DATE + 2^31 on the order
  is the identity, not the day's (`HashOrder.DayOrder` gives the exact condition).
- Scheduler: after the last resort the first coin's replaced job, marked deleted, keeps its old count and
  speed (`PoolState.RetiredJobStaysCounted`); `Scheduler.Pool.LastResort` says exactly when it is tallied. If
  the first coin has no job, the lock law fails as soon as somebody is locked (`Scheduler.Pool.LastResortNew`).
  `job_assign_locked_clients` counts deleted clients too; `LockedClients.LockedTally` says exactly when its
  count is the tally.
- The first of the four passes of `job_assign_clients` is meant for locked clients, but skips only those locked
  elsewhere, so that locked ones do not come first (`Passes.LockedPassIsRest`, `Passes.OneScan`).
- Sub-ids: a client that was already sent a remote job keeps its sub-id without registering it, so another
  client may be allocated the same one (`Subids.KeptIdGivenAgain`; `Subids.OnIdsStep` says exactly when a
  call keeps them distinct, `Subids.IdsStep` what suffices over any calls).
- Ledger: the one-block guard covers a coin's own blocks; one chain's merged-mining blocks may repeat
  for a job (`LedgerAux.AuxBlocksRepeat`; `LedgerAux.RunRepeats` says exactly when).
- Base58: for widths divisible by four the decoder loses a whole word of room (`Base58.Limit`).
- Compact targets: nonzero targets below 2^15 get an exponent below 3, with which `bits2target` stores
  outside its buffer, and from 2^248 on a word past the array is read (`CompactLaws.RoundTrip`,
  `CompactLaws.TopByteTaken`).
- Coinbase: an address that does not decode leaves an empty key in a script that still announces 25
  bytes (`Coinbase.EmptyKey`, `Coinbase.ReadBackIffPayable`).
- Coinbase: XZC, TUX, XVC and decred coins give out more than the template's value; how much more is
  `CoinbaseCode.Beyond`, proved for every branch in `CoinbaseCode.ExcessIsBeyond`.
- JSON: a surrogate pair is read without bit 16 of its point's offset (`JsonText.PairDecodes`,
  `JsonParser.PairMisread`). Lists and objects may end in a comma, a number may be a minus sign alone, a
  backslash before any character but u stands for one byte, and the text ends at a NUL: `JsonText.Doc` and
  `JsonLanguage.Language` give the language exactly.

## Model

| member | source | states |
|---|---|---|
| `Assignment.AddHistory` | client_core.cpp:248-267 | a 16-slot shift register: a nonzero id is in it afterwards, nothing else enters, nothing else of the client changes |
| `JobHistory.FindJobHistory` | client_core.cpp:269-283 | finds the id exactly when it stands at or after the start slot |
| `JobHistory.AddJobHistory` | client_core.cpp:248-267 | shifting the array in place does to it what the history function does to the client |
| `Assignment.FirstFree` | job.cpp:60-82 | the allocation scan finds the first free sub-id, or 200 when all are taken |
| `Assignment.AssignEffect` | job.cpp:13-139 | whatever branch a call takes, either nothing changes at all, or a client free for the job is taken by exactly it, locked exactly to a remote job, and counted once with its speed, sub-ids only being added; a client over the cap is never taken |
| `Taking.TakenExactly` | job.cpp:13-139 | a call takes a client exactly if it is there, on no job, locked to no other, does not have the job among the 15 before its latest, fits under a positive cap, is of the coin where that matters, and, for a remote job, can be told a nonce, is not being told one, has a difficulty in reach, and there is room for it; the loop ends exactly at a remote job without room |
| `Taking.TakenByCoin` | job.cpp:111-139 | a coin job's client mines with its own nonce and size, is unlocked, and is told over the wire or by reconnecting |
| `Taking.TakenByRemote` | job.cpp:26-98 | a remote job's client is locked to it and mines with the remote's nonce, extended by its two digits unless the job has but one client, and at a difficulty no higher than the remote's |
| `Assignment.AllocationIsFresh` | job.cpp:60-82 | an allocation takes a slot that was free, marks it, and puts its two hex digits into the nonce the client will mine with |
| `Assignment.AllocatedDistinct` | job.cpp:60-82 | over any sequence of calls on one remote job the allocated sub-ids are below 200, pairwise distinct, different from every id registered before and registered after |
| `Assignment.NoncesDistinct` | job.cpp:74-82 | no two clients that one job gave an allocated sub-id are given the same extranonce1, whatever the sequence of calls |
| `Assignment.GivenAre` | job.cpp:74-82 | the nonces given are the remote's own nonce followed by the two digits of the allocated sub-ids, one each |
| `Subids.IdsStep` | job.cpp:60-82 | whoever keeps its sub-id counted in: registered and pairwise distinct sub-ids of all holders of a remote job, on it or already sent it, stay so through any call |
| `Subids.NoncesApart` | job.cpp:80-80 | two live clients on such a job have different nonces |
| `Subids.OnIdsStep` | job.cpp:60-82 | a call leaves the sub-ids on the job registered and distinct if and only if it takes nobody, allocates, or takes a client that keeps a registered sub-id nobody on the job has |
| `Subids.KeptIdGivenAgain` | job.cpp:60-82 | where it fails: a client that was sent the job keeps a sub-id the job does not register, and the next client is allocated the same one and gets the same nonce |
| `PoolState.FewerHolders` | job_core.cpp:40-113 | resetting, unlocking, relocking, sending and disconnecting keep the holders' sub-ids registered and distinct on every remote job |
| `Tally.ProgressStep` | job.cpp:103-106 | one call keeps count and speed equal to the number and total speed gained by the clients on the job, and with a positive cap the speed ends under it or is what it was |
| `Tally.LeftOutAfter` | job.cpp:13-23 | after its call, a client of a coin job is on a job, barred, or would break the cap |
| `Round.AssignPass` | job.cpp:150-187 | one list pass is its specification, call by call: progress of counts under the cap; after the last pass nobody free who would still fit is left over |
| `Round.AssignClients` | job.cpp:141-190 | count and speed are the number and total speed of the live clients on the job, a positive cap is never exceeded, on a coin job with nonnegative speeds no eligible free client that still fits is left, and on a remote job sub-ids of holders that are registered and distinct stay so |
| `Passes.PassTakes` | job.cpp:149-187 | a pass changes only clients it is for: not locked elsewhere, sent the job, subscribed, anybody |
| `Passes.PassReaches` | job.cpp:149-187 | a pass of a remote job that comes to its end leaves nobody it is for who is free, fits, can be told a nonce and has a difficulty in reach |
| `Passes.LockedPassIsRest` | job.cpp:149-157 | the pass for locked clients visits all that could be taken: it is a pass over everybody |
| `Passes.OneScan` | job.cpp:141-190 | so on a coin's job with nonnegative speeds the four passes are one scan in list order |
| `Round.AssignLeft` | job.cpp:206-222 | the leftover loop for one coin: tally kept, the cap nethash * factor unbroken if it was; with autoexchange and no positive factor nothing happens; otherwise, with nonnegative speeds, nobody free is left who would still fit |
| `Scheduler.Pool.ResetClients` | job_core.cpp:40-53 | clears exactly the next jobs of live clients (all, or those on one job) |
| `Scheduler.Pool.UnlockClients` | job_core.cpp:97-113 | releases exactly the live clients locked to another job than their next one |
| `Scheduler.Pool.HasFreeClient` | job_core.cpp:21-38 | true exactly when a live client has no next job |
| `Scheduler.Pool.AssignJob` | job.cpp:274-275 | one job's turn on the pool: same guarantees, every other job untouched |
| `Scheduler.Pool.SortJobs` | job.cpp:266-267 | the job list becomes a rearrangement of itself in profit order |
| `Scheduler.Pool.VisitJobs` | job.cpp:269-278 | every live client's next job is a visited one, every visited job is tallied, is one that may be mined and holds nobody locked but its own, and keeps its own maxspeed where that is positive; whoever was not locked and is left free by a visited coin job with nonnegative speeds would break its maxspeed; the minable ones among the first n jobs were visited, and n falls short of the list only if the last turn left nobody free |
| `Scheduler.Pool.AssignClientsLeft` | job.cpp:192-226 | with nobody free nothing changes; caps that were kept stay kept; with a positive factor and nonnegative speeds, either nobody is free or no minable coin's job could take anybody left; all tallies and the lock law are kept |
| `Scheduler.Pool.CreateCoinJob` | coind_template.cpp:706-728 | forced creation: the old job is marked deleted, the new one has a larger id than any before, starts empty and is appended to the list; nothing else changes |
| `Scheduler.Pool.LastResort` | job.cpp:296-318 | whoever is left gets a fresh job of the first coin: if creation succeeds nobody is left; the lock law holds and every minable job is visited; every visited job is alive and tallied but for the replaced one, which keeps its count and speed and is tallied exactly when these were zero, that is, had it been tallied before, when nobody was on it |
| `Scheduler.Pool.LastResortNew` | job.cpp:309-316 | the first coin has no job: all are reset, locks stay, the lock law holds exactly when nobody is locked; the new job is tallied and has every client that is not locked, other jobs are tallied exactly when they count nothing |
| `Scheduler.Pool.RegularPasses` | job.cpp:262-292 | everything before the last resort: settled tallies; every live client unlocked or locked to its next job; the list is the old one sorted by profit and its first n jobs had their turn, n falling short of the list only if a turn left nobody free; what the turns left holds after the leftover passes too, every visited job is under its maxspeed or, as a minable coin's, under the cap of those passes, and unless nobody is free the passes leave nobody who would fit |
| `Scheduler.Pool.JobTurns` | job.cpp:266-278 | sorting and the jobs' turns: what was true of clients, jobs and list before, and which caps bound each job's turn |
| `Scheduler.Pool.JobUpdate` | job.cpp:259-320 | one whole round from any valid state. Without a last resort every visited job is alive and tallied and nobody is free unless there is no coin; after one on the first coin's job the only visited job that is deleted is that one, if replaced, and it is tallied exactly when it counted nothing before; in both cases every live client is unlocked or locked to exactly its next job, which is a visited one, and all minable jobs are visited unless a turn left nobody free. The caps, the order by profit and the turns are those of the passes; only the last resort's own jobs may break a cap. If the first coin has no job, the lock law holds exactly when nobody is locked |
| `PoolState.RetiredJobStaysCounted` | job.cpp:309-316 | a round after which the tally is false: the retired job still counts a client and nobody is on it |
| `PoolState.UnvisitedTally` | job_core.cpp:40-53 | a job that no live client is on is tallied exactly when it counts nothing |
| `PoolState.SettledIsDone` | job.cpp:309-316 | the exact condition for the first coin's replaced job, on the state before the last resort |
| `Scheduler.Pool.Broadcast` | job_send.cpp:169-205 | exactly the clients whose next job this is and who were not sent it get it, with their history extended; validity is kept |
| `Scheduler.Pool.RelockClients` | job_core.cpp:55-70 | exactly the locks on the old job move to the new one |
| `Scheduler.Pool.CreateRemoteJob` | remote_template.cpp:55-109 | the old job is retired; if the message is complete the successor has a fresh id, no sub-ids taken, stands at the end of the list and inherits the locks; otherwise nothing else changes |
| `Scheduler.Pool.AssignLockedClients` | job_core.cpp:72-95 | everybody locked to the job is on it and their sub-ids are registered; count and speed are those of all clients locked to it, deleted ones included |
| `Scheduler.Pool.SucceedRemoteJob` | remote.cpp:266-273 | a remote's successor job: exactly its clients go over, with their sub-ids; count and speed are those of all of them, the tally exactly when none is deleted; no later sequence of calls allocates one of the sub-ids, and under the lock law they stay registered and distinct; all other clients and jobs are as they were |
| `Successors.StillDistinctIds` | remote.cpp:266-273 | sub-ids that were registered and distinct on the old job are so on its successor |
| `LockedClients.LockedTally` | job_core.cpp:72-95 | the count and speed so left are the job's tally if and only if its deleted locked clients balance the live ones on it that are not locked to it |
| `LockedClients.NewLockedTally` | job_core.cpp:72-95 | for a job that was nobody's next one: if and only if no deleted client is locked to it |
| `LockedClients.AssignLocked` | job_core.cpp:72-95 | the loop puts on the job, registers and counts exactly the clients locked to it |
| `LockedClients.LockedIdsKept` | job.cpp:60-82 | no sequence of calls on the job allocates a registered sub-id of a locked client |
| `Scheduler.Pool.Connect` | client.cpp:25-294 | a client connects, or reconnects and takes over lock, sub-id, nonces, speed and history; the others stay and the pool stays valid |
| `Connections.ConnectedAlone` | client.cpp:25-41 | a client nobody knew is on no job and locked to none, remembers none, and mines with its own nonce, in the decred form where that is used |
| `Connections.ConnectedAgain` | client.cpp:58-120 | one that was told to reconnect mines with the nonce it was told and keeps lock, sub-id and defaults; for any known one difficulty, speed and history go on |
| `Connections.SentFirst` | client.cpp:289-292 | the job sent first is the one the client is locked to, or else the first in the list for everybody |
| `Scheduler.Pool.Disconnect` | client.cpp:669-677 | the client is marked deleted and stays listed |
| `Scheduler.Pool.PruneClients` | object.cpp:44-67 | the loop keeps exactly the clients that are live or held |
| `Connections.ClientsKept` | object.cpp:44-67 | live and held clients stay in their order and unchanged, nobody else does |
| `Scheduler.Pool.PruneJobs` | object.cpp:44-67 | so do the live and held jobs, with list, coins, clients and locks still fitting |
| `Scheduler.Pool.LoadCoin` | db.cpp:418-418 | a coin is listed without a job |
| `Ledger.FindJob` | object.cpp:4-24 | the first object with the id, deleted or not |
| `LedgerSafety.StepInv` | client_submit.cpp:442-639 | every step of the ledger (submit, job creation, deletion, locking, pruning of jobs, shares and rows, batched write) keeps the ledger invariant |
| `LedgerSafety.RunInv` | share.cpp:12-176 | the invariant holds after any interleaving of the steps |
| `LedgerSafety.NoDoubleCredit` | share.cpp:96-115 | over any run no (job, extranonce2, ntime, nonce, nonce1) is credited as valid twice |
| `LedgerChecks.Answers` | client_submit.cpp:504-532 | which answer is given exactly when: none if and only if every check passes and no live share has the key, 20 for a bad nonce, 23 for a time that is not the template's and is invalid or may not roll, 22 for a duplicate |
| `LedgerChecks.LaterAnswers` | client_submit.cpp:534-607 | 24 and 27 for extranonce2, 25 for a hash or solution, 26 exactly when difficulty is all that is wrong |
| `LedgerChecks.StepCredits` | client_submit.cpp:442-639 | a step appends a credit if and only if it is a submit for a listed live job that passes every check and is no duplicate; the credit is the client's difficulty, to its user and worker, for the job's coin or remote |
| `LedgerChecks.CreditEarned` | client_submit.cpp:442-639 | so every credit of a run was earned by a submit of that run |
| `LedgerChecks.StepBlocks` | client_submit.cpp:205-392 | a step records the job's block if and only if it is such a submit for an open job of a coin, below the coin's target and accepted by its node |
| `LedgerChecks.BlockWon` | client_submit.cpp:205-392 | so every recorded block of a run was won by a submit of that run |
| `LedgerChecks.AuxBlockWon` | client_submit.cpp:240-295 | and every merged-mining block, accepted by its chain |
| `LedgerChecks.StepShares` | client_submit.cpp:401-419 | a submit leaves behind a share with its key, good or not, but for one for a deleted job; without a job it is under id 0 |
| `LedgerEnds.NothingAfterDeletion` | object.cpp:38-42 | once a job is deleted, no later step of the run earns a credit or a block on it, and no other job is given its id |
| `LedgerEnds.DeleteGone` | object.cpp:38-42 | deleting marks exactly that job |
| `LedgerSafety.OneBlockPerJob` | client_submit.cpp:205-392 | over any run at most one accepted block is recorded per job |
| `LedgerSafety.Conservation` | share.cpp:38-159 | over any run, per (user, worker, coin or remote) with a nonzero worker id, difficulty written plus difficulty in live rows is the difficulty credited |
| `LedgerSafety.BatchesAll` | share.cpp:117-159 | the inserts, one after the other, are exactly the rows to send, whatever the boundaries |
| `LedgerRows.NoRowTwice` | share.cpp:117-159 | over any run no row is written twice |
| `LedgerRows.WrittenOrLive` | share.cpp:12-159 | over any run a row opened for a worker is either written or live, never both and never neither |
| `LedgerRows.StepOnce` | share.cpp:12-176 | every step keeps that |
| `LedgerSafety.JobsKept` | object.cpp:44-67 | pruning keeps exactly the jobs that are live or locked, in their order, with all but the lock count of a releasing one unchanged; the places they had are given |
| `LedgerChecks.StepRecords` | client_submit.cpp:205-295 | what a step records: a block per accepting chain, and only for a good share of a coin's job that is listed, alive and open |
| `LedgerAux.StepRepeats` | client_submit.cpp:240-295 | no block is on record twice after a step if and only if none was before and, where the step is a submit that reaches the chains' nodes, those that accept are different ones without a block for that job |
| `LedgerAux.RunRepeats` | client_submit.cpp:240-295 | over any run, no chain has two blocks recorded for one job if and only if at every submit that reaches the chains' nodes those that accept are different ones without a block for that job |
| `LedgerAux.AuxBlocksRepeat` | client_submit.cpp:240-295 | merged-mining blocks have no guard of their own: a run in which one chain has two blocks recorded for one job |
| `LedgerAux.ClosedForAux` | client_submit.cpp:205-295 | once a job's own block is recorded, none of its merged-mining blocks is |
| `LedgerCode.WriteLoop` | share.cpp:126-158 | the loop with its 1000-row counter sends the live rows of nonzero workers, in order, cut into inserts of at most 1000, and marks every row |
| `LedgerCode.BatchesCut` | share.cpp:146-158 | full inserts followed by the buffer are the canonical cut of the rows |
| `LedgerCode.ShareLedger.ShareFind` | share.cpp:96-115 | true exactly when a live share has all five fields |
| `LedgerCode.ShareLedger.AddWorker` | share.cpp:12-74 | the matching live row, or a new one, gains the difficulty of a valid share |
| `LedgerCode.ShareLedger.AddShare` | share.cpp:78-94 | credits the row and appends the share |
| `LedgerCode.ShareLedger.ClientDoSubmit` | client_submit.cpp:205-392 | the block part of a submit: nothing on a closed or deleted job, otherwise the first accepted block closes it |
| `LedgerCode.ShareLedger.Check` | client_submit.cpp:504-607 | the checks one after the other give the number of the first that fails |
| `LedgerCode.ShareLedger.Judge` | client_submit.cpp:504-639 | the checks in their order and the answer sent, then error or credit |
| `LedgerCode.ShareLedger.ClientSubmit` | client_submit.cpp:442-639 | a whole submit is one ledger step with that answer, and the lock taken on the job is released on every path |
| `LedgerCode.LockCommutes` | client_submit.cpp:489-639 | holding the lock changes nothing of the outcome |
| `LedgerCode.ShareLedger.ShareWrite` | share.cpp:117-159 | the batched write is one ledger step |
| `LedgerCode.ShareLedger.SharePrune` | share.cpp:161-176 | a share is deleted exactly when its job has left the job list |
| `LedgerCode.ShareLedger.JobPrune` | object.cpp:44-67 | unlinking while walking removes exactly the deleted unlocked jobs and gives back one lock of the releasing ones |
| `CommonLists.CommonList.AddTail` | list.cpp:68-87 | appends, keeping prev/next mirrored and first/last/count right |
| `CommonLists.CommonList.Delete` | list.cpp:89-106 | unlinks exactly that item |
| `CommonLists.CommonList.Find` | list.cpp:131-143 | the first item holding the data, or none |
| `CommonLists.CommonList.Swap` | list.cpp:145-161 | two neighbours change places in a list that stays well formed |
| `StableSort.ExchangeRemovesOne` | job_core.cpp:11-17 | exchanging neighbours out of order removes exactly one inversion |
| `StableSort.StableSortUnique` | job_core.cpp:4-19 | two stable rearrangements in order are equal, so the result is determined |
| `StableSort.StableMultiset` | job_core.cpp:4-19 | a stable rearrangement has the same elements |
| `CommonLists.JobSort` | job_core.cpp:4-19 | terminates and leaves a well-formed linked list that is the stable rearrangement of the old one in non-increasing profit order |
| `CommonLists.Sorted` | job_core.cpp:4-19 | the same restart-on-swap sort on values, as the scheduler uses it |
| `Ranking.RankIsLexOrder` | algos/timetravel.c:37-69 | ranks order arrangements exactly as the lexicographic order does and identify them |
| `Ranking.UnrankRank` | algos/timetravel.c:97-106 | the arrangement of rank k has the same values and rank k |
| `Ranking.RankPrefix` | algos/timetravel.c:37-69 | rearranging a suffix moves the rank by as much as the suffix's own rank |
| `Permutations.SuccessorUnique` | algos/timetravel.c:37-69 | the successor (rank plus one modulo n!) is unique, so two correct engines are one function |
| `Permutations.SuccessorImmediate` | algos/timetravel.c:37-69 | nothing lies between an arrangement and its successor |
| `Permutations.PivotSuccessor` | algos/timetravel.c:45-62 | swapping the last ascent with its partner and reversing the rest is the successor |
| `Permutations.Reverse` | algos/timetravel.c:32-35 | reverses the range in place and nothing else |
| `Permutations.NextPermutation` | algos/timetravel.c:37-69 | turns any array of distinct values into its successor, wrapping at the last |
| `HashOrder.NextPerm` | algos/x11evo.c:46-65 | the differently written engine computes the same successor; its flag says whether it wrapped |
| `HashOrder.TimeTravelOrder` | algos/timetravel.c:97-106 | the step loop from the identity selects the permutation whose rank is the step count, for every 32-bit timestamp |
| `HashOrder.NextSecond` | algos/timetravel.c:90-106 | a second later the order is the successor, but for where the count of steps starts again |
| `HashOrder.StepsCount` | algos/timetravel.c:90-97 | the steps are the seconds since the start, modulo the number of orders |
| `HashOrder.AlgoListAfter` | algos/x11evo.c:67-80 | s steps reach the permutation of rank s, a negative s none |
| `HashOrder.GetAlgoString` | algos/x11evo.c:67-91 | the string decodes to the permutation of the sequence number's rank |
| `HashOrder.EvoCache.TwistedCode` | algos/x11evo.c:99-106 | one call is one step of the cache |
| `HashOrder.CacheInvariant` | algos/x11evo.c:99-106 | after any calls the cached string belongs to the cached sequence number |
| `HashOrder.DayOrder` | algos/x11evo.c:93-106 | after any calls ending at or after INITIAL_DATE the cached order has the rank of the day number if and only if the time is below INITIAL_DATE + 2^31 |
| `HashOrder.DayOrderFails` | algos/x11evo.c:93-97 | the first time at which it fails |
| `Merkle.StepsGiveRoot` | merkle.cpp:4-59 | folding any coinbase hash over the branch of the list with a hole gives the full root of that hash followed by the transactions, last one doubled on odd levels |
| `Merkle.StepCount` | merkle.cpp:12-14 | the number of steps is ceil(log2 n) |
| `Merkle.MerkleSteps` | merkle.cpp:4-40 | the level-by-level loop computes that branch |
| `Merkle.MerkleWithFirst` | merkle.cpp:42-59 | the fold loop |
| `Merkle.CoinbaseRoot` | merkle.cpp:4-59 | both loops together give the root, for every list and hash |
| `AuxTree.ClimbReachesRoot` | coind_aux.cpp:75-106 | in a tree of any power-of-two size, from any slot, folding the leaf with the branch by index bits gives the root |
| `AuxTree.AuxMerkleBranch` | coind_aux.cpp:75-106 | the loop computes the branch, and it leads to the root |
| `AuxTree.CoinbaseAuxRoot` | coinbase.cpp:53-73 | the root that the parent coinbase embeds |
| `AuxTree.Slot` | coind_aux.cpp:34-34 | in range for every chain id, the product wrapped to 32 bits |
| `AuxTree.SlotAsSpecified` | coind_aux.cpp:34-34 | for power-of-two sizes it is the slot that the linear congruential generator of merged mining prescribes |
| `AuxTree.TrySize` | coind_aux.cpp:28-46 | a size is taken exactly when it is collision-free; then every coin is alone in its slot, otherwise everything is cleared |
| `AuxTree.BuildAuxs` | coind_aux.cpp:6-50 | the smallest power of two that has room and no collision is chosen and the slots hold exactly the coins; none exactly when no size within the table fits, and then the table is empty |
| `AuxTree.EveryCoinProves` | coind_aux.cpp:52-106 | every coin so placed can show its hash under the embedded root |
| `JsonFirstPass.DecideSound` | json.cpp:269-760 | every turn's action fits the mode the flag word is in |
| `JsonFirstPass.FirstPassStep` | json.cpp:250-873 | one turn of the first pass keeps the shape of the recorded tree, only raises counts, and comes closer to the end: it neither crashes nor loops |
| `JsonFirstPass.PromisesStep` | json.cpp:656-700 | no turn forgets a child that a key has announced |
| `JsonFirstPass.FirstPassRun` | json.cpp:250-873 | the same over the whole first pass |
| `JsonTwoPass.FollowStep` | json.cpp:250-873 | outside numbers both passes take the same turn and stay in step |
| `JsonTwoPass.NumberRun` | json.cpp:607-812 | the greedy number skip stops exactly where the first pass's number automaton stopped |
| `JsonTwoPass.FollowNew` | json.cpp:103-180 | the value the second pass takes up is the one the first appended there |
| `JsonTwoPass.Replay` | json.cpp:250-873 | the second pass follows the first to its end |
| `JsonTwoPass.SecondPassExact` | json.cpp:103-180 | on any accepted text the second pass ends without failing, visits every value in allocation order and fills each string, array, object and key store to exactly the recorded size, the packed names included |
| `JsonText.Utf8Decodes` | json.cpp:326-358 | the bytes put for a code point are its UTF-8 form |
| `JsonText.EscapeDecodes` | json.cpp:288-358 | the bytes of a \u escape decode to its code point |
| `JsonText.PairDecodes` | json.cpp:302-318 | those of a surrogate pair exactly if the offset of its point has no bit 16 |
| `JsonParser.PairMisread` | json.cpp:317-317 | the text of U+20000 is parsed to the bytes of U+10000 |
| `JsonRuns.RunPieces` | json.cpp:267-417 | either pass reads every written string to its closing quote and puts the bytes that it means, plain or escaped |
| `JsonNumbers.CountNumber` | json.cpp:607-812 | the first pass reads every written number, an integer with its value, a double if it has a fraction or an exponent |
| `JsonNumbers.FillNumber` | json.cpp:614-629 | the second takes the recorded value and skips the text |
| `JsonTrees.RunValue` | json.cpp:250-873 | either pass reads every written value: the first records kinds, parents and integers in order, the second fills it with the strings, names and children that are written |
| `JsonTrees.WrittenCounts` | json.cpp:250-873 | every text that writes a value is accepted, and the recorded values are its own |
| `JsonTrees.WrittenFills` | json.cpp:250-873 | and the filled ones hold it |
| `JsonWords.ReadPieces` | json.cpp:267-417 | wherever the first pass gets past a string, one within the limit is written there |
| `JsonLanguage.ReadValue` | json.cpp:250-873 | wherever it gets past a value, one is written there |
| `JsonLanguage.Language` | json.cpp:250-873 | the accepted texts are exactly those that write a value |
| `JsonParser.Parse` | json.cpp:209-873 | succeeds exactly on the texts that write a value; whatever value that is, in whatever way it is written, the parsed one holds it: kinds, truth values, integers, bytes of strings, names and children in order; every allocation is full |
| `Bits.ShiftInValue` | algos/equi.c:118-118 | the 64-bit shift drops a multiple of 2^64 |
| `Bits.MaskValue` | algos/equi.c:109-109 | the mask is 2^n - 1 |
| `Bits.ShrValue` | algos/equi.c:131-131 | the shift right is the quotient |
| `Equihash.OutByteBits` | algos/equi.c:129-135 | which bits of the accumulator one stored byte holds, cut off by the mask |
| `Equihash.ElementFlat` | algos/equi.c:125-136 | one element is the current slice, zero padded, although the accumulator is never masked |
| `Equihash.ExpandArray` | algos/equi.c:99-140 | for every bit length 8..57 and every input length: the consecutive slices, zero padded; what follows the last is untouched |
| `EquihashVerify.ElementAt` | algos/equi.c:123-138 | the k-th element is the k-th slice |
| `EquihashVerify.HashHalves` | algos/equi.c:171-189 | the 50 hash bytes of a generation are the segments of its two indices, in order |
| `EquihashVerify.ExpandedXor` | algos/equi.c:187-189 | the expansion is XOR-linear |
| `EquihashVerify.ExpandedInjective` | algos/equi.c:99-140 | two inputs of one length expand alike if and only if their whole slices agree |
| `EquihashVerify.IsZero` | algos/equi.c:142-149 | true exactly for all-zero buffers |
| `EquihashVerify.XorSumOrderFree` | algos/equi.c:182-190 | the sum does not depend on the order of the indices |
| `EquihashVerify.SolvesOrderFree` | algos/equi.c:161-193 | neither does acceptance |
| `EquihashVerify.VerifyEH` | algos/equi.c:161-193 | accepts exactly when the XOR of the 512 selected 200-bit segments is zero |
| `EquihashVerify.SolvesIfEven` | algos/equi.c:161-193 | accepted exactly if each of the 200 bit places is set in an even number of the segments |
| `Scrypt.MixPair` | algos/scrypt.c:555-571 | two blocks of the chain, written at their shuffled places |
| `Scrypt.BlockmixSalsa8` | algos/scrypt.c:546-572 | scryptBlockMix of section 4 of RFC 7914 for every r >= 1 |
| `RoMix.MaskIsMod` | algos/scrypt.c:578-584 | 64 of the 512 bits and a mask give Integerify modulo a power of two |
| `RoMix.IntegerifyMasked` | algos/scrypt.c:626-626 | integerify(X, r) & (N - 1) is Integerify(X) mod N |
| `RoMix.RowAt` | algos/scrypt.c:611-611 | the rows stored one after the other are V_0, V_1, ... |
| `RoMix.SmixWords` | algos/scrypt.c:608-638 | two steps a turn over two word buffers are scryptROMix of section 5 of RFC 7914, for every r >= 1 and every N = 2^k, 1 <= k < 64 |
| `Smix.Smix` | algos/scrypt.c:594-643 | the bytes of B become the stored words of scryptROMix of the loaded ones |
| `Smix.WordValue` | algos/scrypt.c:55-62 | a loaded word is the sum of its bytes times 1, 2^8, 2^16 and 2^24 |
| `Smix.LoadStore` | algos/scrypt.c:55-75 | loading what was stored gives the words back |
| `Smix.StoreLoad` | algos/scrypt.c:55-75 | storing what was loaded gives the bytes back |
| `FastKdf.LinearRead` | algos/neoscrypt.c:707-714 | reading straight on in a mirrored buffer is reading around the ring |
| `FastKdf.Repairs` | algos/neoscrypt.c:721-730 | after the XOR and both repairs the tail mirrors the head again and the head is the ring with the XOR wrapped around |
| `FastKdf.RingBits` | algos/neoscrypt.c:721-721 | a bit of the ring differs after a digest is added exactly where the digest has a set bit |
| `FastKdf.RingRestored` | algos/neoscrypt.c:721-721 | adding the same digest at the same place twice gives the ring back |
| `FastKdf.Iterate` | algos/neoscrypt.c:705-732 | one iteration is one turn of the 256-byte rings |
| `FastKdf.SetUp` | algos/neoscrypt.c:680-702 | password and salt repeated to 256 bytes, with a mirrored tail |
| `FastKdf.Finish` | algos/neoscrypt.c:734-747 | the output in one or two pieces is read around the ring |
| `FastKdf.OutputUndone` | algos/neoscrypt.c:734-747 | an output byte added to the password ring's gives the salt ring's byte at the pointer and beyond, for the ring that N turns left |
| `FastKdf.Derive` | algos/neoscrypt.c:667-749 | the derivation equals the one over true rings for any N and output length, exactly when password and salt have the 64 and 32 bytes that are read |
| `NeoBlkMix.MixOne` | algos/neoscrypt.c:767-779 | the path unrolled for r = 1 is the block mix |
| `NeoBlkMix.MixTwo` | algos/neoscrypt.c:781-804 | so is the path for r = 2, with its swap |
| `NeoBlkMix.MixGeneric` | algos/neoscrypt.c:806-819 | and the reference loop for any r |
| `NeoBlkMix.BlkMix` | algos/neoscrypt.c:753-820 | hence all paths compute one function |
| `Base58.DigitIff` | base58.cpp:14-23 | the table has a digit exactly for the characters that is_base58 admits |
| `Base58.DigitIsPlace` | base58.cpp:14-23 | the digit of a character is its place in the alphabet: figures, capital letters without I and O, small letters without l |
| `Base58.IsBase58` | base58.cpp:100-113 | accepts exactly the strings without an invalid digit |
| `Base58.MulAdd` | base58.cpp:50-56 | the carry loop multiplies the whole number by 58 and adds the digit, with what does not fit in the carry |
| `Base58.TopWord` | base58.cpp:60-62 | the test on the first word is the test against the limit |
| `Base58.Decode` | base58.cpp:25-84 | for every width above zero: succeeds exactly when all characters are digits and the number is below 256^width (256^(width - 4) for widths divisible by four); the bytes are its big-endian form |
| `Base58.DecodeAddress` | base58.cpp:86-98 | the key of an address: present exactly when all characters are digits and the number is below 256^26, and then the 20 bytes between the two leading and the four check bytes |
| `Compact.SizeOf` | util.cpp:560-575 | the bit scan gives the number of significant bytes |
| `Compact.Target2Bits` | util.cpp:545-606 | shift, sign bit and exponent, with the word past pn[7] arbitrary |
| `Compact.Bits2Target` | util.cpp:530-543 | mantissa at the exponent's place and nothing elsewhere, exactly when the exponent keeps it inside the 32 bytes |
| `CompactLaws.RoundTrip` | util.cpp:530-606 | below 2^248 the compact form can be turned back if and only if the target is in the domain, and then gives the target rounded down to the bytes kept, whatever the word past pn[7] |
| `CompactLaws.RoundedNumber` | util.cpp:572-600 | rounded down: a multiple of 256^d less than 256^d below |
| `CompactLaws.DomainIsRange` | util.cpp:575-600 | the domain is 0 and 2^15 .. 2^248 - 1 |
| `CompactLaws.CompactedCanonical` | util.cpp:597-603 | what target2bits gives is canonical |
| `CompactLaws.ReturnsIffCanonical` | util.cpp:530-606 | target2bits(bits2target(b)) = b, whatever the word past pn[7], if and only if b is canonical |
| `CompactLaws.TopByteTaken` | util.cpp:587-593 | from 2^248 on the word past pn[7] reaches the exponent, or the exponent leaves the range |
| `TxOut.AmountReturns` | coinbase.cpp:8-15 | the eight amount bytes read back as the signed amount |
| `TxOut.SectionReturns` | coinbase.cpp:178-183 | a section that announces what it holds is read back output by output |
| `Coinbase.MinerIsOut` | coinbase.cpp:30-51 | the pool's own output is well formed for p2sh, pos and plain wallets set up as their kind asks |
| `Coinbase.PayIsOut` | coinbase.cpp:17-51 | so is a payee's, when the address decodes |
| `Coinbase.OutputsReturn` | coinbase.cpp:449-526 | a node reads back exactly the planned outputs, as many as announced, for any payee list keeping the count at 252 or less |
| `Coinbase.RewardConserved` | coinbase.cpp:116-700 | their amounts add up to the template's value and what the plan gives out beyond it if and only if what is left for the miner fits a signed 64-bit number |
| `Coinbase.EmptyKey` | coinbase.cpp:46-47 | a key payee that does not decode gets an output that announces 25 script bytes and has 5, so that another output is read |
| `Coinbase.ReadBackIffPayable` | coinbase.cpp:150-151 | with decodings of 20 bytes or nothing, the plan is read back if and only if every key payee decodes; a script-hash payee is written with whatever its address gives |
| `CoinbaseCode.PayList` | coinbase.cpp:484-500 | the superblock loop counts, subtracts and packs exactly the payments with payee and amount |
| `CoinbaseCode.DynCoinbase` | coinbase.cpp:125-187 | the DYN branch writes the section of its plan |
| `CoinbaseCode.StakCoinbase` | coinbase.cpp:229-287 | the STAK branch |
| `CoinbaseCode.MinerFirst` | coinbase.cpp:340-446 | the founder, charity, TUX and XVC branches, miner first |
| `CoinbaseCode.XzcCoinbase` | coinbase.cpp:194-220 | the XZC branch with its five payees on top of the value |
| `CoinbaseCode.TuxCoinbase` | coinbase.cpp:288-335 | the TUX branch with a donation on top |
| `CoinbaseCode.DecredCoinbase` | coinbase.cpp:221-228 | a decred coin goes through the later branches with six times the value |
| `CoinbaseCode.MasternodeCoinbase` | coinbase.cpp:449-526 | the recent masternode branch with charity, superblock or refund, and masternode |
| `CoinbaseCode.NodeCoinbase` | coinbase.cpp:528-612 | the ARC and ENT branches |
| `CoinbaseCode.CrwCoinbase` | coinbase.cpp:625-664 | the CRW branch |
| `CoinbaseCode.OldCoinbase` | coinbase.cpp:615-698 | the old masternode branch |
| `CoinbaseCode.EveryBranchConserves` | coinbase.cpp:116-700 | in every completed branch, XZC, TUX, XVC and decred coins included, with payees that decode and at most 252 outputs, a node reads exactly the announced number of outputs, then the lock time, and the amounts add up to the value and what the coin gives out beyond it if and only if what is left for the miner fits 64 bits |
| `CoinbasePayees.DynPays` | coinbase.cpp:125-187 | DYN pays the superblock's listed payments, then the dynode's payee its amount, then the pool, and nobody else, by what a node reads back |
| `CoinbasePayees.StakPays` | coinbase.cpp:229-287 | STAK pays half a coin to the treasury whose turn it is, then the payee its payee_amount |
| `CoinbasePayees.XzcPays` | coinbase.cpp:194-220 | XZC pays five fifths of the charity behind the pool |
| `CoinbasePayees.TuxPays` | coinbase.cpp:288-335 | TUX pays the donation |
| `CoinbasePayees.FounderPays` | coinbase.cpp:337-374 | the founder gets the amount its object names |
| `CoinbasePayees.CharityPays` | coinbase.cpp:377-410 | the charity its payee_amount, else its share |
| `CoinbasePayees.IncentivePaid` | coinbase.cpp:419-446 | XVC the incentive |
| `CoinbasePayees.MasternodePays` | coinbase.cpp:449-526 | recent masternodes: charity, refunds or superblock, then the masternode its amount |
| `CoinbasePayees.NodePays` | coinbase.cpp:528-612 | ARC and ENT: superblock, then their node |
| `CoinbasePayees.CrwPays` | coinbase.cpp:625-664 | CRW: the systemnode gets payeeSN_amount, then the masternode its amount |
| `CoinbasePayees.OldPays` | coinbase.cpp:666-698 | older masternodes: the payee gets payee_amount |
| `CoinbasePayees.PlainPays` | coinbase.cpp:116-118 | everybody else: the pool alone |
| `CoinbasePayees.NoLater` | coinbase.cpp:412-660 | the later branches give up exactly for decred coins that come to them and for replies that name the older keys |
| `CoinbasePayees.NoSection` | coinbase.cpp:116-700 | nothing is written exactly for replies of the older kind and for decred coins that come to the later branches |
| `CoinbaseCode.ExcessIsBeyond` | coinbase.cpp:116-700 | what each branch gives out beyond the value: five fifths of the charity on XZC, the donation on TUX, the incentive on XVC, five more times the value on decred coins, nothing elsewhere |
| `CoinbaseCode.CoinbaseCreate` | coinbase.cpp:116-700 | all branches in their order, with no section where the code returns without one |

## Left out

- Sockets, RPC, curl, MySQL, logging, threads and mutexes, and the main loops.
- The chained hash wrappers and their primitives, and the GMP, quadrature and rainforest algorithms.
- Floating-point difficulty conversion and adjustment; acceptance verdicts, `coind_can_mine`,
  `remote_can_mine` and the coin order of `coind_sort` are inputs, and speeds and difficulties are `real`.
- Scheduler client and job records are values in a sequence and a map of the pool object, so aliasing of
  client objects is not captured; the job list is held as a sequence of ids, and the linked list is
  modelled and sorted separately in CommonList.
- Lock counts of the scheduler's clients and jobs: pruning is told which of them are held. The readiness of a
  remote is fixed when its job is created.
- Remote jobs when g_autoexchange is off.
- The ledger keeps of a worker row what is aggregated (account, validity, difficulty): ntime, share
  difficulty, extranonce flags and error numbers are not in it, nor the client's own counters, the
  submit list of remote shares and block confirmation. The locks of objects in the ledger are the job locks.
- JSON: comment settings, byte order marks, the values of doubles, memory limits and integer widths; an
  integer's sign, which the code applies at its end, goes with every digit; the
  allocated values are an arena indexed in allocation order instead of heap pointers; `json_value_free_ex`.
- `CommonList::DeleteAll` and the list mutex.
- What `coind_aux_build_auxs` does once it runs past its 32 slots, `bits2target` once it stores outside its
  32 bytes, and `neoscrypt_fastkdf` with a password under 64 or a salt under 32 bytes, which it reads past:
  `AuxTree.BuildAuxs`, `Compact.Bits2Target` and `FastKdf.Derive` end with None there.
- AuxTree.Slot: the 32-bit product may overflow a C `int`; it is taken to wrap.
- Hexadecimal and Base64 text conversion, `ser_number` and `getblocheight`.
- Scrypt's PBKDF2 frame, NeoScrypt's outer loops, the Equihash personalisation and header hashing.
- The script part of the coinbase, the default charity addresses and percentages of EGC, LTCR, XZC and DCR
  (the coin is given with them), the reward stored for statistics, and fixed buffer sizes; a charity percentage
  is given as the amount it makes.
