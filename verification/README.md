# Warehouse server: verified models

Dafny models of the parts of the warehouse server that keep data safe when things go wrong: the
restartable migration runner, the connection pool with its leases, transactions and units of work,
the bounded task queue, the startup checks behind the listener, and the use cases that change goods
and users; together with two pieces of pure computation they rest on, SHA-256 and the goods id.

How the files fit together:

- `Sql.dfy` is the database everything runs on. A session has committed rows, the working copy of
  an open transaction, the named lock, and a list of fates: a statement is answered, or fails with
  or without having taken effect and with or without losing the connection. A process that is cut
  off is a failure that loses the connection. A poisoned connection refuses every later statement,
  a closed session loses uncommitted work and its lock, a statement outside a transaction commits
  by itself. Each theorem holds for every list of fates.
- Code that changes state is a class whose methods send the statements one by one. Each method is
  proved equal to a function of the session (or of the pool, or of the queue), and the theorems are
  about these functions, over whole runs and over sequences of runs.
- `Migration*.dfy`: the runner (`MigrationRunner`, `Migration`), what a step does to the rows
  (`MigrationSteps`), the invariant of every history (`MigrationRecovery`, `MigrationRuns`), also
  over several releases (`MigrationReleases`), what success means from any recorded rows
  (`MigrationCrossCheck`, `MigrationMetadata`), the report and its message against the statements
  that were sent (`MigrationReports`, `MigrationLedger`, `MigrationMessages`), the named lock,
  convergence, and the duplicate checks of discovery.
- `MigrationInterleavings.dfy` starts any number of runners on one database and takes their
  statements one by one in any order; `Traces.dfy` says what the server makes of a run's
  statements. A runner there is its run alone from the rows it started on; that no statement ever
  meets other rows is part of what is proved (`EveryInterleaving`).
- `Characters.dfy`, `StatementScanner.dfy`, `StepChecksum.dfy`, `Sha256Standard.dfy` (FIPS 180-4), `Sha256.dfy`,
  `GoodsId.dfy`, `Decimal.dfy`, `Fields.dfy`: text and digests.
- `ConnectionPools.dfy` and `TaskQueues.dfy` hold the critical sections; `PoolThreads.dfy` and
  `TaskQueueThreads.dfy` run any number of threads through them in every interleaving.
- `Transactions.dfy`, `TransactionHandles.dfy`, `UnitsOfWork.dfy`: handles, their moves and ends.
- `UseCases.dfy`, `Conversations.dfy`, `WarehouseService.dfy`, `ConcurrentTakes.dfy`: login, create
  and take, alone and with any number of concurrent sessions.
- `LegacyStartup.dfy`, `StartupProblems.dfy`, `CompositionRoot.dfy`, `CleanStarts.dfy`: the startup
  checks, the gate before the listener, and exactly when a start succeeds; `Logins.dfy` follows a
  password through startup and login.

Where the code falls short of what one would expect, the exact condition is proved:

- An apply statement is repeated exactly when the recovery verify fails on a connection that stays
  usable (`RepeatedExactlyWhenBlind`), and `AppliedTwice` is a history in which that happens.
- The lists of migration reports partition the required ids on every exit path exactly when no
  required id occurs twice (`PartitionsExactly`); discovery compares ids only within a version.
- A lock is left held on a connection that is put back exactly when GET_LOCK took effect but its
  reply was lost without losing the connection (`LockLeftHeldExactly`).
- The single-statement scanner accepts a quoted literal after the terminator
  (`LiteralAfterTerminatorAccepted`); `TerminatorLaw` says exactly what it accepts there.
- The answer "already taken" can be trusted exactly when the row was there at the update, or can no
  longer appear (`AlreadyTakenReliableExactly`).
- A queue without workers never runs what it accepted (`ShutdownCompletes`).

Assumptions: the verify statement of a step is true exactly when its apply has taken effect (for a
check step: when the environment says so, the same for a whole run); no hash of the password
library is classified as anything but a hash, and in `Logins.dfy` also verifies its password and is
not aged at once; user ids are the primary key of their table; a task
does not throw; the connection factory neither throws nor succeeds with null; the pool outlives
its leases. Strings stand for byte strings.

## Model

| member | source | states |
|---|---|---|
| MigrationRunners.MigrationRunner.Run | src/infrastructure/mysql/migration.cpp:331-543 | the whole run, statement by statement, is the function Migration.Run of the session it was given, in its final session and in its report |
| MigrationRunners.MigrationRunner.Locked | src/infrastructure/mysql/migration.cpp:354-536 | what runs under the lock: bootstrap files in order, each one statement, applied and its table verified, then every version, with all early exits; what this establishes is SuccessIsExact and MetadataRefused |
| MigrationRunners.MigrationRunner.Version | src/infrastructure/mysql/migration.cpp:378-396 | one version starts from its recorded row; a renamed version or an unanswered read ends the run |
| MigrationRunners.MigrationRunner.Rows | src/infrastructure/mysql/migration.cpp:397-535 | the recorded rows are checked, the version marked RUNNING unless complete, every step handled in order, the version marked SUCCEEDED last |
| MigrationRunners.MigrationRunner.RowsMatch | src/infrastructure/mysql/migration.cpp:407-426 | the loop over recorded rows accepts exactly the rows that belong to the manifest and repeat its metadata |
| MigrationRunners.MigrationRunner.Step | src/infrastructure/mysql/migration.cpp:432-461 | skips cleanups and SUCCEEDED steps, verifies an unfinished step before applying it again, refuses a complete version with an incomplete record |
| MigrationRunners.MigrationRunner.Perform | src/infrastructure/mysql/migration.cpp:463-524 | RUNNING is recorded first, then the step is applied, and the outcome recorded; a record that cannot be written poisons the connection |
| MigrationRunners.MigrationRunner.Applied | src/infrastructure/mysql/migration.cpp:468-504 | a DML step runs, is verified and commits in one transaction, a DDL step runs and is verified, a check is only verified |
| MigrationRunners.MigrationRunner.Verified | src/infrastructure/mysql/migration.cpp:282-293 | a verify confirms a step only when it is answered and true |
| MigrationRunners.MigrationRunner.UpdateStepStatus | src/infrastructure/mysql/migration.cpp:295-311 | a status write keeps the checksum, phase and execution first recorded |
| MigrationRunners.MigrationRunner.UpdateVersionStatus | src/infrastructure/mysql/migration.cpp:313-327 | a version record takes the name and the status given |
| MigrationRunners.MigrationRunner.RemovePending | src/infrastructure/mysql/migration.cpp:276-280 | every occurrence of the id is removed and the order of the others kept |
| MigrationRunners.MigrationLock.GiveUp | src/infrastructure/mysql/migration.cpp:252-261 | a held lock is released once, and an unconfirmed release poisons the connection |
| MigrationRunners.MigrationLock.Destroy | src/infrastructure/mysql/migration.cpp:246-250 | the destructor releases a lock still held, and does nothing otherwise |
| MigrationRecovery.LockedKeeps | src/infrastructure/mysql/migration.cpp:354-536 | wherever it stops, the locked part keeps the records consistent with manifest and effects, takes no SUCCEEDED record back, and repeats no effect while recovery verifies are answered |
| MigrationRecovery.StepKeeps | src/infrastructure/mysql/migration.cpp:432-525 | one step, whatever its fates, keeps the invariant, and a complete version is only read |
| MigrationRuns.RunKeeps | src/infrastructure/mysql/migration.cpp:331-543 | the invariant of histories: from records that earlier runs of the manifest left, any run keeps them consistent and takes nothing back, and its connection ends poisoned or fit for reuse; what success means from any records is SuccessIsExact |
| MigrationCrossCheck.SuccessIsExact | src/infrastructure/mysql/migration.cpp:354-543 | from any recorded rows whatever: a run that reports success has found every bootstrap file to be one statement and its table of the right structure, and has left exactly the SUCCEEDED record of the manifest for every required step and the SUCCEEDED row of every version; if a bootstrap file does not pass no row changes; rows of other versions are untouched, and the connection is poisoned or fit for reuse |
| MigrationCrossCheck.CrossCheckExact | src/infrastructure/mysql/migration.cpp:354-461 | from any recorded rows a run on which nothing else stands in the way succeeds if and only if every bootstrap file passes, no version is renamed, every recorded step belongs to the manifest with its metadata, and no version marked SUCCEEDED lacks a required record |
| MigrationMetadata.MetadataRefused | src/infrastructure/mysql/migration.cpp:357-375 | on a database that answers, the first bootstrap file that does not pass ends the run: the report names it when its table is incompatible, only the files up to it have been sent, and no row has changed |
| MigrationMetadata.BootstrapsChecked | src/infrastructure/mysql/migration.cpp:357-375 | whatever fails, the loop over the bootstrap files ends by itself only if every file passes |
| MigrationCrossCheck.StepChecked | src/infrastructure/mysql/migration.cpp:432-525 | once the rows have been checked, a step touches its own version only, a complete version is left alone and refused exactly when a step is not settled, and a step that does not end the run leaves the exact record |
| MigrationRuns.EveryHistory | src/infrastructure/mysql/migration.cpp:378-535 | any sequence of interrupted or failing runs keeps the records consistent, never overwrites SUCCEEDED, and applies nothing twice while recovery verifies are answered |
| MigrationRuns.AtMostOnce | src/infrastructure/mysql/migration.cpp:432-524 | from empty tables every step takes effect at most once, and check and cleanup steps never |
| MigrationRuns.ExactlyOnceAfterSuccess | src/infrastructure/mysql/migration.cpp:432-524 | after a run that succeeded each required step that is not a check has taken effect exactly once and is recorded, with its version |
| MigrationRuns.SucceededFormPrefix | src/infrastructure/mysql/migration.cpp:378-535 | in every reachable state all required steps before a recorded step, in run order, are SUCCEEDED, and its version has a row with the name of the manifest |
| MigrationRuns.VersionRecordsComplete | src/infrastructure/mysql/migration.cpp:397-461 | a version marked SUCCEEDED has, for each step that is not a cleanup, a SUCCEEDED record with the checksum, phase and execution of the manifest |
| MigrationRuns.UnknownCommitStaysRunning | src/infrastructure/mysql/migration.cpp:486-516 | an unknown COMMIT outcome leaves the step RUNNING, because the poisoned connection refuses both status writes |
| MigrationRuns.RepeatedExactlyWhenBlind | src/infrastructure/mysql/migration.cpp:446-457 | an unrecorded effect is repeated if and only if its recovery verify fails on a connection that stays usable |
| MigrationRuns.DmlAllOrNothing | src/infrastructure/mysql/migration.cpp:468-491 | a DML step has taken effect exactly when it reports no cause, unless the outcome of its COMMIT is unknown, which poisons the connection; no transaction is left open |
| MigrationRepeats.AppliedTwice | src/infrastructure/mysql/migration.cpp:446-457 | a history of two runs from empty tables after which one step has taken effect twice: the SUCCEEDED record lost with the connection, then a recovery verify without an answer |
| MigrationReleases.EveryRelease | src/infrastructure/mysql/migration.cpp:378-536 | over releases that append versions, each run interrupted anywhere, records stay consistent with the latest manifest, nothing SUCCEEDED is taken back, and nothing is applied twice while recovery verifies are answered |
| MigrationReleases.AtMostOnceOverReleases | src/infrastructure/mysql/migration.cpp:432-524 | from empty tables no step of any release is applied twice, whatever was released in between |
| MigrationReleases.Appended | src/infrastructure/mysql/migration.cpp:378-396 | records left under a manifest are consistent with any manifest that appends versions to it |
| MigrationConvergence.RunConverges | src/infrastructure/mysql/migration.cpp:331-543 | from any consistent state a run without faults succeeds |
| MigrationConvergence.Convergence | src/infrastructure/mysql/migration.cpp:331-543 | whatever interrupted runs left behind, a run without faults ends with every required step and version SUCCEEDED |
| MigrationConvergence.FinishedRunChangesNothing | src/infrastructure/mysql/migration.cpp:378-543 | a further run applies nothing, lists every required step as already complete, and between the lock statements sends only statements that write no row |
| MigrationReports.RunTally | src/infrastructure/mysql/migration.cpp:331-543 | on every exit path the handled steps are a prefix of the run order, each applied or already complete, and the pending ones are those required ids that do not occur among them |
| MigrationLedger.ReportReadsOffLog | src/infrastructure/mysql/migration.cpp:432-535 | on every exit path of every run: the applied list is, in order, the steps whose SUCCEEDED record the server confirmed, the list of steps not to be rolled back the DDL steps whose apply statement was sent, and the version counter the confirmed SUCCEEDED rows; no SUCCEEDED record is attempted without an answered verify of the step in the same run, true for a check step |
| MigrationMessages.MessageIsTrue | src/infrastructure/mysql/migration.cpp:331-543 | on every exit path the reason, the step named with it and its flags tell which statement went unanswered, or which recorded row or bootstrap file was refused; an unrecorded failure, success or version, and an unconfirmed release, have poisoned the connection |
| MigrationPartition.ListedExactly | src/infrastructure/mysql/migration.cpp:334-343 | a report starts with every step in exactly one of two lists, pending if it must be completed and deferred if it is a cleanup |
| MigrationReports.Partition | src/infrastructure/mysql/migration.cpp:276-280 | for a report at any point of a run: the lists partition the required ids if and only if no id still to come repeats a handled one |
| MigrationPartition.PartitionsExactly | src/infrastructure/mysql/migration.cpp:276-280 | the reports of a manifest partition its required ids on every exit path of every run if and only if no required id occurs twice, although discovery admits repeats across versions |
| MigrationReports.PartitionOnEveryExit | src/infrastructure/mysql/migration.cpp:331-543 | with ids unique across versions the partition holds on every exit, stepsApplied counts the applied list, and success means nothing pending and every version counted |
| MigrationLocks.LockBracket | src/infrastructure/mysql/migration.cpp:243-267 | after a confirmed GET_LOCK exactly one RELEASE_LOCK is tried, as the last statement; then the lock is free or the connection poisoned, and success was reported only with the release confirmed |
| MigrationLocks.LockLeftHeldExactly | src/infrastructure/mysql/migration.cpp:344-352 | the lock survives a run on a usable connection if and only if GET_LOCK took effect, failed, and did not lose the connection |
| MigrationInterleavings.EveryInterleaving | src/infrastructure/mysql/migration.cpp:331-543 | any number of runners on one database, their statements taken one by one in any order, lost sessions dropped at any time: no statement meets rows that its own run has not left, only the holder of the lock has statements to come that reach the server, and whenever the lock is free the rows are those of whole runs in the order of their locks |
| MigrationInterleavings.StepKeeps | src/infrastructure/mysql/migration.cpp:331-543 | every start, statement and dropped session keeps the invariant behind that: the holder stands where its run alone from the rows of the runs before it would stand |
| MigrationInterleavings.LockedPartsApart | src/infrastructure/mysql/migration.cpp:344-352 | while one run holds the lock, no start, statement or dropped session of another changes a row, the holder's session, or the lock |
| MigrationInterleavings.RecordsAtRest | src/infrastructure/mysql/migration.cpp:378-535 | in every interleaving, whenever the lock is free the records are consistent with the manifest and with the effects |
| MigrationInterleavings.NothingTakenBack | src/infrastructure/mysql/migration.cpp:378-535 | from one moment with the lock free to any later one no SUCCEEDED record and no effect is taken back |
| MigrationInterleavings.AtMostOnceAtEveryMoment | src/infrastructure/mysql/migration.cpp:432-524 | at every moment of every interleaving, inside runs too, each step has taken effect at most once, and check and cleanup steps never, while recovery verifies are answered |
| MigrationInterleavings.RunTraced | src/infrastructure/mysql/migration.cpp:331-543 | the final server state of a run is what the server makes of the statements in its log, one by one, and of nothing else |
| MigrationDiscovery.NeighboursSuffice | src/infrastructure/mysql/migration.cpp:168-177 | on sorted steps comparing neighbours finds a duplicate id if and only if there is one |
| MigrationDiscovery.DuplicateStep | src/infrastructure/mysql/migration.cpp:172-177 | the loop reports no duplicate exactly when the ids are distinct, and otherwise names an id that occurs twice |
| MigrationDiscovery.DuplicateVersion | src/infrastructure/mysql/migration.cpp:182-185 | on definitions sorted by version the loop finds a duplicate exactly when there is one |
| MigrationDiscovery.SharedIdLosesPending | src/infrastructure/mysql/migration.cpp:276-280 | a concrete run over two versions that share a step id, whose report loses the pending step |
| StatementScanner.IsSingleServerStatement | src/infrastructure/mysql/migration.cpp:93-121 | the index-skipping loop decides exactly what a tokeniser decides that classes every character as code, quote or comment |
| StatementScanner.Concatenation | src/infrastructure/mysql/migration.cpp:93-121 | for text that ends in code the classes of a concatenation at a terminator are those of its parts |
| StatementScanner.TerminatorLaw | src/infrastructure/mysql/migration.cpp:93-121 | after a complete statement and its terminator exactly those tails are accepted that end in code or a line comment and hold no bare code but spaces and terminators |
| StatementScanner.SecondStatementRejected | src/infrastructure/mysql/migration.cpp:116-118 | for any complete a and accepted b, a followed by a terminator is accepted, and with b behind it is rejected |
| StatementScanner.LiteralAfterTerminatorAccepted | src/infrastructure/mysql/migration.cpp:113-117 | a quoted literal behind the terminator is accepted |
| StatementScanner.CommentLaws | src/infrastructure/mysql/migration.cpp:93-121 | a hash, or two dashes before white space, comments out the line, and a block comment runs to its end mark |
| StatementScanner.CommentStarts | src/infrastructure/mysql/migration.cpp:93-121 | two dashes without white space behind them, and a slash without a star, are code |
| StatementScanner.QuoteLaws | src/infrastructure/mysql/migration.cpp:93-121 | each of the three quotes runs to its partner; a backslash protects the next character and a doubled quote does not close |
| StepChecksum.MigrationChecksum | src/infrastructure/mysql/migration.cpp:123-146 | the appended buffer hashes to the SHA-256 of five length-prefixed fields, for material under 2^61 bytes |
| StepChecksum.JoinSplits | src/infrastructure/mysql/migration.cpp:126-131 | a decoder inverts any sequence of length-prefixed fields, decimal lengths included |
| StepChecksum.MaterialReads | src/infrastructure/mysql/migration.cpp:123-146 | what is hashed are the id, the name of the phase, the name of the execution kind, the apply text and the verify text, in this order, each behind its length and a colon |
| StepChecksum.MaterialInjective | src/infrastructure/mysql/migration.cpp:132-144 | equal material means equal step id, phase, execution, apply and verify text |
| StepChecksum.EqualChecksums | src/infrastructure/mysql/migration.cpp:123-146 | equal checksums mean equal steps, or two different byte strings with the same SHA-256 digest |
| Sha256.Sha256Hex | src/infrastructure/mysql/sha256.cpp:28-72 | for every input under 2^61 bytes the in-place loops compute the text of the digest defined by FIPS 180-4, sections 5.1.1 to 6.2.2 |
| Sha256.PaddedBytes | src/infrastructure/mysql/sha256.cpp:29-35 | the padding loops build the padded message of section 5.1.1, and terminate for every input |
| Sha256.Schedule | src/infrastructure/mysql/sha256.cpp:41-53 | the words array holds the message schedule of section 6.2.2 |
| Sha256.Compress | src/infrastructure/mysql/sha256.cpp:54-67 | 64 in-place rounds and the final additions turn the hash array into the next intermediate hash value |
| Sha256.HexText | src/infrastructure/mysql/sha256.cpp:68-71 | eight words are written as eight zero-padded digits each |
| Sha256.DigestTextDecodes | src/infrastructure/mysql/sha256.cpp:68-71 | the output has exactly 64 hexadecimal digits, and each group of eight reads back as its word of the digest |
| Sha256Standard.ZeroBytesLeast | src/infrastructure/mysql/sha256.cpp:31-32 | no smaller number of zero bytes leaves a length of 56 modulo 64 |
| Sha256Standard.PaddedLengthLeast | src/infrastructure/mysql/sha256.cpp:31-35 | the padded length is the least multiple of 64 that is at least n+9 |
| Sha256Standard.PadInjective | src/infrastructure/mysql/sha256.cpp:29-35 | messages with equal padded messages are equal, whatever their lengths |
| GoodsId.ParseGoodsId | src/application/legacy/legacy_warehouse_service.cpp:33-52 | the loop with its overflow guard returns exactly the id that the text names, and the 64-bit accumulator never overflows |
| GoodsId.RoundTrip | src/api/legacy_http_server.cpp:116-120 | parsing the printed form gives back every id from 1 to 2^63-1 |
| GoodsId.PrintedDigits | src/api/legacy_http_server.cpp:116-120 | the printed form is the mark and at least six digits of the id's value, with zeros in front only to make up six |
| GoodsId.PrintedFormsDiffer | src/api/legacy_http_server.cpp:116-120 | different ids never print alike |
| GoodsId.ExactBound | src/application/legacy/legacy_warehouse_service.cpp:33-52 | for any digits, marked or not, with any leading zeros, parsing succeeds if and only if the value lies in 1 to 2^63-1, and gives that value |
| Fields.Normalize | src/application/legacy/legacy_warehouse_service.cpp:13-24 | the loops over a field compute its normal form |
| Fields.NormalForm | src/bootstrap/legacy_startup.cpp:22-33 | the result has no tab, line break or blank end, and a field of that kind is not changed |
| Fields.BlankExactly | src/application/legacy/legacy_warehouse_service.cpp:13-24 | a field becomes empty if and only if it is blank throughout |
| Fields.MiddleKept | src/application/legacy/legacy_warehouse_service.cpp:13-24 | what is kept of a field is its middle, character by character, with spaces for tabs and line breaks, and all that is cut off is white space |
| ConnectionPools.ConnectionPool.Enter | src/infrastructure/mysql/connection_pool.cpp:53-67 | a caller leaves the mutex with the idle connection returned last, or a reserved slot if none is idle, and with nothing exactly when all slots are in use |
| ConnectionPools.ConnectionPool.Acquire | src/infrastructure/mysql/connection_pool.cpp:51-79 | a lease is given exactly when a connection is idle or one can be created, and otherwise the pool is as before |
| ConnectionPools.ConnectionPool.CreationFailed | src/infrastructure/mysql/connection_pool.cpp:70-73 | the reserved slot is given up |
| ConnectionPools.ConnectionPool.GiveBack | src/infrastructure/mysql/connection_pool.cpp:91-99 | a usable connection becomes idle, a poisoned one is dropped and its slot freed |
| ConnectionPools.LastBackFirstOut | src/infrastructure/mysql/connection_pool.cpp:63-67 | the connection given back last is the next one given out, and the pool is then as before |
| ConnectionPools.SlotsBalance | src/infrastructure/mysql/connection_pool.cpp:63-97 | taking uses up one free slot, a new connection only if none is idle; giving back, poisoned or not, and a creation that failed free exactly one |
| ConnectionPools.ConnectionLease.Release | src/infrastructure/mysql/connection_pool.cpp:31-34 | the connection goes back at most once, and the lease is empty afterwards |
| ConnectionPools.ConnectionLease.Move | src/infrastructure/mysql/connection_pool.cpp:12-13 | the new lease holds what the old one held, and the old one is empty |
| ConnectionPools.ConnectionLease.Assign | src/infrastructure/mysql/connection_pool.cpp:15-22 | the connection held before goes back first; assigning a lease to itself changes nothing |
| PoolThreads.EveryInterleaving | src/infrastructure/mysql/connection_pool.cpp:51-99 | for any number of threads and any interleaving: total is idle plus leased plus being created and within the capacity, sleepers are covered by wakeups under way, no connection is in two places, no idle one is poisoned |
| PoolThreads.StepConserves | src/infrastructure/mysql/connection_pool.cpp:57-98 | every single step of any thread keeps the slot count and the coverage of free slots by threads awake or owing a notification |
| PoolThreads.StepApart | src/infrastructure/mysql/connection_pool.cpp:61-97 | every single step keeps connections in one place and idle ones unpoisoned |
| PoolThreads.CreationFailedKeeps | src/infrastructure/mysql/connection_pool.cpp:70-75 | the slot freed by a failed creation is covered by the notification still owed after the mutex has been left |
| PoolThreads.SleeperIsNeverStranded | src/infrastructure/mysql/connection_pool.cpp:51-99 | if a thread sleeps while a slot is free, threads that are already awake bring a thread that was waiting to a slot of its own in at most two steps |
| PoolThreads.LooksDecide | src/infrastructure/mysql/connection_pool.cpp:51-68 | a thread that looks gets a slot if and only if the pool is ready, and otherwise sleeps on unless its time is up |
| TaskQueues.BoundedTaskQueue.Enqueue | src/api/legacy_http_server.cpp:41-49 | a task is appended, dropped when the queue shuts down, or has to wait exactly when the queue is full |
| TaskQueues.BoundedTaskQueue.RunWorker | src/api/legacy_http_server.cpp:69-80 | a worker takes the oldest task, ends only when none is left and the queue shuts down, and waits otherwise |
| TaskQueues.BoundedTaskQueue.Shutdown | src/api/legacy_http_server.cpp:51-56 | only the call that sets the flag goes on to notify and join |
| TaskQueueThreads.EveryInterleaving | src/api/legacy_http_server.cpp:29-92 | for any number of producers and workers: the limit holds, tasks leave in the order of acceptance, started ones are running or done, sleepers are covered on both sides, nobody sleeps through the shutdown |
| TaskQueueThreads.StepKeeps | src/api/legacy_http_server.cpp:41-83 | every single step keeps all of that |
| TaskQueueThreads.EachTaskOnce | src/api/legacy_http_server.cpp:41-83 | every accepted task is queued, running or done, in exactly one of these places and once |
| TaskQueueThreads.QueuedWorkIsAttended | src/api/legacy_http_server.cpp:65-83 | with at least one worker a queue that is not empty has a worker running a task or about to look |
| TaskQueueThreads.RoomIsAttended | src/api/legacy_http_server.cpp:41-49 | a producer waiting while there is room has somebody about to try, or the notification of shutdown coming |
| TaskQueueThreads.ShutdownCompletes | src/api/legacy_http_server.cpp:51-62 | when the joining call returns every accepted task is done, if and only if there was a worker or nothing was accepted |
| TaskQueueThreads.DrainIsBounded | src/api/legacy_http_server.cpp:51-83 | once the flag is set the number of further steps is bounded, each new call of enqueue adding at most two |
| TaskQueueThreads.DrainNeverStops | src/api/legacy_http_server.cpp:57-82 | until the joining call has returned, some thread of the queue can take a step that does not depend on new calls or spurious wakeups |
| TaskQueueThreads.ShutdownReturns | src/api/legacy_http_server.cpp:51-62 | from any state with the flag set the threads of the queue alone, without a new call and without a spurious wakeup, bring the joining call to its return |
| Transactions.Transaction.Begin | src/infrastructure/mysql/transaction.cpp:18-44 | isolation and START are sent in this order, a failure of either poisons the session, and only success gives an active handle |
| Transactions.Transaction.Move | src/infrastructure/mysql/transaction.cpp:46-48 | the new handle takes over, and the old one is inactive |
| Transactions.Transaction.Assign | src/infrastructure/mysql/transaction.cpp:50-57 | an active transaction of the target is rolled back before the other is taken over; assignment to itself does nothing |
| Transactions.Transaction.DoCommit | src/infrastructure/mysql/transaction.cpp:61-74 | an active handle sends COMMIT once and is inactive afterwards, and an unknown outcome poisons; an inactive handle sends nothing |
| Transactions.Transaction.DoRollback | src/infrastructure/mysql/transaction.cpp:76-81 | an active handle sends ROLLBACK once and is inactive afterwards, and a failure poisons; an inactive handle sends nothing |
| Transactions.Transaction.Destroy | src/infrastructure/mysql/transaction.cpp:59 | the destructor rolls back what is still active |
| TransactionHandles.EveryMix | src/infrastructure/mysql/transaction.cpp:18-81 | under any mix of begin, moves, commit, rollback, destruction, statements, blocks left and scopes closed: idle connections are usable and outside any transaction, no two handles are active on one connection, every trace is lawful, with the isolation set directly before each START, and a handle is active only inside the open scope that leases its connection |
| TransactionHandles.StepKeeps | src/infrastructure/mysql/transaction.cpp:46-81 | every single action keeps all of that; beginning and releasing ask nothing about the handles |
| TransactionHandles.ReleasedOnlyWhenFree | src/infrastructure/mysql/legacy_unit_of_work.cpp:241-244 | when a scope is closed its handles have been destroyed, last to first, before its lease gives the connection back, so no handle is active on it and it is poisoned or fit |
| TransactionHandles.WellBracketed | src/infrastructure/mysql/transaction.cpp:18-81 | at every moment of every session each answered START but possibly the last has been closed by exactly one answered COMMIT or ROLLBACK; in an idle connection all have |
| TransactionHandles.OnlyCommitCommits | src/infrastructure/mysql/transaction.cpp:46-81 | only an explicit COMMIT commits: beginning, moving, assigning, rolling back, destroying handles, leaving blocks and closing scopes leave all committed rows alone |
| TransactionHandles.ReleasableExactly | src/infrastructure/mysql/connection_pool.cpp:31-34 | a working leased connection is fit to be put back if and only if no handle is active on it |
| TransactionHandles.ClosingIsSafeExactly | src/infrastructure/mysql/transaction.cpp:50-57 | wherever handles have been moved, across leases too: closing a scope gives back a working connection that is fit for reuse if and only if every handle active on it belongs to that scope |
| UnitsOfWork.Begin | src/infrastructure/mysql/legacy_unit_of_work.cpp:255-268 | the factory leases a connection and begins on it; if that fails the connection is given back, which discards it |
| UnitsOfWork.UnitOfWork.constructor | src/infrastructure/mysql/legacy_unit_of_work.cpp:228-230 | the unit takes over lease and transaction |
| UnitsOfWork.UnitOfWork.Destroy | src/infrastructure/mysql/legacy_unit_of_work.cpp:241-244 | members are destroyed last to first, so an active transaction is rolled back before the connection is given back |
| UnitsOfWork.UnitOfWork.DoCommit | src/infrastructure/mysql/legacy_unit_of_work.cpp:234-236 | commit is that of the transaction of the unit; once that has ended it sends nothing and reports success |
| UnitsOfWork.UnitOfWork.DoRollback | src/infrastructure/mysql/legacy_unit_of_work.cpp:237 | rollback is that of the transaction of the unit; once that has ended it does nothing |
| UseCases.TakeIsAtomic | src/application/legacy/legacy_warehouse_service.cpp:217-250 | success means the take is committed and the view shows the row with the caller as operator; a failure that COMMIT did not cause changes nothing, a failed COMMIT leaves all or nothing; the connection is fit or poisoned; and whatever fails, a caller told of a missing or a taken row is told the truth |
| UseCases.TakeAnswer | src/infrastructure/mysql/legacy_unit_of_work.cpp:198-220 | on a database that answers, taking succeeds if and only if the row exists and is not taken, and the two refusals tell the missing row from the taken one |
| UseCases.CreateAnswer | src/application/legacy/legacy_warehouse_service.cpp:181-197 | on a database that answers, creating goods never fails |
| UseCases.LoginAnswer | src/application/legacy/legacy_warehouse_service.cpp:88-130 | on a database that answers, wrong credentials are answered if and only if no user has the name or the stored hash does not verify; a verified user is let in unless the hash has aged and no new one can be made or the update does not change one row |
| UseCases.CreateIsAtomic | src/application/legacy/legacy_warehouse_service.cpp:181-197 | success means that the row asked for is committed under the next id and shown; otherwise as for taking, except that an id once drawn stays drawn, rolled back or not |
| UseCases.ReadBackIsAtomic | src/infrastructure/mysql/legacy_unit_of_work.cpp:176-195 | the row is shown as the transaction sees it, and COMMIT is sent only if it was found |
| UseCases.LoginIsAtomic | src/application/legacy/legacy_warehouse_service.cpp:88-130 | a principal is handed out only for a stored hash that was verified, with the upgraded hash committed; otherwise as for taking; and whatever fails, wrong credentials or a failed upgrade are blamed only truly |
| Logins.LoginRenews | src/application/legacy/legacy_warehouse_service.cpp:108-124 | a successful login changes no row, unless the hash of its user has aged: then only that hash, and it becomes a hash of the password given |
| Logins.LoginAgain | src/application/legacy/legacy_warehouse_service.cpp:88-130 | who got in once gets in again under the same name and role, whatever the first login replaced |
| Logins.StartThenLogin | src/bootstrap/legacy_startup.cpp:69-99 | after startup checks that succeeded, a user whose password was stored as plaintext logs in with it |
| Logins.AdministratorEnters | src/bootstrap/legacy_startup.cpp:101-144 | the administrator that the checks have added logs in with the configured name and password |
| Conversations.TakeSends | src/infrastructure/mysql/legacy_unit_of_work.cpp:198-220 | on a database that answers, a take sends the isolation, START, the update, and then the read and COMMIT, or the second statement and ROLLBACK |
| Conversations.CreateSends | src/infrastructure/mysql/legacy_unit_of_work.cpp:169-183 | a create reads its row back by the id it drew, and then commits |
| Conversations.LoginSends | src/application/legacy/legacy_warehouse_service.cpp:88-124 | a login reads its user, replaces the hash only if it has aged, and commits only a verified user |
| WarehouseService.LegacyWarehouseService.Login | src/application/legacy/legacy_warehouse_service.cpp:81-130 | empty input touches nothing; otherwise only a verified user is let in, under the own name and role, a session is created exactly on success, and with a database that answers everybody verified is let in unless the upgrade of an aged hash fails; the connection is back in the pool or discarded |
| WarehouseService.LegacyWarehouseService.CreateGoods | src/application/legacy/legacy_warehouse_service.cpp:162-198 | no session, a role that may not write and a blank name each get their own refusal and touch nothing; otherwise success means that one row is new, under the next id, with the normalised name, the normalised location or the default shelf, status stored and the caller's name as operator, and shown so; with a database that answers it always succeeds |
| WarehouseService.LegacyWarehouseService.TakeGoods | src/application/legacy/legacy_warehouse_service.cpp:200-251 | no session, a role that may not write and a text that names no id each get their own refusal and touch nothing; otherwise success means that the row with the id of the digits supplied was not taken and is now taken by the caller's name, with nothing else changed, and shown so; with a database that answers the refusals tell a missing row from a taken one |
| WarehouseService.LegacyWarehouseService.RunLogin | src/application/legacy/legacy_warehouse_service.cpp:94-124 | find, verify, rehash if needed, and commit, with a rollback on every other path |
| WarehouseService.LegacyWarehouseService.RunCreate | src/infrastructure/mysql/legacy_unit_of_work.cpp:169-182 | insert and read back, with a rollback on every failure |
| WarehouseService.LegacyWarehouseService.RunTake | src/application/legacy/legacy_warehouse_service.cpp:223-250 | every outcome of the update has its own answer, and all but success roll back |
| WarehouseService.LegacyWarehouseService.RunMarkTaken | src/infrastructure/mysql/legacy_unit_of_work.cpp:198-220 | one changed row is a take; otherwise the second statement tells a missing row from one that is there |
| ConcurrentTakes.OneWinner | src/infrastructure/mysql/legacy_unit_of_work.cpp:198-209 | with any number of concurrent sessions at most one take of an id is ever told of success |
| ConcurrentTakes.ViewIsTrue | src/application/legacy/legacy_warehouse_service.cpp:239-250 | the view of a successful take is the row as it is then and later, taken, with that caller as operator |
| ConcurrentTakes.EachCreateItsRow | src/infrastructure/mysql/legacy_unit_of_work.cpp:169-183 | with any number of concurrent sessions every create that is told of success has a row of its own, was shown it as asked for, and its name and place stay |
| ConcurrentTakes.TakenIsAbsorbing | src/infrastructure/mysql/legacy_unit_of_work.cpp:200-203 | no row ever disappears or changes its name or place, and a taken row never changes again |
| ConcurrentTakes.StepKeeps | src/infrastructure/mysql/legacy_unit_of_work.cpp:169-220 | every statement of every session keeps pending writes locked and honest, and winners truthful, also when COMMIT is applied after its caller was told of a failure |
| ConcurrentTakes.AlreadyTakenReliableExactly | src/infrastructure/mysql/legacy_unit_of_work.cpp:206-219 | after an update that changed nothing, the answer AlreadyTaken is right in every continuation if and only if the row was there at the update or can no longer appear |
| ConcurrentTakes.AloneIsTheUseCase | src/application/legacy/legacy_warehouse_service.cpp:217-250 | a lone taker leaves the rows and gets the answer that the use case computes on one session |
| LegacyStartup.RunLegacyStartupChecks | src/bootstrap/legacy_startup.cpp:44-149 | the checks, statement by statement, are the function Checked of the session, and the connection is back in the pool or discarded |
| LegacyStartup.Sweep | src/bootstrap/legacy_startup.cpp:59-99 | the loop over the rows classifies, hashes and updates them in order and stops at the first problem |
| LegacyStartup.EnsureAdministrator | src/bootstrap/legacy_startup.cpp:101-144 | an administrator is created exactly when none is counted and acceptable credentials are configured |
| LegacyStartup.AllOrNothing | src/bootstrap/legacy_startup.cpp:44-149 | success means that every plaintext password has become a hash of itself, old rows keep ids, names, roles and hashes, and the configured administrator, under the normalised name and a hash of the configured password, was added exactly if there was none; any failure but that of COMMIT changes nothing, and a failed COMMIT leaves all or nothing |
| LegacyStartup.OnlyThatRow | src/bootstrap/legacy_startup.cpp:87-95 | an update that reports one changed row has changed the row it was meant for and no other |
| LegacyStartup.FirstRunSucceedsExactly | src/bootstrap/legacy_startup.cpp:59-144 | without faults the checks succeed if and only if no stored hash is broken, plaintext may be migrated if present, and an administrator exists or acceptable credentials are configured |
| LegacyStartup.FirstProblem | src/bootstrap/legacy_startup.cpp:62-78 | on a database that answers, the first row that must not be migrated decides the problem: a broken hash, or a plaintext password |
| LegacyStartup.CredentialsDecide | src/bootstrap/legacy_startup.cpp:107-127 | if the rows may be migrated and nobody is administrator, the problem is that credentials are missing, or that the name is empty or over 64 bytes, or the password under 12 or over 128 |
| StartupProblems.ProblemIsTrue | src/bootstrap/legacy_startup.cpp:44-149 | whatever fails, the problem reported names the row, the configured value or the unanswered statement that stood in the way, with one ROLLBACK behind it |
| LegacyStartup.SecondRun | src/bootstrap/legacy_startup.cpp:44-149 | on secured rows the checks never change anything, and without faults succeed under any configuration |
| LegacyStartup.StartTwice | src/bootstrap/legacy_startup.cpp:44-149 | after a first start that succeeded a second one, migration disabled or not, succeeds and changes nothing |
| CompositionRoots.CompositionRoot.Start | src/bootstrap/composition_root.cpp:34-57 | only an untouched root with a readable configuration starts the stages, and a failed stage stops the platform at once |
| CompositionRoots.CompositionRoot.Stages | src/bootstrap/composition_root.cpp:41-48 | the seven stages are called in order, up to the first that fails |
| CompositionRoots.CompositionRoot.Serve | src/bootstrap/composition_root.cpp:59-65 | a root that has started is stopped after the shutdown request, one that has not is left as its start left it |
| CompositionRoots.CompositionRoot.Stop | src/bootstrap/composition_root.cpp:67-72 | the platform is stopped only if it was touched and has not been stopped |
| CompositionRoots.CompositionRoot.CreateDatabasePool | src/bootstrap/production_platform.cpp:74-97 | the stage succeeds exactly when the pool has room and the probe gets a connection, which is then idle in the pool |
| CompositionRoots.CompositionRoot.RunMigrations | src/bootstrap/production_platform.cpp:100-127 | the run gets the idle connection of the shared pool, or a new one, the stage succeeds exactly when the run reports success, and the connection is back in the pool or dropped |
| CompositionRoots.CompositionRoot.RunStartupChecks | src/bootstrap/production_platform.cpp:129-132 | the checks get the connection that the migrations gave back if it is fit, or a new one, and the stage succeeds exactly when they do |
| CompositionRoots.EveryLifeLawful | src/bootstrap/composition_root.cpp:34-72 | over any sequence of start, run, stop and destruction the platform sees a prefix of the seven stages, all but the last successful, then exactly one stop if anything was touched and the root is not running |
| CompositionRoots.ListenerIsLast | src/bootstrap/composition_root.cpp:41-48 | the listener is reached if and only if all seven stages were called |
| CompositionRoots.MigrationsPassed | src/bootstrap/production_platform.cpp:113-127 | whatever the recorded rows were, a migration stage that passes has established the exact records of the manifest, and an idle connection is fit and sees the committed rows |
| CompositionRoots.GateBeforeListener | src/bootstrap/composition_root.cpp:34-57 | on any database: once the listener stage is reached every required migration step has its SUCCEEDED record, every stored password is a hash and an administrator exists |
| CleanStarts.StartsExactly | src/bootstrap/composition_root.cpp:34-57 | where nothing fails by chance the server comes up if and only if the pool can open its connection, bootstrap files and recorded rows of all versions pass, stored passwords may be migrated, an administrator exists or can be made, and the other stages succeed; the probed connection serves every stage and stays in the pool |
| CleanStarts.EveryLifeCloses | src/bootstrap/composition_root.cpp:67-72 | over any life of a root no connection is kept once it has stopped, nor before it has begun |
| CleanStarts.RunLeavesPeople | src/infrastructure/mysql/migration.cpp:331-543 | a migration run never touches users or goods |

## Left out

- src/infrastructure/mysql/connection.cpp and client_library.cpp: the client library is not part of this model, only the rule that a poisoned connection refuses statements.
- HTTP routing, JSON, CORS and static files: third-party plumbing.
- The password hash function and the random source: a hash is an abstract function whose results are valid hashes, and a session token is a parameter.
- SQL text, date formats and the filter of `listGoods`: every statement is replaced by its effect on the rows, user names are compared exactly, and rows of the wrong shape (a NULL where none is allowed) are not modelled; neither is `list`, which changes nothing.
- Reading migration files, walking directories and sorting: discovery starts from sorted definitions, and only the duplicate checks are modelled.
- Pool shutdown (`stopping_`) and a throwing connection factory: the pool is assumed to outlive its leases.
- The stages of the startup other than migrations and startup checks succeed or fail as their surroundings decide, and the dates of goods (`stored_at`, `taken_at`) are not kept.
- Wall-clock time: a timeout is a step that may happen to any sleeping thread.
- Other writers during startup: each stage works on the rows that the stage before it left.
- Sha256.Sha256Hex: rests on the definitions and constants of FIPS 180-4 as written down in Sha256Standard.dfy; no example digest is computed by proof.
- MigrationRunners.MigrationRunner.RowsMatch: does not say which of several drifting rows is named in the report, because the report then carries one reason for all of them.
- MigrationRunners.MigrationRunner.Rows: for the same reason reports a drift without the id of the step.
- ConnectionPools.ConnectionPool.Acquire: gives up at once where the source waits until a timeout, because waiting and waking are steps of PoolThreads.
- Transactions.Transaction.Begin: does not tell the isolation levels and START forms of the three modes apart, because the modelled use cases all run in command mode.
- TransactionHandles.EveryMix: moves handles within the scope that declares them, because the source never moves a transaction to another lease; what a move to another lease would change is ClosingIsSafeExactly. StepKeeps and WellBracketed are about the same moves.
- MigrationInterleavings.RecordsAtRest: speaks of moments at which the lock is free; inside a run the records of the locked part are LockedKeeps. Other writers than migration runners are not in these interleavings.
- MigrationRunners.MigrationRunner.Run: carries the cause of a failure as a constructor, because the message texts of the driver are not modelled; the first loop, which fills the pending and deferred lists, is a function here.
- MigrationRuns.AtMostOnce: assumes that recovery verifies are answered or lose the connection; what happens otherwise is RepeatedExactlyWhenBlind.
- ConcurrentTakes.OneWinner: does not model deadlock detection or lock waits that time out as such; both are failures that may happen to any session in a transaction.
- TaskQueueThreads.ShutdownCompletes: speaks of the call that sets the flag; a second call returns at once, as in the code, and promises nothing.
