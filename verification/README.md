# A verified model of a transactional key-value engine

The system is a server with one in-memory store, a per-key lock table, strict two-phase
locking with a private write buffer per transaction, a write-ahead log with group commit,
checkpoints, and recovery at start-up. This project models those parts in Dafny and proves
what they promise together: over every interleaving of sessions, flusher and checkpoint, over
every point at which a crash may cut the log, and down to the bytes of the two files.

## How the model is built

**The engine as a state machine.** `Engine` is a labelled transition system. Its state holds
the lock table, the transactions in progress with a program counter each, the store, the log
(buffered, in the flusher's hands, in the stream, passed on to the file, synced) and the data
file. Each action is one critical section or one access to shared state: a lock request, a
wake-up, a timeout, one log call, one store update, one record handed to the log stream, the
flush of the stream, a sync, one step of a checkpoint. A run (`Legal`, `After`) is any sequence
of enabled actions from the empty server, so results about runs hold for every schedule.
`EngineLocks`, `EngineLog`, `EngineData`, `EngineReads` and `EngineCheckpoint` each prove one
part of the invariant kept by every action; `Runs` joins them. The state carries history
variables that no action reads: the committed transactions with what their clients wrote and
saw, the acknowledged LSNs, the author of each stored value, and the `leaked` keys explained
below.

**The serial meaning.** `Serial.RunAll` runs committed transactions one at a time; `Log.Fold`
is the meaning of a log, applying at each COMMIT everything its transaction logged. Neither
mentions locks, buffers, recovery or files. `Reference` models the test suite's own reference
model and is a third, independent account.

**Bytes.** `Crc`, `Codec`, `Framing` and `RecordCrc` model the record format, the parser and
the checksum; `SnapshotFile` the data file; `Truncation` the loop that shortens the log; `Disk`
puts a run, its two files and recovery together. Codec results hold for any four-byte seal;
`RecordCrc.CRC` is the real one.

**Objects.** `LockManager`, `WalManager`, `GroupCommit`, `RecoveryManager`, `Sessions`
(transaction manager, server, checkpoint manager) and `Reference` hold the classes that update
their fields in place. The objects that sessions share, down to the bytes of the log file, are
related to a state of the machine by `TransactionManager.Shows`, and a session's own fields by
`SessionSteps.At` and `Rests`. `Commit` and the `Run` methods take a ghost run whose last state
the objects show and return a longer one that they then show. `SessionSteps.Outcome` gives, for
each command, the shared objects, the session's fields, the reply and the events by which the
client's trace in that run grows; the objects and the reply are exactly those. So what is proved
of every run, and of the traces in it, holds of the objects and of what their clients were told,
between any calls of any sessions. Each method also says in plain terms, beside its outcome, what
the client gets and what is left: the level begun, the write buffered, the value returned, the
locks held, the record logged. `Replies` reads repeatable reads and serializability off the
replies, and `Clients` follows whole transactions on the objects.

**Fixed points.** `Literals` writes the two files out as bytes, with the real checksums, and
`Codec.RecordLayout` and `Codec.TypeByte` give every field of a record by its place, so that
format and parser are tied to the bytes that the server writes and not only to each other.

## What holds, and what does not

The documentation promises more than the code does in four places. The code is modelled as it
is, and each promise gets a run that breaks it and its exact condition.

- *Committed means durable* (README.md:25). The flushed mark is raised record by record, before
  the stream is flushed and synced. `Durability.AcknowledgedIsWritten` is what always holds;
  `Scenarios.AcknowledgedCommitCanBeLost` is a run that loses an acknowledged commit;
  `Durability.CommitIsSafeIff` says which events of a run make a commit safe; and
  `Durability.AcknowledgedSurvives` proves durability when a flush is atomic for those who wait.
- *Recovery restores exactly the acknowledged transactions* (README.md:38). It may restore
  others: `Scenarios.UnacknowledgedCommitCanSurvive`. `Durability.ExactlyAcknowledgedIff` says
  when it restores exactly those.
- *Serializability* (README.md:26). It holds for REPEATABLE_READ. At READ_COMMITTED it fails in
  two ways. First, what a transaction saw need not be what the serial run shows it:
  `Scenarios.ReadCommittedIsNotSerial` is a run without any leak, as
  chaos_tests/scenario_isolation.cpp:83-116 expects it, and `Answers.SerialAnswerIff` proves which
  answers are serializable whatever happens next: exactly those at REPEATABLE_READ and those that
  give the transaction its own write. Second, store and log can disagree. A READ_COMMITTED GET of
  a key that its own transaction has written releases the EXCLUSIVE lock. Such keys are collected
  in `leaked`; results that need write locks to last are stated key by key outside that set.
  `LostLock.ReadBackIff` proves that, for the agreement of store and log, this is exactly the GET
  to avoid; `LostLock.ApartLastsIff` that a disagreement lasts exactly until the key is committed
  again. Recovery does not read the store, so a leak does not harm it, unless a checkpoint saves
  the store meanwhile: `Scenarios.CheckpointCanSaveAWrongValue`, with the exact keys at which
  recovery is right in `CrashRecovery.CrashIsAtomic`.
- *Deadlocks are detected* (README.md:36). No code sets the `deadlocked` flag.
  `LockOrder.DeadlockEndsOnlyByTimeout` proves, over every continuation of every run, that a
  deadlock lasts exactly until one of its members times out; `Scenarios.TwoCanDeadlock` reaches
  one. A timeout wakes nobody, so it can strand a compatible reader:
  `Scenarios.TimeoutCanStrandAReader`, with the exact condition in `LockOrder.FrontStaysBlockedIff`.

Two more findings concern files. `truncateWAL` reads a key length after every record and a value
length after DELETE, which are not there: `FileFaults.FirstTruncationIff` and a run that loses a
commit, `FileFaults.TruncationLosesACommit`. And the server hands recovery the log's path as the
data file and the data file's path as the log (src/server/server.cpp:38):
`FileFaults.SwappedFilesIff` and `FileFaults.SwappedFilesLoseACommit`. Recovery itself is modelled
by the names of its parameters. A checkpoint taken in the middle of a flush can also cover more
than the synced log; `CrashRecovery.RenameChangesIff` says when that matters.

Assumptions throughout: one server lifetime from an empty log; counters do not wrap;
little-endian byte order; files can be opened; one command at a time per session; the log stream
passes its records on when it is flushed. The byte results ask that keys and values are shorter
than 65536 bytes (`Codec.Fits`), and `Codec.RoundTripIff` proves that this is exactly what is
needed.

## Model

| member | source | states |
|---|---|---|
| `Serializability.CommittedRunsAreSerial` | src/core/transaction_manager.cpp:47-241 | after every run of any mix of sessions, running the committed transactions serially in COMMIT-LSN order shows every REPEATABLE_READ one exactly the GET results it saw, and yields the meaning of the log; leaked keys are not judged |
| `Serializability.RepeatableReadIsSerializable` | src/core/transaction_manager.cpp:47-241 | in every run of REPEATABLE_READ transactions the same holds for all keys, and the store equals the serial store whenever no transaction is in progress |
| `Serializability.HistoryIsCommits` | src/core/transaction_manager.cpp:70-74 | the serial order used above is exactly the log's COMMIT records in ascending LSN order, none missing and none twice |
| `Serializability.StoreAgreesWithLog` | src/core/transaction_manager.cpp:56-86 | in every reachable state an unleaked key shows the fold of the logged commits, unless exactly one transaction with a logged COMMIT has yet to apply it; that one holds it EXCLUSIVE and the fold shows its write |
| `Answers.SerialAnswerIff` | src/core/transaction_manager.cpp:172-241 | in every run, when a GET of an unleaked key is answered: in all continuations that leak nothing more, the answer is the one that the serial run gives the transaction at its place in COMMIT-LSN order, should it commit, if and only if it is at REPEATABLE_READ or the key is in its own buffer |
| `Answers.ReadCommittedGoesStale` | src/core/transaction_manager.cpp:223-240 | from every reachable state where a READ_COMMITTED transaction is about to read a key it has not written, a continuation that leaks nothing exists after which it has committed with an answer that the serial run does not give |
| `Scenarios.ReadCommittedIsNotSerial` | chaos_tests/scenario_isolation.cpp:83-116 | a run without a leak in which a committed READ_COMMITTED transaction saw two values of one key, which no serial run on any store shows it |
| `ReadLocks.ReadCommittedHoldsItsWrites` | src/core/transaction_manager.cpp:201-240 | in every run a READ_COMMITTED transaction between two commands holds, among unleaked keys, exactly those it has written, all EXCLUSIVE |
| `Departures.AllLeave` | src/core/transaction_manager.cpp:47-120 | from every reachable state, all other holders of a read-locked key on which nobody waits can end their transactions, by commit or abort, leaking nothing and leaving the reader as it was |
| `LostLock.ReadBackIff` | src/core/transaction_manager.cpp:196-218 | in every run, from the answer to a GET of an unleaked key on, all continuations that leak nothing more agree on the key if and only if the GET is not a READ_COMMITTED transaction reading back its own write |
| `LostLock.ReadBackGoesApart` | src/core/transaction_manager.cpp:201-215 | from every reachable state where one is, a continuation exists after which no commit of the key is left to apply and the store differs from the serial result |
| `LostLock.ApartLastsIff` | src/core/transaction_manager.cpp:70-86 | over every continuation of every run, a store that has gone apart from the log at a key stays so exactly as long as nobody logs a COMMIT that writes the key |
| `LostLock.CheckpointSavesIt` | src/core/checkpoint_manager.cpp:24-60 | a checkpoint of a store that is apart from the log at a key makes every later crash bring the wrong value back there |
| `Scenarios.CheckpointCanSaveAWrongValue` | src/core/checkpoint_manager.cpp:24-60 | a run from the empty server in which that happens |
| `Serializability.ReadsRepeat` | src/core/transaction_manager.cpp:172-241 | a REPEATABLE_READ transaction at work gets the same answer twice for a key it did not write in between |
| `Serializability.CommittedReadsRepeat` | src/core/transaction_manager.cpp:172-241 | the same for every committed REPEATABLE_READ transaction |
| `Serializability.NoDirtyReads` | src/core/transaction_manager.cpp:196-240 | at either level and in any mix, a GET returns its own latest write, or a value written by a transaction whose COMMIT LSN is at most the flushed mark, or nothing for a key never written |
| `Runs.InvStep` | src/core/transaction_manager.cpp:20-241 | every action of every session, the flusher and the checkpoint keeps the joint invariant of locks, log, data, reads and snapshot |
| `Runs.InvAlways` | src/core/transaction_manager.cpp:20-241 | the joint invariant holds after every run |
| `EngineData.WriterExcludes` | src/core/lock_manager.cpp:57-65 | an unleaked key in one transaction's buffer is in no other buffer, has been read by no other REPEATABLE_READ transaction in progress, and is locked by nobody else |
| `EngineData.StoreReadIsSerial` | src/core/transaction_manager.cpp:223-231 | a GET that goes to the store finds the serial value there, although other commits may be half applied |
| `EngineData.CommitOverlays` | src/core/transaction_manager.cpp:58-73 | logging COMMIT lays the transaction's buffer over the meaning of the log, key by key |
| `Engine.MoveIsLocal` | src/core/transaction_manager.cpp:20-120 | a session's step leaves every other transaction alone |
| `Serial.BufferedCommitMeansTrace` | src/core/transaction_manager.cpp:305-315 | writing out the last write per key, in any order of the keys, gives the store of applying every PUT and DELETE in issue order |
| `Serial.BufferMeansTrace` | src/core/transaction_manager.cpp:196-240 | reading through the buffer is reading after the transaction's own commands have run |
| `Kv.ApplyBuffer` | src/core/transaction_manager.cpp:300-318 | applying a buffer in any key order overlays it on the store |
| `KeyOrder.Sorted` | src/core/transaction_manager.cpp:58-60 | the iteration order of the buffer: every key once, ascending byte by byte |
| `CrashRecovery.CrashIsAtomic` | src/core/recovery_manager.cpp:93-256 | after every run and for every record prefix a crash may leave, recovery gives the serial result of exactly the transactions whose COMMIT survived in the log or is covered by the snapshot, never part of one: at a key if and only if the snapshot was right there or a surviving later commit wrote it; at every key if there is no snapshot or nothing had leaked when it was drafted |
| `ReferenceRuns.CrashMatchesReference` | chaos_tests/reference_model.cpp:34-70 | the reference model computes that serial result from the records of the whole log that survived or are covered, whatever order its hash map lists transactions in, checkpoints or not; recovery agrees with it at exactly the same keys |
| `ReferenceRuns.BeginAlways` | src/core/transaction_manager.cpp:32-42 | in every run a transaction's BEGIN precedes all its other records, and every log starts with a BEGIN |
| `Disk.RecoveryFromBytes` | src/core/recovery_manager.cpp:93-256 | for every run, the bytes of its two files, and every byte at which a crash may cut the log: `n` is exactly the number of records complete before the cut, and recovery gives the serial result of exactly the transactions whose COMMIT is among them or covered by the snapshot |
| `Disk.RecoveryFromFile` | src/core/recovery_manager.cpp:93-256 | the same for a file that ends with a whole record |
| `Disk.DiskBounds` | src/core/checkpoint_manager.cpp:188-208 | what truncation has dropped is always covered by a sync, so the cuts considered exist |
| `FileFaults.SwappedFilesIff` | src/server/server.cpp:38 | with the two paths exchanged and no checkpoint taken: in every run and for every cut of the log, unless its first checksum is the magic number, recovery comes out right exactly if there was nothing to recover |
| `FileFaults.HeaderOfLog` | src/core/recovery_manager.cpp:52-61 | a log passes for a snapshot exactly if it has 24 bytes and its first checksum is the magic number |
| `FileFaults.SwappedFilesLoseACommit` | src/server/server.cpp:38 | a run, with the real checksum, in which a synced and acknowledged commit is gone after a restart with the exchanged paths |
| `CrashRecovery.CheckpointPreservesRecovery` | src/core/checkpoint_manager.cpp:24-68 | at every crash point of a checkpoint, after any later commits and however far the log is truncated, recovery gives, outside the keys leaked when that snapshot was drafted, the serial result of what snapshot and log reach together; old snapshot, new snapshot and truncated log agree once the surviving log reaches the new snapshot |
| `CrashRecovery.RenameChangesIff` | src/core/checkpoint_manager.cpp:57-60 | the rename changes which transactions come back exactly if a COMMIT lies beyond the surviving log and at or below the new snapshot; then more come back |
| `Scenarios.SnapshotCanOutrunLog` | src/core/checkpoint_manager.cpp:35-60 | a run with a checkpoint in the middle of a flush in which that happens |
| `EngineCheckpoint.DraftKeeps` | src/server/server.cpp:204-222 | with no active transaction, the store and the flushed mark fit together as a snapshot |
| `EngineCheckpoint.CheckpointInvStep` | src/core/checkpoint_manager.cpp:24-68 | every action keeps the data file and a drafted snapshot equal, outside the keys leaked before they were drafted, to the meaning of the log up to their LSN, cleanly between transactions |
| `LogFacts.SnapshotStandsForPrefix` | src/core/recovery_manager.cpp:200-204 | recovery from any snapshot and any part of the log reaching back to its LSN gives at a key the meaning of the whole log if and only if the snapshot shows there the meaning of the log below it or the log above it overwrites the key |
| `LogFacts.FoldRewrites` | src/core/recovery_manager.cpp:221-256 | replay leaves a key as it was, or overwrites it whatever was there: the second exactly if a transaction with a COMMIT in the log wrote it before |
| `LogFacts.FoldSplit` | src/core/checkpoint_manager.cpp:188-191 | a cut that no committed transaction straddles splits the meaning of a log in two |
| `LogFacts.AboveSuffix` | src/core/checkpoint_manager.cpp:188-191 | filtering a numbered log by LSN, however much of it is already gone, leaves exactly the later suffix |
| `LogFacts.AboveTwice` | src/core/recovery_manager.cpp:200-204 | filtering at truncation and again at recovery is filtering once |
| `Durability.LogIsNumbered` | src/core/wal_manager.cpp:43-132 | in every reachable state written, in-hand and buffered records carry LSNs 1, 2, ... in order, and the flushed mark is the last one written |
| `Durability.AcknowledgedIsWritten` | src/core/group_commit.cpp:64-70 | waitForCommit returns only after every record up to the COMMIT was handed to the log stream |
| `Durability.CommitIsSafeIff` | src/core/wal_manager.cpp:114-132 | in every run a commit comes back after every crash possible now exactly if at some point a sync followed the flush of the stream behind its record, or a snapshot covering it was renamed into place |
| `Durability.AcknowledgedSurvives` | src/core/group_commit.cpp:42-70 | with flushing atomic for those who wait, every acknowledged commit is recovered after every crash |
| `Durability.ExactlyAcknowledgedIff` | src/core/group_commit.cpp:42-70 | recovery brings back exactly the acknowledged transactions if and only if the disk reaches every acknowledged COMMIT and none that somebody still waits for |
| `Durability.ExactlyAcknowledgedWhenAtomic` | src/core/group_commit.cpp:42-70 | with flushing atomic for those who wait: if and only if nobody waits for a COMMIT that the disk already reaches |
| `Durability.AcknowledgedOrAwaited` | src/core/transaction_manager.cpp:70-81 | in every run each logged commit is acknowledged or still awaited, never both |
| `Durability.UnlockKeepsWritesIff` | src/core/transaction_manager.cpp:201-215 | the release after a READ_COMMITTED GET keeps the write locks exactly if the key was not written by the transaction |
| `Scenarios.AcknowledgedCommitCanBeLost` | src/core/wal_manager.cpp:119-131 | a run in which an acknowledged commit is lost in a crash before the sync |
| `Scenarios.UnacknowledgedCommitCanSurvive` | src/core/group_commit.cpp:42-61 | a run in which a commit that was never acknowledged comes back after every crash |
| `Scenarios.ReadingBackBreaksAgreement` | src/core/transaction_manager.cpp:201-215 | a run from the empty server in which that happens |
| `Scenarios.TimeoutCanStrandAReader` | src/core/lock_manager.cpp:96-104 | a run in which a timeout leaves a compatible reader at the front of the queue unserved |
| `LockOrder.LockTableStaysWellFormed` | src/core/lock_manager.cpp:20-168 | after every run each entry has a holder and a mode, EXCLUSIVE has one holder, a waiter is no holder or a SHARED holder asking for EXCLUSIVE, and every holder and waiter is a transaction in progress |
| `LockOrder.WaitsForSomebody` | src/core/lock_manager.cpp:20-80 | in every run acquireLock returns at once if and only if nothing stands in the way, upgrades included, and whoever waits, waits for another transaction in progress: a session on its own never waits |
| `LockOrder.NothingRemains` | src/core/transaction_manager.cpp:83-117 | after commit or abort no key is held or awaited by the transaction |
| `LockOrder.FailedAcquireLeavesNoRequest` | src/core/lock_manager.cpp:96-104 | a timed-out acquire leaves no request anywhere and takes no lock away |
| `LockOrder.EntryOutlivesWait` | src/core/lock_manager.cpp:79-106 | the entry a sleeping acquireLock refers to exists in every state of the wait and in the state after it ends |
| `LockOrder.NoOvertaking` | src/core/lock_manager.cpp:57-107 | over every run, nobody who came to a key after a request that is still queued holds the key, also across timeouts from the middle of the queue |
| `LockOrder.DeadlockEndsOnlyByTimeout` | src/core/lock_manager.cpp:82-106 | over every continuation of every run, transactions that wait for each other in a circle stay asleep exactly as long as none of them times out |
| `LockOrder.DeadlockStepIff` | src/core/lock_manager.cpp:82-106 | one action ends a deadlock exactly if it is the timeout of a member |
| `LockOrder.UpgradeIsDeadlock` | src/core/lock_manager.cpp:31-55 | a queued upgrade is a deadlock of one |
| `Scenarios.TwoCanDeadlock` | src/core/lock_manager.cpp:67-84 | a run that reaches a deadlock of two writers |
| `LockOrder.UpgradeEndsOnlyByTimeout` | src/core/lock_manager.cpp:31-55 | every action but its own timeout leaves an upgrade queued, the key SHARED, and nobody added to the holders |
| `LockOrder.FrontStaysBlockedIff` | src/core/lock_manager.cpp:185-212 | throughout a run the front of every queue is incompatible with the current mode exactly if no timeout in it uncovers a SHARED request on a SHARED key |
| `LockOrder.TimeOutFrontIff` | src/core/lock_manager.cpp:96-104 | a timeout keeps that property exactly if it does not uncover a SHARED request on a SHARED key |
| `LockTable.DrainExact` | src/core/lock_manager.cpp:185-212 | from an entry without holders processWaiters grants exactly one leading writer or the maximal leading block of readers and keeps the rest in order |
| `LockTable.AskKeepsEntry` | src/core/lock_manager.cpp:31-79 | a request keeps its entry well formed |
| `LockTable.AskEffect` | src/core/lock_manager.cpp:31-79 | a granted request holds at least what was asked, nobody loses anything, and with others queued only re-entry is granted |
| `LockTable.AskGrantsIff` | src/core/lock_manager.cpp:31-79 | a request is granted at once if and only if the asker holds as much already, or nobody waits and every other holder is a reader like the asker; it gets the stronger of the two modes and no more; and one that waits has somebody to wait for |
| `LockTable.ExclusiveIsAlone` | src/core/lock_manager.cpp:57-65 | a key held EXCLUSIVE has no second holder |
| `LockFacts.DropExact` | src/core/lock_manager.cpp:128-139 | the exact entry after one holder leaves |
| `LockFacts.DropEffect` | src/core/lock_manager.cpp:128-139 | the leaver is gone, other holders keep what they have, and served waiters get their full mode |
| `LockFacts.RequestOrderly` | src/core/lock_manager.cpp:20-79 | a request takes nothing from others and lets nobody else in |
| `LockFacts.ReleaseOrderly` | src/core/lock_manager.cpp:148-168 | a release keeps the table well formed, serves or keeps every other waiter, and lets in no stranger |
| `LockFacts.ReleaseAllOrderly` | src/core/lock_manager.cpp:110-146 | the same for all keys at once, and nothing of the transaction is left |
| `LockFacts.GiveUpOrderly` | src/core/lock_manager.cpp:96-104 | a timeout removes the request and changes no hold |
| `LockManager.LockManager.RequestLock` | src/core/lock_manager.cpp:20-80 | the branches of acquireLock up to its return or wait, in place, give the specified table and verdict, and the verdict is a grant exactly if nothing stands in the way |
| `LockManager.LockManager.FinishWait` | src/core/lock_manager.cpp:82-106 | the end of the wait: granted and unchanged, or timed out and off the queue |
| `LockManager.LockManager.ProcessWaiters` | src/core/lock_manager.cpp:185-212 | the grant loop terminates and drains the entry as specified |
| `LockManager.LockManager.ReleaseLock` | src/core/lock_manager.cpp:148-168 | releasing one key gives the specified table |
| `LockManager.LockManager.ReleaseAllLocks` | src/core/lock_manager.cpp:110-146 | the two loops over held and emptied keys release everything at once, in any order |
| `LockManager.LockManager.HasLock` | src/core/lock_manager.cpp:170-183 | NoLock for everybody but the holders; EXCLUSIVE means that nobody else holds the key, SHARED that nobody holds it EXCLUSIVE |
| `Crc.BitStepXor` | src/core/wal_manager.cpp:191-197 | the bit step is linear in xor |
| `Crc.BitStepInjective` | src/core/wal_manager.cpp:191-197 | the bit step loses no information |
| `Crc.ByteLoop` | src/core/wal_manager.cpp:191-197 | the inner loop is eight bit steps |
| `Crc.ComputeCrc` | src/core/wal_manager.cpp:183-201 | the two loops compute the checksum function |
| `Crc.CrcIsTableCrc` | src/core/wal_manager.cpp:183-201 | the checksum of every string is that of the table-driven loop in section 8 of RFC 1952 |
| `Crc.BurstChangesCrc` | src/core/recovery_manager.cpp:260-272 | any change confined to four adjacent bytes changes the checksum |
| `RecordCrc.DamageRejected` | src/core/recovery_manager.cpp:166-198 | a damaged body with the same type and length fields is rejected whenever the checksum differs |
| `RecordCrc.BurstStopsReading` | src/core/recovery_manager.cpp:114-198 | if at most four adjacent body bytes of one record change, its type and length fields aside, exactly the records before it are read |
| `Codec.ReadRecordThere` | src/core/recovery_manager.cpp:114-198 | a serialized record is read back intact whatever follows it |
| `Codec.ReadRecordBack` | src/core/recovery_manager.cpp:114-198 | the parser accepts nothing but a serialized record |
| `Codec.ParseTornLog` | src/core/recovery_manager.cpp:114-198 | records followed by any strict prefix of one more parse to exactly the complete ones |
| `Codec.ParseCutLog` | src/core/recovery_manager.cpp:114-198 | a log cut at any byte parses to exactly the records that end at or before the cut |
| `Codec.RoundTripIff` | src/core/wal_manager.cpp:33-39 | a record comes back from its bytes exactly if its numbers and lengths fit their fields |
| `Codec.TypeByte` | src/core/wal_manager.h:14-21 | the seventeenth byte of a record is 1, 2, 3, 4 or 5 for BEGIN, PUT, DELETE, COMMIT or ABORT |
| `Codec.RecordLayout` | src/core/wal_manager.cpp:136-179 | every record, field by field: checksum over the rest, LSN, transaction id, and behind the type the key and the value with their lengths, each at its place and lowest byte first |
| `Literals.LogIsWritten` | src/core/wal_manager.cpp:136-179 | the records of BEGIN, PUT a 1, COMMIT on a new server, as literal bytes with the real checksums |
| `Literals.LogIsRecovered` | src/core/recovery_manager.cpp:93-256 | exactly those literal bytes, found as the log file, recover to the store in which a is 1 |
| `Framing.ParseTorn` | src/core/recovery_manager.cpp:114-164 | the same for every format that finds its frames and accepts no others |
| `Framing.ParseCut` | src/core/recovery_manager.cpp:114-164 | the same for every format that finds its frames and accepts no others |
| `LittleEndian.DecodeEncode` | src/core/recovery_manager.cpp:19-33 | reading little-endian bytes undoes writing them for every number that fits |
| `LittleEndian.EncodeAt` | src/core/wal_manager.cpp:136-179 | byte `i` of a number is its multiple of 256 to the power `i`: lowest byte first |
| `Recovery.SortSorts` | src/core/recovery_manager.cpp:231-235 | the commit order is a permutation in ascending LSN order |
| `Recovery.ReplayIsFold` | src/core/recovery_manager.cpp:206-252 | grouping by transaction and replaying in commit order is the serial meaning of the log |
| `Recovery.RecoveredIsFold` | src/core/recovery_manager.cpp:200-252 | with skipping and sorting, recovery is the serial meaning of the records above the checkpoint |
| `Recovery.ScanCommitted` | src/core/recovery_manager.cpp:216-225 | a transaction counts as committed exactly if its COMMIT is in the log |
| `RecoveryManager.RecoveryManager.LoadSnapshot` | src/core/recovery_manager.cpp:37-89 | missing, invalid and cut-short files included, the store and the LSN after loading |
| `RecoveryManager.RecoveryManager.ScanLog` | src/core/recovery_manager.cpp:111-226 | the read loop groups exactly the accepted records above the checkpoint |
| `RecoveryManager.RecoveryManager.ReplayAll` | src/core/recovery_manager.cpp:228-252 | the sorted replay loops |
| `RecoveryManager.RecoveryManager.Recover` | src/core/recovery_manager.cpp:93-256 | recover computes the specified store from the two files |
| `Reference.RecoveryMatchesReference` | chaos_tests/reference_model.cpp:34-70 | for every log in which nobody logs after a COMMIT or ABORT, grouped and sorted replay equals replayCommitted with commit order = LSN, for every hash-map order |
| `Reference.OneOrder` | chaos_tests/reference_model.cpp:48-52 | marks with different LSNs can be sorted in only one way |
| `Reference.ReferenceModel.ReplayCommitted` | chaos_tests/reference_model.cpp:34-70 | for some listing of the map, the store is the sorted replay of the committed transactions on an empty store |
| `Reference.ReferenceModel.Judge` | chaos_tests/reference_model.cpp:6-70 | told a log call by call, the object replays to the store that recovery makes of the same log |
| `SnapshotFile.WriteSnapshot` | src/core/checkpoint_manager.cpp:70-106 | the write loop produces the header and every entry in the given order |
| `SnapshotFile.SnapshotRoundTrip` | src/core/recovery_manager.cpp:37-89 | loading what was written gives back exactly the store and the LSN, for every store and every order of its entries |
| `Literals.HeaderStarts` | src/core/checkpoint_manager.cpp:81-90 | the first eight bytes of every data file, as literals |
| `Literals.SnapshotIsWritten` | src/core/checkpoint_manager.cpp:79-106 | the data file of a checkpoint at LSN 3 of the store in which a is 1, as literal bytes |
| `Literals.SnapshotIsLoaded` | src/core/recovery_manager.cpp:37-89 | exactly those literal bytes load as that store and that LSN |
| `SnapshotFile.LoadCutSnapshot` | src/core/recovery_manager.cpp:37-89 | a data file cut short at any byte changes nothing without its whole header, and otherwise loads its LSN and exactly the entries complete before the cut |
| `Truncation.TruncateWal` | src/core/checkpoint_manager.cpp:118-192 | the byte loop as coded keeps what the specified scan keeps |
| `Truncation.TruncationOfPuts` | src/core/checkpoint_manager.cpp:127-192 | on a log of PUT records alone the loop keeps exactly those above the checkpoint |
| `Truncation.TruncationStopsIff` | src/core/checkpoint_manager.cpp:147-171 | at the first record that is not a PUT the loop takes half the next checksum for a length; if the file is shorter it keeps nothing from there on, which is right exactly if the checkpoint covers the rest |
| `Truncation.KeptNothingIff` | src/core/checkpoint_manager.cpp:118-208 | for every file, the loop keeps nothing if and only if no LSN in what it takes for records is above the checkpoint |
| `FileFaults.FirstTruncationIff` | src/core/checkpoint_manager.cpp:118-201 | in every run the first truncation of such a file empties it, which is right exactly if the checkpoint covers everything in it |
| `FileFaults.TruncationLosesACommit` | src/core/checkpoint_manager.cpp:118-201 | a run, with the real checksum, in which the truncation loses a synced and acknowledged commit |
| `WalManager.SerializeRecord` | src/core/wal_manager.cpp:136-179 | the bytes built by the append loops are the serialized record |
| `WalManager.SerializePutsLsnAtFour` | src/core/wal_manager.cpp:123-128 | every record, whatever its key and value, carries its LSN in bytes 4 to 12, which writeToDisk and parseLSN rely on |
| `WalManager.ParseLsn` | src/core/group_commit.h:40-48 | the loop decodes the LSN field and refuses short records |
| `GroupCommit.MaxLsn` | src/core/group_commit.cpp:53-58 | fails exactly on a record too short to hold an LSN; otherwise bounds every LSN of the batch and is one of them |
| `WalManager.WalManager.LogRecord` | src/core/wal_manager.cpp:43-101 | the next LSN is given out once and the bytes are buffered, for every key and value |
| `WalManager.WalManager.FetchAndClearBuffer` | src/core/wal_manager.cpp:105-112 | the whole buffer is handed over and nothing stays |
| `WalManager.WalManager.WriteToDisk` | src/core/wal_manager.cpp:114-132 | the records reach the stream in order, the mark follows each, and the stream is then flushed to the file |
| `WalManager.WalManager.UpdateFlushedLsn` | src/core/wal_manager.cpp:221-226 | the mark is afterwards the larger of the two, so it never falls |
| `WalManager.WalManager.Fsync` | src/core/wal_manager.cpp:205-213 | whoever calls it and whatever the flusher is doing, what the stream has passed on is covered |
| `GroupCommit.GroupCommitManager.Step` | src/core/group_commit.cpp:42-62 | one step of the flusher is one action of the engine, and file and stream go on holding the written records |
| `GroupCommit.GroupCommitManager.FlushOnce` | src/core/group_commit.cpp:42-62 | run to its end, all that was buffered is written and synced and the log as a whole is unchanged |
| `GroupCommit.StepProgress` | src/core/group_commit.cpp:32-62 | while somebody waits for an LSN, every step of the flusher brings the next record closer to the file |
| `Sessions.TransactionManager.Begin` | src/core/transaction_manager.cpp:20-45 | a new id, the level asked for, an empty buffer and a BEGIN record behind the log, or a refusal that changes nothing |
| `Sessions.TransactionManager.Modify` | src/core/transaction_manager.cpp:122-170 | put and delete_key: exactly the client's write is buffered, and exactly if the lock was granted at once |
| `Sessions.TransactionManager.ResumeModify` | src/core/transaction_manager.cpp:133-144 | after the wait: exactly the client's write is buffered if the lock was granted; otherwise the transaction is aborted, with ABORT logged and no lock or request left |
| `Sessions.TransactionManager.ReadUnderLock` | src/core/transaction_manager.cpp:194-240 | the reply is the buffered value, or not-found for a buffered delete, or else the value in the store, or not-found; READ_COMMITTED gives the lock back and REPEATABLE_READ keeps it |
| `Sessions.TransactionManager.Get` | src/core/transaction_manager.cpp:172-241 | that reply, the wait or the refusal, with the lock table and the held locks each leaves |
| `Sessions.TransactionManager.ResumeGet` | src/core/transaction_manager.cpp:187-241 | after the wait: that reply, or an abort that ends the session's transaction, exactly if the request is still queued |
| `Sessions.TransactionManager.Abort` | src/core/transaction_manager.cpp:96-120 | ABORT is logged behind the log, the buffer dropped, every lock released and the session ended; a refusal outside a transaction |
| `Sessions.TransactionManager.ApplyPendingBuffer` | src/core/transaction_manager.cpp:300-318 | the loop applies the buffer in key order and empties it |
| `Sessions.TransactionManager.LogAll` | src/core/transaction_manager.cpp:56-74 | the loop logs the writes in order and then COMMIT |
| `Sessions.TransactionManager.Commit` | src/core/transaction_manager.cpp:47-94 | whatever the flusher is doing: one record for each buffered write in key order and COMMIT behind them, written before the store shows exactly the buffer over what was there and no lock or request is left; the whole is a run of the engine, and the history gains exactly this transaction with all that its client did and saw; or a refusal that changes nothing |
| `SessionSteps.CommitMeans` | src/core/transaction_manager.cpp:56-86 | what the commit specification amounts to, key by key in the store and record by record in the log |
| `Sessions.TransactionManager.RunBegin` | src/core/transaction_manager.cpp:20-45 | if the objects show the state after a run of the engine, on return they show the state after a longer run, other sessions untouched; with OK the session is active at the level asked for, in the objects and in the run, with an id new to it, nothing buffered and BEGIN logged last |
| `Sessions.TransactionManager.RunModify` | src/core/transaction_manager.cpp:122-170 | the same for put and delete_key: OK exactly if nothing stands in the way of the lock, and then the client's own write is in the buffer and in its trace in the run and the key is held EXCLUSIVE; otherwise the request is queued and nothing buffered |
| `Sessions.TransactionManager.RunResumeModify` | src/core/transaction_manager.cpp:133-144 | the same from the end of the wait: the write and the lock, or an ended transaction with ABORT logged and nothing held or awaited; the lock entry is there because the invariant says so |
| `Sessions.TransactionManager.RunGet` | src/core/transaction_manager.cpp:172-241 | the same for get: the value in the reply, or its absence, is what buffer and store have and what the client's trace in the run gains; it waits exactly if something stands in the way; afterwards a lock is left at REPEATABLE_READ and none at READ_COMMITTED |
| `Sessions.TransactionManager.RunResumeGet` | src/core/transaction_manager.cpp:187-241 | the same for get from the end of the wait, answered, or ended with ABORT logged and nothing held or awaited |
| `Sessions.TransactionManager.RunAbort` | src/core/transaction_manager.cpp:96-120 | the same for abort: the session is inactive, its transaction gone from the run, nothing held or awaited, and ABORT is the last record of the log; or the refusal |
| `Replies.RepliesRepeat` | src/core/transaction_manager.cpp:172-241 | a client of the session objects that GETs a key twice in one REPEATABLE_READ transaction without having written it gets the same reply twice, with or without waits, whatever all sessions do in between |
| `Replies.ReplyIsSerial` | src/core/transaction_manager.cpp:172-241 | a reply to a REPEATABLE_READ session object that later commits is the value, or the absence, that the key has after running serially all transactions that committed before it and its own commands up to the GET |
| `Replies.CommitIsSerial` | src/core/transaction_manager.cpp:47-94 | at the commit of a REPEATABLE_READ session object, all that its client did and saw is what the serial run shows it, and its commit takes the meaning of the log one serial transaction further |
| `Clients.WriteTxn` | chaos_tests/scenario_isolation.cpp:71-73 | on objects that any run has led to, with nobody else in a transaction: BEGIN, PUT or DELETE, GET, COMMIT always succeeds, the GET returns the value just put, or not-found after a delete, and the store then has exactly that one change |
| `Clients.ReadTxn` | src/core/transaction_manager.cpp:172-241 | BEGIN, GET, COMMIT returns what the store has and changes nothing in it |
| `Clients.AbortTxn` | src/core/transaction_manager.cpp:96-120 | BEGIN, PUT or DELETE, ABORT leaves the store as it was and the lock table empty |
| `SessionSteps.OthersStay` | src/core/transaction_manager.cpp:20-241 | what one session does leaves every other session, resting or asleep, where it is |
| `Sessions.FileRecovers` | src/core/recovery_manager.cpp:93-256 | whatever calls led here, the bytes in the log file object recover to the serial result of exactly the transactions whose COMMIT has reached the file or is covered by the snapshot, at exactly the keys named for crash atomicity |
| `GroupCommit.GroupCommitManager.WaitForCommit` | src/core/group_commit.cpp:64-70 | from wherever the flusher is, the wait ends with the mark at or above the LSN, and is a run of the engine in which nothing but the log moves |
| `RunSteps.IdsAreGivenOnce` | src/server/server.cpp:174-177 | in every run a new id is unknown to the log and to every session, and no later transaction gets it |
| `Sessions.Server.HasActiveTransactions` | src/server/server.cpp:179-192 | true exactly if some session is in a transaction |
| `Sessions.Server.HandleCheckpoint` | src/server/server.cpp:204-222 | succeeds exactly if no transaction is in progress, whatever the flusher is doing, and is then the checkpoint of the engine; objects that showed a run show one afterwards if and only if the truncation loop finds in the log file no LSN above the checkpoint's; otherwise touches nothing |
| `Sessions.CheckpointManager.CreateCheckpoint` | src/core/checkpoint_manager.cpp:24-68 | the data file is a snapshot of the store at the flushed mark, and the log file is what the truncation loop keeps |
| `Sessions.FirstCheckpointShows` | src/core/checkpoint_manager.cpp:118-208 | the first checkpoint of a server meets that condition unless the checksum of the second record passes for a length that the file can hold |
| `Sessions.CheckpointManager.ListEntries` | src/core/checkpoint_manager.cpp:79-84 | every entry of the store and no other |

## Left out

- Sockets, accept loop, command parser, response texts, statistics and lock-table dumps: input and output only.
- Real time, sleep intervals and liveness: a timeout is a step that any waiter may take at any moment.
- A wait-for graph: no such detector is in the code.
- Restarts within one history: the LSN and transaction counters start again at 1 and nothing restores them.
- The data races of the unsynchronised C++ map: each store call is one atomic map update.
- Operating-system behaviour of fsync and rename beyond the crash points named: a rename is atomic, the truncated log replaces the file in one step, a sync covers everything passed on to the file.
- File-open failures and missing managers (null pointers): every manager and file is there.
- EngineCheckpoint.DraftKeeps: the activity guard, the flushed mark and the store are read in one step, and one checkpoint runs at a time, because the guard alone does not keep a transaction from beginning before the store is read.
- Engine.Truncate: drops exactly the records at or below the checkpoint LSN that have reached the file; the byte loop as coded is `Truncation.TruncateWal`, and `Sessions.Server.HandleCheckpoint` says when the two agree.
- Truncation.TruncationStopsIff: a file long enough for a checksum to pass for a length is not decided, because what the loop then reads depends on the data; what holds of every file is `Truncation.KeptNothingIff`.
- FileFaults.SwappedFilesIff: for a server that has never taken a checkpoint; with a data file present the outcome depends on its bytes read as a log.
- Sessions.Server.HandleCheckpoint: two checkpoints at a time are not modelled.
- Sessions.TransactionManager.Commit: within one call only the flusher moves beside the session; other interleavings are runs of the engine.
- GroupCommit.GroupCommitManager.WaitForCommit: the flusher is driven from the waiting loop in place of its thread; other schedules are runs of the engine.
