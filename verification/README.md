# A verified model of the transactional key-value server

The server keeps a hash table in memory, takes commands from any number of client threads, locks the
stripe of every key a transaction touches until the transaction ends, and writes a redo/undo log with
compensation records. A background thread takes checkpoints: a CHECK record in the log, a snapshot of
the table, and a file that holds the LSN of the last published CHECK record. After a crash the server
appends compensations for the unfinished transactions that this record lists, loads the snapshot, and
redoes the rest of the log.

The project models this in three layers and connects them.

* **Functions and lemmas about the log.** `LogProtocol` says which records may follow which log and
  defines `Committed`, the table that the committed transactions alone have built; it is the reference
  for everything else. `RecoverySpec` is recovery as a function on logs. `Coherence`, `Chains`,
  `RecoveryProof` and `RecoveryTheorems` prove what recovery does to every valid log when the CHECK
  record lists running transactions, `RecoveryLinks` which record each record that it writes links to,
  `UncleanCheckpoint` and `UncleanRecovery` what it does when the
  record also lists some that had logged COMMIT or ABORT, and `IntendedRecovery` what the documented
  recovery would do.
* **The server as a state machine.** `Protocol` has a step for each stretch of code that touches a
  stripe, the log or the transaction list at once: begin, get, set, del, commit, abort, one rollback
  record, one lock release, checkpoint, snapshot, publication, crash, a recovery that is itself cut
  short, restart. `ProtocolInvariant`, `ProtocolProof` and `ProtocolSteps` prove the invariant for
  every run, `ProtocolTheorems` draws the conclusions, `PlainValues` those about the values in
  snapshots, `Publication` follows a checkpoint until it is published, and `Requests` each request of a
  client through its branch.
* **The program's loops and objects.** `KvHash` (nodes, `next` links, the relinking resize),
  `LockManager`, `LogCodec` and `LogFile` (the log as text), `Snapshot`, `SnapshotFiles`, `KvRecovery`,
  `KvTransaction`, `TxManager`, `Framing` and `KvCommand` are classes, arrays and loops in the form of
  the C files. `Session` and `ServerStart` prove that the command branches, the rollback loop and the
  start of the server, run on the text of the log and on the heap of the hash table, take the steps of
  the protocol. `ServerStart.StartAfterCrash` is the end-to-end result.

In `Info(b, log, t)` and elsewhere `b` is the length that the log had when the server last started.
The thread identity 0 and the transaction id 0 stand for nobody. An absent value is the empty string,
as in the log.

What the code does not do, although its documentation says so, is stated as results.

* Recovery undoes only the transactions that the CHECK record lists, while README.md:82 speaks of all
  unfinished ones. For a CHECK record that lists running transactions, `RecoveryTheorems.RecoveredTable`
  gives the exact table, `RecoveryIsExactIff` the exact condition and `LoserSurvivesExample` an instance.
  Over runs, a transaction is missed if and only if it began after the published CHECK record
  (`ProtocolTheorems.MissedIffLaterAt`). `IntendedRecovery` proves the documented behaviour, over any
  number of crashes, for an analysis that also reads the BEGINs after the checkpoint.
* A checkpoint may list a transaction that has already logged COMMIT or ABORT, because a transaction
  leaves the list only later and under another mutex (src/tx_manager.c:139-150,
  src/kv_recovery_snapshot.c:85-101). `UncleanCheckpoint.AnalysisIsRightIff` says exactly when the
  analysis of one entry is right. `UncleanRecovery.RecoveredValue` gives the table that the whole
  recovery rebuilds from any such list, key by key, and `RecoveryIsRightIff` says, by the log at the
  crash, exactly when it is the committed one. It need not go wrong: a later entry may restore the value,
  or the value may be the same. `CommitIsLostIff` says when a commit is lost, `CommitIsLostExample` gives
  an instance, and `ProtocolTheorems.AnyCrash` applies this to every run.
* A change is logged first and made afterwards, and a checkpoint may come in between;
  `RecoveryTheorems.TornCheckpointIff` says exactly when redo from its snapshot then loses the change.
* A two-digit length survives the log only below 16 (`LogCodec.TwoDigitsIff`), a snapshot is reloaded
  exactly when no value has a blank (`Snapshot.SnapshotRoundTripIff`; values that clients set have none,
  `PlainValues.ReachableIsPlain`), and a log of one line restarts the LSN counter at 0
  (`LogFile.RestoreLsn`).

## Model

| member | source | states |
|---|---|---|
| `RecoverySpec.RecoverTxExtends` | src/kv_recovery.c:134-201 | recovering one listed transaction only appends to the log |
| `RecoverySpec.RecoverExtends` | src/kv_recovery.c:127-206 | recovery as a whole is append-only, also when it stops on a missing record |
| `RecoverySpec.RecoverInOrder` | src/kv_recovery.c:134-201 | the listed transactions are recovered one after another in list order, and the first failure ends it all |
| `LogRecord.ReplaySplit` | src/kv_recovery.c:295-339 | redoing a log in two stretches, the second on the result of the first, is redoing it whole |
| `LogProtocol.ValidAppend` | src/kv_command.c:149-323 | a record that the rules for running, aborting and finished transactions allow keeps the log valid |
| `Coherence.StackLocal` | src/transaction.c:97-163 | an undo chain stays good on any table that agrees on the keys it has updated, so commits elsewhere do not disturb it |
| `Coherence.ReplayElsewhere` | src/kv_recovery.c:303-337 | redo leaves every key alone that no UPDATE or CLR names |
| `Coherence.CoherentStep` | src/kv_command.c:216-309 | every allowed record keeps: replay is the committed table overlaid with each unfinished transaction's remaining updates; write sets are disjoint |
| `Coherence.ValidIsCoherent` | src/kv_command.c:216-309 | the same for every valid log |
| `Chains.ValidIsChained` | src/transaction.c:76-166 | in every valid log each unfinished transaction's `prev_lsn` chain visits exactly its not yet undone updates, strictly downwards, and ends at its BEGIN; `undo_next_lsn` after an interruption leads to the same place |
| `Chains.ValidIsBalanced` | src/transaction.c:112-148 | in every valid log the compensations of a transaction undo its newest updates in reverse, one each, and its stack holds the rest |
| `Chains.OneCompensationPerUpdate` | src/kv_recovery.c:174-200 | an aborted and finished transaction has exactly one compensation per update, in reverse order, however often undo was interrupted and resumed |
| `RecoveryProof.AnalyseFollows` | src/kv_recovery.c:142-169 | the scan of the analysis ends with the transaction's true last LSN, abort flag and end flag |
| `RecoveryProof.EntryFollows` | src/kv_recovery.c:137-172 | for a transaction that was running at the checkpoint the analysis is right |
| `RecoveryProof.UndoWalkOk` | src/kv_recovery.c:185-200 | from any point of a rollback the undo loop finds every record it reads, writes allowed records only, and finishes the transaction |
| `RecoveryProof.RecoverTxOk` | src/kv_recovery.c:134-201 | recovering one listed transaction finishes it, unless it was finished, by rollback records that touch no other; for their links see `RecoveryWrites` |
| `RecoveryProof.RecoverAllOk` | src/kv_recovery.c:127-206 | for a list of running transactions (or ones already seen finished), recovery never dereferences a missing record, leaves a valid log, appends rollback records of listed transactions only and finishes all of them |
| `RecoveryProof.RollsBackKeeps` | src/kv_recovery.c:171-201 | rollback records change neither the committed table nor any other transaction |
| `RecoveryLinks.RecoveryLinksNewest` | src/kv_recovery.c:142-200 | every ABORT and CLR that recovery writes links to the newest record of its transaction, also where undo goes on after an interruption, but for the CLR behind recovery's own ABORT, which links where the ABORT does; every END links to a BEGIN |
| `RecoveryLinks.RecoveryWrites` | src/kv_recovery.c:171-200 | for a list of running transactions each record that recovery writes is determined by the log before it: ABORT, the compensation of the newest update left, or END to the BEGIN |
| `RecoveryTheorems.RecoveredTable` | src/kv_recovery.c:127-206 | for such a list, after recovery and redo every key has its committed value, except that keys of unfinished transactions that the list misses keep the value they had |
| `RecoveryTheorems.RecoveryIsExactIff` | src/kv_recovery.c:127-206 | for such a list, the rebuilt table is the committed one if and only if each key of each missed transaction already holds its committed value |
| `RecoveryTheorems.RecoveryIsExact` | src/kv_recovery.c:127-206 | with every unfinished transaction listed: no lost commit, no surviving loser |
| `RecoveryTheorems.LoserSurvivesExample` | src/kv_recovery.c:128-136 | a log in which a transaction begun after the checkpoint survives recovery uncommitted |
| `RecoveryTheorems.OrderIsIrrelevant` | src/kv_recovery.c:134-201 | recovering the listed transactions in another order, or some of them twice, rebuilds the same table |
| `RecoveryTheorems.RecoveryIsIdempotent` | src/kv_recovery.c:142-172 | recovering a recovered log appends nothing |
| `RecoveryTheorems.RecoveryIsRestartable` | src/kv_recovery.c:142-200 | recovery cut short after any prefix of its records and started again rebuilds the same table |
| `RecoveryTheorems.AnyNumberOfCrashes` | src/kv_recovery.c:142-200 | the same for any number of interruptions |
| `RecoveryTheorems.CheckpointIsTransparent` | src/kv_recovery.c:250-339 | redo from the snapshot at any position gives the table that redo from the start gives |
| `RecoveryTheorems.TornCheckpointIff` | src/kv_command.c:221-228 | when the snapshot falls between the log record of a change and the change itself, redo rebuilds the table if and only if a later record writes the key or the change changed nothing |
| `IntendedRecovery.IntendedRecoveryIsExact` | README.md:82 | with the BEGINs after the checkpoint added to the list, recovery yields the committed table, without assuming that the CHECK record lists everybody |
| `IntendedRecovery.IntendedIsRestartable` | README.md:82 | cut short after any prefix of its records and started again it rebuilds the same table |
| `IntendedRecovery.NextCanStart` | README.md:82 | it leaves everything it has analysed finished, so the next crash finds what it needs, from the same checkpoint or a new one |
| `IntendedRecovery.IntendedRunsAreExact` | README.md:82 | over any number of runs, crashes and recoveries, even without a single checkpoint, the recovered table is always the committed one |
| `UncleanCheckpoint.AnalysisIsRightIff` | src/kv_recovery.c:142-172 | the analysis of an accurately listed transaction ends with its true last LSN, abort flag and end flag if and only if it had logged neither COMMIT nor ABORT at the checkpoint |
| `UncleanCheckpoint.BareEntryIff` | src/kv_command.c:149-151 | for an entry listed between its id and its BEGIN, recovery succeeds if and only if the BEGIN was logged before the crash; otherwise it dereferences NULL |
| `UncleanCheckpoint.BareEntryExample` | src/kv_command.c:149-151 | a log on which recovery then dereferences NULL |
| `UncleanCheckpoint.UndoneAt` | src/kv_recovery.c:185-200 | undoing a chain puts each of its keys back to what its oldest update found, over whatever has been written since, and no other key |
| `UncleanCheckpoint.OldestIsBase` | src/kv_recovery.c:185-200 | what it found is the committed value of the time |
| `UncleanCheckpoint.SettledRecordLeads` | src/kv_recovery.c:185-200 | from any record of a transaction that has logged COMMIT or ABORT, the links that the running server writes lead back to its last update or its BEGIN |
| `UncleanCheckpoint.EntryUndoes` | src/kv_recovery.c:134-201 | recovering any accurate entry succeeds and undoes exactly the stack of a running transaction, every update of a settled one, and nothing of one seen finished |
| `UncleanCheckpoint.CommitIsLostExample` | src/kv_recovery.c:142-200 | a log of four records in which recovery deletes a committed insert |
| `UncleanRecovery.RecoveredValue` | src/kv_recovery.c:127-206 | recovery by any accurate list succeeds; each key gets what the last entry that restores it had found, or keeps its value |
| `UncleanRecovery.WholeStack` | src/transaction.c:76-166 | until it aborts a transaction's stack is all its updates, good on the committed table |
| `UncleanRecovery.KeyIsRightIff` | src/kv_recovery.c:127-206 | a key has its committed value after recovery if and only if the last entry that restores it is of an unfinished transaction, or had found the value committed now, or no entry restores it and no unfinished transaction has left another value |
| `UncleanRecovery.RecoveryIsRightIff` | src/kv_recovery.c:127-206 | the rebuilt table is the committed one if and only if this holds of every key of the log at the crash |
| `UncleanRecovery.SettledIsUndone` | src/kv_recovery.c:174-200 | a transaction that had logged COMMIT or ABORT before the checkpoint is undone all the same: each key that no later entry restores goes back to the value committed before |
| `UncleanRecovery.CommitIsLostIff` | src/tx_manager.c:139-150 | at such a key the commit is lost if and only if the value committed before it differs from the one committed at the crash |
| `LogShape.WalkShaped` | src/kv_recovery.c:185-200 | the undo loop writes only records whose `prev` leads back |
| `LogShape.RecoverShaped` | src/kv_recovery.c:127-206 | recovery keeps every `prev` of the whole log, and every LSN in a CHECK record, below the record that holds it |
| `LogShape.OnlineMeetsOffline` | src/transaction.c:76-170 | rolling back online and undoing offline append the same records but for the link of the END, so redo rebuilds the same table from either, on any log |
| `Serial.RunAgrees` | src/kv_command.c:156-300 | operations do to a key what they would do on any table that agrees on this key |
| `Serial.FaithfulAgrees` | src/kv_command.c:156-300 | replies stay those of a lone run when the table changes only on keys the operations do not name |
| `ProtocolSteps.CommitIsRun` | src/kv_command.c:301-311 | what a COMMIT adds to the committed table is what the client's operations do to it |
| `ProtocolSteps.CheckpointListsAll` | src/kv_recovery_snapshot.c:85-90 | the list of a checkpoint names every transaction that the log shows unfinished, with its newest record, nobody twice, and only transactions that the log knows |
| `ProtocolSteps.RedoIsReplay` | src/kv_recovery.c:250-339 | redo from the published snapshot is redo of the whole log |
| `ProtocolSteps.StepKeeps` | src/kv_command.c:123-327 | each step of each thread, of the checkpointer, of recovery and of a restart keeps the invariant: live table = replay of the log, committed table = serial run of the history, locks conserved |
| `ProtocolSteps.ReachableOk` | src/kv_command.c:123-327 | the invariant holds in every state of every run |
| `ProtocolTheorems.Serialisable` | README.md:74 | in every run the replies of committed transactions are those of a serial run in commit order, and with nobody inside a transaction the table is what that run leaves |
| `ProtocolTheorems.NoDirtyRead` | README.md:75 | a read is answered with the committed value overlaid with the reader's own writes |
| `ProtocolTheorems.EndedIsCommitted` | src/transaction.c:97-175 | once END or COMMIT is logged, every key on the transaction's stripes holds its last committed value, whatever other threads did in between |
| `ProtocolTheorems.RollbackStaysInside` | src/transaction.c:97-163 | a rollback step changes no key outside the transaction's stripes and never the committed table |
| `ProtocolTheorems.RollbackProgresses` | src/transaction.c:76-83 | in a reachable state a rollback step finds its record, and the next one is strictly older: the error exit is never taken |
| `ProtocolTheorems.LeavingFreesAll` | src/kv_command.c:237-243 | a transaction that has left owns no stripe, and the extra unlock after a single command changes no lock |
| `ProtocolTheorems.IdsNeverRepeat` | src/tx_manager.c:70-81 | in every run the log is append-only and no two BEGINs carry the same id, across crashes and restarts |
| `ProtocolTheorems.IdsCountUp` | src/tx_manager.c:114-137 | in every run the BEGIN records carry the ids 1, 2, 3 and so on without a gap, across crashes and restarts |
| `ProtocolTheorems.LinksAlwaysLeadDown` | src/transaction.c:76-166 | in every run every `prev_lsn` and `undo_next_lsn` of the whole log, back to the first start, leads strictly down to a record of the same transaction |
| `ProtocolTheorems.RunningLinksNewest` | src/kv_command.c:149-323 | whenever the server is up, every record of the present run links to the newest record of its transaction |
| `ProtocolTheorems.RecoveryLinksInRuns` | src/kv_recovery.c:142-200 | in every state of every run, also after killed recoveries and whatever the CHECK record lists, what recovery writes links as `RecoveryLinksNewest` says |
| `ProtocolTheorems.PublishedSnapshotIsComplete` | src/kv_recovery_snapshot.c:115-148 | the last-LSN file names a CHECK record whose snapshot is complete and equals the replay of the log up to it; in the present run its list has every transaction then unfinished, each listed one with its newest record |
| `ProtocolTheorems.MissedIffLaterAt` | src/kv_recovery.c:127-136 | at a crash an unfinished transaction is passed by if and only if it began after the published CHECK record |
| `ProtocolTheorems.RestartIsPossible` | src/kv_server.c:63-66 | after a crash any prefix of the records that recovery would write may be left, if the published CHECK record is clean, and the server can be restarted from whatever is left |
| `Publication.PublishingPublishes` | src/kv_recovery_snapshot.c:85-148 | a checkpoint taken when the log had n records and then published is the one that the last-LSN file names, as n + 1, with its list and its snapshot of that moment, across crashes and restarts until the next publication |
| `Publication.CheckpointRuns` | src/kv_recovery_snapshot.c:85-148 | from any reachable state without a child at work a checkpoint can be taken, written and published, and changes nothing else |
| `ProtocolTheorems.CrashRecovery` | src/kv_server.c:63-66 | for every run, crash point and number of killed recoveries, the restarted server holds the committed values, except that keys written by unfinished transactions that began after the published CHECK record keep the value they had |
| `ProtocolTheorems.CrashRecoveryIsExact` | src/kv_server.c:63-66 | when no unfinished transaction began after the published CHECK record, the restarted table is that of the serial run of the committed transactions, and the history goes on |
| `ProtocolTheorems.AnyCrash` | src/kv_recovery.c:127-206 | whatever the published CHECK record of the run lists, clean or not, recovery right after a crash meets no missing record, and a key is right exactly as `KeyIsRightIff` says |
| `ProtocolTheorems.PublishedIsGood` | README.md:82 | every clean checkpoint that the server publishes is one from which the documented recovery is exact |
| `PlainValues.ReachableIsPlain` | src/kv_command.c:52-60 | in every run no value in the log has a blank |
| `PlainValues.SnapshotIsStorable` | src/kv_recovery_snapshot.c:22-46 | when the records of a run fit their lines, every snapshot of it fits its file and is reloaded as written |
| `Utils.ComputeDjb2` | src/utils.c:60-68 | the loop with 64-bit wrap-around and sign-extended characters computes the hash function |
| `Utils.Djb2Examples` | src/utils.c:60-68 | the hashes of the empty key, of "a" and "ab", and of a character above 127 |
| `Utils.DigitRoundTrip` | src/utils.c:70-92 | the two hexadecimal tables are inverses |
| `Locks.LockConserves` | src/lock_rwlock.c:35-66 | taking a stripe keeps: each stripe's count is the number of entries on it in its owner's lock list |
| `Locks.UnlockConserves` | src/lock_rwlock.c:68-81 | so does releasing the last entry of a lock list |
| `Locks.GrantedIff` | src/lock_rwlock.c:35-66 | a stripe is granted exactly to its owner, counted once more, or to anyone when nobody has it, counted once; no other stripe changes |
| `Locks.UnlockAllFrees` | src/transaction.c:198-212 | unlocking a whole list frees exactly the stripes its thread owned |
| `Locks.ExtraUnlockIsIdle` | src/kv_command.c:189 | an unlock by a thread that holds nothing changes no lock, whatever the key |
| `LockManager.RwLock.WLock` | src/lock_rwlock.c:52-66 | the lock object: its owner is granted at once with the count one higher, anyone when it is free, nobody else |
| `LockManager.RwLock.RLock` | src/lock_rwlock.c:35-49 | the same for reads, which lock exclusively too |
| `LockManager.RwLock.Unlock` | src/lock_rwlock.c:68-81 | only the owner counts down, and the last one frees the lock |
| `LockManager.LockManager.constructor` | src/lock_manager.c:22-32 | 64 distinct free locks |
| `LockManager.LockManager.WLock` | src/lock_manager.c:59-73 | locks the stripe of the key and no other; granted exactly to its owner or when it is free |
| `LockManager.LockManager.RLock` | src/lock_manager.c:43-57 | likewise for reads |
| `LockManager.LockManager.Unlock` | src/lock_manager.c:75-89 | releases on the stripe of the key and no other |
| `LockManager.LockList.Add` | src/transaction.c:177-196 | appends one entry |
| `LockManager.LockList.UnlockAll` | src/transaction.c:198-212 | the loop from the tail leaves the locks that `Locks.UnlockAll` gives, and an empty list |
| `KvHash.CompareIsEquality` | src/kv_command.c:355-374 | keys compare as equal exactly when they are equal |
| `KvHash.StrCmp` | src/kv_command.c:355-374 | the loop decides this |
| `KvHash.FindInBucket` | src/kv_hash.c:66-73 | finds a node with the key in the chain, or there is none |
| `KvHash.FlatIsAll` | src/kv_hash.c:221-235 | the chains together hold every filed node exactly once |
| `KvHash.TurnRelinks` | src/kv_hash.c:99-114 | one turn of the resize loop moves one node behind those already in its new bucket and keeps every other chain linked |
| `KvHash.ResizeEnds` | src/kv_hash.c:98-119 | when the loop ends every node is in the bucket of its hash modulo the new size, chained once |
| `KvHash.HashTable.constructor` | src/kv_hash.c:24-37 | an empty table of the given size |
| `KvHash.HashTable.GetElem` | src/kv_hash.c:58-74 | the node filed under the key, if any |
| `KvHash.HashTable.Get` | src/kv_hash.c:76-86 | the value that the map has for the key |
| `KvHash.HashTable.MoveBucket` | src/kv_hash.c:99-114 | the inner loop empties one old bucket and terminates |
| `KvHash.HashTable.Resize` | src/kv_hash.c:88-120 | destructive relinking keeps the nodes and the map, with no cycle, loss or copy |
| `KvHash.HashTable.Set` | src/kv_hash.c:122-167 | the map with the key set, through a resize if one is due; answers the old value |
| `KvHash.HashTable.Del` | src/kv_hash.c:169-219 | the map without the key; answers the key and value removed |
| `KvHash.HashTable.Foreach` | src/kv_hash.c:221-235 | visits every pair of the map once |
| `KvHash.HashTable.CountIsSize` | src/kv_hash.c:140-162 | `count` is the number of keys and never exceeds `size` + 1 |
| `LogCodec.Uint32ToHex` | src/kv_recovery.c:31-44 | the mask-and-shift loop writes the eight digits |
| `LogCodec.HexToUint32` | src/kv_recovery.c:46-56 | the shifting loop reads them |
| `LogCodec.Uint32RoundTrip` | src/kv_recovery.c:31-56 | reading gives back every 32-bit word |
| `LogCodec.HexExample` | src/utils.c:70-80 | the digits are capitals, most significant first |
| `LogCodec.TwoDigitsIff` | src/kv_recovery.c:360-385 | a length below 256 survives two digits if and only if it is below 16 |
| `LogCodec.TwoDigitsRead` | src/kv_recovery.c:375-385 | the high digit of a length counts 2 instead of 16 |
| `LogCodec.DataRoundTrip` | src/kv_recovery.c:736-753 | key, old and new value of up to 15 characters are cut out of the line again, whatever characters they hold |
| `LogCodec.EntriesRoundTrip` | src/kv_recovery.c:764-771 | so is the transaction list of a CHECK record |
| `LogCodec.RecordRoundTrip` | src/kv_recovery.c:703-796 | every printable record of every type is read back as it was written |
| `LogCodec.FormatExamples` | src/kv_recovery.c:387-660 | a line of each kind, piece by piece |
| `LogCodec.SizeToTwoDigits` | src/kv_recovery.c:360-373 | the mask-and-shift loop writes the two digits of a length |
| `LogCodec.FormatData` | src/kv_recovery.c:486-518 | three lengths through this loop, then the data they measure, are the data part of the line |
| `LogCodec.FormatDataChange` | src/kv_recovery.c:435-536 | the line filled part by part, with the LSN put in last, is the line of the record |
| `LogCodec.FormatCheck` | src/kv_recovery.c:572-636 | the loop over the list gives the line of the CHECK record |
| `TextFile.LinesOfJoin` | src/kv_recovery.c:690 | a file written line by line is read back line by line through the 128-character buffer |
| `TextFile.LinesAreWhole` | src/kv_recovery.c:690 | whatever a file holds, `fgets` loses nothing and cuts only behind a newline, after 127 characters, or at the end |
| `LogFile.PrintIsLine` | src/kv_recovery.c:517-528 | every printable record is one line |
| `LogFile.FileLines` | src/kv_recovery.c:690-696 | reading the log file gives the records' lines in order |
| `LogFile.FileTextAppend` | src/kv_recovery.c:524-531 | appending the line of a record makes the file of the longer log |
| `LogFile.GetLog` | src/kv_recovery.c:662-801 | the sequential scan returns record `l` if and only if the file has one |
| `LogFile.LastLine` | src/kv_recovery.c:104-115 | the backward scan stops at the start of the last line |
| `LogFile.RestoreLsn` | src/kv_recovery.c:104-125 | the restored counter is the number of records if and only if the file does not hold exactly one; then it is 0 |
| `LogFile.RestoreTxId` | src/tx_manager.c:70-81 | the restored id is the last one issued |
| `Snapshot.WriteSnapshot` | src/kv_recovery_snapshot.c:22-46 | the file holds a line for every pair of the table, each once |
| `Snapshot.SplitLine` | src/kv_recovery.c:265-275 | the scan cuts the line at its last blank |
| `Snapshot.PairRoundTripIff` | src/kv_recovery.c:265-285 | a pair comes back as written if and only if its value has no blank |
| `Snapshot.Load` | src/kv_recovery.c:258-291 | the loading loop fills the table, or stops on a key it has loaded before |
| `Snapshot.SnapshotRoundTripIff` | src/kv_recovery.c:250-293 | reloading a snapshot rebuilds the table, never meeting a key twice, if and only if no value has a blank |
| `SnapshotFiles.SnapshotDisk.Save` | src/kv_recovery_snapshot.c:116-134 | the snapshot goes to the file named by the LSN of its CHECK record |
| `SnapshotFiles.SnapshotDisk.Publish` | src/kv_recovery_snapshot.c:136-148 | the last-LSN file, created if need be, starts with the LSN of the CHECK record |
| `SnapshotFiles.NamesDiffer` | src/kv_recovery_snapshot.c:117-121 | different CHECK records have different snapshot files |
| `SnapshotFiles.PublishedIsRead` | src/kv_recovery.c:89-98 | what was published is read back |
| `SnapshotFiles.SnapshotDisk.LsnToRecover` | src/kv_recovery.c:89-98 | the LSN that recovery reads, -1 without a file or with a short one |
| `SnapshotFiles.SnapshotDisk.HexToRedo` | src/kv_recovery.c:234-247 | the LSN that redo reads, zeros without a file; an empty file makes the program exit |
| `SnapshotFiles.SnapshotDisk.Open` | src/kv_recovery.c:249-257 | the snapshot file of that LSN, if there is one |
| `KvRecovery.LogWriter.constructor` | src/kv_recovery.c:100-125 | opening the log file finds the LSN counter if and only if the file has other than one line; with one line the counter is 0 |
| `KvRecovery.LogWriter.Append` | src/kv_recovery.c:522-533 | one more LSN and one more line keep file, counter and records in step |
| `KvRecovery.LogWriter.UpdateLog` | src/kv_recovery.c:538-541 | appends the UPDATE record to the file |
| `KvRecovery.LogWriter.ClrLog` | src/kv_recovery.c:567-570 | appends the CLR record to the file |
| `KvRecovery.LogWriter.CheckLog` | src/kv_recovery.c:572-636 | appends the CHECK record to the file |
| `KvRecovery.LogWriter.Scan` | src/kv_recovery.c:137-169 | the analysis loop over the file computes the analysis of the entry |
| `KvRecovery.LogWriter.UndoChain` | src/kv_recovery.c:185-200 | the undo loop over the file ends and leaves the log of `UndoWalk` |
| `KvRecovery.LogWriter.RecoverOne` | src/kv_recovery.c:134-201 | one turn over the list leaves the log of `RecoverTx`, whose records `RecoveryLinksNewest` and `RecoveryWrites` determine |
| `KvRecovery.LogWriter.RecoverListed` | src/kv_recovery.c:134-201 | the loop over the list leaves the log of `RecoverAll` |
| `KvRecovery.LogWriter.Recover` | src/kv_recovery.c:127-206 | the whole part after opening leaves the log of `RecoverySpec.Recover`, on the text of the file; with the stale counter of a one-line file it writes nothing |
| `KvRecovery.RedoFrom` | src/kv_recovery.c:295-339 | the redo loop leaves in the hash table what replaying the records gives |
| `KvRecovery.RedoLog` | src/kv_recovery.c:212-341 | snapshot and log tail, read as text, make the table of the replay; the duplicate-key exit is never taken |
| `KvRecovery.RedoDisk` | src/kv_recovery.c:212-341 | redo from the files: reads the last-LSN file, opens the snapshot it names, and never takes an error exit |
| `KvRecovery.StartServer` | src/kv_server.c:63-66 | a fresh table, the last-LSN file read, recovery and redo, together, on any printable log whose `prev` links lead back |
| `KvTransaction.UndoIsRedo` | src/transaction.c:97-163 | the direct table change of each rollback case is what redo makes of its compensation |
| `KvTransaction.UndoTable` | src/transaction.c:97-163 | the three cases on the hash table: restore, nothing, delete |
| `KvTransaction.Transaction.Turn` | src/transaction.c:77-166 | one turn of the rollback loop, and that the rest of the walk is unchanged |
| `KvTransaction.Transaction.Rollback` | src/transaction.c:61-175 | the rollback loop ends, writes the log of `OnlineWalk`, and keeps the table equal to the replay of the log |
| `TxManager.TxManager.constructor` | src/tx_manager.c:55-82 | ids go on where the file ends |
| `TxManager.TxManager.StartNewTransaction` | src/tx_manager.c:114-137 | a new id that the file never held, recorded in file and list |
| `TxManager.TxManager.EndTransaction` | src/tx_manager.c:139-150 | takes exactly this transaction off the list |
| `TxManager.OthersInOrder` | src/tx_manager.c:139-150 | the others keep their order |
| `TxManager.TxManager.OngoingTransactions` | src/tx_manager.c:158-187 | lists every ongoing transaction with its last LSN, in order |
| `ServerStart.ReachableIsShaped` | src/transaction.c:76-166 | in every run every `prev` of the whole log, and every LSN in a CHECK record, is below the record that holds it, so the loops over the file end; and every logged change changes something |
| `ServerStart.RollbackIsOnlineWalk` | src/transaction.c:76-170 | the protocol's rollback steps one after another write what the loop writes, with the table of the redo |
| `ServerStart.RollbackFinishes` | src/transaction.c:76-170 | in a reachable state they run through to the END |
| `ServerStart.Start` | src/kv_server.c:63-66 | the program's loops on the log file, the last-LSN file and the snapshot files of a crashed server end in the log and table of the restart step; only the LSN counter is wrong, exactly when the log file has one line |
| `ServerStart.StartAfterCrash` | src/kv_server.c:63-66 | end to end: after any run, crash and killed recoveries the loops fill the hash table as `CrashRecovery` says, and the log file is that of the restarted server |
| `ServerStart.StartAfterAnyCrash` | src/kv_server.c:63-66 | the same right after any crash for a CHECK record of the run that lists whom it may: each key is filled as `AnyCrash` says |
| `Session.RunBegin` | src/kv_command.c:143-154 | BEGIN on id file, log file, transaction and transaction list is the protocol's step; the new transaction is the last on the list, with the LSN of its BEGIN |
| `Session.RunGet` | src/kv_command.c:170-183 | GET is the protocol's step and answers the table's value; the transaction list stays that of the state |
| `Session.RunSet` | src/kv_command.c:216-229 | SET is the protocol's step: old value looked up, UPDATE logged, table changed, and the transaction on the list with its new last LSN |
| `Session.RunDel` | src/kv_command.c:260-271 | DEL likewise; a missing key is neither logged nor deleted |
| `Session.RunCommit` | src/kv_command.c:304-307 | COMMIT is the protocol's step, on the list too |
| `Session.RunAbort` | src/kv_command.c:315-318 | ABORT and its rollback are the protocol's steps to the END, on the list too, and never fail |
| `Session.TakeStripe` | src/kv_command.c:216-218 | the lock taken before a lookup is the protocol's, on the lock objects and the lock list; granted exactly when the thread itself or nobody has the stripe |
| `Session.RunEnd` | src/tx_manager.c:139-150 | releasing every lock and leaving the list are the protocol's release steps and its leave step; the transaction is off the list and no id is used |
| `Session.RunCheckpoint` | src/kv_recovery_snapshot.c:85-134 | the CHECK record lists the ongoing transactions and the snapshot file is one of the table at that moment |
| `Session.RunFinish` | src/kv_recovery_snapshot.c:115-134 | writing the snapshot file is the protocol's step, and every other snapshot stays in its file |
| `Session.RunPublish` | src/kv_recovery_snapshot.c:136-148 | writing the last-LSN file is the protocol's step |
| `Session.FilesStay` | src/kv_recovery_snapshot.c:110-148 | no other step touches these files |
| `Session.OpenSession` | src/tx_manager.c:55-82 | after a restart no lock is held, nobody is on the list, and the ids go on |
| `Framing.SplitIsComplete` | src/kv_command.c:109-121 | cutting a stream at CR LF loses nothing: commands and leftover make it up again, and the leftover has no CR LF |
| `Framing.SplitIsUnique` | src/kv_command.c:109-121 | there is no other way to cut it |
| `Framing.SplitAcross` | src/kv_client_handler.c:59-66 | commands and leftover do not depend on where a packet ends, even between CR and LF |
| `Framing.FindEnd` | src/kv_command.c:109-121 | the search finds the end of the first command or none |
| `Framing.CommandBuffer.Consume` | src/kv_command.c:329-346 | takes the first command out and moves the rest to the front |
| `Framing.CommandBuffer.Receive` | src/kv_client_handler.c:59-67 | appends a packet and runs every complete command |
| `Framing.HandleClient` | src/kv_client_handler.c:47-82 | however the stream is cut into packets, the commands run and the bytes left in the buffer are those of the whole stream |
| `KvCommand.SpaceCount` | src/kv_command.c:39-50 | counts the blanks |
| `KvCommand.KeyLenOfSet` | src/kv_command.c:102-107 | finds the blank that ends the key |
| `KvCommand.AcceptedSet` | src/kv_command.c:52-60 | an accepted SET has a key, no blank in key or value, and is made up of them: what snapshots need |
| `KvCommand.SetRoundTripIff` | src/kv_command.c:193-207 | a SET is understood as meant if and only if neither key nor value has a blank |
| `KvCommand.GetAndDelRoundTrip` | src/kv_command.c:156-168 | GET and DEL take any key |
| `KvCommand.WordLines` | src/kv_command.c:71-100 | the empty line, `begin`, `commit` and `abort` mean their requests, and no other line does |
| `KvCommand.KeyLines` | src/kv_command.c:30-69 | a line means GET or DEL of a key if and only if it is `get ` or `del ` and the key |
| `KvCommand.SetLines` | src/kv_command.c:52-60 | a line means SET of a key and a value if and only if it is `set `, the key, a blank and the value, neither with a blank |
| `KvCommand.InvalidLines` | src/kv_command.c:324-326 | every other line is invalid |
| `KvCommand.SingleCommandCommits` | src/kv_command.c:156-300 | a command outside a transaction, whose stripe is free, runs through as a transaction of its own and leaves no lock behind; here with no other thread in between, for which see `UntilItsNextStep` |
| `Requests.RequestRuns` | src/kv_command.c:123-327 | every request whose stripe is the client's own or nobody's runs through in steps of its thread and does what its branch should: inside a transaction or outside, BEGIN in an open one and COMMIT or ABORT without one included |
| `Requests.LineRuns` | src/kv_command.c:143-327 | so does every command line but a SET of nothing, with the outcome spelled out for each line: a commit line adds the client's operations to the history, an abort line puts its stripes back, a begin line in a transaction and an invalid line change nothing |
| `Requests.AbortScript` | src/kv_command.c:312-323 | ABORT puts every key on the client's stripes back to its committed value, touches no other key, and frees exactly its stripes |
| `Requests.OthersLeaveAlone` | src/lock_rwlock.c:35-81 | a step of anyone else leaves the transaction of a thread, its stripes and the values on them alone |
| `Requests.UntilItsNextStep` | src/kv_command.c:123-327 | so what one step of a request leaves is what its next step finds, whatever the other threads do in between |
| `Requests.WaitsIff` | src/lock_rwlock.c:35-66 | a working transaction may get, set or delete a key if and only if it has its stripe or nobody has |
| `Requests.NeverWaitsAgain` | src/lock_rwlock.c:39-42 | once a command has taken a stripe, no command of the same transaction waits for it again, whatever the others do |

## Left out

- `ProtocolTheorems.CrashRecovery`: the restart step assumes that the CHECK record in use, if it belongs to the run that crashed, lists running transactions only. The locks do not enforce this; `AnyCrash` says what happens otherwise, for a recovery that is not itself killed.
- `ProtocolTheorems.CrashRecoveryIsExact`: assumes that no unfinished transaction began after the published CHECK record, as the code needs; `CrashRecovery` says what happens otherwise.
- `ServerStart.Start`: assumes printable records (data of at most 15 characters without newline, at most 15 listed transactions, lines of at most 127 characters, so a CHECK record of at most four) and fewer than 2^32 records.
- `KvRecovery.LogWriter.Append`: what a run writes after a start on a one-line file, with LSNs that start at 1 again, is not followed further.
- `Session.TakeStripe`: waiting for the mutex is an answer of false here and the guard of the protocol's step; the command branches are proved from the lookup on.
- `Session.RunSet` and the other branches are methods of their own; that a request goes through its branch from the first step to the last is proved of the protocol's steps (`RequestRuns`, `LineRuns`), not of one method on the objects.
- `LogFile.GetLog`: asked for LSN 0 of an empty file the program reads an uninitialised line; this is not modelled.
- `Framing.HandleClient`: the buffer starts as zeros, which the program forgets to do, packets hold no NUL, and pending data fits 127 characters; longer commands overrun the buffer in the program.
- `KvCommand.Parse`: a SET with an empty key, on which the program searches past the end of the line (src/kv_command.c:105), is excluded. So is a SET with an empty value in the protocol, because the log reads length 0 as absent.
- `RecoverySpec.UndoWalk`: a link that does not lead down, on which the program would not stop, counts as failure; `ReachableIsShaped` shows that there is none.
- `KvHash.Compare`: characters compare as unsigned, which changes the order but not equality.
- Atomicity: a log append with its table write, an id with its place on the list and its BEGIN, and the writing of the last-LSN file are single steps. A child killed between creating and filling the last-LSN file leaves it empty, and `HexToRedo` says what redo then does. COMMIT, each release and leaving the list are separate steps. In the program a checkpoint can come between a record and its write; `TornCheckpointIff` says what is lost then. It takes BEGIN in three steps (src/kv_command.c:149-151): a checkpoint after the first lists the transaction with LSN 0, and `BareEntryIff` says when recovery then dereferences NULL. The forked child that writes a snapshot is discarded by a crash.
- One transaction per thread and unique thread ids; no overflow of LSNs and transaction ids in the protocol.
- Shared read locks of README.md:68-73, which the code does not have; deadlock and liveness: only safety is proved.
- A client that disconnects inside a transaction (src/kv_client_handler.c:52) and the text of replies.
- Files, stdio buffering, fork, sockets, signals, argument parsing and shutdown.
- Memory management, including undersized allocations and the key that is freed before the extra unlock; the extra unlock is modelled for any key.
- The doubly linked list of src/linked_list.c, whose `prev` and `tail` are not kept up; the transaction list is a sequence.
- Data races inside the mutex fast path and the hash index that `kv_ht_del` computes before it locks: table operations are atomic.
