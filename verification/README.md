# CASSA, verified

A Dafny 4.11 model of CASSA's transactional core: the Silo commit and epoch protocol, the group-commit
durability pipeline joined to it, the Masstree index, and the hash-chained log with its recovery.

## What is modelled

**Commit protocol** (`Tid`, `Silo`, `SiloEpoch`, `SiloInv`, `SiloRely`, `SiloLocal`, `SiloLock`,
`SiloCommit`, `SiloOrder`, `SiloTheorems`, `SiloClient`, `SiloReads`, `SiloTids`, `SiloRelease`,
`SiloProgress`, `SiloFinish`, `AbsentBit`, `LockConflict`). Any number of workers and records. Every
access to shared memory is one step: the two TID loads and the body load of a read, each lock, the load
of GlobalEpoch and the store of ThLocalEpoch, each validation load, each body and TID store, each
release, and each load of the leader's scan. The proof is a rely-guarantee invariant in three parts, for
workers, records and the serial order; the serial order lists transactions by the moment they loaded the
epoch with their locks held. `SiloClient` reads off the events of a run, without the protocol's own sets,
what was asked for and returned, and states serializability of that; `SiloTids` says that commit TIDs are
the least possible; `SiloRelease` what a failed transaction leaves behind; `SiloProgress` and
`SiloFinish` what the protocol must let pass, and that it blocks nobody.

**Durability pipeline** (`Pipeline`, `PipeInv`, `PipeWork`, `PipeStep`, `PipeBuffers`, `PipeLogger`,
`PipeTheorems`, `PipeRuns`, `PipeGuards`, `RaiseCtidw`, `Notices`, `NoticeRun`, `NoticeCount`,
`PipeCtidw`, `PipeProgress`, `PipeFinish`, `RingFits`, `LogQueue`, `NidRing`). The protocol state
together with worker buffers and pools, logger queues, files and notification rings, CTIDW, per-logger
and global durable epochs and the epoch file, again one step per shared access: a logger's minimum is
gathered word by word, then the queue's minimum, then the dequeue, while workers go on. `PipeRuns` says
what a worker, the leader or a logger can reach on its own; the exact conditions on the guards are proved
with it, and so is the other half of durability: from every reachable state everything committed can
become durable and be told (`PipeProgress`, `PipeFinish`).

**Recovery** (`LogChain`, `LogArchive`, `Replay`, `Recovery`, `ClientRecovery`, `LogOrder`, `LogFiles`,
`SharedLogger`). The writer's circular and cross-set hash chains, framing, the read-ahead and the checks
of the epoch loop, and the replay. `Recovery.CrashRecovery` joins replay, pipeline and protocol into one
statement, `ClientRecovery.ClientCrashRecovery` puts it in the clients' terms, and
`LogFiles.RecoveryFromFiles` goes through the files as they are written and read.

**Masstree** (`Keys`, `KeyOrder`, `Layer`, `SplitPoint`, `LayerOps`, `LayerLookup`, `LayerRemove`,
`Masstree`, `MasstreeMap` for the tree; `Nibbles`, `Permutation`, `BorderNodes`, `InteriorNodes` for its
nodes). The tree is a value: layers of B+-trees whose entries are values, suffixes or lower layers. The
nodes are also modelled as the source keeps them, arrays and a packed permutation word updated in place,
each method proved against the function the tree uses.

## Where the code and its comments differ

The model follows the stated intent where the code departs from its own comments. Each departure is an
explicit guard or assumption, and where it can be put as a statement about the code it is proved.

- A failed lock ends validation (`Silo.StepLock`). In server/enclave/silo_cc/silo_transaction.cpp:286 the
  status is set and line 375 overwrites it. `LockConflict.AgreeIff` says exactly when that matters, and
  `LockConflict.ConflictLosesUpdate` what happens then.
- The absent bit is set per entry. `AbsentBit.LoopIsRight` says exactly when the loop at lines 409-428
  does that.
- Only first reads are modelled: the local-hit paths at lines 110-132 skip the assignment of the value.
- `Guards.flush`: CTIDW is raised by epochWork only when the current buffer holds nothing older.
  `RaiseCtidw.SafeIffFlushed` says that this is exactly the condition, `PipeGuards.FlushIsNeeded` what is
  lost otherwise.
- `Guards.started`: find_min_epoch skips a zero word. It must not take a minimum after skipping one while it
  had none; skipping one later does no harm, and neither does any with one worker per logger. The
  theorems assume the guard or that no two workers share a logger (`PipeTheorems.Guarded`), and
  `PipeGuards.StartIffNoSharing` says that without it the latter is exactly what is needed.
- The 29-bit TID field does not wrap (`Tid.Room`, with `Tid.CommitVerExceeds`). Epochs are unbounded; the
  word gives them 32 bits.
- A border split stores the slice of a key that goes on. `MasstreeMap.SplitLosesLongKeys` says exactly
  when server/enclave/masstree/masstree_insert.cpp:301 does that.
- The tree's contents are refined, not its status codes; `MasstreeMap.StatusTruth` says exactly what is
  reported and when it is true.
- A logger that serves no worker never finds a minimum, and DurableEpoch then stays 0 for ever
  (`PipeProgress.PassesIffServed`).
- Upper-layer links are not part of the tree value, so a root pulled up in a lower layer counts as
  reachable from above (server/enclave/masstree/masstree_remove.cpp:116-121 does not set its link).
- Recovery takes each set of an epoch once. `LogArchive.BatchAsWritten` says exactly when
  server/enclave/silo_r/silor_log_archive.cpp:44-46 does that, and `Recovery.RepeatedBatchCrashes` what
  happens otherwise.
- Log files are read back exactly if they are in epoch order (`LogOrder.ReadsBackIff`), and they are in
  every run exactly if no two workers share a logger (`SharedLogger.OrderedIffNoSharing`). The server as
  configured has two workers and two loggers, but server/enclave/cassa_common/consts.h:31-33 recommends
  fewer loggers than workers, and then a worker that publishes late loses its records
  (`SharedLogger.SharedLoggerLoses`) and fails an assertion of the notification ring
  (`SharedLogger.AcceptsIffNoSharing`).
- The final check of recovery wants the hash written last, so a set written but not yet durable at the
  crash makes it refuse the file (`LogFiles.AcceptedIffFlushed`).
- check_durable notifies up to its minimum even when its compare-exchange fails. `Notices.BeyondIffBeaten`
  says exactly when a client is then told of an epoch beyond DurableEpoch, and `NoticeRun.TellsTooMuch` is
  a run in which recovery lacks what it was told of.
- The epoch file is written after the compare-exchange and by several loggers, so it may lag behind
  DurableEpoch or be lowered. Recovery is stated for every epoch up to DurableEpoch.

## Model

| member | source | states |
|---|---|---|
| SiloTheorems.Serializable | server/enclave/silo_cc/silo_transaction.cpp:278-429 | In every interleaving, each committed transaction's point reads equal what a plain map holds after the committed transactions that loaded their epoch earlier are run one at a time; a record reserved for an insert is absent from that map |
| SiloTheorems.RecordsAreSerial | server/enclave/silo_cc/silo_transaction.cpp:379-429 | Every unlocked record always shows the outcome of running all committed transactions one at a time in that order |
| SiloTheorems.LateBodyReadIsSafe | server/enclave/silo_cc/silo_transaction.cpp:121-174 | The body is loaded after the second TID check; still, a transaction that passes validation returned the body of exactly the version it recorded, the last committed writer's before it |
| SiloClient.ClientSerializable | server/enclave/silo_cc/silo_transaction.cpp:67-276 | Serializability in the clients' terms, from the events of a run alone: every read of a committed transaction, the body its load found, is what a plain map holds after the operations asked for by the committed transactions that loaded their epoch earlier, one transaction at a time |
| SiloClient.ClientRecords | server/enclave/silo_cc/silo_transaction.cpp:67-276 | Every unlocked record always shows the outcome of the operations that the clients of the committed transactions asked for, in order |
| SiloClient.ReadsAreEvents | server/enclave/silo_cc/silo_transaction.cpp:137-174 | The reads of a transaction are exactly its body loads since it began, each with the record it named, the version loaded last and the body found, and one reservation per insert |
| SiloReads.BodyIsChecked | server/enclave/silo_cc/silo_transaction.cpp:137-174 | Every body load, also of a transaction that aborts later, comes after two TID loads in a row of that record that agree and found it unlocked and present, and the read is recorded with their version |
| SiloClient.OpsAreEvents | server/enclave/silo_cc/silo_transaction.cpp:38-97 | Its operations are exactly the writes, deletes and inserts asked for since it began, each with its kind and value |
| SiloClient.EntryIsAsked | server/enclave/silo_cc/silo_transaction.cpp:331-340 | Every entry of the serial order carries exactly what the worker's events had read and asked for when it loaded the epoch |
| SiloClient.TraceIs | server/enclave/silo_cc/silo_transaction.cpp:38-276 | The read and write sets of every worker and of every entry of the serial order are those its events tell, in every reachable state |
| SiloTheorems.EpochsRespectOrder | server/enclave/silo_cc/silo_transaction.cpp:334-340 | Epochs never decrease along the serial order, and a commit TID lies in the epoch loaded in validation, also for a reader and a later overwriter |
| SiloTheorems.CommitTidsGrow | server/enclave/silo_cc/silo_transaction.cpp:385-402 | A commit TID exceeds every version the transaction read, the worker's earlier commit TIDs and every earlier committed version of a record it writes |
| SiloTids.CommitTidIsLeast | server/enclave/silo_cc/silo_transaction.cpp:379-402 | The commit TID is the least version of the transaction's epoch above every version it read, its worker's earlier TIDs and every earlier committed version of the records it writes, in every run |
| SiloTheorems.EqualTidsAreDisjoint | server/enclave/silo_cc/silo_transaction.cpp:385-402 | Two committed transactions that write a common record never have the same commit TID |
| SiloTheorems.VersionsOnlyRise | server/enclave/silo_cc/silo_transaction.cpp:409-428 | No step lowers a record's version, and one that changes what the record shows raises it |
| SiloTheorems.LockDiscipline | server/enclave/silo_cc/silo_transaction.cpp:278-323 | A lock bit is set exactly while one worker holds the record (or for ever on an abandoned insert), and never two workers hold the same one |
| SiloTheorems.LocksAreReturned | server/enclave/silo_cc/silo_transaction.cpp:286-323 | A worker outside a transaction holds nothing; after a failed lock or validation only its inserts are left to drop; a finished write phase holds nothing |
| SiloRelease.FailedGivesBack | server/enclave/silo_cc/silo_transaction.cpp:301-323 | Every record that a failed transaction locked is put back in between exactly as it was found, lock clear, version, absent bit and body; if it is locked afterwards another worker holds it |
| SiloRelease.OrphansAreUnwritten | server/enclave/silo_cc/silo_transaction.cpp:14-25 | A record that stays locked for ever was not there at the start and no committed transaction ever wrote it: only inserts that never committed leave one |
| SiloProgress.AbortsIff | server/enclave/silo_cc/silo_transaction.cpp:349-368 | A validation test aborts the transaction if and only if the record was overwritten since the read or somebody else holds it |
| SiloProgress.LockFailsIff | server/enclave/silo_cc/silo_transaction.cpp:278-299 | Locking a write-set element fails if and only if somebody else holds the record, and otherwise leaves it with the worker |
| SiloProgress.AloneCommits | server/enclave/silo_cc/silo_transaction.cpp:331-429 | From any reachable state with no other worker in a transaction, any first reads, writes, deletes and inserts of unlocked or new records, run alone, end committed as the last entry of the serial order, having read what the records showed |
| SiloFinish.CanFinish | server/enclave/silo_cc/silo_transaction.cpp:278-442 | No reachable state blocks a worker: by its own steps it comes to rest, whatever the others do, as long as no version in sight is the last of its epoch |
| SiloTheorems.Always | server/enclave/silo_cc/silo_transaction.cpp:278-429 | The three-part invariant of workers, records and serial order holds in every reachable state |
| SiloTheorems.InvKeeps | server/enclave/silo_cc/silo_transaction.cpp:278-429 | Every step of every worker keeps the invariant |
| SiloTheorems.RunSerialAt | server/enclave/silo_cc/silo_transaction.cpp:379-429 | The reference: running the committed prefix one at a time leaves in each key the last committed writer's effect |
| SiloLock.LockKeeps | server/enclave/silo_cc/silo_transaction.cpp:278-299 | Locking one write-set element, or aborting on a locked record, keeps the invariant |
| SiloLock.UnlockKeeps | server/enclave/silo_cc/silo_transaction.cpp:301-323 | Releasing one element of a failed transaction keeps the invariant; what is released is in FailedGivesBack |
| SiloOrder.LoadKeeps | server/enclave/silo_cc/silo_transaction.cpp:337-340 | Entering the serial order at the epoch load, locks held, keeps the invariant |
| SiloOrder.FailKeeps | server/enclave/silo_cc/silo_transaction.cpp:349-368 | A failed validation test keeps the invariant |
| SiloCommit.PassKeeps | server/enclave/silo_cc/silo_transaction.cpp:349-372 | A passed test fixes the read: its value is what the serial order before it gives, and nothing pending can change that |
| SiloOrder.CommitKeeps | server/enclave/silo_cc/silo_transaction.cpp:374-402 | Leaving validation with a commit TID keeps the invariant |
| SiloCommit.InstallKeeps | server/enclave/silo_cc/silo_transaction.cpp:407-428 | Each body store and each TID store of the write phase keeps the invariant |
| SiloEpoch.EpochLag | server/enclave/silo_cc/silo_util.cpp:3-18 | Every worker that has stored an epoch is within one of GlobalEpoch in every reachable state, with load and store as separate steps and a non-atomic leader scan |
| SiloEpoch.EpochKeeps | server/enclave/silo_cc/silo_transaction.cpp:453-472 | Every step keeps the epoch window and what the leader's scan has established |
| Tid.PackedOrder | server/enclave/cassa_common/db_tid.h:5-28 | Packing a TID word loses nothing, and packed words compare by epoch, then TID, then flags |
| Tid.CommitWordStamp | server/enclave/silo_cc/silo_transaction.cpp:385-402 | The choice made on packed words with std::max and a wrapping TID++ is the choice made on (epoch, TID) stamps |
| Tid.CommitVerExceeds | server/enclave/silo_cc/silo_transaction.cpp:388-399 | The commit TID is in the loaded epoch, and exceeds everything observed and the worker's last exactly when the 29-bit field does not wrap |
| Tid.CommitVerIsLeast | server/enclave/silo_cc/silo_transaction.cpp:380-399 | No version of the loaded epoch that exceeds everything observed and the worker's last TID is below the commit TID |
| Tid.CommitVerCanWrap | server/enclave/silo_cc/silo_transaction.cpp:389-393 | A concrete wrap yields a TID below one already given out |
| LockConflict.AgreeIff | server/enclave/silo_cc/silo_transaction.cpp:284-335 | A run as written and the run as intended agree at every step exactly as long as no transaction goes on to validation after a failed lock |
| LockConflict.NoConflictNoLoss | server/enclave/silo_cc/silo_transaction.cpp:331-377 | As written, as long as that does not happen every unlocked record shows the outcome of the committed transactions run one at a time |
| LockConflict.ConflictLosesUpdate | server/enclave/silo_cc/silo_transaction.cpp:331-377 | As written, a run of two writers of one record: the second fails to lock it, goes on, and both commit with the same TID; the record keeps the value of the serially first |
| AbsentBit.StoredBits | server/enclave/silo_cc/silo_transaction.cpp:409-428 | The write-phase loop as written stores, per entry, the flag left by the entries before it |
| AbsentBit.LoopIsRight | server/enclave/silo_cc/silo_transaction.cpp:412-423 | The stored absent bits are right exactly when no WRITE comes under a set flag |
| AbsentBit.DeleteThenWrite | server/enclave/silo_cc/silo_transaction.cpp:412-423 | Deleting one record and then writing another makes the second one absent |
| PipeTheorems.CrashConsistency | server/enclave/silo_cc/silo_notifier.cpp:121-142 | In every reachable state and for every epoch d up to DurableEpoch the transactions of epochs up to d are a prefix of the serial order, all decided, and each worker's log file starts with all its records of that prefix in commit order; the epoch file, written in a step of its own, holds such a d, and GlobalEpoch is beyond DurableEpoch |
| PipeTheorems.DurablePrefixIsFinal | server/enclave/silo_cc/silo_notifier.cpp:121-142 | However the run goes on, that prefix never changes and no later transaction joins its epochs |
| PipeTheorems.DurableEpochSound | server/enclave/silo_cc/silo_logger.cpp:84-129 | With d = ThLocalDurableEpoch nothing of an epoch up to d from that logger's workers is buffered, queued, being written or still to be produced, and all of it is in the file |
| PipeTheorems.NotifiedIsLogged | server/enclave/silo_cc/silo_notifier.cpp:156-163 | A client is told only of committed transactions all of whose records are in the log file |
| NoticeCount.NoticesOnce | server/enclave/silo_cc/silo_log_buffer.cpp:13-61 | In every reachable state the id of each committed transaction with a write, once wal has pushed it, is in exactly one place: current buffer, queue, batch, waiting ids or notices; no other id is anywhere |
| NoticeCount.ToldOnce | server/enclave/silo_cc/silo_notifier.cpp:50-90 | No client is told twice |
| PipeProgress.EverythingIsTold | server/enclave/silo_cc/silo_logger.cpp:32-150 | From any reachable state between transactions, if every logger serves a worker, the run can go on until the epoch that recovery reads covers every transaction there is and every client with a committed write has been told |
| PipeProgress.PassesIffServed | server/enclave/silo_cc/silo_logger.cpp:84-129 | The epoch that recovery reads passes every bound in some run if and only if every logger serves a worker |
| PipeFinish.NothingIsLeft | server/enclave/silo_cc/silo_log_buffer.cpp:265-340 | The same from every reachable state, transactions and wal calls under way included: wal waits at most for a buffer and its logger can give one back |
| PipeCtidw.CtidwFollows | server/enclave/silo_cc/silo_transaction.cpp:432-472 | Outside wal CTIDW lies between the epoch of the worker's last transaction and ThLocalEpoch, in every reachable state |
| Notices.ToldIsDurable | server/enclave/silo_cc/silo_notifier.cpp:121-163 | As long as no compare-exchange of DurableEpoch loses to a smaller minimum, every client is told of epochs up to DurableEpoch only |
| Notices.ToldIsRecovered | server/enclave/silo_cc/silo_notifier.cpp:121-163 | Then everything a client was told of is among the transactions of durable epochs; and if the epoch file was never lowered and no write of it is outstanding, among those of the epoch recovery reads |
| Notices.BeyondIffBeaten | server/enclave/silo_cc/silo_notifier.cpp:132-163 | A notification tells a client of an epoch beyond DurableEpoch if and only if the round's compare-exchange was such a loss and an id was waiting between DurableEpoch and the round's minimum |
| Notices.OneLoggerTells | server/enclave/silo_cc/silo_notifier.cpp:121-163 | With a single logger whatever a client was told is always among what recovery reads |
| NoticeRun.TellsTooMuch | server/enclave/silo_cc/silo_notifier.cpp:121-163 | Two workers with a logger each, under both guards: some run tells a client of a transaction of an epoch beyond DurableEpoch, and every replay of the files lacks it |
| PipeTheorems.LogConservation | server/enclave/silo_cc/silo_log_buffer.cpp:236-350 | A worker's records reach the file once and in commit order, its buffers are always partitioned among current, pool, queue and logger, and each buffer holds one epoch |
| PipeTheorems.PAlways | server/enclave/silo_cc/silo_logger.cpp:32-129 | The pipeline invariant holds in every reachable state of protocol and pipeline together |
| PipeTheorems.PInvKeeps | server/enclave/silo_cc/silo_logger.cpp:32-129 | Every step of workers and loggers keeps it |
| PipeTheorems.OrderOnlyGrows | server/enclave/silo_cc/silo_transaction.cpp:331-442 | Decided transactions never change and new ones carry the current GlobalEpoch |
| RaiseCtidw.SafeIffFlushed | server/enclave/silo_cc/silo_transaction.cpp:464-486 | Raising CTIDW in epochWork is followed by some continuation of the worker's logger alone that stores an unsound durable epoch if and only if the current buffer holds an older record; for every state of the invariant and a worker that shares no logger |
| PipeBuffers.PublishKeeps | server/enclave/silo_cc/silo_log_buffer.cpp:329-340 | Publishing the current buffer keeps the invariant |
| PipeBuffers.PushKeeps | server/enclave/silo_cc/silo_log_buffer.cpp:13-33 | Pushing a transaction's records and id keeps the invariant: each buffer stays in one epoch |
| PipeLogger.ScanKeeps | server/enclave/silo_cc/silo_logger.cpp:84-97 | Reading one more CTIDW word keeps the scan's bound on what its workers may still log, unless a minimum is taken after a zero word was skipped while there was none |
| PipeLogger.QueueMinKeeps | server/enclave/silo_cc/silo_logger.cpp:99-109 | Taking the queue minimum, at a later moment than the CTIDW words, keeps it |
| PipeLogger.StoreKeeps | server/enclave/silo_cc/silo_logger.cpp:117-129 | Storing min_epoch - 1 as durable epoch is sound |
| PipeGuards.FlushIsNeeded | server/enclave/silo_cc/silo_transaction.cpp:464-486 | Any server of one worker and one logger, once CTIDW may be raised before the older buffer is published, reaches a state whose DurableEpoch covers a committed transaction and whose log file is empty |
| PipeGuards.StartIffNoSharing | server/enclave/silo_cc/silo_logger.cpp:84-92 | With find_min_epoch skipping workers that have not stored CTIDW, every durable epoch is sound in every run of a server if and only if no two workers share a logger |
| Pipeline.QueueMin | server/enclave/silo_cc/silo_log_queue.cpp:148-154 | The queue minimum capped by the CTIDW minimum bounds every queued epoch from below |
| LogQueues.LogQueue.Enqueue | server/enclave/silo_cc/silo_log_queue.cpp:32-39 | The buffer is added behind those of its epoch and nothing else changes |
| LogQueues.LogQueue.Dequeue | server/enclave/silo_cc/silo_log_queue.cpp:109-131 | The drain returns all buffers by ascending epoch, oldest first within one, and empties the queue |
| LogQueues.LogQueue.MinEpoch | server/enclave/silo_cc/silo_log_queue.cpp:148-154 | The smallest epoch in the queue, if any |
| NidRing.NidBuffer.Store | server/enclave/silo_cc/silo_notifier.cpp:29-48 | The ids go to the first bucket not before their epoch, made at the end if there is none; the list stays acyclic, strictly sorted and ending at end_; the source's assertion holds exactly if the epoch has a bucket or lies beyond all |
| NidRing.NidBuffer.Notify | server/enclave/silo_cc/silo_notifier.cpp:50-90 | Terminates, delivers exactly the due buckets in order, recycles their nodes behind the end, and keeps the list acyclic, sorted and of the same nodes |
| NidRing.PutAdds | server/enclave/silo_cc/silo_notifier.cpp:29-48 | Storing adds the ids to their epoch and touches no other if and only if that assertion holds |
| RingFits.RingServes | server/enclave/silo_cc/silo_notifier.cpp:29-90 | In every run, for a logger without two workers: store's assertion holds for every buffer passed on, and notify delivers exactly what waits for the epochs it is told are durable, in order |
| RingFits.RingAlways | server/enclave/silo_cc/silo_notifier.cpp:29-90 | Its ring is always sorted, holds exactly the ids that wait, in order, and has a place for whatever comes next |
| NidRing.NotifyLeaves | server/enclave/silo_cc/silo_notifier.cpp:50-90 | After notify(d) nothing waits for epochs up to d and everything else waits as before |
| NidRing.NotifyConserves | server/enclave/silo_cc/silo_notifier.cpp:50-90 | What is delivered and what stays are together what was waiting, each once |
| Recovery.CrashRecovery | server/enclave/silo_r/silor.cpp:46-122 | Crash in any reachable state and recover to any epoch d up to DurableEpoch: replaying the files epoch by epoch, each epoch sorted by TID in any tie order, rebuilds exactly the transactions of epochs up to d run one at a time, unless one of them writes a key an earlier one deleted, and then it dereferences a null pointer |
| ClientRecovery.ClientCrashRecovery | server/enclave/silo_r/silor.cpp:46-122 | The same in the clients' terms: what is rebuilt is what the clients of the committed transactions of epochs up to d asked for, taken from the events of the run, one transaction at a time, unless one wrote a key that an earlier one had deleted |
| Recovery.BatchesAreThePrefix | server/enclave/silo_r/silor.cpp:46-97 | For every such d the epoch batches taken from all files hold each record of the transactions of epochs up to d exactly once and no other |
| Recovery.RepeatedBatchCrashes | server/enclave/silo_r/silor_log_archive.cpp:44-47 | With the batches as the loop builds them a log without write after delete crashes the replay; with the intended ones it replays |
| Replay.ReplayRebuilds | server/enclave/silo_r/silor.cpp:95-118 | For every prefix of the serial order, any TID-sorted arrangement of its records replays to the committed state exactly when no write follows a delete of its key |
| Replay.SortedIsSerial | server/enclave/silo_r/silor.cpp:95-118 | All TID-sorted arrangements replay alike: per key the TIDs are distinct |
| Replay.SerialCrashes | server/enclave/silo_r/silor.cpp:107-110 | A write after a delete of its key makes every later replay fail |
| LogChain.CreateJsonLog | server/enclave/silo_cc/silo_log_buffer.cpp:124-176 | The written set is its records linked in a circle of hashes under the previous set's hash, and the returned hash is that of all record hashes |
| LogChain.VerifyLogLevel | server/enclave/silo_r/silor_log_archive.cpp:66-90 | Accepts exactly the sets whose records form a circle of hashes |
| LogChain.CircularIsCircle | server/enclave/silo_r/silor_log_archive.cpp:66-90 | A set passes exactly if it is what the writer makes of its records |
| LogChain.AcceptsExactlyWritten | server/enclave/silo_r/silor_log_archive.cpp:13-41 | A sequence of sets passes all checks exactly if it is the writer's output for the records it contains, record counts aside, and then it ends with the writer's tail hash |
| LogChain.ReadAll | server/enclave/silo_r/silor_log_archive.cpp:102-112 | The length-framed file parses back to the sets written |
| LogArchive.ReadsBack | server/enclave/silo_r/silor.cpp:46-93 | For non-empty sets of non-decreasing epochs every check passes, each epoch's batch holds exactly that epoch's records in file order, and the last hash is found exactly if a set up to that epoch has it |
| LogArchive.AcceptedIffDurable | server/enclave/silo_r/silor.cpp:124-129 | With a hash that tells the last set from the others, the final check passes if and only if the last written set is of an epoch up to the durable one |
| LogArchive.LateSetIsLost | server/enclave/silo_r/silor.cpp:58-93 | In a file of two sets of which the second is of an earlier epoch, with any hash: that set's records are in no batch, and the file is refused unless the two hash alike |
| LogOrder.ReadsBackIff | server/enclave/silo_r/silor.cpp:46-93 | For every file of non-empty one-epoch sets and a hash that tells them from each other and from the start hash: all checks pass and every epoch's batch is exactly that epoch's records, if and only if the sets are in epoch order |
| LogOrder.LoopTakes | server/enclave/silo_r/silor.cpp:46-93 | Whatever the order, the epoch loop takes a prefix of the file, in epoch order, and nothing else |
| LogArchive.BatchAsWritten | server/enclave/silo_r/silor_log_archive.cpp:43-47 | The loop as written yields the intended batch exactly when no set of the epoch is buffered or nothing else is |
| LogArchive.RecoveryLogArchive.VerifyEpochLevelIntegrity | server/enclave/silo_r/silor_log_archive.cpp:13-57 | The loop over the buffered sets, erasing as it goes, takes the epoch's sets, keeps the others and advances the hash, or fails, exactly as the recursive pass says; and its inner loop inserts every set still buffered each time |
| LogArchive.PassIsIntended | server/enclave/silo_r/silor_log_archive.cpp:43-47 | The batch of the pass is the records of the sets of the epoch, once each |
| LogFiles.SoleIsOrdered | server/enclave/silo_cc/silo_logger.cpp:50-64 | In every state of the pipeline invariant a logger without two workers has a file of non-empty one-epoch buffers whose epochs never decrease |
| LogFiles.FilesReadBack | server/enclave/silo_r/silor.cpp:46-93 | Crash in any reachable state of a server in which no two workers share a logger: every check on every file passes, and the batch gathered over all files for an epoch is exactly that epoch's records |
| LogFiles.RecoveryFromFiles | server/enclave/silo_r/silor.cpp:46-122 | In such a state, for any epoch d up to DurableEpoch, through writing, hash chains, framing, read-ahead, checks and any sort by TID word: what is recovered is the transactions of epochs up to d run one at a time, or a null pointer if one writes a deleted key |
| LogFiles.AcceptedIffFlushed | server/enclave/silo_r/silor.cpp:124-129 | A file in epoch order passes the final check if and only if its last buffer is of a durable epoch, given a hash that tells the last set from the others |
| LogFiles.StoredOnce | server/enclave/silo_cc/silo_log_buffer.cpp:137-155 | With distinct key names a stored record tells its log record |
| SharedLogger.OrderedIffNoSharing | server/enclave/silo_cc/silo_logger.cpp:50-64 | With both guards, every log file of a server is in epoch order in every run if and only if no two workers share a logger |
| SharedLogger.SharedLoggerLoses | server/enclave/silo_r/silor.cpp:58-93 | As soon as two workers share a logger some run ends with a file of which recovery, whatever the durable epoch and the hash, finds nothing of an epoch it has records of |
| SharedLogger.AcceptsIffNoSharing | server/enclave/silo_cc/silo_notifier.cpp:44-46 | store's assertion holds for every buffer in every run if and only if no two workers share a logger |
| MasstreeMap.RefinesMap | server/enclave/masstree/masstree.cpp:25-122 | After any sequence of insertions and removals of keys of any length a lookup of any key answers what a plain map from byte strings answers |
| MasstreeMap.ApplyStep | server/enclave/masstree/masstree.cpp:25-98 | One operation changes the answer for its own key only |
| Masstree.InsertGet | server/enclave/masstree/masstree_insert.cpp:54-93 | Insertion: the key is found with its first value and every other key answers as before, across suffixes, pushed-down suffixes and new layers |
| Masstree.InsertKeeps | server/enclave/masstree/masstree_insert.cpp:475-563 | Insertion keeps every layer a well-formed search tree |
| Masstree.RemoveOk | server/enclave/masstree/masstree_remove.cpp:162-264 | Removal takes away exactly its key, through folded layers with the removal starting again, unlinked nodes and pulled-up siblings; a layer that folds held that key alone |
| Masstree.FoldIsInvisible | server/enclave/masstree/masstree_remove.cpp:10-51 | Folding a one-key layer back into its parent's suffix changes no lookup |
| Masstree.EntryFor | server/enclave/masstree/masstree_insert.cpp:129-145 | A key's entry goes to the slot its lookup reads: its length if it ends here, or has-suffix |
| MasstreeMap.StatusTruth | server/enclave/masstree/masstree.cpp:25-98 | After any sequence of operations the next one reports what a plain map would where layer 0 decides, and as written success wherever a lower layer does; handed on, the status is always true |
| Masstree.InsertReports | server/enclave/masstree/masstree_insert.cpp:545-562 | Insertion with its status, layer by layer: handed on the status is true at every depth; as written it is true where this layer decides and Ok wherever a lower one does |
| Masstree.RemoveReports | server/enclave/masstree/masstree_remove.cpp:254-263 | The same for removal, through folded layers |
| MasstreeMap.SplitLosesLongKeys | server/enclave/masstree/masstree_insert.cpp:298-304 | As written, a border split stores the new key in its slot exactly if the key ends there or its slice is 8 |
| MasstreeMap.SplitBreaksOrder | server/enclave/masstree/masstree_insert.cpp:301 | As written, a split can leave the entries out of order |
| LayerOps.AddKeeps | server/enclave/masstree/masstree_insert.cpp:411-473 | Insertion keeps a layer ordered within its key ranges and node sizes, with splits at any height |
| LayerOps.BorderSplitKeeps | server/enclave/masstree/masstree_insert.cpp:260-355 | A border split conserves the entries and leaves both halves well-formed around the separator |
| LayerOps.BorderSplitShape | server/enclave/masstree/masstree_insert.cpp:260-355 | Both halves are non-empty, left slices are below the separator, right ones are not, and equal slices stay together |
| LayerOps.AddChildKeeps | server/enclave/masstree/masstree_insert.cpp:164-213 | Inserting a child, or splitting a full interior node and sending its middle key up, keeps the ranges |
| LayerOps.AddChildShape | server/enclave/masstree/masstree_insert.cpp:164-213 | Keys and children are conserved in order; a full node is cut with one key more on the right, the key between going up |
| LayerLookup.AddReach | server/enclave/masstree/masstree_insert.cpp:411-473 | After an insertion the new entry is found in its slot and every other slot answers as before |
| LayerLookup.AddChildReach | server/enclave/masstree/masstree_insert.cpp:391-409 | Lookups among the children go to the right half of a split child, whether or not the parent splits |
| LayerRemove.DropKeeps | server/enclave/masstree/masstree_remove.cpp:60-152 | Removing an entry keeps the layer ordered; only a border node with a single entry can vanish |
| LayerRemove.DropReach | server/enclave/masstree/masstree_remove.cpp:60-152 | After a removal the slot is empty and every other slot answers as before |
| LayerRemove.DropChildReach | server/enclave/masstree/masstree_remove.cpp:76-150 | When a child goes away its neighbour takes over its range without finding anything there, or the sibling is pulled up |
| LayerRemove.PutReach | server/enclave/masstree/masstree_remove.cpp:30-44 | Overwriting a link changes its slot only |
| Layer.AtMostNine | server/enclave/masstree/masstree_insert.cpp:215-226 | A slice occurs at most nine times in a node |
| SplitPoint.TwoSlices | server/enclave/masstree/masstree_insert.cpp:235-236 | A full node has two different slices, so table[1] is in bounds |
| SplitPoint.PointSeparates | server/enclave/masstree/masstree_insert.cpp:230-257 | The split point lands where the slice grows, with entries on both sides, in each of its cases |
| SplitPoint.PointSide | server/enclave/masstree/masstree_insert.cpp:230-257 | The new entry goes in front of the right half if its slice is the largest or is there already and not the smallest; else to the left half, which then ends with its slice |
| SplitPoint.PointIff | server/enclave/masstree/masstree_insert.cpp:230-257 | The split point is the one place where the slice grows that leaves the new entry on that side |
| SplitPoint.TableProper | server/enclave/masstree/masstree_insert.cpp:217-226 | The slice table of a sorted node is strictly ascending and points at first occurrences |
| SplitPoint.CreateSliceTable | server/enclave/masstree/masstree_insert.cpp:217-226 | The loop builds that table |
| SplitPoint.FindSplitPoint | server/enclave/masstree/masstree_insert.cpp:230-257 | The searches find the split point the tree model uses |
| BorderNodes.BorderNode.Search | server/enclave/masstree/include/masstree_node.h:463-507 | The slot search answers as the tree's lookup of a one-node layer: nothing, the record, or the lower layer whose answer for the rest of the key is the answer; suffixes are compared in full |
| BorderNodes.HitAnswers | server/enclave/masstree/include/masstree_node.h:463-507 | What the key's slot means to a search is the tree's answer for the key |
| BorderNodes.BorderNode.InsertPoint | server/enclave/masstree/include/masstree_node.h:544-553 | Finds a slot outside the permutation, unused or removed |
| BorderNodes.BorderNode.InsertToBorder | server/enclave/masstree/masstree_insert.cpp:96-148 | The new key is placed in slice order among the old entries, whichever slot it reuses |
| BorderNodes.BorderNode.RemoveKey | server/enclave/masstree/include/masstree_node.h:598-602 | Marking a slot and taking it out of the permutation removes exactly that entry |
| BorderNodes.BorderNode.Sort | server/enclave/masstree/include/masstree_node.h:564-590 | The slots are rearranged into permutation order and the entries stay the same |
| BorderNodes.BorderNode.SplitKeysAmong | server/enclave/masstree/masstree_insert.cpp:260-355 | The in-place split leaves the tree model's two halves in the node and its new neighbour |
| BorderNodes.BorderNode.SetLower | server/enclave/masstree/masstree_insert.cpp:84-88 | A suffix entry becomes a link to the new layer, in place |
| BorderNodes.BorderNode.SetSuffix | server/enclave/masstree/masstree_remove.cpp:37-41 | A layer link becomes a suffix entry, in place |
| InteriorNodes.InteriorNode.FindChild | server/enclave/masstree/include/masstree_node.h:205-211 | The loop finds the child whose range covers the slice |
| InteriorNodes.InteriorNode.InsertIntoParent | server/enclave/masstree/masstree_insert.cpp:392-409 | The shift inserts key and child and keeps the others |
| InteriorNodes.InteriorNode.SplitKeysAmong | server/enclave/masstree/masstree_insert.cpp:164-213 | The in-place split keeps seven keys, sends one up and moves eight, as the tree model does |
| InteriorNodes.InteriorNode.RemoveChild | server/enclave/masstree/masstree_remove.cpp:77-87 | The whole-array left shifts drop the child and the key beside it |
| Permutations.Permutation.Insert | server/enclave/masstree/include/permutation.h:97-105 | Inserting on the packed word is inserting into the list it stands for |
| Permutations.Permutation.RemoveIndex | server/enclave/masstree/include/permutation.h:66-80 | Removing on the packed word is removing the slot's first occurrence from the list |
| Permutations.Permutation.FromSorted | server/enclave/masstree/include/permutation.h:115-122 | The word stands for 0, 1, ..., n - 1 |
| Nibbles.SetIs | server/enclave/masstree/include/permutation.h:54-62 | The shifts, mask and multiplication of setKeyIndex change one nibble of the word and no other |
| Nibbles.GetIs | server/enclave/masstree/include/permutation.h:45-52 | The shift and mask of getKeyIndex read that nibble |
| Keys.RoundTrip | server/enclave/masstree/include/masstree_key.h:107-139 | Slicing and unslicing any non-empty string is the identity |
| Keys.ToKeyInjective | server/enclave/masstree/include/masstree_key.h:107-124 | Different strings are different keys |
| Keys.StringToSlices | server/enclave/masstree/include/masstree_key.h:107-124 | The nested loops compute that slicing |
| Keys.IsSameIsEqual | server/enclave/masstree/include/masstree_node.h:357-364 | isSame holds exactly for equal suffixes, and its loop stays in bounds |
| KeyOrder.OrderIsByteOrder | server/enclave/masstree/include/masstree_key.h:88-105 | operator< agrees with byte order exactly when neither slice vector is a strict prefix of the other with the larger last slice |
| KeyOrder.OrderIsCircular | server/enclave/masstree/include/masstree_key.h:98-104 | Three keys, each less than the next, in a circle |
| KeyOrder.OperatorLess | server/enclave/masstree/include/masstree_key.h:88-105 | The loop computes the order by first differing slice, last size and slice count |

## Left out

- SiloTheorems.Serializable: point reads only; scans validate no node set, so phantom freedom is not claimed.
- SiloTheorems.LockDiscipline: the order in which write-set elements are locked is any order; the sort of the write set only matters for liveness.
- SiloFinish.CanFinish: by some continuation of the worker alone; nothing is claimed about a scheduler, and two workers may go on aborting each other.
- PipeFinish.NothingIsLeft: that the run can go on to such a state, not that a scheduler will; with the start-up guard it also asks that start-up is over.
- PipeTheorems.CrashConsistency: under the two guards above, or the first one when no two workers share a logger; without them it fails.
- Recovery.CrashRecovery: the first generation of the log files only. The source restarts with GlobalEpoch at the durable epoch, appends to the old files and starts the hash chain anew; a second crash is not modelled.
- LogFiles.RecoveryFromFiles: the batch takes each set once, where the source repeats buffered ones; the final check, which also wants the last set durable, is stated apart.
- LogArchive.ReadsBack: the batches are those the comment asks for; what the loop inserts as written is in VerifyEpochLevelIntegrity and BatchAsWritten.
- BorderNodes.BorderNode.SplitKeysAmong: stores the intended slice; the leaf chain and the version word are not modelled, and the four parallel slot arrays are one array of slots.
- InteriorNodes.InteriorNode.SplitKeysAmong: children are subtrees by value; parent links, locks and versions are not modelled.
- Concurrent Masstree readers and version validation: records are found by identity in the protocol and the tree is sequential.
- masstree_scan and transactional scans.
- Memory reclamation: records and nodes live for ever; an aborted insert stays behind as a locked, unreachable record.
- Weak memory order, spin waits, timers and clocks: steps are sequentially consistent and the leader's clock test may fire at any time.
- Shutdown and quit paths of loggers, pools and workers.
- The server's TLS, sessions, JSON text and sealing: JSON is a codec with a round trip, SHA-256 a function nothing is assumed of.
- The validation test that an inserted record is still absent: it can never fail while the record is locked by its inserter.
- The session lookup of a notified id: an id is delivered when the ring hands it out.
