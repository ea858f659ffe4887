# Verification of the SPDK KV engine

A Dafny model of the engine's core: the Robin Hood index, compaction, the buffered write path from put to get, the
formats that survive a crash, the append buffers, and the queue between the network thread and the engine thread.
`dafny verify dfyconfig.toml` checks everything.

Each component has a specification on values (datatypes and functions), and where the program works in place, a class
or a method whose contract equates its new state with that specification. The theorems about the specification then
speak about the class. IO completes in any order and may fail, memory may run out, and a crash may come between any two
steps; these are events or parameters. Hash and checksum are parameters wherever the proofs do not depend on them, so
those results hold for every hash and every checksum; FNV and CRC-32 have modules of their own.

| part | modules |
|---|---|
| index | `RobinHood`, `MemIndexTable`, `IndexDump`, `IndexRule`, `Sequence`, `Fnv` |
| compaction | `CompactionModel`, `CompactionSafety`, `CompactionProgress`, `CompactionOutcome`, `CompactionMarks`, `CompactionTasks`, `SparseBitmaps`, `RateLimiting` |
| write path | `WritePath` (the events), `WritePathInvariant`, `WritePathRequests`, `WritePathBuffers`, `WritePathSafety`, `WritePathFlight`, `WritePathLanding`, `WritePathRuns`, `WritePathReads`, `WritePathResults`, `WritePathLoss`, `WritePathLimits`, `WritePathFiles`, `WritePathBackpressure`, `WritePathProgress`, `WritePathAnswers`, `WritePathSealing`, `WritePathTable`, `WritePathEngine` |
| append buffers | `SimpleRings`, `BufferRules`, `BufferRuns`, `BufferSlots`, `AppendBuffers` |
| durability | `EntryFormat`, `Recovery`, `AllocLog`, `Superblocks`, `Crc32`, `CrcBits`, `CrcTable`, `CrcBursts`, `Damage`, `Layouts` |
| threads | `SpscQueue` |
| shared | `Types`, `Bytes`, `Ring` |

## Where the code does not do what it is for

Each of these is a lemma, with the exact condition where there is one.

- Entry 245 of both CRC tables is 0xcdd706b3; the polynomial of RFC 1952 gives 0xcdd70693. The checksum of a message is
  its CRC-32 exactly if the wrong bits cancel out (`CrcBursts.ChecksumIsCrc32Iff`), which they do not for a single line
  feed. Burst detection up to 32 bits survives (`CrcBursts.BurstDetected`).
- A file allocation that fails takes back the last file of the list (src/engine.cpp:737-741). If a buffer got a file of
  its own meanwhile, that one goes, with acknowledged records in it (`WritePathRuns.AllocationFailedKeepsIff`,
  `WritePathLoss.AcknowledgedPutIsLost`).
- The end of an asynchronous allocation takes the last file of the list for its own (src/engine.cpp:739,
  src/engine.cpp:754). If a compaction has allocated its destination meanwhile, foreground writes go to that file
  (`WritePathFiles.BecomesActiveIff`, `WritePathFiles.DestinationBecomesActive`); if one is being allocated at that
  moment, it is activated before it is open, or taken out of the list under its caller (`WritePathFiles.DoneInside`,
  `WritePathFiles.FailedInside`).
- Only the check that a put makes clears the backpressure flag, so queued requests wait for another put
  (`WritePathResults.WaitersLeaveIff`, `WritePathLimits.RequestsWaitUnderBackpressure`); one is always enough
  (`WritePathBackpressure.ReliefEmptiesQueue`, `WritePathProgress.NoRequestIsStuck`).
- A sealed file is documented as read-only (include/spdk_kv/types.h:87), but it stays active until the next one is open,
  and is written meanwhile (`WritePathSealing.SealedFileIsWritten`).
- Page counts have 16 bits: a record of 65536 pages or more is stored but cannot be read
  (`WritePathReads.GetIsExact`, `WritePathLimits.LargeRecordCannotBeRead`).
- The update of a resident key can remove another key, because the key test compares with the original key after a
  swap (`RobinHood.UpsertResidentKeyIsCleanIff`, `RobinHood.UpdateCanLoseAnotherKey`). A full table loses an entry even
  where it reports success (`RobinHood.FullTableLosesAnEntry`, `RobinHood.FullTableReportsSuccess`).
- A manager set up with more than 16 buffers drops the rest (`BufferRuns.InitializeKeepsAllIff`), and resetting waiting
  buffers does not make a freed one active (`BufferRuns.FedIsKeptUnless`, `BufferRuns.UnfedRun`).
- Tombstones ignore sequences in replay, so a second replay deletes keys that were put again after a deletion
  (`Recovery.SecondReplayKeepsKeyIff`).
- A superblock write is only safe if the primary copy is good; a load does not repair it
  (`Superblocks.CrashSafeIff`, `Superblocks.LostIff`, `Superblocks.TwoCrashesLoseAll`).
- A restart finds the allocations since the last save only if the log was empty at that save. The first save of an
  engine and the one when it closes are not of an empty log (src/engine.cpp:257-263, src/engine.cpp:130-143), so later
  allocations are lost until the next checkpoint (`AllocLog.CrashFindsAllIff`, `AllocLog.FreshEngineLosesAllocations`).
  A checkpoint that fails after emptying the log lets records be overwritten that the superblock still needs
  (`AllocLog.FailedCheckpointLosesIff`).
- The sequence of the allocation log does not wrap (`AllocLog.AppendedIsFoundIff`).
- The recovered global sequence is one more than the numerically largest, while the index compares modulo 2^32: after a
  log that goes over the wrap, acknowledged puts are ignored (`Recovery.FirstPutIsTakenIff`,
  `Recovery.PutAfterTheWrapIsIgnored`).
- The rate limiter drops fractions of an interval, so frequent polling starves it (`RateLimiting.GrantedIff`).
- The branch of `put_buffered` for a full buffer without backpressure (src/engine.cpp:2415-2454) is never taken:
  `reserve_with_backpressure` reports backpressure for every failure (`BufferRuns.FailureIsBackpressure`,
  `WritePath.RetryIsNeverTaken`).

## Model

| member | source | states |
|---|---|---|
| RobinHood.Probe | include/spdk_kv/mem_index.h:337-369 | the insertion loop terminates from every table, a full one included, and for every hash: the slack of the counters falls, or the 8-bit counter, which never passes 128 + 1, rises |
| RobinHood.ProbeConserves | include/spdk_kv/mem_index.h:337-369 | for every table, counter and carried entry, counting each entry value: table after plus the one entry left over equals table before plus the carried entry; a `false` result loses exactly one entry, and nothing is invented |
| RobinHood.ProbePopulation | include/spdk_kv/mem_index.h:337-369 | the number of taken slots grows by one exactly when no entry is left over |
| RobinHood.StoreKeepsInv | include/spdk_kv/mem_index.h:338-360 | a carried entry may be stored under any counter from max(1, its probe counter, the slot's old counter) to 129 without breaking the path condition of any resident |
| RobinHood.InsertSwaps | include/spdk_kv/mem_index.h:356-367 | a swap writes the carried entry with its own counter and goes on with the displaced one at its old counter plus 2; the loop is then again in the state it relies on, or stops with every other entry in place |
| RobinHood.ProbeInserts | include/spdk_kv/mem_index.h:337-369 | from every such state the loop ends with the path invariant kept, and reports success exactly if nothing is left over |
| RobinHood.UpsertAbsentKey | include/spdk_kv/mem_index.h:322-370 | absent key, free slot: invariant kept; residents afterwards are exactly the old ones and the new entry, minus the one entry left over if and only if the result is `false` |
| RobinHood.UpsertNearFreeSlot | include/spdk_kv/mem_index.h:329-369 | an upsert succeeds whenever one of the 65 slots from the remainder of the key's hash on is free, whatever the others hold |
| RobinHood.UpsertAbsentKeyFind | include/spdk_kv/mem_index.h:322-370 | in terms of lookups: a successful insertion of an absent key changes the answer for that key only |
| RobinHood.FullTableLosesAnEntry | include/spdk_kv/mem_index.h:337-369 | without an empty slot every insertion of an absent key leaves an entry over, whatever it reports |
| RobinHood.FullTableReportsSuccess | include/spdk_kv/mem_index.h:337-369 | three insertions into an empty table of two slots: all report success, and the third removes a key that a lookup found before |
| RobinHood.UpsertResidentKeyIsCleanIff | include/spdk_kv/mem_index.h:337-369 | the update of a resident key replaces its own slot and nothing else if and only if no earlier slot on its path has a counter equal to its offset |
| RobinHood.UpsertResidentKeyCrowded | include/spdk_kv/mem_index.h:337-369 | otherwise exactly one entry is exchanged for the new one: the old version of the key, or an entry of another key, which no lookup then finds |
| RobinHood.UpdateCanLoseAnotherKey | include/spdk_kv/mem_index.h:347-367 | a concrete run of five upserts with reordered completions in which a successful update removes another live key |
| RobinHood.FindIsExact | include/spdk_kv/mem_index.h:557-585 | in every table with the invariant, `find` returns x for a key exactly if x is the live resident with that key, its early exit and its cap of 128 probes notwithstanding |
| RobinHood.FindRefines | include/spdk_kv/mem_index.h:557-585 | and so answers as the map the table stands for |
| RobinHood.UpsertRefines | include/spdk_kv/mem_index.h:322-370 | an upsert of an absent key into a table with a free slot that succeeds, and every uncrowded upsert of a resident key, is the map update of the index rule and keeps the invariant |
| RobinHood.RemoveRefines | include/spdk_kv/mem_index.h:373-381 | a removal is the map's removal, keeps the invariant, and returns whether the key was live |
| MemIndexTable.MemIndex.Find | include/spdk_kv/mem_index.h:557-585 | the search loop in place returns the slot the specification finds |
| MemIndexTable.MemIndex.Upsert | include/spdk_kv/mem_index.h:322-370 | the insertion loop in place leaves the table, the result and the size the specification gives; size counts the taken slots |
| MemIndexTable.MemIndex.Remove | include/spdk_kv/mem_index.h:373-381 | the removal in place sets one deleted flag and changes nothing else |
| MemIndexTable.MemIndex.Serialize | include/spdk_kv/mem_index.h:432-473 | the loop over the slots produces the bytes of the dump specification for every size of the buffer |
| MemIndexTable.MemIndex.Deserialize | include/spdk_kv/mem_index.h:478-530 | an invalid buffer changes nothing and gives 0; a valid one sets the sequence, and the entries are upserted one after the other |
| IndexDump.EntryRoundTrip | include/spdk_kv/entry.h:51-69 | the packed 20 bytes of an entry decode to that entry: the bit fields of file, page and flag do not overlap |
| IndexDump.OccupantsAre | include/spdk_kv/mem_index.h:432-473 | with room for all, the dump holds each resident once and nothing else |
| IndexDump.UndumpOfDump | include/spdk_kv/mem_index.h:432-530 | reading the bytes written gives the dumped entries and the global sequence, for every size of the buffer that holds a header |
| IndexDump.UndumpRefusesIff | include/spdk_kv/mem_index.h:478-502 | a buffer is refused if and only if it is shorter than the header, or its magic, its checksum or its count is wrong |
| Layouts.DumpLayout | include/spdk_kv/mem_index.h:432-473 | the bytes of a dump: header fields at their offsets, the count of the entries that follow, and the checksum of exactly these |
| IndexDump.LoadRepresentsLive | include/spdk_kv/mem_index.h:478-530 | upserting entries with distinct keys into an empty table gives exactly the map of the live ones, if every upsert succeeds |
| IndexDump.DumpLoadsBack | include/spdk_kv/mem_index.h:432-530 | an index dumped with room for all entries and loaded into an empty one of any capacity answers every lookup as before, if every upsert succeeds |
| Fnv.FnvIsGoodHash | include/spdk_kv/mem_index.h:31-44 | key 0 does not hash to tag 0, so a lookup of key 0 never takes an empty slot for a match; the one fact the table proofs need of the hash |
| Fnv.KnownHashes | include/spdk_kv/mem_index.h:31-39 | three hashes as numbers: the eight bytes go in lowest first |
| Sequence.NewerInWindow | include/spdk_kv/mem_index.h:392 | inside a window of fewer than 2^31 numbers the signed comparison is the numeric order of the distances from its start |
| Sequence.NewerIsStrictTotalOrder | include/spdk_kv/mem_index.h:392 | and so a strict total order there (section 3.2 of RFC 1982) |
| Sequence.ComparableUnlessHalfApart | include/spdk_kv/mem_index.h:392 | two different numbers are comparable exactly if they are not 2^31 apart |
| IndexRule.NewestIsKept | include/spdk_kv/mem_index.h:347-353 | after any list of completions for a key, in any order and with repetition, the index holds the newest of them and of what it held before, if all lie within one window, and its other keys as before |
| IndexRule.ArrivalOrderIrrelevant | include/spdk_kv/mem_index.h:347-353 | any two lists of the same completions leave the same index |
| CompactionSafety.RedirectKeepsView | src/compaction.cpp:488-519 | moving an index entry between two places that hold the same record changes no read |
| CompactionSafety.StepKeepsView | src/compaction.cpp:199-258 | every step of the compaction, migration and rollback included, keeps the invariant and what every key reads, and changes no entry's key, sequence or deleted flag |
| CompactionSafety.CompletionKeepsView | src/compaction.cpp:326-357 | so does the completion of the pending IO, with any status and whatever a failed write leaves in the destination |
| CompactionSafety.CommittedRevertClears | src/compaction.cpp:591-628 | after the rollback of the committed batches no live entry points into the destination |
| CompactionSafety.CompactionIsInvisible | src/compaction.cpp:199-671 | over every interleaving of steps, IO completions and foreground put and delete completions, every key reads exactly as in the same run without a compaction |
| CompactionProgress.UserNeverRaisesRank | src/compaction.cpp:391-466 | foreground completions never raise the bound on the remaining work, since new records never land in the source |
| CompactionProgress.EventRank | src/compaction.cpp:199-671 | every step or completion the compaction waits for lowers that bound, although a full write buffer makes it read a chunk again: the live entries in the source not yet claimed have become fewer |
| CompactionProgress.ProgressIsBounded | src/compaction.cpp:199-671 | so no run holds more such events than the bound of its start, whatever is interleaved |
| CompactionProgress.FairRunEnds | src/compaction.cpp:199-671 | every run without end in which each IO completes, with any status, and the retry delay elapses reaches done or failed, whatever is interleaved |
| CompactionOutcome.DoneMeansMigrated | src/compaction.cpp:310-324 | when the source is about to be marked deleted, and after, a live entry that still points into it is on a page the bitmap marks as free; without a bitmap there is none |
| CompactionOutcome.FailedMeansRestored | src/compaction.cpp:591-671 | when the compaction has failed no live entry points into the destination, and after a rollback the source is sealed again |
| CompactionOutcome.DestinationWithinSource | src/compaction.cpp:391-466 | what is written to the destination never exceeds the source |
| CompactionOutcome.RunOutcome | src/compaction.cpp:199-671 | the three hold in every state of every run over single-page records, with or without a bitmap; no empty buffer is ever written, and none is left unwritten at the end |
| CompactionOutcome.StartsInOrder | src/compaction.cpp:260-308 | a fresh task on a readable source whose entries match its records, with an unreferenced destination, satisfies every precondition of these results |
| CompactionMarks.FinishedMarks | src/compaction.cpp:295-308 | over every run from a fresh compaction: success marks the metadata of the source as deleted and no other file; a failure before the first mark changes nothing; a later one seals the source again and deletes the destination if and only if something was written to it |
| CompactionMarks.RunKeepsMarks | src/compaction.cpp:199-671 | what every phase has marked so far, kept by every event |
| CompactionMarks.RetriesAreFaults | src/compaction.cpp:468-486 | the retry count is the number of errors since the last chunk was written, over every run |
| CompactionMarks.RollsBackOnlyIf | src/compaction.cpp:563-589 | a compaction rolls back only after the third such error or one that is not -11, -16 or -12, and goes on until then |
| CompactionMarks.RetriedIff | src/compaction.cpp:563-589 | one error is retried, at the phase it happened in, if and only if it is one of these codes and at most the second in a row |
| CompactionMarks.RunKeepsCopying | src/compaction.cpp:391-466 | over every run: no tombstone is copied, every recorded move is of the very record in the buffer, and no list outlives the compaction |
| CompactionMarks.MovedEntry | src/compaction.cpp:488-519 | an entry moves with the first recorded migration of its key and page, to the copy and its size in 16 bits, and changes in nothing else |
| CompactionMarks.FailedLeavesNothing | src/compaction.cpp:591-647 | a compaction that fails after it has written something leaves an empty destination, if the removal succeeds |
| CompactionMarks.RemovalEmptiesIff | src/compaction.cpp:630-647 | the removal empties the destination if and only if it succeeds; the rollback goes on either way, and no other file changes |
| CompactionTasks.CompactionTask.Step | src/compaction.cpp:199-258 | one call of the step function, in place, is the specified step of task and engine: marking the source, sealing it again and marking it deleted in the metadata only are steps of it |
| CompactionTasks.CompactionTask.SkipInvalidPages | src/compaction.cpp:310-324 | the loop over the bitmap stops at the first valid page, or the end |
| CompactionTasks.CompactionTask.ReadNextChunk | src/compaction.cpp:326-357 | goes on to write or finalise at the end of the source, otherwise starts a read |
| CompactionTasks.CompactionTask.DoProcessEntries | src/compaction.cpp:391-466 | the loop over a chunk copies exactly the records the index still points to, and stops with the chunk to be read again when the write buffer is full |
| CompactionTasks.CompactionTask.DoUpdateIndices | src/compaction.cpp:488-519 | redirects the entries that still point to the old place and commits the batch |
| CompactionTasks.CompactionTask.OnIoError | src/compaction.cpp:563-589 | retries EAGAIN, EBUSY and ENOMEM fewer than three times, and otherwise rolls back |
| CompactionTasks.CompactionTask.RevertList | src/compaction.cpp:615-628 | reverts each listed entry that sits at its new place |
| CompactionTasks.CompactionTask.StartRollback | src/compaction.cpp:591-613 | reverts the committed and the pending batch and goes on to remove the destination |
| CompactionTasks.CompactionTask.OnIoComplete | src/compaction.cpp:326-550 | the callback of whichever IO is pending is the specified completion, whatever the status: only a completed read makes a chunk available, and only a completed write leads to the index update |
| CompactionTasks.CompactionTask.Drive | src/compaction.cpp:199-671 | the class driven through any allowed list of events ends in the specified state, and every key reads as if only the foreground events had happened |
| SparseBitmaps.MaskIsShift | include/spdk_kv/compaction.h:52-54 | the table of masks is the engine's 64-bit shift, for every bit |
| SparseBitmaps.SetBitIs | include/spdk_kv/compaction.h:52 | setting bit k of a 64-bit word changes what bit j reads exactly for j = k |
| SparseBitmaps.ClearBitIs | include/spdk_kv/compaction.h:53 | likewise for clearing |
| SparseBitmaps.CountsBits | include/spdk_kv/compaction.h:63-69 | counting word by word counts the positions that are set |
| SparseBitmaps.ChunkPopCounts | include/spdk_kv/compaction.h:63-69 | the population count of a chunk is the size of its set of positions |
| SparseBitmaps.BitsOfMore | src/compaction.cpp:69-75 | the sets of different chunks are disjoint, so adding a chunk's count adds its bits |
| SparseBitmaps.FreeHas | src/compaction.cpp:47-50 | freeing a chunk whose words are all zero removes no position |
| SparseBitmaps.SparseBitmap.TestBit | src/compaction.cpp:54-65 | returns whether the position is in the set; positions beyond the end never are |
| SparseBitmaps.SparseBitmap.Set | src/compaction.cpp:21-34 | adds the position, if it is below the total, and nothing else |
| SparseBitmaps.SparseBitmap.Clear | src/compaction.cpp:36-52 | removes the position and nothing else, also where its chunk is freed |
| SparseBitmaps.SparseBitmap.PopCount | src/compaction.cpp:69-75 | returns the cardinality of the set |
| RateLimiting.NeverMoreThanRate | src/compaction.cpp:140-163 | no run of requests and rate changes is granted more than the tokens at hand and one for every interval that passes, at the shortest interval of the rates it sets |
| RateLimiting.GrantedIff | src/compaction.cpp:149-163 | fractions of an interval are lost: from an empty bucket anything is ever granted if and only if some request comes a whole interval after the one before, also when rates change in between |
| RateLimiting.BusyPollingStarves | src/compaction.cpp:149-154 | at one rate, if every two requests are less than an interval apart, the tokens at hand are granted to the first requests and nothing ever after |
| RateLimiting.IdleIsNotSaved | src/compaction.cpp:149-163 | however long nothing was asked for, a run of requests is granted at most the rate's number at once and one for each interval since its first |
| RateLimiting.FullAfterIdle | src/compaction.cpp:149-163 | after a pause long enough to fill the bucket, exactly that many requests in a row are granted |
| RateLimiting.NewGrants | src/compaction.cpp:127-131 | and as many by a new limiter |
| RateLimiting.RateLimiter.AllowOne | src/compaction.cpp:140-163 | one request in place: a rate of zero always allows, otherwise the bucket changes as specified |
| SpscQueue.NoRace | examples/async_example.cpp:31-55 | when the producer may write its slot and the consumer may read its own, the slots differ |
| SpscQueue.ProducerRefines | examples/async_example.cpp:31-43 | every atomic step of a push keeps the invariant and the queue, except the store of the head, which appends the item; a push fails only on a full queue |
| SpscQueue.ConsumerRefines | examples/async_example.cpp:45-55 | every atomic step of a pop likewise; the store of the tail removes the first item, which is the one read; a pop fails only on an empty queue |
| SpscQueue.WholePush | examples/async_example.cpp:31-43 | a push that is not interrupted appends its item, or leaves a full queue as it is |
| SpscQueue.WholePop | examples/async_example.cpp:45-55 | a pop that is not interrupted takes the first item of a queue that has one |
| SpscQueue.QueueIsFifo | examples/async_example.cpp:23-55 | under every interleaving from the start, the items popped are a prefix of those pushed, at most capacity - 1 lie in between, and the threads never touch the same slot |
| AllocLog.CrashAfterFlushRestoresAll | src/alloc_log.cpp:46-102 | if the last page write has completed, and the last save was of an empty log, the restart gives the state before the crash |
| AllocLog.LoadFindsLastLap | src/alloc_log.cpp:166-217 | a load from a saved head and sequence finds exactly the last lap of the records written since, whatever stale records the page holds |
| AllocLog.LoadIsExactIff | src/alloc_log.cpp:166-217 | which is everything written since if and only if that is nothing, or the log was empty (or full) at the save and at most 64 records were written |
| AllocLog.RunRecovers | src/alloc_log.cpp:46-224 | after every run, from any empty log whose page holds nothing newer, of writes, page writes that may not happen, saves, checkpoints, checkpoints that fail and crashes, a restart finds exactly the last lap of the records written since the last save that reached the disk; bounded only by the sequence numbers left |
| AllocLog.CrashFindsAllIff | src/alloc_log.cpp:104-217 | in every such state a restart finds all the records written since the save that reached the disk if and only if there are none, or the log was empty (or full) at the save and none has been overwritten |
| AllocLog.RunKeepsRecords | src/alloc_log.cpp:219-234 | in a run without a failed checkpoint no record since the save is overwritten |
| AllocLog.RestartOfKept | src/alloc_log.cpp:104-217 | so there a restart finds all of them if the save was of an empty log, as at a checkpoint, and none if the log held records, as at the first save of an engine or when it closes |
| AllocLog.FailedCheckpointLosesIff | src/alloc_log.cpp:219-234 | records are written, a checkpoint empties the log but its superblock is not written, more are written and reach the disk: a restart finds all of them if and only if they are at most 64, and otherwise only those beyond |
| AllocLog.FreshEngineLosesAllocations | src/engine.cpp:245-263 | a new engine logs its first file and saves without emptying the log: if it crashes before its first checkpoint, every later allocation is lost, however many and whatever reached the disk |
| AllocLog.AppendedIsFoundIff | src/alloc_log.cpp:188-205 | the record appended to an empty log is found again if and only if the number before it is not 2^32 - 1 |
| Damage.LoadIsLongest | src/alloc_log.cpp:166-217 | a load finds the longest list of records behind the head that each have the magic, the checksum of their own bytes and a larger sequence than the one before |
| Damage.CoveredIsInjective | include/spdk_kv/entry.h:88-102 | the 60 bytes the checksum covers determine every field |
| Damage.BurstInLogEntry | src/alloc_log.cpp:188-205 | a load ends at a record changed within 32 bits |
| Layouts.LogEntryLayout | src/alloc_log.cpp:46-70 | the bytes of a record as it is made |
| AllocLog.AllocLogManager.WriteEntry | src/alloc_log.cpp:46-102 | refuses when the log is full, otherwise the page in memory holds the new record in the next slot |
| AllocLog.AllocLogManager.LoadEntries | src/alloc_log.cpp:104-217 | the loop returns the records specified and sets tail and sequence from them; from a saved sequence that is the specified restart |
| AllocLog.AllocLogManager.Reclaim | src/alloc_log.cpp:219-224 | empties the log without touching the page |
| EntryFormat.RecordReadsBack | src/engine.cpp:881-921 | every field of a record built into a buffer reads back at its place, its value byte for byte, and its checksum is right, whatever surrounds it |
| EntryFormat.BuildEntryInplace | src/engine.cpp:881-921 | field by field writes exactly the record's bytes, zero padding included, and nothing outside them |
| Layouts.RecordLayout | src/engine.cpp:2201-2238 | every byte of a record: fields, value, zeros up to the first page boundary that leaves room for the checksum, and the checksum of all before it |
| Recovery.ScanFindsLog | src/recovery.cpp:606-682 | scanning records built one after the other, followed by zeros, finds exactly those, in order, at their offsets |
| Recovery.ScanStopsAtDamage | src/recovery.cpp:641-650 | a record with magic and length intact but a wrong checksum ends the scan: exactly the records before it are recovered |
| Damage.ScanSkipsGap | src/recovery.cpp:606-624 | the scan goes over any number of pages that do not begin like a record, and finds the records behind them |
| Damage.BurstInRecord | src/recovery.cpp:641-650 | with the checksum the engine uses: a record changed within 32 bits, behind its magic and length, ends the scan, and the records before it are found |
| Recovery.ReplayIsLastRecord | src/recovery.cpp:652-678 | replaying an ordered log over an older index leaves for every key its last record, or nothing if that is a tombstone, or what the index had |
| Recovery.ReplayHoldsNewest | src/recovery.cpp:652-678 | once a put of a key has been replayed, nothing in the log is newer than its entry |
| Recovery.SecondReplayKeepsKeyIff | src/recovery.cpp:671-672 | replaying the same log again keeps a key's answer if and only if the log does not both delete the key and end with a put of it, because tombstones ignore sequences |
| Recovery.RecoverLog | src/recovery.cpp:606-682 | from bytes to index: the last record of a key gives the entry with the page it was written to, and its tombstone no entry |
| Recovery.IndexLoader.ParseAndRebuildEntries | src/recovery.cpp:606-682 | the loop over the buffer counts the scanned records, replays them and keeps the largest sequence, for every buffer |
| Recovery.IndexLoader.FinalizeRecovery | src/recovery.cpp:688-702 | the global sequence is newer, in the order of the index, than a number seen exactly if that lies less than 2^31 - 1 below the largest |
| Recovery.FirstIsNewerThanAllIff | src/recovery.cpp:688-697 | the first put afterwards is newer than every record of the log if and only if all their sequences are near the largest number seen: less than 2^31 - 2 below it, or at the other end of the numbers |
| Recovery.FirstPutIsTakenIff | src/recovery.cpp:688-697 | the first put of a key after a recovery replaces what was recovered for it under the same condition on its sequence alone |
| Recovery.PutAfterTheWrapIsIgnored | src/recovery.cpp:688-697 | a concrete well-formed log that goes over the wrap of the sequences, after which a put is acknowledged and ignored |
| Superblocks.ImageChecks | src/engine.cpp:2103-2113 | a superblock written is accepted by the checks of a load and parses to itself |
| Superblocks.DamagedIsPassedOver | src/engine.cpp:470-511 | a copy whose magic is wrong, or whose last four bytes are not the checksum of the others, counts as one that cannot be read; of two good copies the primary is taken; nothing is found exactly if both are damaged |
| Damage.BurstInSuperblock | src/engine.cpp:470-511 | a copy changed within 32 bits is never loaded, and the other one is, if it is good |
| Superblocks.NumberedWrites | src/engine.cpp:2101-2104 | each write has the next sequence modulo 2^64 |
| Layouts.SuperblockLayout | include/spdk_kv/entry.h:128-137 | the fields every load looks at, where they are |
| Superblocks.CrashFindsOldOrNew | src/engine.cpp:2091-2169 | if the primary copy was good, a load after a crash at any point finds the old superblock or the new one, and the new one once the write has succeeded |
| Superblocks.CrashSafeIff | src/engine.cpp:2091-2169 | a write is safe against a crash at any point if and only if the primary copy was good when it began |
| Superblocks.RunOfWrites | src/engine.cpp:2091-2169 | over every run of writes that finish or stop before the primary copy, and a last one that stops anywhere, a load finds the last superblock committed or the one being written |
| Superblocks.EveryRunOfWrites | src/engine.cpp:2091-2169 | over every run of writes, wherever each stops and from any two copies, a load finds what the primary copy holds by then, else what the backup holds, and nothing exactly if neither is good; the next finished write repairs a torn copy |
| Superblocks.LostIff | src/engine.cpp:2091-2169 | from two good copies, a run of writes loses the superblock if and only if it leaves both copies torn |
| Superblocks.TwoCrashesLoseAll | src/engine.cpp:2123-2168 | a crash in the primary and then one in the backup, with no repair in between, lose the superblock altogether |
| Superblocks.SuperblockStore.WriteSuperblock | src/engine.cpp:2091-2169 | backup first, then primary; an error stops there and the in-memory sequence has already moved on |
| Superblocks.SuperblockStore.LoadSuperblock | src/engine.cpp:372-516 | the primary if it can be read and checks, else the backup, else corrupt |
| Crc32.UpdateAppend | include/spdk_kv/crc32.h:54-62 | feeding two pieces one after the other is feeding their concatenation |
| Crc32.ChecksumContinues | include/spdk_kv/crc32.h:64-112 | undoing the final complement and going on gives the checksum of the whole |
| Crc32.Calculate | include/spdk_kv/crc32.h:14-62 | the loop computes the checksum of the first bytes of the data |
| Crc32.Combine | include/spdk_kv/crc32.h:64-112 | given the checksum of any head, returns that of the head followed by the data |
| CrcTable.TableEntryIsRight | include/spdk_kv/crc32.h:15-52 | an entry of the table is what the polynomial of section 8 of RFC 1952 gives if and only if its index is not 245 |
| CrcTable.StepIsFlawed | include/spdk_kv/crc32.h:57-59 | a step of the loop is the step of RFC 1952 with one wrong bit after a lookup of entry 245, on 32-bit words |
| CrcTable.RfcStepIsThrough | include/spdk_kv/crc32.h:57-59 | the true step sends the low byte, with the message byte xored in, through eight shifts of the feedback register |
| CrcBits.TopShowsLow | include/spdk_kv/crc32.h:57-59 | a bit fed back shows at the top of the register: the top bits after n shifts determine the low bits before |
| CrcBursts.StepInjective | include/spdk_kv/crc32.h:57-59 | steps on one byte from different registers differ, the flawed entry included |
| CrcBursts.WindowInjective | include/spdk_kv/crc32.h:54-62 | from one register, different messages of up to four bytes lead to different registers, and to ones that differ in their high bits if they are shorter |
| CrcBursts.BurstDetected | include/spdk_kv/crc32.h:14-62 | two messages of equal length that differ only within 32 consecutive bits, at any bit offset, have the same checksum if and only if they are equal |
| Damage.BurstChangesCrc | include/spdk_kv/crc32.h:14-62 | the same for byte strings and the checksum as a number, as the formats use it |
| Damage.BurstInDump | include/spdk_kv/mem_index.h:490-497 | so an index dump changed within 32 bits is refused |
| CrcBursts.ChecksumIsCrc32Iff | include/spdk_kv/crc32.h:14-62 | the checksum of a message is its CRC-32 by RFC 1952 if and only if the wrong bits of its lookups of entry 245 cancel out |
| CrcBursts.OneLookupIsWrong | include/spdk_kv/crc32.h:51 | a message with at most one lookup of entry 245 has the right checksum exactly if it has none |
| CrcBursts.LineFeedIsWrong | include/spdk_kv/crc32.h:51 | the one-byte message 0x0A, for instance, has a wrong checksum |
| BufferRules.ResetOnlyWithoutSlots | include/spdk_kv/append_buffer.h:120 | a buffer counts as free of slots exactly if none of its slots is allocated |
| BufferRules.TakeOk | include/spdk_kv/append_buffer.h:34-105 | reserving, and allocating a slot, keep the slots counted, in order, apart and inside the used part |
| BufferRules.SlotOpsOk | include/spdk_kv/append_buffer.h:107-118 | so do completing and releasing a slot, for every id |
| BufferSlots.BufferKeepsLives | include/spdk_kv/append_buffer.h:83-118 | over every list of operations on a new buffer a slot is handed out if and only if fewer than 64 have been and there is room, each is the next one, and none is used again; flags and counters agree with a list of lives |
| BufferSlots.ReadyIff | include/spdk_kv/append_buffer.h:120-130 | so it can be submitted exactly if no writer is at work, and reset exactly if every slot has been given back |
| BufferSlots.EpochTellsIff | include/spdk_kv/append_buffer.h:62-70 | a reset changes the epoch, which comes back only after a multiple of 2^32 resets |
| SimpleRings.ItemsGrow | include/spdk_kv/append_buffer.h:150-158 | writing the head slot and moving the head on appends the item, around the end too |
| SimpleRings.ItemsShrink | include/spdk_kv/append_buffer.h:160-167 | moving the tail on removes the first item |
| SimpleRings.SimpleRing.Enqueue | include/spdk_kv/append_buffer.h:150-158 | appends the item unless the ring holds one item less than it has slots |
| SimpleRings.SimpleRing.Dequeue | include/spdk_kv/append_buffer.h:160-167 | returns and removes the oldest item, or none |
| SimpleRings.SimpleRing.Count | include/spdk_kv/append_buffer.h:169-174 | returns the number of items held, around the end too |
| AppendBuffers.AppendBuffer.Reserve | include/spdk_kv/append_buffer.h:34-43 | takes the next bytes if they fit, and otherwise changes nothing |
| AppendBuffers.AppendBuffer.AllocRdmaSlot | include/spdk_kv/append_buffer.h:93-105 | takes a slot and its bytes, or neither; a missing slot is found before missing room |
| AppendBuffers.AppendBuffer.ReleaseRdmaSlot | include/spdk_kv/append_buffer.h:113-118 | releases an allocated slot once; further releases change nothing |
| AppendBuffers.AppendBuffer.CanSubmit | include/spdk_kv/append_buffer.h:122-129 | returns whether every allocated slot has been written |
| BufferRules.ReturnKeepsPlaces | include/spdk_kv/append_buffer.h:267-280 | returning a buffer in flight moves it to the complete ring or the reset queue and no other buffer anywhere |
| BufferRules.CheckPendingResetsKeepsPlaces | include/spdk_kv/append_buffer.h:282-294 | resetting waiting buffers in order moves each from the queue to the free ones and loses none |
| BufferRules.ExpandKeepsPartition | include/spdk_kv/append_buffer.h:296-317 | a new buffer, up to 16, gets a place of its own |
| BufferRuns.StepKeepsOk | include/spdk_kv/append_buffer.h:203-334 | every operation keeps every buffer in exactly one of active, submit ring, complete ring, reset queue and in flight: no enqueue fails |
| BufferRuns.RunKeepsOk | include/spdk_kv/append_buffer.h:203-334 | and so does every run that returns each buffer in flight once, whatever the order |
| BufferRuns.SlotsAreKept | include/spdk_kv/append_buffer.h:267-294 | an allocated slot stays allocated, at its place, and its buffer is not reset, until it is released |
| BufferRuns.InitializeKeepsAllIff | include/spdk_kv/append_buffer.h:203-222 | a manager starts with every buffer in a place if and only if it has at most 16: the rest are dropped |
| BufferRuns.FedIsKeptUnless | include/spdk_kv/append_buffer.h:282-294 | no operation leaves a free buffer without an active one, except a reset of waiting buffers when there is no active one, which does |
| BufferRuns.UnfedRun | include/spdk_kv/append_buffer.h:282-294 | a concrete run of six operations from the start that leaves the only buffer free and none active |
| BufferRuns.FailureIsBackpressure | include/spdk_kv/append_buffer.h:224-237 | a reservation reports backpressure if and only if nothing is reserved, also where the buffer is only full or missing |
| AppendBuffers.AppendBufferManager.constructor | include/spdk_kv/append_buffer.h:203-222 | starts in the specified state |
| AppendBuffers.AppendBufferManager.SubmitCurrentBuffer | include/spdk_kv/append_buffer.h:240-252 | a non-empty active buffer goes to the submit ring and a free one becomes active |
| AppendBuffers.AppendBufferManager.GetPendingBuffers | include/spdk_kv/append_buffer.h:254-265 | the loop takes up to the given number from the submit ring, oldest first |
| AppendBuffers.AppendBufferManager.ReturnBuffer | include/spdk_kv/append_buffer.h:267-280 | resets a buffer without slots and frees it, and queues one with slots |
| AppendBuffers.AppendBufferManager.CheckResets | include/spdk_kv/append_buffer.h:282-294 | frees waiting buffers in order and stops at the first that still has a slot |
| AppendBuffers.AppendBufferManager.Expand | include/spdk_kv/append_buffer.h:296-317 | adds a buffer if there are fewer than 16 and memory can be had |
| AppendBuffers.AppendBufferManager.Check | include/spdk_kv/append_buffer.h:319-334 | sets and clears the backpressure flag by the number of free buffers, after an expansion if it can |
| AppendBuffers.AppendBufferManager.Reserve | include/spdk_kv/append_buffer.h:224-237 | checks for backpressure first, then reserves in the active buffer, and reports backpressure for every failure |
| WritePathRequests.PutKeepsOrAdds | src/engine.cpp:2354-2488 | a put adds its request to exactly one place, or is refused and adds it nowhere |
| WritePathRequests.CompleteKeeps | src/engine.cpp:2536-2573 | a completion answers each request of the write once, whatever the status |
| WritePathRequests.AllocatedKeeps | src/engine.cpp:734-798 | the end of a file allocation answers or launches each waiting request once |
| WritePathRequests.StepKeepsConserved | src/engine.cpp:2354-2662 | every event keeps every accepted request in exactly one of wait queue, pending-write queue, a buffer's list, in flight or answered, and the foreground count equal to the writes in flight |
| WritePathResults.StartOk | src/engine.cpp:192-276 | a fresh engine with one to 16 buffers satisfies every invariant below |
| WritePathResults.RunKeepsConserved | src/engine.cpp:2354-2662 | so does every run, for any completion order and any failures |
| WritePathResults.AnsweredOnce | src/engine.cpp:2536-2573 | no request is answered twice |
| WritePathResults.WaitersNeedAPut | src/engine.cpp:1566-1569 | once backpressure is on, no run without another put moves anything out of the wait queue, however long |
| WritePathResults.WaitersLeaveIff | src/engine.cpp:1566-1569 | in a run without a put that processes the wait queue, the waiting requests leave it if and only if there is no backpressure when it begins: only the check a put makes clears the flag |
| WritePathLimits.RequestsWaitUnderBackpressure | src/engine.cpp:2379-2413 | a concrete run from the start, thirteen puts between two polls, of which twelve fill and submit a buffer each, after which a request waits under backpressure |
| WritePathBackpressure.PutSetsFlag | include/spdk_kv/append_buffer.h:319-334 | after a put the flag is on if and only if it was and more than 6 buffers are pending, or it was not, 12 or more are pending, and there are 16 buffers or no memory for another; a put that finds it on goes to the wait queue |
| WritePathBackpressure.PutThenPollDrainsIff | src/engine.cpp:1566-1569 | a put and then a poll leave the wait queue empty if and only if that put finds no backpressure, or nothing waits |
| WritePathBackpressure.ReliefEmptiesQueue | src/engine.cpp:1552-1569 | from every state: one poll, one put and another poll, and no request waits any more |
| WritePathBackpressure.PollLaunchesWaiters | src/engine.cpp:2575-2660 | every request that waited is then being written, or waits for the file that is being allocated |
| WritePathProgress.AllCanBeAnswered | src/engine.cpp:1545-1569 | no request is stuck: from every state that is reached, after one more put there are events without a put after which every accepted request has been answered |
| WritePathProgress.NoRequestIsStuck | src/engine.cpp:1545-1569 | the same after every safe run of a fresh engine |
| WritePathProgress.QuietIsAnswered | src/engine.cpp:2354-2660 | when nothing is in flight, waits or lies in a buffer, every accepted request has its answer |
| WritePathAnswers.CompletionAnswers | src/engine.cpp:2560-2572 | a completion answers every request of its write, in order, success or IO error as it went, also those a newer put has overtaken |
| WritePathAnswers.CompletionWrites | src/engine.cpp:2520-2572 | a write that succeeds leaves its data on its pages, a failed one may leave anything there, and neither touches another page |
| WritePathAnswers.SubmitBufferAnswers | src/engine.cpp:2496-2516 | a buffer is answered at submission only if a file it needs cannot be had, and then all of it |
| WritePathAnswers.AllocationAnswers | src/engine.cpp:730-790 | the end of an allocation leaves no request waiting for a file: each is answered, or being written |
| WritePathAnswers.RunAnswers | src/engine.cpp:2354-2660 | over every run, each answer has an event that explains its status |
| WritePathAnswers.AnswersStay | src/engine.cpp:2354-2660 | an answer once given is never taken back |
| WritePathSealing.SubmitSealsIff | src/engine.cpp:2496-2505 | a submission seals the active file if and only if the buffer is not empty and does not fit into it, whether or not a new file can be had |
| WritePathSealing.DrainSealsIff | src/engine.cpp:2591-2609 | a queued record does if and only if it does not fit and no file is being allocated |
| WritePathSealing.DrainLaunchesIff | src/engine.cpp:2591-2660 | and it is written at once if and only if it fits and no file is being allocated |
| WritePathSealing.SealedFileIsWritten | src/engine.cpp:2496-2505 | sealed does not mean read-only: while the next file is being allocated, a smaller buffer is written to the sealed one |
| WritePath.RetryIsNeverTaken | src/engine.cpp:2379-2455 | a put written with all its branches, the retry for a full buffer without backpressure included, does what the put without that branch does, in every state |
| WritePathBuffers.ReserveKeepsManager | src/engine.cpp:2354-2380 | a put keeps each buffer in exactly one place, the writes in flight counted among them |
| WritePathBuffers.LaunchKeepsManager | src/engine.cpp:2490-2534 | so does the launch of a buffer |
| WritePathBuffers.ReturnKeepsManager | src/engine.cpp:2564-2572 | and its return, empty, after the write |
| WritePathSafety.TiledAppend | src/engine.cpp:2457-2488 | a put continues the tiling of the used part of its buffer by the records pending in it, each there as built |
| WritePathSafety.EndIsFresh | src/engine.cpp:2520-2533 | what lies behind a file's write offset is apart from everything written to any file |
| WritePathSafety.PutKeepsAddressed | src/engine.cpp:2354-2488 | a put disturbs no record in memory, in flight or on disk |
| WritePathFlight.LaunchKeeps | src/engine.cpp:2490-2534 | a write launched at the end of an open file is apart from every indexed record and every write in flight |
| WritePathFlight.SubmitPendingKeeps | src/engine.cpp:1552-1559 | the poll's batch of up to 16 buffers keeps the whole invariant, whichever file allocations fail |
| WritePathLanding.RecordLands | src/engine.cpp:2536-2573 | once a buffer is on disk, each of its records is there as built, at the page its entry says |
| WritePathLanding.LandingsApart | src/engine.cpp:2536-2573 | the records of a buffer land on pages of their own |
| WritePathLanding.CompleteKeeps | src/engine.cpp:2536-2573 | a completed or failed write leaves every indexed record whole, and those it wrote are indexed where they lie, the newer of two for a key |
| WritePathRuns.StepKeepsInv | src/engine.cpp:2354-2662 | every event keeps every index entry on a page range inside its file's [4096, write offset) that holds exactly the record of its key and sequence, all records pairwise apart, but for the failed allocation below |
| WritePathRuns.RunKeepsInv | src/engine.cpp:2354-2662 | so does every run, over any order of completions and any failures, in which no failed allocation takes back a file in use |
| WritePathRuns.AllocationFailedKeepsIff | src/engine.cpp:734-750 | a failed allocation keeps the invariant if and only if nothing lies in the last file or is on its way there; it takes back the last file, whichever it is |
| WritePathRuns.OwnFileIsUnused | src/engine.cpp:709-750 | that is so if the file that failed is still the last one |
| WritePathFiles.BecomesActiveIff | src/engine.cpp:734-772 | a file of another owner, such as the destination of a compaction, becomes the active file in a step if and only if the step is the end of a successful allocation and that file is the last of the list |
| WritePathFiles.WrittenOnlyIf | src/engine.cpp:774-798 | and foreground writes start on it only under the same condition |
| WritePathFiles.DestinationBecomesActive | src/engine.cpp:654-772 | a concrete run from the start after which a file allocated for another owner becomes the active one |
| WritePathFiles.DoneInside | src/engine.cpp:654-732 | an asynchronous allocation that ends well while a file is allocated synchronously makes that other file the active one before it is open: waiting requests are answered with an error, the invariant is kept, and once open the file takes foreground writes |
| WritePathFiles.FailedInside | src/engine.cpp:654-732 | one that fails there takes the other file out of the list while its caller goes on with it; if that fails too, a further file is taken back, and the invariant is kept if and only if that one is unused |
| WritePathLoss.AcknowledgedPutIsLost | src/engine.cpp:734-750 | a concrete run from the start in which a put is acknowledged and then cannot be read, because a failed allocation took back another file |
| WritePathReads.GetIsExact | src/engine.cpp:1018-1100 | for every size of the caller's buffer: a key that is not indexed is not found; a record of fewer than 65536 pages reads as its value, or as too large if that does not fit; a larger record never reads as its value |
| WritePathReads.FoundOnlyIf | src/engine.cpp:1018-1100 | in every state whatever: nothing is found exactly if there is no live entry, and a value returned fits, lies in an open file behind a record's magic, and is as long as the record says |
| WritePathLimits.LargeRecordCannotBeRead | src/engine.cpp:2403-2408 | a concrete run from the start for every value of 65536 pages or more: the put is acknowledged, and no read returns a value for it |
| WritePathReads.StepKeepsNewest | src/engine.cpp:2536-2573 | while there are fewer than 2^31 requests, every event keeps the newest acknowledged put of every key indexed, in whatever order writes complete |
| WritePathResults.RunKeepsNewest | src/engine.cpp:2354-2662 | so does every run from such a state in which no failed allocation takes back a file in use |
| WritePathReads.ReadsNewest | src/engine.cpp:1018-1100 | end to end: a read answers for the record of the newest acknowledged put of the key, and finds nothing exactly if no put of it has been acknowledged |
| WritePathResults.ReadsAfterRun | src/engine.cpp:1018-1100 | the whole path: after any run of a fresh engine in which no failed allocation takes back a file in use, a read answers for the record of the last accepted put of the key that was acknowledged, and finds nothing exactly if there is none |
| WritePathTable.StepAgrees | src/engine.cpp:2536-2573 | an event whose upserts are clean keeps the probing table equal to the index, the results of the upserts being ignored |
| WritePathTable.ReadsThroughTable | src/engine.cpp:1018-1100 | the whole path with the probing table in place of the index: over every such run in which each upsert is clean, a read through the table answers for the record of the last acknowledged put |
| WritePathEngine.Engine.constructor | src/engine.cpp:192-276 | starts in the specified state |
| WritePathEngine.Engine.GetFile | src/engine.cpp:872-879 | the loop over the files returns the position of the first with the id |
| WritePathEngine.Engine.Put | src/engine.cpp:2354-2488 | a put in place is the specified step, and is refused exactly if no request was added |
| WritePathEngine.Engine.SubmitBufferIo | src/engine.cpp:2490-2534 | launches the write of a buffer, or answers all its requests with an error and returns it |
| WritePathEngine.Engine.SubmitBatch | src/engine.cpp:1552-1559 | takes up to 16 buffers and submits each |
| WritePathEngine.Engine.FailAll | src/engine.cpp:2502-2516 | the loop answers every request of the buffer with the error |
| WritePathEngine.Engine.OnBufferIoComplete | src/engine.cpp:2536-2573 | indexes and answers the records of the buffer in order and returns the buffer |
| WritePathEngine.Engine.OnDirectIoComplete | src/engine.cpp:3005-3026 | indexes and answers one queued record |
| WritePathEngine.Engine.DrainWaitQueue | src/engine.cpp:2580-2662 | the loop launches or queues every waiting record, oldest first, and stops for nothing but backpressure |
| WritePathEngine.Engine.ProcessPendingWriteQueue | src/engine.cpp:774-798 | the loop launches every record that waits for a file, or answers it with an error if there is none |
| WritePathEngine.Engine.OnNewFileAllocated | src/engine.cpp:734-772 | success makes the last file the active one; failure takes it back and answers the waiting requests |
| WritePathEngine.Engine.Read | src/engine.cpp:1018-1100 | a read in place gives the specified result, every error included, and changes nothing |
| WritePathEngine.Engine.Drive | src/engine.cpp:2354-2662 | the class driven through any list of events that can happen ends in the specified state, with every request conserved, and every indexed record whole but for a failed allocation |
| WritePathEngine.Serve | src/engine.cpp:1018-1100 | an engine set up, driven through a run and asked for a key answers as the whole path says |

## Left out

Results with a condition:

- WritePathRuns.RunKeepsInv: runs in which a failed allocation takes back a file in use are excluded, because the
  property is false of them; `WritePathRuns.AllocationFailedKeepsIff` says exactly when.
- WritePathReads.GetIsExact: file ids below 1024 and files of at most 8 GiB, the limits of the packed entry's bit
  fields; the device is taken to refuse a write that ends behind the size of the file.
- WritePathReads.ReadsNewest: fewer than 2^31 requests, the window in which sequences can be compared.
- CompactionSafety.CompactionIsInvisible: the records of foreground puts lie in other files than the source and the
  destination. `WritePathFiles.BecomesActiveIff` says when the write path breaks this.
- CompactionOutcome.RunOutcome: single-page records. A record that straddles a chunk of 1 MiB is
  skipped by the code (src/compaction.cpp:359-389), so a larger one may be left behind in the source; what is read does
  not change then, and that is proved for records of any size.
- CompactionProgress.FairRunEnds: that every submitted IO completes and the retry delay elapses is asked of the
  environment.
- AllocLog.RunRecovers: page writes are atomic; a page that cannot be read at a restart is not an event.
- Superblocks.CrashFindsOldOrNew: a copy is old, new, or torn, and of a torn one the magic is taken to be wrong or the
  checksum not that of its bytes: that is what the checksum is for. `Damage.BurstInSuperblock` proves it for changes
  within 32 bits.
- Damage.BurstInRecord: changes in the bytes the checksum covers, not in the stored checksum, the magic or the length.
- WritePathProgress.AllCanBeAnswered: the events exist; that the caller polls and the device completes its IOs is asked
  of the environment.
- SpscQueue.QueueIsFifo: steps interleave, as acquire and release order them; the memory model itself is not modelled.
- RateLimiting.NeverMoreThanRate: the clock has started and does not go back, and rates are positive, since a rate of
  zero lifts the limit, and at most 10^9, beyond which the code divides by zero. `reset`, which fills the bucket, is
  not part of the runs.
- IndexDump.DumpLoadsBack: every upsert of the load succeeds; the code ignores the results.
- Recovery.ScanFindsLog: one buffer of any size. Splitting a file into chunks is not part of it, and advances by the
  size read, not the size parsed (src/recovery.cpp:853-855).

Simplifications:

- The capacity mask of the index is a remainder, which is the same for powers of two; the memory order hints and the
  batches of eight in `deserialize` are one loop, and a count so large that its size overflows is not considered.
- The compaction and the write path use the index as a map under the rule of its lines 347-353; the table itself is
  `RobinHood`, and `WritePathTable` puts it in the place of the map. Offsets of the compaction are pages, and its waiting states, which are never entered, are one flag.
- The class `WritePathEngine.Engine` holds the buffer manager as a value; the manager in place is
  `AppendBuffers.AppendBufferManager`, proved against the same functions.
- Allocating a file synchronously is one step of a run, although the code polls inside it; what an asynchronous
  allocation that ends there does is stated in `WritePathFiles`. An IO that is refused at once counts as
  one that fails later. Callbacks do not call back into the engine. Keys are not deleted in the write
  path, and without remote writes no buffer waits for a reset there.
- The single-bit masks of the bitmap are a table, equal to the shifts by `SparseBitmaps.MaskIsShift`.
- The slots of an append buffer are proved at the manager; the engine passes global slot ids to them
  (src/engine.cpp:2293-2297), so its use of them is not.

Not modelled:

- SPDK, NVMe, NUMA, huge pages, DMA pools, thread pinning, prefetching, context pools, and the C interface.
- `find_avx2` and `batch_find`, whose continue test does not follow the probe distance.
- `rebuild_psl_array` and loading a memory dump: they need not restore the path invariant.
- `IncrementalCheckpoint`, the checkpoint triggered by a nearly full allocation log, and `FileMetadata`'s lazy bitmap.
- `put`, `put_async`, `delete_async`, `del` and `put_rdma`; the ring of resume callbacks; `close`.
- The schedule by which compactions are chosen, and the scan ranges of an incremental rebuild.
