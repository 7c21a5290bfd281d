# Hearth: a verified model

Hearth is an identity server with its own storage engine, a set of load generators, and
scripts that maintain its changelog and API documents. This project models the parts with the
most state, branching and arithmetic, and proves what they promise:

- **The storage engine** (`src/storage`): what a read finds in the layers of the store; full
  and partial compaction at every point where a crash can stop them; the k-way merge; readers,
  writers, flushes, compactions and the hot tier, interleaved step by step; group commit,
  flushes and WAL rotation, interleaved step by step, with every crash and every restart; the
  binary forms of WAL entries, batches and SST blocks.
- **The changelog cutter** (`scripts/changelog_cut.py`): the block parser, the selection of
  released entries, and the whole document that `main` writes.
- **The open-loop load generator** (`examples/http_saturation.rs`, with
  `examples/http_delta.rs`): the bounded backlog under every interleaving, the counting and
  grading of a rung, the knee, the two response readers, the form encoders, the template round
  robin and the limiter scan.
- **The regressions** of three examples, over real numbers.
- **The API scripts** (`scripts/admin_openapi.py`, `scripts/merge_openapi.py`): the schema
  closure and the Swagger conversion.
- **The token shaper** of the claims fuzz target (`fuzz/fuzz_targets/aat_parse.rs`).

Loops of the source are methods proved against specification functions; the theorems are about
those functions. Concurrency is a state machine whose actions are the atomic steps of the
threads; a run is any sequence of enabled actions, and the theorems are about every state of
every run, or of every run that avoids a step named in the theorem. Two such steps matter for the
storage engine. A run is clean when no compaction starts from a reader list that is behind the
files on disk, and no partial compaction fails after it has unlinked an input (`Ssts.Clean`); it
is covered when, besides, a failed flush does not drop the parked map under a reader that could
then fall through to a value it has not seen (`ReadPath.Covered`). `dafny verify dfyconfig.toml`
checks everything.

| file | subject |
|---|---|
| `Basics.dfy` | types and sequence facts shared by the others |
| `Lsm.dfy`, `KeyMerge.dfy` | layers, compaction, merge |
| `Ssts.dfy`, `SstsLimits.dfy` | SST files, reader list and compactions as one state machine; where it loses data |
| `ReadPath.dfy`, `ReadPathLimits.dfy` | concurrent reads, writes, flushes, compactions, hot tier; where reads go wrong |
| `Recovery.dfy`, `Segment.dfy` | replay over SSTs; which WAL segments open |
| `GroupCommit.dfy`, `CommitProgress.dfy`, `Durability.dfy`, `DurabilityLimits.dfy` | the commit protocol, that it comes to its end, what crashes leave, where it falls short |
| `Framing.dfy`, `WalCodec.dfy`, `SstBlocks.dfy` | binary forms |
| `ChangelogBlocks.dfy`, `ChangelogSelect.dfy`, `ChangelogJoin.dfy`, `ChangelogCut.dfy`, `ChangelogText.dfy` | the changelog cutter |
| `Backlog.dfy`, `RungGrade.dfy`, `Ladder.dfy`, `Corpus.dfy`, `Limiter.dfy`, `HttpReader.dfy`, `FormCodec.dfy` | the load generators |
| `Regression.dfy` | straight-line fits |
| `Json.dfy`, `SchemaClosure.dfy`, `SchemaUpgrade.dfy` | the API documents |
| `Base64Url.dfy`, `TokenShape.dfy` | base64url and compact tokens |

## Where the code does not do what it says

Each of these is proved: the failing family, and the condition under which the promise holds.

1. A flush that fails moves the parked entries back into the active map and then drops the
   parked one. A reader between its two memtable probes then sees neither and falls through to
   the SSTs. It is answered rightly however the run goes on, exactly when it had by then seen all
   that the reader list shows or compactions can make it show (`ReadPathLimits.CaughtRightIff`);
   otherwise it can return a value its key has not had (`ReadPathLimits.UncoveredReadsWrong`), and
   an older value may stay in the hot tier for good
   (`ReadPathLimits.FailedFlushPoisonsHotTier`). With no reader
   between its probes for a parked key the step is harmless whatever the SSTs hold, and only then
   (`ReadPathLimits.ClearSafeIff`).
2. A partial compaction that fails when it has unlinked an input leaves a reader list that the
   next flush rebuilds by file number alone; it keeps the reader of a file that has been replaced.
   Entries disappear from reads (`Lsm.AbortReadsIff`), for good after the next full compaction
   (`SstsLimits.AbortedCompactionLoses`), and an acknowledged write is lost
   (`DurabilityLimits.AcknowledgedWriteLost`). A full compaction that fails when its output is in
   place leaves that output without a reader. If another compaction starts before the list is
   reloaded, deleted keys come back and newer writes are undone (`SstsLimits.DeleteUndone`,
   `SstsLimits.WriteUndone`, `SstsLimits.DeletedReturns`). In clean runs no acknowledged write is
   lost, wherever a crash falls (`Durability.NoAcknowledgedWriteLost`).
3. `put_batch` is documented to land as a whole or not at all. A flush can persist a batch that
   the WAL does not have yet; after a crash the shorter WAL is replayed over the newer SST and
   brings back part of the batch (`Recovery.AtomicIff`, `DurabilityLimits.BatchComesBackInPart`).
4. After a failed write the group-commit leader goes on with the writers already queued. Record
   numbers have been skipped, so the segment can never be opened again
   (`Durability.WriteRefusedIff`, `Durability.OrderlyRunOpens`,
   `DurabilityLimits.FaultMakesLogUnreadable`).
5. The batch decoder is documented to refuse every truncation. Its guard against oversized
   counts makes it accept some (`WalCodec.TruncatedBatch`).
6. A second run of the changelog cutter can move what the first one kept
   (`ChangelogCut.SecondCutCanMove`): paragraphs that end up right below each other are read back
   as one. For every document and tag file, it moves nothing exactly when no kept entry, with
   such paragraphs joined, reads like a released one (`ChangelogCut.SecondCutMovesNothingIff`).
7. The regressions disagree on R squared when all points share one `x`, and when `ols` meets its
   floor (`Regression.R2FormsAgreeIff`, `Regression.OlsR2AgreesIff`).
8. The padding of short fuzz tokens is not base64 (`TokenShape.AllDecodeIff`).
9. The bound on the limiter scan does not keep a later field from being taken for the value when
   the value is shorter than five bytes (`Limiter.UnknownUnattributedIff`).
10. A read of the hot tier can return an older value than a read that ended before it, while the
    write between them has not returned (`ReadPathLimits.HitGoesBack`); it returns a value from
    after the last moment without such a write (`ReadPath.HitIsRecent`).
11. `upgrade_schema` does not enter a list inside a list (`SchemaUpgrade.NoOldLeftIff`,
    `SchemaUpgrade.Upgrade64`).
12. `upgrade_ref` replaces every old prefix in a reference, so it also renames a schema whose name
    has one in it: `#/definitions/A#/definitions/B` refers to another schema afterwards
    (`SchemaUpgrade.EdgeChanges`). A schema keeps its references exactly when it names no such
    schema (`SchemaUpgrade.EdgesKeptIff`), and the schemas reached from the roots are the same
    exactly when none of those names matters for them (`SchemaUpgrade.ReachedKeptIff`).

The comment above `compact_partial` says that the output takes the highest number of its run;
the code takes the lowest, and so does the model.

## Model

| member | source | states |
|---|---|---|
| `Lsm.PartialCompactionInvisible` | src/storage/engine.rs:1463-1645 | at every crash point of a partial compaction's commit, every read is answered as before it |
| `Lsm.FullCompactionInvisible` | src/storage/engine.rs:1253-1421 | the same for a full compaction, whose output holds no tombstones |
| `Lsm.NewestFirstResurrects` | src/storage/engine.rs:1579-1588 | the unlink order is needed: newest first brings a deleted key back |
| `Lsm.MergedFinds` | src/storage/sst.rs:2979-3008 | a read of the merged output finds what a read of its inputs finds, or nothing where a tombstone was dropped |
| `Lsm.ReloadExact` | src/storage/engine.rs:1132-1200 | reloading the reader list is exact when every open reader shows what its file holds |
| `Lsm.AfterAbortIs` | src/storage/engine.rs:1589-1603 | the reader list that the flush after an aborted partial compaction publishes |
| `Lsm.AbortBeforeUnlinks` | src/storage/engine.rs:1579-1603 | if no member was unlinked before the failure, that list answers every read as before |
| `Lsm.AbortReadsIff` | src/storage/engine.rs:1579-1603 | for all contents, every point of failure and every key, it answers rightly exactly when a file above holds the key, or no unlinked member but the oldest does, or these answer as what is below them |
| `Lsm.AbortAfterUnlinkLoses` | src/storage/engine.rs:1579-1603 | if any was, the list loses every entry that only it held, whatever is above and below, although the entry is still on disk |
| `Ssts.StepKeepsGood` | src/storage/engine.rs:1253-1645 | every clean step of flushes and compactions, finished or failed anywhere, keeps files and readers in agreement as far as any read can tell |
| `Ssts.StepShows` | src/storage/engine.rs:1253-1645 | a flush shows what it flushed over what was there; no other clean step lets the list or the files show anything new |
| `Ssts.CrashShows` | src/storage/engine.rs:1579-1606 | nor does a crash at any point of a commit |
| `Ssts.ReloadSees` | src/storage/engine.rs:1132-1200 | a reload shows what is on disk |
| `Ssts.PartialView` | src/storage/engine.rs:1558-1603 | at every point of a partial commit, by file number and from the readers of the snapshot, the files show what they showed |
| `Ssts.FullView` | src/storage/engine.rs:1338-1386 | at every point of a full commit they show that, or what the inputs showed where nothing newer is on disk |
| `Ssts.CompactedIff` | src/storage/engine.rs:1253-1421 | of any store, a full compaction shows a value the list does not, exactly when the list shows none and the files without a reader do |
| `Ssts.LossBecomesPermanent` | src/storage/engine.rs:1253-1421 | a value that is on disk and that a list with a reader for every file does not show: the next full compaction leaves only its output, without the value |
| `Ssts.StragglerWins` | src/storage/engine.rs:1463-1645 | of any store, a file among the numbers of a partial run that is not of the run decides over all it merged |
| `Ssts.ReadersReturn` | src/storage/engine.rs:1463-1645 | of any store, what the readers of a partial run hold comes back though their files are gone |
| `Ssts.StepLists` | src/storage/engine.rs:1253-1645 | no clean step of a compaction lets the list come to show what it could not before, nor does a failed flush, but for what it has written |
| `SstsLimits.AbortedIs` | src/storage/engine.rs:1579-1603 | a partial compaction stopped by a failed unlink leaves the files of `AbortedDisk` |
| `SstsLimits.NumbersTaken` | src/storage/engine.rs:950-1010 | over any steps, clean or not, every flush, landed or not, and every full compaction takes one file number, so none is given out twice |
| `SstsLimits.AbortedCompactionLoses` | src/storage/engine.rs:1579-1603 | from every store: start, failed commit, flush and full compaction remove from disk a value that only an unlinked input held |
| `SstsLimits.DeleteUndone` | src/storage/engine.rs:1338-1386 | from every store: a full compaction fails after its rename, a delete was flushed meanwhile, and the next full compaction brings the key back |
| `SstsLimits.WriteUndone` | src/storage/engine.rs:1338-1386 | the same with a partial compaction next: the key goes back to its older value |
| `SstsLimits.DeletedReturns` | src/storage/engine.rs:1366-1386 | from every store: a full compaction fails after its unlinks, and a partial one of older readers brings back a key deleted long before |
| `KeyMerge.FindWinner` | src/storage/key_merge.rs:63-109 | the winner is the smallest head, and of equal heads the newest source's |
| `KeyMerge.AdvanceEqual` | src/storage/key_merge.rs:63-109 | every source at the winner's key moves past it, and no other moves |
| `KeyMerge.Merge` | src/storage/key_merge.rs:63-109 | the output lists, in strictly increasing key order, the newest entry of every key; without tombstones, exactly the keys a read finds live, with the values it returns |
| `KeyMerge.PopEqual` | src/storage/sst.rs:2886-2897 | pops the least key and exactly the heads that equal it |
| `KeyMerge.PopAndRepush` | src/storage/sst.rs:2898-2908 | those inputs move on and their new heads go back, so that the heap holds the head of every input |
| `KeyMerge.Advance` | src/storage/sst.rs:2882-2914 | the winner of the other merge, with every input at its key moved on and the heap again holding every head |
| `KeyMerge.HeapMerge` | src/storage/sst.rs:2850-2914 | the merge with a heap has the same output |
| `KeyMerge.CompactionWritesMerged` | src/storage/sst.rs:2845-3008 | what compaction writes lists the merged layer of the compaction theorems |
| `KeyMerge.ByBytesTotal` | src/storage/key_merge.rs:63-109 | byte order is a strict total order |
| `KeyMerge.ByBytesIff` | src/storage/key_merge.rs:63-109 | a key comes before another exactly if it is a proper prefix of it or has the smaller byte where they first differ |
| `ReadPath.StepKeepsInv` | src/storage/engine.rs:1718-1914 | every step of readers, writers, flushes, compactions and the hot tier keeps the invariant, given that compactions are clean and drops of the parked map covered |
| `ReadPath.StepKeepsBase` | src/storage/engine.rs:1718-1914 | covered or not, a key changes its value by being written and in no other way |
| `ReadPath.ClearFailedStep` | src/storage/memtable.rs:356-362 | that drop keeps the invariant exactly when every reader it can fail has seen all it can come to fall through to |
| `ReadPath.HotTierIsCoherent` | src/storage/tiered.rs:302-460 | in every state of every covered run a cached value is the current one, or one that a write which has not returned has just replaced |
| `ReadPath.HotIff` | src/storage/tiered.rs:302-460 | in every run the hot tier has a value exactly if a read has stored it and no step since has stored another, invalidated the key or evicted it |
| `ReadPath.HitIsRecent` | src/storage/tiered.rs:302-460 | in every covered run a read that the hot tier answers returns a value its key has had since any moment without a write to it under way |
| `ReadPath.LayeredReadIsLinearizable` | src/storage/engine.rs:1718-1798 | in every covered run a read through the layers returns a value its key had at some moment during the read |
| `ReadPath.SeenIsHistory` | src/storage/engine.rs:1718-1798 | with clean compactions, what a reader has seen are exactly the values its key has had since it took its fill guard |
| `ReadPath.CurrentIsView` | src/storage/memtable.rs:458-472 | the value of a key is a read of active map, parked map and SSTs |
| `ReadPathLimits.ClearSafeIff` | src/storage/memtable.rs:356-362 | dropping the parked map is harmless whatever the SSTs hold, exactly when no reader is between its probes for a parked key |
| `ReadPathLimits.CaughtReadIff` | src/storage/memtable.rs:356-402 | a caught read that goes on at once returns what the list shows, a value its key has had during the read exactly when it had been seen |
| `ReadPathLimits.UncoveredReadsWrong` | src/storage/memtable.rs:356-402 | whatever the list shows, or compactions can make it show, and a caught reader has not seen: some continuation returns it |
| `ReadPathLimits.CaughtRightIff` | src/storage/memtable.rs:356-402 | from every reachable state: in all continuations with clean compactions a caught read returns a value its key has had during the read, exactly when the reader has seen all that |
| `ReadPathLimits.FailedFlushPoisonsHotTier` | src/storage/memtable.rs:356-402 | from every endangered state the older value can end up in the hot tier, with no write left to remove it |
| `ReadPathLimits.EndangeredReachable` | src/storage/memtable.rs:356-402 | such states occur, for every key and every two values |
| `ReadPathLimits.HitGoesBack` | src/storage/tiered.rs:302-460 | from every state with a cached value and a reader about to probe: a write, a read that returns it, and a later hit that returns the older value |
| `ReadPathLimits.PoisedReachable` | src/storage/tiered.rs:302-460 | such states occur, for every key and value |
| `Recovery.ReplayAhead` | src/storage/engine.rs:590-603 | a replay that reaches as far as the SSTs rebuilds a state of the history |
| `Recovery.ReplayBehind` | src/storage/engine.rs:590-603 | one that does not takes the keys it touches from an earlier state and the others from a later one |
| `Recovery.AtomicIff` | src/storage/mod.rs:197-204 | whatever was on disk and whatever is written, a restart lands between two operations exactly when the replay reaches as far as the SSTs, or nothing is replayed and the SSTs end with an operation |
| `Recovery.TornBatch` | src/storage/mod.rs:197-204 | the batch after the replayed records: keys an earlier record wrote come back old, the others new |
| `Segment.ProbeSurvivors` | src/storage/wal.rs:702-740 | whether a whole record with a plausible number follows a cut one |
| `Segment.ScanRecords` | src/storage/wal.rs:781-882 | the loop computes `Scan` |
| `Segment.ScanIff` | src/storage/wal.rs:781-882 | of any frames, a segment opens with `c` records exactly when these come first under their own numbers and then the segment ends, or a cut record follows with no whole one behind it that is numbered among the next 32 |
| `Segment.ScanOpened` | src/storage/wal.rs:781-882 | what is replayed is a run of records under their own numbers, with all of a numbered prefix |
| `Segment.TidyCutOpens` | src/storage/wal.rs:781-882 | records in order with at most a cut one behind: every crash leaves a segment that opens, with every whole record before the cut |
| `Segment.LateRefusedIff` | src/storage/wal.rs:753-771 | a batch behind skipped record numbers makes the segment unreadable exactly when no cut record marks the place or at most 32 numbers were skipped |
| `GroupCommit.StepKeepsInv` | src/storage/wal.rs:1298-1922 | every step of writers, leaders, flushes, compactions and rotation keeps the invariant: one leader, contiguous batches, truncation only of what was flushed, acknowledgement only of what is synced |
| `GroupCommit.StepKeepsStore` | src/storage/engine.rs:950-1010 | every clean step keeps all that the SSTs show between the updates that have left the memtable and those that were ever flushed |
| `GroupCommit.StoredMem` | src/storage/memtable.rs:311-362 | after a flush the SSTs show exactly the updates up to the cut |
| `GroupCommit.FlushUndoneMem` | src/storage/memtable.rs:380-402 | folding a parked map back restores the memtable of a flush that failed |
| `GroupCommit.TruncateLog` | src/storage/wal.rs:2027-2090 | everything written to a segment has been flushed when it is truncated |
| `GroupCommit.PublishLog` | src/storage/wal.rs:1871-1922 | publishing the watermark acknowledges only batches that a sync has covered |
| `GroupCommit.QueueStep` | src/storage/wal.rs:1487-1540 | at most one leader, contiguous tickets, and no queued writer without a leader or a pending hand-off, after every step |
| `Durability.RunKeepsInv` | src/storage/wal.rs:1298-1922 | the invariant holds in every state of every run, from every start, clean or not |
| `Durability.SingleLeader` | src/storage/wal.rs:1690-1750 | two threads are never in the commit loop together |
| `Durability.AcksStay` | src/storage/wal.rs:470-486 | an acknowledgement is never taken back |
| `Durability.NeverStuck` | src/storage/wal.rs:1487-1540 | while an operation is queued or in a batch, some thread can move the commit on |
| `CommitProgress.StepLowers` | src/storage/wal.rs:1487-1540 | every step of the commit, whichever thread takes it, lowers a rank: fewer operations are left to settle, or as many and less is to be done before the next are |
| `CommitProgress.CommitFinishes` | src/storage/wal.rs:1690-1922 | from every state in which no writer is in the middle of an operation, the commit left to itself settles every operation, and acknowledges them all if no batch has failed |
| `Durability.AcknowledgedSurvives` | src/storage/engine.rs:10-46 | after every crash that the restart can read, in the middle of a compaction or not, every key has a value it had at the end of the acknowledged operations or later, if the SSTs are in range |
| `Durability.NoAcknowledgedWriteLost` | src/storage/engine.rs:10-46 | over whole clean runs, for an acknowledgement given at any earlier point |
| `Durability.RestartIsPrefix` | src/storage/engine.rs:590-603 | when the replay reaches as far as the SSTs, the restart is exactly the state after the operations read |
| `Durability.OrderlyRunOpens` | src/storage/wal.rs:660-666 | in every run in which nothing is written behind a failed write, every crash leaves a log that opens |
| `Durability.WriteRefusedIff` | src/storage/wal.rs:1690-1750 | exactly when one write behind a failed one makes the segment unreadable |
| `Durability.FailedSyncStays` | src/storage/wal.rs:1690-1922 | in every run, once a sync of a segment has failed no later one counts for it |
| `Durability.HeadlessRefused` | src/storage/wal.rs:2027-2090 | in every run, once the header of a segment could not be written no crash that leaves a frame of it leaves one that opens |
| `Durability.TruncatedReturns` | src/storage/wal.rs:2027-2090 | in every run, until the next header is written a crash can bring back the truncated segment, as any crash could have left it |
| `DurabilityLimits.FaultMakesLogUnreadable` | src/storage/wal.rs:1690-1750 | from every state with a batch in hand and writers queued behind it, a failed write leads to a log that no restart can open |
| `DurabilityLimits.LoadedReachable` | src/storage/wal.rs:1690-1750 | such states occur |
| `DurabilityLimits.BatchComesBackInPart` | src/storage/mod.rs:197-204 | a run and a crash after which one key of a batch is old and another new |
| `DurabilityLimits.AcknowledgedWriteLost` | src/storage/engine.rs:1579-1603 | a run with one unclean step, and a crash that loses nothing written, after which an acknowledged write is gone |
| `Framing.ReadWritten` | src/storage/wal.rs:172-213 | a length-prefixed field is read back whole if it is there whole, and refused if the buffer ends inside it |
| `Framing.WrittenRead` | src/storage/wal.rs:172-213 | only what was written so is read |
| `WalCodec.DeserializeIff` | src/storage/wal.rs:128-222 | the entry decoder accepts exactly the buffers that start with the form of an entry whose lengths fit in 32 bits |
| `WalCodec.RoundTripIff` | src/storage/wal.rs:92-222 | the round trip holds exactly for such entries |
| `WalCodec.Layout` | src/storage/wal.rs:92-122 | where each part of an entry stands, and as which bytes |
| `WalCodec.TruncationRefused` | src/storage/wal.rs:123-222 | no proper prefix of an entry is accepted |
| `WalCodec.EncodeBatch` | src/storage/wal.rs:250-276 | a nested batch is refused, anything else is encoded as specified |
| `WalCodec.DecodeBatch` | src/storage/wal.rs:281-366 | the loop computes `Decoded` |
| `WalCodec.DecodedIff` | src/storage/wal.rs:281-366 | the batch decoder accepts exactly the buffers in which as many whole entries follow as the count says, or as the bytes could hold if that is fewer |
| `WalCodec.BatchRoundTripIff` | src/storage/wal.rs:250-366 | the batch round trip holds exactly when count and lengths fit in 32 bits and no batch is nested |
| `WalCodec.TruncatedBatch` | src/storage/wal.rs:278-296 | of a truncated batch the whole entries are accepted exactly when fewer than 9 bytes besides 9 for each are left; otherwise it is refused |
| `SstBlocks.PackBlocks` | examples/sst_compression_probe.rs:145-169 | every block holds whole entries, at least one; all but the last reach 4096 bytes; none does without its last entry |
| `SstBlocks.ParseEntries` | src/storage/sst.rs:2710-2747 | the loop computes `ReadBlock` |
| `SstBlocks.ReadRun` | src/storage/sst.rs:455-503 | a block of whole entries is read back as those entries, tombstones included |
| `SstBlocks.Layout` | src/storage/sst.rs:455-503 | where each part of an SST entry stands, and as which bytes |
| `SstBlocks.RoundTripIff` | examples/sst_compression_probe.rs:145-169 | reading the packed blocks gives back the entries, exactly when all lengths fit in 32 bits |
| `ChangelogBlocks.Blocks` | scripts/changelog_cut.py:51-94 | the index loops with look-ahead compute `Parse` |
| `ChangelogBlocks.ParseLossless` | scripts/changelog_cut.py:51-94 | the blocks in order are the body without its trailing blank lines |
| `ChangelogBlocks.BlockEnds` | scripts/changelog_cut.py:51-94 | every block starts and ends with a non-blank line |
| `ChangelogBlocks.IndentedStartIsFirst` | scripts/changelog_cut.py:51-94 | a block that starts indented is the first, or stands right below a heading |
| `ChangelogBlocks.ParseIsCanonical` | scripts/changelog_cut.py:51-94 | everything the parser returns is canonical |
| `ChangelogBlocks.ParseIff` | scripts/changelog_cut.py:51-94 | for every body: the parser gives the one list of blocks, each well formed line by line and starting anew behind the last, that spells the body up to trailing blank lines |
| `ChangelogBlocks.ReadsBackIff` | scripts/changelog_cut.py:51-94 | blocks survive being written and read back exactly when they are canonical |
| `ChangelogBlocks.ClassOfTests` | scripts/changelog_cut.py:39-48 | the tests the parser makes on a line are tests of its class, written out |
| `ChangelogBlocks.SpaceIff` | scripts/changelog_cut.py:39-40 | which characters are spaces |
| `ChangelogSelect.SelectLines` | scripts/changelog_cut.py:101-118 | the loop computes `Select`, whose entries `ChangelogCut.MovesIff` describes |
| `ChangelogSelect.Trim` | scripts/changelog_cut.py:121-127 | outer blank lines go, nothing else |
| `ChangelogSelect.RightStripIs` | scripts/changelog_cut.py:97-98 | all spaces at the end of a line go, and nothing else |
| `ChangelogSelect.KeyIff` | scripts/changelog_cut.py:97-98 | two entries of any number of lines have the same key exactly when they are line by line the same, up to spaces at the ends of the lines |
| `ChangelogSelect.ChosenIff` | scripts/changelog_cut.py:101-118 | the entries written out are exactly the chosen ones |
| `ChangelogSelect.SelectByCategory` | scripts/changelog_cut.py:101-118 | every entry stays in its category, in order, and a category is written once, directly above its first chosen entry, if it has one |
| `ChangelogSelect.SidesPartition` | scripts/changelog_cut.py:101-118 | what two opposite choices write out shares the entries between them, from any point on |
| `ChangelogSelect.SelectPartition` | scripts/changelog_cut.py:149-152 | what stays and what moves are all the entries, each as often as it occurs |
| `ChangelogSelect.ChooseAgain` | scripts/changelog_cut.py:101-118 | choosing again changes nothing |
| `ChangelogSelect.ChooseOther` | scripts/changelog_cut.py:101-118 | the other side finds nothing to take |
| `ChangelogSelect.SideReadsBackIff` | scripts/changelog_cut.py:51-118 | a side reads back exactly when no unspaced paragraph ends up right below another |
| `ChangelogSelect.EverySideReadsBackIff` | scripts/changelog_cut.py:51-118 | every choice gives a side that reads back, exactly when no unspaced paragraph stands in a category that already has one |
| `ChangelogJoin.JoinedCanonical` | scripts/changelog_cut.py:86-93 | joining chosen paragraphs that touch gives blocks that read back as they are |
| `ChangelogJoin.JoinedSameIff` | scripts/changelog_cut.py:86-93 | nothing is joined exactly when no unspaced paragraph stands right below another |
| `ChangelogCut.CutLines` | scripts/changelog_cut.py:130-166 | `main`, step by step, computes `Cut`, errors included |
| `ChangelogCut.SplitIff` | scripts/changelog_cut.py:29-36 | a document is split behind the first line that reads `## [Unreleased]` and before the next release heading, and in no other way |
| `ChangelogCut.CutLayout` | scripts/changelog_cut.py:130-166 | for every document, with or without a tag file: what was up to `[Unreleased]` stays in front, the older releases stay at the end, and between them stand the kept lines, the new heading, and the moved lines or the note, one empty line around each |
| `ChangelogCut.MovesIff` | scripts/changelog_cut.py:97-118 | of the entries of the body exactly those move that have the same lines, up to spaces at their ends, as an entry under `[Unreleased]` in the tag file; the others stay |
| `ChangelogCut.SplitAssembled` | scripts/changelog_cut.py:29-36 | splitting the new document gives the old prefix, the kept entries, and the new release above the untouched rest |
| `ChangelogCut.DocumentConserved` | scripts/changelog_cut.py:130-166 | every line that is neither blank nor a category heading is in the new document exactly as often as in the old one, apart from the new heading and the note |
| `ChangelogCut.KeptReadsBack` | scripts/changelog_cut.py:130-166 | for every body and every choice, the section left under Unreleased reads back as the chosen blocks, with the paragraphs joined that ended up right below each other |
| `ChangelogCut.SecondCutMovesNothingIff` | scripts/changelog_cut.py:130-166 | for every document and tag file, a second cut with the same tag file moves nothing exactly when no kept entry, such paragraphs joined, reads like a released one; then it keeps the same lines |
| `ChangelogCut.SafeIsQuiet` | scripts/changelog_cut.py:101-118 | whatever the tag file, that is so for a body in which no unspaced paragraph stands in a category that already has one |
| `ChangelogCut.SpacedCutMovesNothing` | scripts/changelog_cut.py:130-166 | whatever the tag file, a second cut of a document with a blank line before every paragraph that follows a list entry moves nothing |
| `ChangelogCut.SecondCutCanMove` | scripts/changelog_cut.py:130-166 | a family of documents on which, without the condition, it does |
| `ChangelogText.WrittenReadsBack` | scripts/changelog_cut.py:130-166 | reading back the written text gives the lines that were written |
| `ChangelogText.CutTextLines` | scripts/changelog_cut.py:130-166 | the lines of the output text are what `Cut` makes of the lines of the input text |
| `ChangelogText.TextLayout` | scripts/changelog_cut.py:130-166 | the layout of the new text, with the heading of version and date |
| `ChangelogText.TextMovesIff` | scripts/changelog_cut.py:97-166 | which entries of the text move |
| `ChangelogText.SecondRunMovesNothingIff` | scripts/changelog_cut.py:130-166 | the same for two runs of the script, on text |
| `Backlog.StepKeepsInv` | examples/http_saturation.rs:1034-1076 | every step of the scheduler and of every worker keeps the invariant |
| `Backlog.QueueSteps` | examples/http_saturation.rs:1044-1072 | in every step of every run: a push is dropped and counted exactly when the queue is full and otherwise goes to its end; a worker takes the first item; nothing else changes queue or overruns |
| `Backlog.BacklogBounded` | examples/http_saturation.rs:1034-1076 | in every state of every run: queue and recorded maximum within the cap; the accepted items are those taken, in order, then those queued; pushes = accepted + dropped; overruns = pushes that met a full queue; the recorded maximum is the longest the queue has been, between pushes |
| `Backlog.AllDrained` | examples/http_saturation.rs:1333-1419 | when all workers have stopped, every accepted item was taken exactly once, in order; the books of every worker say, column by column, what came of the requests it finished, and those are all the items it loaded while measuring |
| `Backlog.NeverStuck` | examples/http_saturation.rs:1056-1076 | while a worker is not done, some thread can make a step that changes something |
| `RungGrade.TallyKeeps` | examples/http_saturation.rs:1354-1379 | counting one request keeps the books balanced |
| `RungGrade.TallyCounts` | examples/http_saturation.rs:1354-1379 | books that say what some requests were say it of one more after counting it: answered, rejected, shed and by which limiter, failed before or in the answer, and its time |
| `RungGrade.Aggregate` | examples/http_saturation.rs:1433-1452 | the loops add up the workers' books |
| `RungGrade.TotalOk` | examples/http_saturation.rs:1433-1452 | limited requests = sum of the histogram, at most the non-2xx, at most the completed, in the totals too |
| `RungGrade.ErrorRateBounds` | examples/http_saturation.rs:1454-1455 | the error rate lies between 0 and 1 |
| `RungGrade.ErrorRateIs` | examples/http_saturation.rs:1454-1455 | it is the share of requests that failed or were rejected |
| `RungGrade.Classify` | examples/http_saturation.rs:715-804 | exactly when a rung is admissible, incomplete, and failing each condition |
| `RungGrade.GradeRung` | examples/http_saturation.rs:1433-1487 | exactly when a rung is admissible and incomplete, in numbers; one that counted any 429 is inadmissible |
| `RungGrade.DetectKnee` | examples/http_saturation.rs:831-840 | the knee is the highest rung that is admissible and achieved 95% of its rate, and there is one if any is and did |
| `Ladder.TotalTallied` | examples/http_saturation.rs:1433-1452 | the total of a rung says, column by column, what came of the measured requests of its workers |
| `Ladder.Grade` | examples/http_saturation.rs:1433-1487 | over the requests of a finished run: admissible exactly when the server was busy and the generator was not, nothing was dropped, no request failed or was shed, and at most one in 200 was rejected |
| `Ladder.Climb` | examples/http_saturation.rs:1622-1652 | over rungs graded from finished runs, the knee is the highest such rung that kept up, and there is one if any did; so a rung with a measured 429 is never the knee |
| `Corpus.RoundRobin.Next` | examples/http_saturation.rs:254-259 | the template at the cursor, which moves on and wraps at 64 bits |
| `Corpus.HandOut` | examples/http_saturation.rs:254-259 | what any number of calls hand out, from any cursor, wrapping or not |
| `Corpus.EvenlyHanded` | examples/http_saturation.rs:254-259 | after n calls every template has been handed out n/L times, the first n%L once more |
| `Corpus.FullCycle` | examples/http_saturation.rs:254-259 | any cycle of calls hands out the corpus, every template exactly once |
| `Corpus.Blended` | examples/http_saturation.rs:473-500 | reads, then the built numbers of issuance and login templates |
| `Corpus.BlendOrder` | examples/http_saturation.rs:473-500 | reads first, then issuances in turn, then logins in turn |
| `Corpus.CycleCarriesCorpus` | examples/http_saturation.rs:254-259 | any cycle of calls, wherever it starts, carries each operation as often as the corpus holds it |
| `Corpus.BlendedCounts` | examples/http_saturation.rs:473-500 | every cycle over that corpus carries all n reads, 8n/90 issuances and 2n/90 logins, but at least one of each, and no login without a password |
| `Limiter.LimiterBucket` | examples/http_saturation.rs:1095-1122 | the loop computes `Bucket`; a body without the tag is not attributed |
| `Limiter.SeenIff` | examples/http_saturation.rs:1111-1120 | an identifier is seen exactly when it begins within the first nine bytes behind the tag |
| `Limiter.KnownAttributed` | examples/http_saturation.rs:1095-1122 | a known identifier behind the first tag is found, whatever follows |
| `Limiter.NamedAttributed` | examples/http_saturation.rs:1095-1122 | a body whose first tag names `shaper`, `admin`, `token`, `export` or `login_ip` is counted for it, in this order |
| `Limiter.UnknownUnattributedIff` | examples/http_saturation.rs:1112-1115 | an unknown value is never mistaken exactly when it has at least five bytes |
| `HttpReader.ReadResponse` | examples/http_saturation.rs:1165-1232 | for every split into reads, status, bucket and redirect target are those of the whole response, and so is the error |
| `HttpReader.WholeResponse` | examples/http_saturation.rs:1165-1232 | of a response that arrives whole: its status, its redirect target, and for a 429 the bucket of its body |
| `HttpReader.CutResponse` | examples/http_saturation.rs:1165-1232 | exactly when each of the three errors is reported |
| `HttpReader.ShedResponse` | examples/http_saturation.rs:1165-1232 | a whole 429 whose body names a limiter is counted for that limiter |
| `HttpReader.RoundTrip` | examples/http_delta.rs:1057-1091 | the same with the fixed buffer, which is never indexed past its end |
| `HttpReader.FittedIsParsed` | examples/http_delta.rs:1045-1096 | the fixed-buffer reader never reports another status |
| `HttpReader.FittedIff` | examples/http_delta.rs:1045-1096 | it reports the status of a whole response exactly when head and body fit into 64 KiB |
| `HttpReader.FittedErrors` | examples/http_delta.rs:1045-1096 | exactly when it reports that there is no head, or a bad one |
| `FormCodec.UrlEncode` | examples/http_saturation.rs:513-527 | the loop computes `Encode` |
| `FormCodec.OneIs` | examples/http_saturation.rs:513-527 | which bytes stand for themselves and how the others are written |
| `FormCodec.DecodeEncode` | examples/http_delta.rs:1119-1130 | form decoding undoes both encoders, on every byte string |
| `FormCodec.NoSeparators` | examples/http_saturation.rs:513-527 | neither writes `&` or `=` |
| `FormCodec.LoginBodyReadBack` | examples/http_saturation.rs:445-453 | a login body splits back into exactly its fields |
| `FormCodec.LoginBodyIs` | examples/http_saturation.rs:445-453 | the body, written out |
| `FormCodec.EncodersAgree` | examples/http_delta.rs:780-784 | the two generators' bodies say the same |
| `Regression.LogLogFit` | examples/argon2_saturation.rs:223-253 | the loops compute the best slope and the residual-form R squared of the best line; both are 0 for fewer than two points |
| `Regression.Linreg` | examples/saturation_throughput.rs:1190-1207 | the loop computes the slope and product-form R squared |
| `Regression.FitIsOptimal` | examples/argon2_saturation.rs:223-253 | for every line, how much more it leaves than the fitted one, exactly |
| `Regression.FitIsUnique` | examples/argon2_saturation.rs:223-253 | with spread in x the best line is the only one |
| `Regression.CauchySchwarz` | examples/saturation_throughput.rs:1190-1207 | sxy squared is at most sxx times syy |
| `Regression.R2Bounded` | examples/saturation_throughput.rs:1190-1207 | both forms of R squared lie between 0 and 1 |
| `Regression.R2FormsAgreeIff` | examples/saturation_throughput.rs:1190-1207 | the two forms agree exactly when the points are not spread in y above a single x |
| `Regression.R2FormsDisagree` | examples/argon2_saturation.rs:238-252 | two points on which they differ |
| `Regression.RawIsCentred` | examples/disk_slope_sweep.rs:122-140 | raw sums are centred sums times the number of points |
| `Regression.OlsIsBest` | examples/disk_slope_sweep.rs:122-140 | the raw-sum slope and intercept are the best line's, and can be computed exactly when x is spread |
| `Regression.OlsR2AgreesIff` | examples/disk_slope_sweep.rs:122-140 | its R squared agrees exactly when the total is not below the floor or nothing is left over |
| `Json.CollectRefs` | scripts/admin_openapi.py:22-32 | the walk adds exactly the component schemas referenced under a node |
| `Json.RefsIff` | scripts/admin_openapi.py:22-32 | a name is referenced exactly if an object at the end of some path has `$ref` with it behind `#/components/schemas/` |
| `SchemaClosure.Keep` | scripts/admin_openapi.py:41-54 | the worklist ends on cyclic references; it keeps exactly the schemas that are reached when all are defined, so that no reference under the paths or a kept schema dangles, and fails on a reached name that is not defined |
| `SchemaUpgrade.UpgradedNotOld` | scripts/merge_openapi.py:31-33 | replacing leaves no old reference and makes none |
| `SchemaUpgrade.UpgradeRefFirst` | scripts/merge_openapi.py:31-33 | the first old prefix becomes the new one, and so on behind it |
| `SchemaUpgrade.UpgradeTwice` | scripts/merge_openapi.py:36-57 | converting twice is converting once, for every document |
| `SchemaUpgrade.UpgradeRefs` | scripts/merge_openapi.py:36-57 | the references afterwards are the renamed ones of the visited objects and the unchanged ones of the others |
| `SchemaUpgrade.NoOldLeftIff` | scripts/merge_openapi.py:36-57 | no old reference is left exactly when none is in an object that is not visited |
| `SchemaUpgrade.Upgrade64` | scripts/merge_openapi.py:36-57 | a 64-bit string is left exactly in such an object |
| `SchemaUpgrade.BecomesInteger` | scripts/merge_openapi.py:45-46 | a visited 64-bit string becomes a 64-bit integer, and no field is lost, added or moved; `SchemaUpgrade.FieldKept` says what becomes of all others |
| `SchemaUpgrade.FieldKept` | scripts/merge_openapi.py:36-57 | of an object anywhere in a document: it keeps its keys in their places, and its strings and numbers, but for references, and `type` and `format` of a 64-bit string, where it is visited |
| `SchemaUpgrade.ItemKept` | scripts/merge_openapi.py:43-54 | of a list anywhere in a document: it keeps its length, and its strings and numbers |
| `SchemaUpgrade.UnchangedIff` | scripts/merge_openapi.py:36-57 | a document is left as it is exactly when no visited object has an old reference or is a 64-bit string |
| `SchemaUpgrade.FullyConverted` | scripts/merge_openapi.py:36-57 | without a list directly inside a list, and the schema itself none, nothing is left |
| `SchemaUpgrade.EdgesRenamed` | scripts/merge_openapi.py:31-57 | without a list directly inside a list, and the schema itself none: what `refs` finds afterwards are the names referenced before, in the old form or the new, each with its old prefixes replaced |
| `SchemaUpgrade.EdgesKeptIff` | scripts/merge_openapi.py:31-57 | of such a schema: they are the same names exactly when none has an old prefix in it |
| `SchemaUpgrade.EdgeChanges` | scripts/merge_openapi.py:31-33 | a reference to `a#/definitions/b` names another schema afterwards, whatever `a` and `b` are |
| `SchemaUpgrade.ReachedKeptIff` | scripts/merge_openapi.py:31-57 | over such schemas: from given roots the same are reached before and after, exactly when every such name that a reached schema references is a root, and what it becomes is reached anyway |
| `Base64Url.B64Url` | fuzz/fuzz_targets/aat_parse.rs:46-58 | the nested loops append `Encode` |
| `Base64Url.Alphabet` | fuzz/fuzz_targets/aat_parse.rs:38-39 | the alphabet, written out |
| `Base64Url.EncodeAt` | fuzz/fuzz_targets/aat_parse.rs:46-58 | which sextet every letter stands for |
| `Base64Url.EncodeSize` | fuzz/fuzz_targets/aat_parse.rs:46-58 | the length of the encoding |
| `Base64Url.DecodeEncode` | fuzz/fuzz_targets/aat_parse.rs:46-58 | unpadded base64url decoding inverts it, for all byte strings |
| `Base64Url.DecodeIff` | fuzz/fuzz_targets/aat_parse.rs:46-58 | the decoder accepts exactly the strings the encoder makes |
| `TokenShape.Shape` | fuzz/fuzz_targets/aat_parse.rs:75-91 | the loops build the three joined segments, or nothing for the empty input |
| `TokenShape.TwoDots` | fuzz/fuzz_targets/aat_parse.rs:75-91 | a token has exactly two dots |
| `TokenShape.PiecesAreAll` | fuzz/fuzz_targets/aat_parse.rs:75-91 | the pieces in order are the whole input; the first is a third of it, rounded up, and none is longer than the one before |
| `TokenShape.SegmentDecodes` | fuzz/fuzz_targets/aat_parse.rs:75-91 | a segment decodes to its piece; where the input has run out it is `A`, which does not decode |
| `TokenShape.AllDecodeIff` | fuzz/fuzz_targets/aat_parse.rs:75-91 | all three segments decode exactly when the input is not of length 1, 2 or 4 |
| `TokenShape.UnpaddedLength` | fuzz/fuzz_targets/aat_parse.rs:75-91 | before padding a token is at most twice the input plus two long |

## Left out

- Ssts.Clean: sufficient for the theorems over clean runs; that each of its clauses is needed is proved by families of runs, and the effect of an unclean step on given contents by `Lsm.AbortReadsIff`, `Ssts.CompactedIff`, `Ssts.StragglerWins` and `Ssts.ReadersReturn`.
- How `select_partial_run` picks its run by size: a partial compaction may take any two or more neighbours of the list.
- SSTs that a reload skips because their key is missing, which only `allow_missing_keks` permits.
- Encryption, checksums, file headers and file migration: a WAL record is a frame that opens at its own number or is cut; an SST is a map.
- `SyncMode::None`, which writes without the group and without a sync: only the production mode is modelled.
- Panics inside the commit leader: release builds abort on panic, so the unwinding guard is not part of the model.
- Pages lost from the middle of a WAL segment: a crash leaves a prefix of the frames, with everything a completed sync covered.
- A segment whose header write failed and that then took a single record shorter than the header: the code starts it afresh, the model refuses it; neither holds an acknowledged write.
- The block cache, sampling of promotions, bloom filters and SST indexes: they do not change which entry a read finds.
- `scan`, `put_if_absent`, `increment_u64`, backups and the cluster layer: not part of the model.
- The fairness of the locks: `CommitProgress.CommitFinishes` says where the commit ends when its steps are taken, not when they are.
- Floating-point rounding and logarithms: the regressions and the grading are over real numbers, on points already transformed.
- Wrap-around of the template cursor and of the counters: `Corpus.RoundRobin.Next` wraps at 64 bits, the counting theorems are about calls before that.
- The chunked branch of `read_response`: only Content-Length responses are modelled.
- HttpReader.ReadResponse: how the head is parsed into status, target and length is a parameter, so the result holds for every such parser.
- `limiter_histogram`, `percentile`, `degradation_shape`: short expressions over the counts.
- `omit_operations`, `rename_success`, `patch_schemas` and the rest of the merge script: dictionary edits that would only add easy members.
- Duplicate keys of a JSON object: an object is a sequence of fields, and a document that was parsed has no key twice.
- Unicode: characters stand for bytes in the load generator, and changelog lines are strings of characters.
