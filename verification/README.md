# slatefs in Dafny

A model of the storage and coordination core of slatefs, a filesystem and block store over an object-store
database, with proofs of what it keeps. `dafny verify dfyconfig.toml` checks the whole project.

## What is modelled

**Chunks and bills** (`Chunks`, `Data`, `FileContent`, `Zeroing`, `Trimming`, `Tightness`, `BlockVolume`,
`BlockCheck`, `BlockRuns`). A file or block volume is a map from chunk index to a short byte string; what is absent or
short reads as zero. `Flat` is the byte array it stands for and `Total` the bytes billed for it. Every operation is
proved against both: what the array becomes, and that the counter, the tracker and the true total stay equal at every
commit point. Whether reads, writes and flushes of the database succeed is a parameter of each call.

**Names and the checker** (`Metadata`, `Fsck`, `FsckSound`, `Entries`, `Namespace`, `Removal`, `Moving`, `Filesystem`,
`Reaping`, `Renaming`, `MountSteps`, `Mounted`, `MountedRuns`, `Handles`, `Revivals`). `Fsck.Check` is proved to
report each problem exactly when it is so, nothing exactly when the records are `Clean`, and `Clean` to mean one
directory tree, save that an entry of the root may name the root, paired records, exact link counts and exact bills.
Every operation of a mounted volume, content included, is a step over the same records with the fate of each of its
batches as a parameter. Over every run of steps, through refusals, failed batches, files held open, crashes, and
truncates and reaping cut short, the checker finds nothing and tracker, counters and recount agree, exactly until a
step brings back something the volume had given up. A file that is open keeps its content, with or without a name.

**Locks** (`RangeLocks`, `LockRuns`, `StripedLocks`), **retransmissions** (`Transactions`, `TransactionTracker`),
**quota races** (`Quota`, `QuotaRaces`), **placement** (`Placement`, `Fleet`, `FleetRuns`), **rate limits**
(`RateLimiter`), the **9P codec** (`Wire`, `Utf8`, `NineP`, `NinePCodec`, `NinePLayout`) and **9P listing**
(`ReadDir`). Concurrent code is a state machine over its atomic steps, and its theorems are about every order of
steps. Code that updates state in place is a class or a method proved against functions on values, and the theorems
about whole runs are about those functions.

## Where the code does not meet a natural expectation

For each, the member that shows it and the one that says exactly when the expectation holds.

- A truncate that is interrupted between its batches leaves chunks past the end. Growing the file, or writing past
  them, brings them back with their old bytes and an inexact bill: `FileContent.LeftoverReturns`, and as a run of
  operations `Revivals.RevivedChunk`. Exact conditions: `FileContent.GrownExactIff` and `FileContent.WrittenExactIff` for
  the bill, `FileContent.GrowReadsZeroIff` for the bytes, `MountSteps.SizeStepSoundIff` and
  `MountSteps.WriteStepSoundIff` for what the checker finds.
- `link` to a file that is open but has no name left keeps its orphan marker, so the last close removes the inode under
  the new name: `Revivals.RevivedFile`, exact condition `MountSteps.LinkedThenClosedIff`.
- An open handle keeps a file and its content, with or without a name (`Handles.RunHandle`), but not a directory: `rmdir`
  does not look for handles (`Handles.OpenDirectoryGoes`).
- The checker accepts an entry of the root that names the root itself, a cycle of directories: `FsckSound.RootLoopClean`,
  exact condition `FsckSound.CleanAcyclicIff`. No operation of a mounted volume makes such an entry.
- Rolling back a reservation that freed space can leave more granted than the hard limit:
  `QuotaRaces.FreeRolledBack`, exact condition `QuotaRaces.TakeBackSafeIff`.
- Empty or inverted byte ranges can be refused without a conflicting byte, or leave overlapping pieces:
  `RangeLocks.RefusalExactIff`, `RangeLocks.GrantedKeepsIff`, `RangeLocks.CarvedKeepsIff`. The volume's own entry
  points refuse such ranges before they reach the table.
- A block write with a forced flush reports an error when the flush fails although its data is applied. By the contract
  of `BlockVolumes.BlockVolume.Commit` data is applied exactly if quota admits it and the write itself succeeds.
- Requests that reach a token bucket out of time order are admitted beyond the limit times the elapsed time:
  `RateLimiters.OutOfOrderAdmitsMore`, exact condition `RateLimiters.AllowanceIsElapsedIff`.

## Assumptions

A failed database write applies nothing and a batch applies as a whole. Block volumes have at most 2^32 chunks, as volume
creation enforces, and fewer than 2^63 bytes, which it does not. Operations on one volume happen one at a time; the
striped locks that arrange this are modelled on their own. Times are natural numbers or reals, and real arithmetic
stands for floating point in the rate limiter. Sealing of names is any pair of functions that undo each other.

A predicate of the form `true == (...)` is the plain conjunction; the form keeps the verifier from proving its parts
one by one where the predicate is passed on whole.
Rows of the table that begin with "corollary" read a definition back; they are there to be found, not as results.

## Model

| member | source | states |
|---|---|---|
| `Data.CopyFromChunk` | crates/slatefs-core/src/data.rs:52-63 | copying a chunk into a read buffer changes exactly the bytes of the window that the chunk covers |
| `Data.ReadRange` | crates/slatefs-core/src/data.rs:20-50 | a read is the slice of the flat file, cut at its end; absent and short chunks read as zeroes |
| `Data.ChunkSpan` | crates/slatefs-core/src/data.rs:14-16 | the chunks touched by a range are exactly those from the first to the last index |
| `Data.WriteChunk` | crates/slatefs-core/src/data.rs:94-132 | a read-modify-write of one chunk reads back as the old bytes with the data laid over them |
| `Data.PlanWrite` | crates/slatefs-core/src/data.rs:77-139 | a planned write puts exactly the touched chunks, each the old live content overlaid with the data, and its delta is the change of the total bill over what is live |
| `Data.ScanTruncate` | crates/slatefs-core/src/data.rs:160-207 | the scan finds the one cut tail, every doomed chunk in ascending order, and the exact change of the total bill |
| `Data.PlanTruncate` | crates/slatefs-core/src/data.rs:152-208 | a truncate plan cuts every chunk at the new end, deletes exactly the chunks at or past it, and bills exactly the difference; growing plans nothing |
| `FileContent.TruncateCrashPoint` | crates/slatefs-core/src/vfs_impl.rs:601-646 | after the first batch and any subset of the later deletes the bill is exact, and the file reads as the old one cut at the new size |
| `FileContent.GrowExactIff` | crates/slatefs-core/src/data.rs:152-158 | growing with a zero delta is exact if and only if no leftover chunk lies between the old end and the new one |
| `FileContent.LeftoverReturns` | crates/slatefs-core/src/vfs_impl.rs:601-648 | for every chunk size, a file of 1026 chunks truncated to one with its second batch of deletes lost: growing it back breaks the bill and brings back a chunk of old bytes |
| `FileContent.WriteExactIff` | crates/slatefs-core/src/data.rs:94-132 | the planned delta of a write is the true change if and only if it covers every leftover that it brings back into the file |
| `FileContent.WriteReads` | crates/slatefs-core/src/data.rs:94-132 | a write that leaves no leftover uncovered reads as the old file, zero-filled to its new end, with the data laid over it |
| `FileContent.DeleteInBatches` | crates/slatefs-core/src/vfs_impl.rs:617-646 | the inline deletes and the follow-up groups remove a prefix of the doomed chunks, 1024 at a time |
| `FileContent.Resize` | crates/slatefs-core/src/vfs_impl.rs:601-648 | setattr of the size computes the resized file and its change of bill, wherever its groups of deletes stop, and says whether all were done |
| `FileContent.ShrunkReads` | crates/slatefs-core/src/vfs_impl.rs:601-648 | wherever a truncate stops after its first batch, the file reads as the old one cut at the new end, an exact bill stays exact and is no larger |
| `FileContent.GrownExactIff` | crates/slatefs-core/src/vfs_impl.rs:601-648 | growth keeps the bill exact if and only if it brings back no leftover chunk |
| `FileContent.GrowReadsZeroIff` | crates/slatefs-core/src/data.rs:152-158 | growth reads as the old bytes followed by zeroes if and only if every leftover it brings back is zero as far as the new end |
| `FileContent.WriteFile` | crates/slatefs-core/src/vfs_impl.rs:697-706 | a write computes the written file and its change of bill |
| `FileContent.WrittenExactIff` | crates/slatefs-core/src/vfs_impl.rs:697-730 | a write keeps the bill exact if and only if it covers every leftover it brings back, and then the file reads as the old one, zero-filled to its new end, with the data laid over it |
| `Quota.QuotaTracker.Reserve` | crates/slatefs-core/src/quota.rs:141-158 | a reservation moves both counters or neither; it is refused exactly when a counter that was to grow would pass its hard limit, or its soft limit after the grace period; so within the grace period only the hard limit refuses, and after it no growth ends over the soft limit |
| `Quota.QuotaTracker.Release` | crates/slatefs-core/src/quota.rs:161-164 | a release takes both deltas back |
| `Quota.QuotaTracker.Charge` | crates/slatefs-core/src/vfs_impl.rs:705-730 | a reservation is refused by the rule above, stays if its batch is written and is taken back if not |
| `QuotaRaces.StepBalanced` | crates/slatefs-core/src/quota.rs:141-164 | every atomic step of every thread keeps each counter equal to its start plus the deltas now charged to it |
| `QuotaRaces.StepWithin` | crates/slatefs-core/src/quota.rs:141-158 | a step keeps what is admitted within the hard limit unless it takes back a free |
| `QuotaRaces.RunWithin` | crates/slatefs-core/src/quota.rs:141-164 | in every interleaving of any number of threads that starts within the hard limit and takes back no free, the admitted total never passes the hard limit, for bytes and for inodes |
| `QuotaRaces.NoResidue` | crates/slatefs-core/src/quota.rs:141-164 | once all threads are done, each counter is its start plus exactly what was granted and kept |
| `QuotaRaces.FreeRolledBack` | crates/slatefs-core/src/quota.rs:161-164 | for every limit and every free, an interleaving in which rolling the free back leaves more granted than the hard limit |
| `QuotaRaces.TakeBackSafeIff` | crates/slatefs-core/src/quota.rs:141-164 | taking back reservations of a given delta is safe in every company and order if and only if the delta is no free |
| `Zeroing.TrimTrailingZeroes` | crates/slatefs-core/src/block.rs:733-737 | popping trailing zeroes computes the shortest value that reads the same |
| `Zeroing.TrimTrailingReads` | crates/slatefs-core/src/block.rs:733-737 | the trimmed value reads the same at every position and does not end in a zero |
| `Zeroing.ZeroChunk` | crates/slatefs-core/src/block.rs:285-319 | zeroing an existing chunk stages its deletion, its shortened form or nothing, with the exact change of its bill; what it stages is never empty and never ends in a zero |
| `Zeroing.StageChunk` | crates/slatefs-core/src/block.rs:285-319 | staging a chunk leaves the rest of the batch alone and adds the exact change of the total bill |
| `Zeroing.StageRange` | crates/slatefs-core/src/block.rs:489-505 | chunk by chunk, a range is zeroed exactly, stays in bounds and never bills more |
| `Zeroing.ZeroedFlat` | crates/slatefs-core/src/block.rs:476-510 | a zeroed chunk map is the flat array with exactly that range zero |
| `Zeroing.BetweenFlat` | crates/slatefs-core/src/block.rs:379-474 | half-way through, each byte of the range is old or zero and every other byte is old |
| `Tightness.ZeroedIff` | crates/slatefs-core/src/block.rs:285-319 | zeroing chunk by chunk leaves exactly the one map that lies in bounds, reads as the array with the range zero, keeps every chunk that the range neither covers nor shares a stored byte with, and holds no other chunk that is empty or ends in a zero |
| `Tightness.TightLeast` | crates/slatefs-core/src/block.rs:285-319 | and no map that reads the same and keeps the same chunks has a smaller total bill |
| `Chunks.BillCounts` | crates/slatefs-core/src/quota.rs:64-66 | the total bill of any chunk map is the number of its stored bytes below the end of file |
| `Trimming.StageEdges` | crates/slatefs-core/src/block.rs:387-422 | trim stages the two partly covered ends and finds the fully covered range between them |
| `Trimming.ScanBatch` | crates/slatefs-core/src/block.rs:424-456 | one scan stages deletes of the first stored chunks of the covered range, up to the batch limit, with the exact delta |
| `BlockVolumes.BlockVolume.Commit` | crates/slatefs-core/src/block.rs:228-244 | the chunks are those of the batch unless quota refuses it or the write fails, and the old ones then, so a failed forced flush reports an error over data that is applied; refusal is exactly the quota rule; the volume is dead afterwards exactly if a failure showed that it is fenced |
| `BlockVolumes.BlockVolume.Read` | crates/slatefs-core/src/block.rs:328-341 | a read succeeds exactly if the volume lives, the range is inside and the store reads, and returns exactly the slice of the flat array; the volume dies exactly by a failure that shows it fenced |
| `BlockVolumes.BlockVolume.Write` | crates/slatefs-core/src/block.rs:343-373 | the data is overlaid if the volume lives, the range is inside, the store reads and writes and quota admits, and nothing changes otherwise; success is exactly that with no failed flush; quota refuses exactly when the new total bill would pass the limit; when it dies is exact too |
| `BlockVolumes.BlockVolume.WriteZeroes` | crates/slatefs-core/src/block.rs:476-510 | exactly the range is zeroed if the volume lives, the range is inside and the store reads and writes, and nothing changes otherwise; never refused by quota; after success no chunk the range changed is empty or ends in a zero, and the bill is the least of any map that reads so and keeps the other chunks |
| `BlockVolumes.BlockVolume.TrimBatch` | crates/slatefs-core/src/block.rs:424-474 | one batch of a trim moves every chunk toward its zeroed form, and a repeated pass leaves strictly fewer chunks in the covered range |
| `BlockVolumes.BlockVolume.TrimBatches` | crates/slatefs-core/src/block.rs:386-474 | the batch loop ends; it zeroes the range, or stops between batches with every chunk old or zeroed |
| `BlockVolumes.BlockVolume.Trim` | crates/slatefs-core/src/block.rs:379-474 | a trim zeroes exactly its range, and after a failure between batches every chunk is old or zeroed; after success the map is the tightest and its bill the least, as for zeroes; counters stay exact throughout |
| `BlockVolumes.ScannedFewer` | crates/slatefs-core/src/block.rs:424-474 | the termination measure of trim: a repeated pass deletes at least one stored chunk of the covered range |
| `BlockVolumes.StageWrite` | crates/slatefs-core/src/block.rs:343-373 | the staged batch of a write is the overlay, with its exact delta |
| `BlockCheck.CheckBlock` | crates/slatefs-core/src/fsck.rs:171-232 | each problem is reported exactly when its own key is wrong that way: a foreign key, a chunk of another inode, past the size or too long, or a missing superblock; the byte count is the total bill |
| `BlockCheck.RecountBlock` | crates/slatefs-core/src/fsck.rs:445-455 | a recount stores the true total and leaves the chunks alone |
| `BlockCheck.CheckVolume` | crates/slatefs-core/src/fsck.rs:171-232 | at every commit point the checker finds no problem and no drift between its count and the counter |
| `BlockRuns.Perform` | crates/slatefs-core/src/block.rs:328-510 | every operation is explained by the flat array: a write has its full effect or none according to whether it landed, and one that landed succeeds exactly if no flush fails; a failed trim leaves each byte of its range old or zero; a dead volume refuses everything, and it dies exactly by a failure that shows it fenced |
| `BlockRuns.Run` | crates/slatefs-core/src/block.rs:328-510 | over every run the chunk map refines one flat array; with a working store and no limit the run computes exactly what the array model computes |
| `BlockRuns.TrimOrWriteZeroes` | crates/slatefs-core/src/block.rs:379-510 | batched trim and per-chunk write_zeroes over a range end in the identical chunk map, counter and tracker |
| `BlockRuns.SnapshotRead` | crates/slatefs-core/src/block.rs:688-702 | a snapshot read returns exactly the slice of the snapshot's flat array |
| `Fsck.CheckRoot` | crates/slatefs-core/src/fsck.rs:248-258 | the root check passes exactly when the root is a directory that is its own parent, and reports each way it is not |
| `Fsck.CheckDirent` | crates/slatefs-core/src/fsck.rs:266-311 | an entry passes exactly when its parent, child, index record and name all agree, and each problem is reported exactly when it is so |
| `Fsck.ScanDirents` | crates/slatefs-core/src/fsck.rs:261-311 | the entry scan passes exactly when all entries do, and its tallies are the true numbers of names, of child directories and the true children |
| `Fsck.ScanIndex` | crates/slatefs-core/src/fsck.rs:313-321 | the index scan passes exactly when every index record belongs to an entry |
| `Fsck.CheckInode` | crates/slatefs-core/src/fsck.rs:325-380 | an inode passes exactly when its link count, symlink target, chunk sizes and bill are right |
| `Fsck.RecountBytes` | crates/slatefs-core/src/fsck.rs:358-380 | the byte count is the sum of the true bills of all inodes |
| `Fsck.Search` | crates/slatefs-core/src/fsck.rs:402-414 | the breadth-first search reaches exactly the inodes to which a path of entries leads from the root |
| `Fsck.Check` | crates/slatefs-core/src/fsck.rs:234-428 | no problem is reported if and only if the volume is clean, and each problem if and only if the record it names is wrong in that way |
| `FsckSound.CleanTree` | crates/slatefs-core/src/fsck.rs:266-297 | in a clean volume every directory but the root is named by exactly one entry, which is in its parent_dir, and parent_dir leads to the root in finitely many steps |
| `FsckSound.CleanAcyclic` | crates/slatefs-core/src/fsck.rs:402-423 | in a clean volume no directory below the root is its own ancestor |
| `FsckSound.CleanAcyclicIff` | crates/slatefs-core/src/fsck.rs:266-423 | the entries of a clean volume run in no cycle from directory to directory if and only if none of them names the root |
| `FsckSound.RootLoopClean` | crates/slatefs-core/src/fsck.rs:266-423 | a volume whose one entry is the root under a name of its own is clean, and runs in a cycle |
| `FsckSound.CleanBijection` | crates/slatefs-core/src/fsck.rs:266-321 | in a clean volume name records and index records are in bijection and agree |
| `FsckSound.CleanLinkCounts` | crates/slatefs-core/src/fsck.rs:342-352 | corollary: in a clean volume a file's link count is the number of its names, or it is a marked orphan with none |
| `Namespace.InvClean` | crates/slatefs-core/src/fsck.rs:234-428 | the invariant of the operations makes the volume clean, and the persistent counters equal to the recount |
| `Filesystem.CreatedKeeps` | crates/slatefs-core/src/vfs_impl.rs:315-364 | creating a node keeps the invariant |
| `Filesystem.LinkedKeepsIff` | crates/slatefs-core/src/vfs_impl.rs:866-915 | link keeps the invariant if and only if the inode had a link left; `MountSteps.LinkedThenClosedIff` says what the checker finds |
| `Filesystem.UnnamedKeeps` | crates/slatefs-core/src/vfs_impl.rs:943-970 | removing a name keeps the invariant whether the file lives on, is held open or dies |
| `Filesystem.EmptiedKeeps` | crates/slatefs-core/src/vfs_impl.rs:974-1038 | removing an empty directory keeps the invariant |
| `Filesystem.RenamedKeeps` | crates/slatefs-core/src/vfs_impl.rs:1182-1230 | moving an entry keeps the invariant when the target does not lie below what is moved |
| `Reaping.TakeBatch` | crates/slatefs-core/src/volume.rs:1446-1458 | one batch deletes the first 1024 chunks in key order, or all that are left |
| `Reaping.ReapChunks` | crates/slatefs-core/src/volume.rs:1443-1478 | with so many writes succeeding, exactly that many batches of chunks are gone; reaping is done exactly if one write more than the batches succeeds |
| `Reaping.ReapData` | crates/slatefs-core/src/volume.rs:1443-1478 | reaping changes only the chunks of the orphan until its last batch, which takes what is left with the marker |
| `Reaping.DroppedKeeps` | crates/slatefs-core/src/vfs_impl.rs:408-421 | dropping the record of an orphan with its bill keeps the invariant |
| `Reaping.ReapedKeeps` | crates/slatefs-core/src/volume.rs:1443-1478 | reaping stopped after any batch keeps the invariant |
| `Filesystem.RewrittenKeeps` | crates/slatefs-core/src/vfs_impl.rs:711-730 | a content batch that bills what it stores keeps the whole volume's invariant; `MountSteps.StoredSoundIff` and the two after it tie it to planned writes and truncates |
| `Filesystem.FormattedSound` | crates/slatefs-core/src/volume.rs:594-636 | a new volume satisfies the invariant |
| `Filesystem.FindAbove` | crates/slatefs-core/src/vfs_impl.rs:1112-1129 | the walk up parent_dir ends and finds the moved directory exactly when it is an ancestor of the target |
| `Filesystem.BelowIff` | crates/slatefs-core/src/vfs_impl.rs:1112-1129 | the walk decides exactly whether the target lies at or below the moved directory |
| `MountSteps.MakeStepSound` | crates/slatefs-core/src/vfs_impl.rs:315-364 | creating a node keeps the volume sound whether refused, over quota, not written or done, and when done adds exactly one name, which leads to the new inode |
| `MountSteps.CreateStepSound` | crates/slatefs-core/src/vfs_impl.rs:736-767 | create keeps the volume sound |
| `MountSteps.LinkStepSoundIff` | crates/slatefs-core/src/vfs_impl.rs:866-915 | link keeps the volume sound exactly unless it links a file that has no name left, leaves it clean to the checker either way, and adds exactly one name |
| `MountSteps.LinkedThenClosedIff` | crates/slatefs-core/src/vfs_impl.rs:866-915 | after a link and the last close of the file, which settles it if it is marked, the checker finds nothing if and only if the file still had a name when it was linked |
| `MountSteps.UnlinkStepSound` | crates/slatefs-core/src/vfs_impl.rs:917-972 | unlink keeps the volume sound wherever it stops, reaping included |
| `MountSteps.RmdirStepSound` | crates/slatefs-core/src/vfs_impl.rs:974-1038 | rmdir keeps the volume sound |
| `MountSteps.RenameStepSound` | crates/slatefs-core/src/vfs_impl.rs:1040-1250 | rename keeps the volume sound wherever it stops, reaping of a replaced file included |
| `MountSteps.SettleFile` | crates/slatefs-core/src/vfs_impl.rs:408-424 | settling removes the record and bill in one batch, then the data, or stops before or between |
| `MountSteps.CloseStepSound` | crates/slatefs-core/src/vfs_impl.rs:1411-1427 | close keeps the volume sound, also when settling fails |
| `MountSteps.ReapOrphans` | crates/slatefs-core/src/volume.rs:1484-1509 | the reaper at mount settles the orphans in ascending order and stops at the first that fails |
| `MountSteps.MountStepSound` | crates/slatefs-core/src/volume.rs:1484-1509 | a mount that stops anywhere leaves the volume sound |
| `MountSteps.MountStepSettles` | crates/slatefs-core/src/volume.rs:1484-1509 | a mount changes nothing but what belongs to orphans, drops a marker only with the record, chunks and target that belong to it, and gets through exactly if no marker is left |
| `MountSteps.StoredSoundIff` | crates/slatefs-core/src/vfs_impl.rs:711-730 | a content batch keeps the volume sound, and leaves it clean to the checker, if and only if its bill is exact |
| `MountSteps.WriteStepSoundIff` | crates/slatefs-core/src/vfs_impl.rs:679-734 | a write, refused, failed or done, keeps the volume sound, and clean to the checker, exactly unless it brings back a leftover chunk that it does not cover |
| `MountSteps.SizeStepSoundIff` | crates/slatefs-core/src/vfs_impl.rs:601-648 | a change of size, wherever it stops, keeps the volume sound, and clean to the checker, exactly unless it grows over a leftover chunk |
| `MountSteps.LinkedNames` | crates/slatefs-core/src/vfs_impl.rs:885-909 | corollary: link adds exactly one name, which leads to the inode |
| `MountSteps.UnnamedNames` | crates/slatefs-core/src/vfs_impl.rs:943-961 | corollary: unlink removes exactly that name, and the inode exactly with the last name of a closed file |
| `MountSteps.EmptiedNames` | crates/slatefs-core/src/vfs_impl.rs:1010-1031 | corollary: rmdir removes exactly that name and the directory it named |
| `MountedVolumes.InsertNode` | crates/slatefs-core/src/vfs_impl.rs:315-364 | once quota has been asked, a node is created exactly if it was admitted and the batch lands, and starts with the links, size and parent of its kind; its inode number is spent either way; each error is given exactly in its case |
| `MountedVolumes.UnlinkFile` | crates/slatefs-core/src/vfs_impl.rs:917-972 | unlink goes through exactly for a name that exists and leads to no directory, when the batch lands, and each error is given exactly in its case |
| `MountedVolumes.RemoveDir` | crates/slatefs-core/src/vfs_impl.rs:974-1038 | rmdir goes through exactly for a name that leads to an empty directory, when the batch lands; not found, no directory and not empty are told apart exactly |
| `MountedVolumes.PlanFileSize` | crates/slatefs-core/src/vfs_impl.rs:601-636 | a change of size never bills more, so quota never refuses it |
| `MountedVolumes.MountedVolume.constructor` | crates/slatefs-core/src/volume.rs:594-636 | mkfs leaves a sound volume whose tracker agrees with its counters |
| `MountedVolumes.MountedVolume.Make` | crates/slatefs-core/src/vfs_impl.rs:769-853 | mkdir, mknod and symlink succeed exactly if the parent is a directory, the name is free, quota admits and the batch lands, and each error is given exactly in its case; the tracker stays equal to the counters |
| `MountedVolumes.MountedVolume.Create` | crates/slatefs-core/src/vfs_impl.rs:736-767 | on a taken name create succeeds exactly if it need not be new and is no directory, returns what the name leads to and changes nothing; otherwise as above |
| `MountedVolumes.MountedVolume.Link` | crates/slatefs-core/src/vfs_impl.rs:866-915 | link succeeds exactly for a non-directory, a directory and a free name when the batch lands, each error is given exactly in its case, and the volume stays sound exactly if the inode had a link |
| `MountedVolumes.MountedVolume.Unlink` | crates/slatefs-core/src/vfs_impl.rs:917-972 | unlink removes the name, and with the last one of a closed file its record and bill, then its chunks batch by batch; the tracker is freed once the batch lands, whatever becomes of the reaping |
| `MountedVolumes.MountedVolume.Rmdir` | crates/slatefs-core/src/vfs_impl.rs:974-1038 | rmdir succeeds exactly on an empty directory when the batch lands, and frees its inode in tracker and counter |
| `Renaming.CheckRename` | crates/slatefs-core/src/vfs_impl.rs:1078-1161 | the checks of rename pass exactly for the renames allowed, and each refusal is given exactly in its case: a stale or wrong parent, a move below itself, a target of the other kind, a target that is not empty |
| `Renaming.RenameSound` | crates/slatefs-core/src/vfs_impl.rs:1131-1230 | a rename that passes its checks, replacing what the target name held, keeps the volume sound |
| `Renaming.RenamedNames` | crates/slatefs-core/src/vfs_impl.rs:1182-1230 | after a rename the new name leads where the old one did, the old name is gone and no other name changed |
| `MountedVolumes.MountedVolume.Rename` | crates/slatefs-core/src/vfs_impl.rs:1040-1250 | rename is a no-op between names of one inode, is refused without effect, or is that batch followed by reaping batch by batch; the volume stays sound and the tracker equal to the counters |
| `MountedVolumes.MountedVolume.Settle` | crates/slatefs-core/src/vfs_impl.rs:408-424 | an orphan's record and bill go in one batch, with the tracker, and its data in batches after it, as far as they are written |
| `MountedVolumes.MountedVolume.Close` | crates/slatefs-core/src/vfs_impl.rs:1411-1427 | closing the last handle of a marked file settles it, or fails where settling fails; the handle is gone either way |
| `MountedVolumes.MountedVolume.Remount` | crates/slatefs-core/src/volume.rs:1256-1272 | after a crash handles and tracker are gone, the reaper takes its step, and the new tracker starts from the counters |
| `MountedVolumes.MountedVolume.Write` | crates/slatefs-core/src/vfs_impl.rs:679-734 | a write is empty, refused as too big, stale, no file or over quota, each exactly in its case, fails, or stores the planned file; tracker and counters stay equal, and the volume stays sound exactly unless an uncovered leftover comes back |
| `MountedVolumes.MountedVolume.SetSize` | crates/slatefs-core/src/vfs_impl.rs:601-648 | a change of size stores the resized file as far as its batches are written; tracker and counters stay equal, and the volume stays sound exactly unless a leftover comes back |
| `MountedRuns.StepSoundIff` | crates/slatefs-core/src/vfs_impl.rs:601-1427 | one operation, whatever its fate, keeps the volume sound exactly unless it revives a file or a chunk; the checker finds a revived chunk at once |
| `MountedRuns.RunClean` | crates/slatefs-core/src/vfs_impl.rs:601-1427 | in every run, as long as nothing is revived, the volume is clean to the checker and the counters are what it counts |
| `MountedRuns.RunRevives` | crates/slatefs-core/src/vfs_impl.rs:601-1427 | the first operation that revives something leaves the checker a problem: at once if it is a chunk, and if it is a file when its last close comes next |
| `MountedRuns.Perform` | crates/slatefs-core/src/vfs_impl.rs:601-1427 | the volume in place takes the step, and stays valid exactly unless it revives something |
| `MountedRuns.Run` | crates/slatefs-core/src/vfs_impl.rs:601-1427 | running operations passes through states each of which follows from the one before, up to the first that revives something |
| `MountedRuns.CheckAfter` | crates/slatefs-core/src/fsck.rs:234-428 | after a run the checker finds something if and only if some operation revived a chunk; if none revived anything its counts are the counters |
| `Handles.HandleKeeps` | crates/slatefs-core/src/vfs_impl.rs:371-402 | one operation leaves a file that stays open as it is, with or without a name, unless it writes or resizes that file |
| `Handles.RunHandle` | crates/slatefs-core/src/vfs_impl.rs:371-424 | in every run that revives nothing, a file is there as long as a handle on it is open, and its size, bill and chunks change only by writing or resizing it |
| `Handles.OpenDirectoryGoes` | crates/slatefs-core/src/vfs_impl.rs:974-1038 | corollary: an empty directory goes with rmdir whether or not a handle is open on it |
| `Handles.LastCloseFrees` | crates/slatefs-core/src/vfs_impl.rs:1411-1427 | the last close of a file without a name, when it gets through, leaves no record, chunk, target or marker of it and touches nothing else; a file with a name is left alone |
| `Revivals.RevivedFile` | crates/slatefs-core/src/vfs_impl.rs:866-915 | create, open, unlink, link again, close: the checker finds a problem |
| `Revivals.RevivedChunk` | crates/slatefs-core/src/vfs_impl.rs:601-648 | create, write 1026 chunks, truncate to one with the second batch lost, grow back: the checker finds a problem |
| `RangeLocks.FindBlock` | crates/slatefs-core/src/locks.rs:120-130 | the search returns the first stored lock in the way |
| `RangeLocks.RefusedByByte` | crates/slatefs-core/src/locks.rs:117-130 | for a request of at least one byte, refusal is exactly some byte held incompatibly by another owner |
| `RangeLocks.RefusalExactIff` | crates/slatefs-core/src/locks.rs:88-99 | with 64-bit offsets, refusal means a byte conflict on every well-formed table if and only if the range has a byte, ends at zero or starts at the last offset |
| `RangeLocks.Carve` | crates/slatefs-core/src/locks.rs:174-201 | carving keeps untouched locks in order and appends the surviving pieces |
| `RangeLocks.CarvedMode` | crates/slatefs-core/src/locks.rs:174-201 | carving frees exactly the bytes of the range, for its owner only, for every range |
| `RangeLocks.CarvedKeepsIff` | crates/slatefs-core/src/locks.rs:174-201 | carving keeps stored ranges non-empty, each owner's disjoint and exclusive bytes exclusive if and only if the range is not inverted or cuts nothing |
| `RangeLocks.GrantedMode` | crates/slatefs-core/src/locks.rs:131-135 | a granted lock sets exactly its bytes, for its owner only |
| `RangeLocks.GrantedKeepsIff` | crates/slatefs-core/src/locks.rs:117-136 | a granted lock keeps the table well formed if and only if it asks for at least one byte |
| `RangeLocks.SingleDisjoint` | crates/slatefs-core/src/locks.rs:174-201 | two stored locks of one owner never overlap |
| `RangeLocks.OthersMode` | crates/slatefs-core/src/locks.rs:164-170 | dropping an owner frees all its bytes and changes nothing for others |
| `RangeLocks.RangeLockTable.TryLock` | crates/slatefs-core/src/locks.rs:117-136 | refused with the first lock in the way and no effect, or sets exactly its bytes on its file for its owner |
| `RangeLocks.RangeLockTable.Test` | crates/slatefs-core/src/locks.rs:139-151 | returns exactly the lock that try_lock would be refused with |
| `RangeLocks.RangeLockTable.Unlock` | crates/slatefs-core/src/locks.rs:153-161 | clears exactly the bytes of the range for the owner |
| `RangeLocks.RangeLockTable.UnlockOwner` | crates/slatefs-core/src/locks.rs:164-170 | clears every byte of one owner on every file and nothing else |
| `LockRuns.ExclusionStep` | crates/slatefs-core/src/locks.rs:117-170 | a step that grants a lock only over bytes not held against it keeps exclusive bytes exclusive |
| `LockRuns.Run` | crates/slatefs-core/src/locks.rs:117-170 | in every run with any ranges the table shows exactly the bytes that the run has set, and at no moment is a byte exclusive for one owner and held by another; if every range is proper, a lock is refused exactly when one of its bytes is held incompatibly |
| `StripedLocks.PlanMany` | crates/slatefs-core/src/locks.rs:46-55 | write_many takes exactly the stripes of its inodes, ascending and once each |
| `StripedLocks.PlanRange` | crates/slatefs-core/src/locks.rs:60-77 | write_range takes, ascending, every stripe that an index of the range falls into, on both branches |
| `StripedLocks.MutualExclusion` | crates/slatefs-core/src/locks.rs:46-77 | in every run, two tasks whose requests share a key never hold all their guards together |
| `StripedLocks.NoDeadlock` | crates/slatefs-core/src/locks.rs:44-77 | while some task is unfinished, some task can make a step |
| `StripedLocks.RunBounded` | crates/slatefs-core/src/locks.rs:46-77 | every run is as long as the work it has done, so none is longer than a fixed bound |
| `StripedLocks.StuckMeansDone` | crates/slatefs-core/src/locks.rs:44-77 | a run that cannot be continued has finished every task |
| `Transactions.AddAccepts` | crates/nfs3-server/src/transaction_tracker.rs:193-207 | a call is accepted exactly when its xid is unknown and fewer than the maximum are in progress |
| `Transactions.AddRemembers` | crates/nfs3-server/src/transaction_tracker.rs:193-207 | accepting a call records it and forgets only completed calls of a list that has outgrown its limit |
| `Transactions.FinishKeeps` | crates/nfs3-server/src/transaction_tracker.rs:209-217 | at a live lock the record is found in progress and the counter is positive, so neither the assertion nor the subtraction can fail |
| `Transactions.FinishRemembers` | crates/nfs3-server/src/transaction_tracker.rs:282-289 | dropping a lock completes its call and forgets only stale ones |
| `Transactions.AgedRemembers` | crates/nfs3-server/src/transaction_tracker.rs:221-229 | purging forgets only stale completed calls |
| `Transactions.SweptIff` | crates/nfs3-server/src/transaction_tracker.rs:221-229 | of a sorted list, what goes is the longest front of calls completed more than the age ago, so a record goes exactly if it and every record of a lower xid are that old |
| `Transactions.DoInv` | crates/nfs3-server/src/transaction_tracker.rs:29-93 | every start, lock drop and cleanup keeps each list strictly sorted, the counter right and within the maximum, and the live locks exactly the calls in progress |
| `Transactions.ActiveIsLive` | crates/nfs3-server/src/transaction_tracker.rs:148-156 | a client's counter is the number of its live locks |
| `Transactions.DoRemembers` | crates/nfs3-server/src/transaction_tracker.rs:80-93 | one event loses a record only if its call has completed and is stale, or is over the limit when a new call arrives |
| `Transactions.SweepForgetsIff` | crates/nfs3-server/src/transaction_tracker.rs:80-93 | a lock drop or a cleanup forgets a completed call exactly if it and all calls of the client with a lower xid completed more than the age ago |
| `Transactions.RunExists` | crates/nfs3-server/src/transaction_tracker.rs:29-93 | every sequence of events can be run up to the first drop of a lock that is not live, keeping the invariant |
| `Transactions.PendingStays` | crates/nfs3-server/src/transaction_tracker.rs:193-258 | in every run a call in progress stays recorded until its own lock drops |
| `Transactions.ForgottenWhen` | crates/nfs3-server/src/transaction_tracker.rs:221-258 | in every run a recorded xid is lost only at a step that finds it completed and forgettable |
| `Transactions.AcceptedAgain` | crates/nfs3-server/src/transaction_tracker.rs:29-93 | in every run an accepted xid is accepted again only after its lock dropped and its record was then forgotten as stale or over the limit |
| `Transactions.AcceptedAfterSweep` | crates/nfs3-server/src/transaction_tracker.rs:29-93 | in every run, once a drop or a cleanup of the client has come when an xid and all below it were stale, a call with that xid is accepted exactly if the client has fewer live locks than the maximum |
| `TransactionTrackers.ClientTransactions.FindTransaction` | crates/nfs3-server/src/transaction_tracker.rs:176-191 | the search finds the xid or the place where it belongs |
| `TransactionTrackers.ClientTransactions.AddTransaction` | crates/nfs3-server/src/transaction_tracker.rs:193-207 | adds, trims and refuses as specified; after an accepted call the list is within its limit or a call in progress is in front |
| `TransactionTrackers.ClientTransactions.TrimIfNeeded` | crates/nfs3-server/src/transaction_tracker.rs:247-258 | what goes are the first completed calls, no more than brings the list to its limit, and then the list is within it or a call in progress is in front |
| `TransactionTrackers.ClientTransactions.CompleteTransaction` | crates/nfs3-server/src/transaction_tracker.rs:209-217 | marks the call completed and lowers the counter |
| `TransactionTrackers.ClientTransactions.RemoveOldTransactions` | crates/nfs3-server/src/transaction_tracker.rs:221-229 | what goes is the longest front of calls completed more than the age ago |
| `TransactionTrackers.ClientTransactions.IsActive` | crates/nfs3-server/src/transaction_tracker.rs:231-243 | active exactly if used recently or some call is not stale |
| `TransactionTrackers.TransactionTracker.StartTransaction` | crates/nfs3-server/src/transaction_tracker.rs:29-70 | the tracker in place takes the start step, notes the time, and hands out a lock exactly when the call is accepted |
| `TransactionTrackers.TransactionTracker.DropLock` | crates/nfs3-server/src/transaction_tracker.rs:282-289 | a dropped lock takes the drop step in the record it points to, after which no stale call is in front |
| `TransactionTrackers.TransactionTracker.Cleanup` | crates/nfs3-server/src/transaction_tracker.rs:80-93 | cleanup forgets exactly the clients not heard for the age whose calls are all stale, and leaves no stale call in front of any other |
| `Placement.ChangedKeeps` | crates/slatefs-core/src/control.rs:1729-1944 | every change of a placement record keeps its endpoints on the primary, the primary out of its distinct standbys, unassigned exactly without primary, and drains consistent with it |
| `Placement.ChangedGeneration` | crates/slatefs-core/src/control.rs:1729-1944 | a change of primary raises the generation by one below saturation, no change lowers it and none passes 64 bits |
| `Placement.ChangedEndpoint` | crates/slatefs-core/src/control.rs:1783-1807 | a new owner retargets each endpoint under its next generation, setting one replaces what was set under its next generation, and nothing else touches it |
| `Placement.GenerationNamesPrimary` | crates/slatefs-core/src/control.rs:1729-1944 | in every run, two moments with the same unsaturated generation have the same primary and all endpoints on it |
| `Placement.GenerationCounts` | crates/slatefs-core/src/control.rs:1729-1944 | below saturation the generation has risen by exactly the number of times the volume was given to a node |
| `Placement.BeforeTotal` | crates/slatefs-core/src/control.rs:2101-2103 | node ids are totally ordered, so ties in load are always broken |
| `Placement.BeforeIff` | crates/slatefs-core/src/control.rs:2101-2103 | one id comes before another exactly if, where they first differ, it has ended or has the smaller character |
| `Placement.LoadMonotone` | crates/slatefs-core/src/control.rs:2684-2701 | the score never falls when a metric or the number of volumes held rises, and never rises with the weight |
| `Placement.LoadSteps` | crates/slatefs-core/src/control.rs:2684-2701 | what one more of each metric counts, and that a node of weight w takes a wth of it |
| `Fleets.AssignmentCounts` | crates/slatefs-core/src/control.rs:2143-2157 | the counts are the numbers of assigned or draining volumes by primary |
| `Fleets.ChooseLowLoad` | crates/slatefs-core/src/control.rs:2081-2106 | the chosen node is healthy, not excluded and ranks lowest by load and then id; none is chosen only when there is none |
| `Fleets.StandbysFor` | crates/slatefs-core/src/control.rs:2108-2125 | the standbys are all healthy nodes but the primary, once each, from the least loaded on |
| `Fleets.FirstHealthy` | crates/slatefs-core/src/control.rs:2127-2141 | the standby returned is healthy and none before it is; none is returned exactly if none is healthy |
| `Fleets.ChooseReplacement` | crates/slatefs-core/src/control.rs:1833-1846 | the first healthy standby if there is one, or else the lowest ranked node, never the failed one |
| `Fleets.MoveEndpoints` | crates/slatefs-core/src/control.rs:2703-2713 | every endpoint moves to the new target with its generation raised |
| `Fleets.PutEndpoint` | crates/slatefs-core/src/control.rs:1783-1803 | the endpoint with that name is replaced, or a new one appended |
| `Fleets.ControlStore.Assign` | crates/slatefs-core/src/control.rs:1729-1758 | exactly if volume and tenant are active and the node is healthy, the node becomes the primary with the right standbys, by an allowed change; otherwise nothing changes |
| `Fleets.ControlStore.AssignLowLoad` | crates/slatefs-core/src/control.rs:1697-1704 | exactly if volume and tenant are active and some node is healthy, the lowest ranked healthy node becomes the primary with the right standbys |
| `Fleets.ControlStore.Ensure` | crates/slatefs-core/src/control.rs:1706-1727 | a record that exists is returned; otherwise the volume is given to the lowest ranked healthy node, or to none if none is healthy |
| `Fleets.ControlStore.Delete` | crates/slatefs-core/src/control.rs:1690-1695 | exactly that record is gone |
| `Fleets.ControlStore.SetEndpoint` | crates/slatefs-core/src/control.rs:1760-1807 | exactly for a volume that exists, a valid name and an address that is not blank, a stable endpoint is set on the current primary |
| `Fleets.ControlStore.Promote` | crates/slatefs-core/src/control.rs:1809-1861 | exactly if the failed node is the primary and some node is healthy, the first healthy standby or else the lowest ranked healthy node takes over; the failed one is marked either way |
| `Fleets.ControlStore.BeginDrain` | crates/slatefs-core/src/control.rs:1863-1907 | exactly if the volume has a primary and the node asked for is healthy and another, or none is asked for and another is healthy, a drain to it or to the lowest ranked other node starts |
| `Fleets.ControlStore.CompleteDrain` | crates/slatefs-core/src/control.rs:1909-1944 | exactly if a drain is recorded and its target healthy, the target takes over and the source becomes a standby, also when completed again |
| `FleetRuns.Perform` | crates/slatefs-core/src/control.rs:1690-1944 | each operation stores exactly when it succeeds, then only its own volume's record, and by an allowed change of its kind |
| `FleetRuns.History` | crates/slatefs-core/src/control.rs:1690-1944 | between two moments of a run without a deletion the stored record of a volume goes through a run of allowed changes |
| `FleetRuns.PerformAll` | crates/slatefs-core/src/control.rs:1690-1944 | in every run of the store, at two moments between which a record was not deleted, the generation below saturation has risen by the number of times the volume was given to a node, and an equal one means the same primary with all endpoints on it |
| `RateLimiters.AfterSound` | crates/slatefs-core/src/rate.rs:69-118 | tokens stay between zero and the limit through every check and every change of limits |
| `RateLimiters.RejectedSpendsNothing` | crates/slatefs-core/src/rate.rs:98-111 | corollary: a rejected check spends from neither bucket |
| `RateLimiters.AdmittedInTheEnd` | crates/slatefs-core/src/rate.rs:98-118 | after a second of quiet a request is admitted exactly if it is no larger than the limits |
| `RateLimiters.WindowBound` | crates/slatefs-core/src/rate.rs:69-118 | in every window with finite limits, what is admitted plus the tokens left is at most the tokens at the start plus the allowance |
| `RateLimiters.AllowanceIsElapsedIff` | crates/slatefs-core/src/rate.rs:69-138 | under limits that change, the allowance of a window is the sum of each limit times its time in force if and only if times arrive in order while the counter is limited, and is more otherwise |
| `RateLimiters.WindowInOrder` | crates/slatefs-core/src/rate.rs:69-138 | so in order a window admits at most the tokens at its start plus each limit times its time in force |
| `RateLimiters.OutOfOrderAdmitsMore` | crates/slatefs-core/src/rate.rs:98-138 | three checks out of order, at one operation a second and from an empty bucket, admit two in the first second |
| `RateLimiters.TokensExact` | crates/slatefs-core/src/rate.rs:98-138 | at the end of a window in order the tokens are exactly the least that is left over from the tokens at its start, or from a bucket full at any event of it, after adding each limit times its time in force and taking what was admitted since |
| `RateLimiters.UncappedExact` | crates/slatefs-core/src/rate.rs:98-138 | while the bucket does not overflow, what is admitted and what is left are together the tokens at the start plus each limit times its time in force |
| `RateLimiters.AdmitsIff` | crates/slatefs-core/src/rate.rs:98-138 | a check is admitted exactly if each limit allows it and the tokens plus the limit times the elapsed time pay for it |
| `RateLimiters.AffordsIff` | crates/slatefs-core/src/rate.rs:98-138 | so a window in order refuses only what is short: an amount within the limit is afforded exactly if what is left over from every point of the window pays for it |
| `RateLimiters.HalfSecondAdmits` | crates/slatefs-core/src/rate.rs:129-138 | at ten operations a second an empty bucket pays for one after half a second |
| `RateLimiters.NewlyLimited` | crates/slatefs-core/src/rate.rs:150-157 | a counter that becomes limited can at once afford exactly its limit |
| `RateLimiters.Bucket.Refill` | crates/slatefs-core/src/rate.rs:129-138 | a refill adds elapsed time times the limit, fractions of a second included, capped at the limit |
| `RateLimiters.Bucket.Resize` | crates/slatefs-core/src/rate.rs:150-157 | resizing caps the tokens, fills a bucket that was unlimited and empties one that becomes so |
| `RateLimiters.RateLimiter.CheckAt` | crates/slatefs-core/src/rate.rs:98-118 | the limiter in place takes the check step, admits exactly what both buckets can pay with the time elapsed, and counts rejections |
| `RateLimiters.RateLimiter.SetLimits` | crates/slatefs-core/src/rate.rs:69-86 | the limiter in place takes the step to new limits, and none if they are the same |
| `Wire.LeRoundTrip` | crates/rs9p/src/serialize.rs:143-168 | integers within their width come back |
| `Wire.LeByte` | crates/rs9p/src/serialize.rs:143-168 | byte i of an encoded integer is its digit i to base 256, the least significant first |
| `Wire.FromLePlaces` | crates/rs9p/src/serialize.rs:513-535 | bytes decode to the sum of each times 256 to its position |
| `Utf8Text.Utf8Iff` | crates/rs9p/src/serialize.rs:537-543 | the strings the decoder accepts are exactly the UTF-8 encodings, by RFC 3629, of sequences of characters |
| `Wire.AtomRoundTrip` | crates/rs9p/src/serialize.rs:143-176 | an integer, flag word, string or data that fits comes back and leaves what follows |
| `Wire.ManyRoundTrip` | crates/rs9p/src/serialize.rs:314-324 | a counted list of items that come back comes back |
| `Wire.AllRoundTrip` | crates/rs9p/src/serialize.rs:622-637 | a list read until its bytes are used up comes back |
| `Wire.DecodedAllFits` | crates/rs9p/src/serialize.rs:622-637 | whatever a framed list decodes to encodes to as many bytes |
| `Wire.ValuesRoundTrip` | crates/rs9p/src/serialize.rs:326-506 | a sequence of fields that fit comes back and leaves what follows |
| `Wire.DecodedValuesFit` | crates/rs9p/src/serialize.rs:513-680 | whatever is decoded fits |
| `NinePCodec.CallOfValues` | crates/rs9p/src/fcall.rs:655-717 | for every message, its type and its fields give the message back |
| `NinePCodec.FieldsKept` | crates/rs9p/src/serialize.rs:682-893 | decoded fields make a message of their type whose own fields fit |
| `NinePCodec.BodyIsValues` | crates/rs9p/src/serialize.rs:252-262 | directory data led by the size computed for its entries is directory data led by its true length |
| `NinePCodec.MsgRoundTrip` | crates/rs9p/src/serialize.rs:252-506 | a message whose fields fit, followed by any bytes, decodes to itself and leaves exactly those bytes |
| `NinePCodec.DecodedInBounds` | crates/rs9p/src/serialize.rs:682-893 | only messages whose fields fit come out of the decoder, whatever goes in |
| `NinePCodec.RoundTripIff` | crates/rs9p/src/serialize.rs:252-893 | a message survives encoding and decoding if and only if every field is within its width, known flags and length field |
| `NinePCodec.EncodingsUnambiguous` | crates/rs9p/src/serialize.rs:326-893 | no encoding is the start of another, so a stream of messages can be cut in only one way |
| `NinePCodec.HeadLayout` | crates/rs9p/src/serialize.rs:330-331 | the first byte is the type, and the tag is the second byte plus 256 times the third |
| `NinePLayout.MessageBytes` | crates/rs9p/src/serialize.rs:326-506 | every message is its type, its tag and its fields in a fixed order, each written out by its width in little-endian bytes, strings and lists led by their counts |
| `NinePLayout.SurvivesIff` | crates/rs9p/src/serialize.rs:326-893 | a message comes back if and only if every field so written is in range: numbers within their width, flags among the known ones, lengths and counts within theirs, strings in UTF-8 |
| `NinePCodec.UnknownRefused` | crates/rs9p/src/serialize.rs:682-893 | a type not in use is refused |
| `NinePCodec.EntriesLength` | crates/rs9p/src/fcall.rs:453-484 | the size computed for directory data is the number of bytes its entries encode to |
| `ReadDirs.ReadPage` | crates/slatefs-core/src/vfs_impl.rs:1251-1287 | a page holds the next entries after the cookie, up to the maximum, and says whether that was all |
| `ReadDirs.ReadDir` | crates/slatefs-9p/src/filesystem.rs:522-603 | a reply is the entries after the offset, dots included, as far as they and sixteen bytes fit in the count; the encoded body of a reply with entries is at least twelve bytes shorter than the count, and the next entry would not have fitted |
| `ReadDirs.FittingFits` | crates/slatefs-9p/src/filesystem.rs:530-538 | a reply ends only where one more entry would not fit |
| `ReadDirs.ListAll` | crates/slatefs-9p/src/filesystem.rs:522-603 | resuming from the last offset, with any counts, lists entries in order and once each, and stops only at the end or at an entry too large for the count |

## Left out

- Permission checks, validation of file names, timestamps, attribute and negative-lookup caches, xattrs and read-ahead.
- The retry loops of `unlink`, `rmdir` and `rename` that re-read entries under their locks: operations are sequential here.
- Bounds on `nlink`, inode numbers and dirent ids, which are unbounded numbers here, and the inode numbers that a mount skips when it reloads the allocator.
- Read replicas and snapshot pools, which do not touch what the placement theorems are about.
- KEK rotation and audit paging.
- The NFS and mount handlers, socket framing, the 9P dispatcher and all of the command line.
- Encryption, the database and the object store.
- MountedVolumes.MountedVolume.SetSize: sizes, bills and counters are unbounded, without their 64-bit width.
- StripedLocks.PlanRange: the length of a range that spans all 2^64 indexes is not modelled as wrapping.
- ReadDirs.ReadDir: 32-bit overflow of the bytes used is not modelled; it needs a count near 2^32.
- TransactionTrackers.ClientTransactions.FindTransaction: stands for the library's binary search by the usual halving.
- Fleets.AssignmentCounts: counts are unbounded, without the 32-bit width.
- Quota.QuotaTracker.Reserve: limits of 2^63 and more, which the source reads as negative, are not modelled.
