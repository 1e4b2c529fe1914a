# Format-3 block engine: a Dafny model

The repository is a log-structured block device. A volume maps LBAs to 4 KiB blocks. Writes go to a
write-back buffer, leave it as packed data records at the end of a log, and update a bounded cache of
mapping pages. Snapshots of dirty pages and an index of them form a checkpoint, published by switching
between two root slots. After a crash the volume loads the newest complete root and replays the log behind it.

The model follows that design file by file, and proves it from the disk up:

- `Blocks`, `Log`, `Live`, `Disk`, `Device`: decoded blocks, the log as a sequence of records, the mapping
  and contents it means, the invariant of every reachable disk image, and a device that records each image
  it passes through together with what a power loss could leave of it.
- `Clock`, `Sorting`, `Sets`, `Cache`, `Buffer`: CLOCK replacement, the mapping cache, the write-back buffer.
- `Publish`, `Load`, `Scanner`, `Mapping`, `Write`, `Volume`, `Recovery`, `Bounded`, `Open`, `Format`: the engine.
- `Contract`, `States`, `Session`: whole runs. `Contract` is the device contract in the client's events, `States` what
  each step does to an open volume and how much log a script needs, `Session` the runs. `Session.RunScript` is the top
  statement: over every script, with the process lost at any block of any command or of any reopening, each reply and
  each reopened map has its stated cause, and a script that the log has room for is served.
- `Bytes`, `Codec`, `RootCodec`, `CodecLoops`, `ByteView`, `RootView`: the byte formats, and the proof that the decoded
  blocks used above are exactly what the byte decoders accept.
- `Oracle`, `Agreement`, `Target`, `Checker`, `Blockcheck`, `Payload`: blockcheck, its simulated disk and its test payloads.
- `Ledger`: the I/O accounting seqlock and budget.

`Session.RunScript` calls the engine from a fresh format, so the preconditions of the methods below it are met by
real states. Its `Step`s may cut off any command and any of the following opens.

How the surroundings are represented:

- A request to the device can fail before or after its block landed, and the device remembers that one did
  (`Faulted`). Every error of the engine that is not a stated refusal comes with a failed request. A device marked
  `faultless` never fails.
- Process loss keeps every completed block write in order and cuts the one in flight at a block boundary
  (README.md:428 promises recovery after process loss). Root selection is proved under the stronger model in
  which any subset of the unsynced blocks survives, including blocks that an earlier process left unsynced.
- Hashes are functions given as parameters. Blocks without this volume's record magic and identity are `Raw`:
  user payloads carry neither, which is the hypothesis the scanner rests on (rust/src/format_v3/tail.rs:98-100).
- Snapshots left by an interrupted publication are not refunded, so an open near capacity may be refused with
  ENOSPC. `Open.Opens` says exactly when.

Where code and comments differ, the code is followed. The comment at tools/blockcheck/src/checker.rs:70-72
rests on payloads for zero requests never being generated. `Oracle.IssuedIsNeeded` is an input at which the verdict is
wrong without that, `Oracle.CrashExactWhen` says exactly when the verdict is right, and `Oracle.CrashExact` that it is
right for every content that was issued.

## Model

| member | source | states |
|---|---|---|
| Session.RunScript | rust/src/format_v3/volume.rs:37-96 | every script of writes, reads and flushes from a fresh format, with the process lost at any block of any command and of any number of reopenings: every step is told with its cause and effect (`Replies`, `Resumes`) between states whose disk recovers to their log and loads their root (`Sound`); every value read is one the client's own history allows; a write is denied for space exactly when the log, the touched pages and the buffer leave none; the run ends early only at an opening that the log and root it found do not allow (`Opens`) or whose device failed; on faultless devices a script within `Budget`, counted from the script alone, is served to its end; the disk returned is the last state's |
| Session.RunStep | rust/src/format_v3/volume.rs:191-247 | one command or one interrupted command: the reply and the next state follow from the state before, or the reopening is refused, and then its device failed or the log and root left on the device it opened do not satisfy `Opens` |
| Session.ExecuteWrite | rust/src/format_v3/volume/write.rs:15-41 | an acknowledged write becomes what reads return; it is denied exactly for a failed volume, a bad address or a full log; otherwise it fails only on a failed device, and then may or may not have landed; every log a crash can leave is allowed |
| Session.ExecuteRead | rust/src/format_v3/volume.rs:191-237 | a read returns the newest write and changes nothing that is shown; its pressure checkpoints do not change what a crash can leave |
| Session.ExecuteFlush | rust/src/format_v3/volume.rs:239-247 | after an acknowledged flush the log holds everything shown before it, and a crash can leave only that |
| Session.Interrupt | rust/src/format_v3/volume/write.rs:43-145 | a command cut off at any of its block writes leaves an image its device passed through: whole records on top of the old log, each LBA with its old, a buffered or the attempted content, and no more log than was reserved; the volume that finally opens, after any number of cut-off opens, shows exactly the content of that log; with none cut off it is that very image that decides whether it opens |
| Session.LoseInside | rust/src/format_v3/volume/write.rs:43-145 | the image a lost command leaves is one its device passed through; its log is explained by the events so far and the attempt |
| Session.OpenLast | rust/src/format_v3/volume.rs:37-96 | an opening that is not cut off is decided by the log and root it found, and shows that log's content |
| Session.Reopen | rust/src/format_v3/volume.rs:37-96 | a crash at any block write inside open followed by another open gives the same logical map, LBA by LBA; the last opening succeeds exactly when `Opens` holds of the log and root it found, unless its device fails; what it found is a recoverable device whose log has only snapshots more, at most one a page for each opening cut off |
| Session.LoseOpening | rust/src/format_v3/volume.rs:67-73 | an open cut off at any block write leaves a recoverable device whose log has only snapshots more, at most one a page unless its device failed |
| Session.LeavesPrefix | rust/src/format_v3/volume/write.rs:43-62 | a prefix of whole records of a command's log is still old or pending content at every LBA, and no longer than what was reserved with the command |
| Session.ExplainMixed | rust/src/format_v3/volume/write.rs:43-62 | a release cut off anywhere leaves each LBA its old or its buffered content, both allowed |
| Session.ExplainSnaps | rust/src/format_v3/checkpoint_publish.rs:72-117 | appended snapshots never change what a crash can leave |
| Session.ExplainSettled | rust/src/format_v3/volume.rs:239-247 | a flush or a restart settles every LBA |
| Session.StateSound | rust/src/format_v3/reservation.rs:18-46 | in a working volume log, touched pages, buffered payloads, their footers and their pages fit the log; the buffer lists each of its LBAs once |
| States.BudgetServes | rust/src/format_v3/reservation.rs:18-46 | on faultless devices a script for which the empty log, three blocks a write and a snapshot a page for every opening fit the backing file has no denial but a bad address |
| States.NeverStuck | rust/src/format_v3/volume.rs:67-73 | without faults an opening is refused only where the log ahead of the loss, the command and a snapshot a page for every opening do not fit |
| States.RunWithin | rust/src/format_v3/reservation.rs:18-46 | a write raises what must still fit the log by at most three blocks, reads and flushes never raise it, and what fits is not denied |
| States.FoundNear | rust/src/format_v3/recovery.rs:69-87 | what an opening after a loss must still fit into the log exceeds what was reserved by at most a snapshot a page for every opening |
| Open.OpenVolume | rust/src/format_v3/volume.rs:37-96 | open shows exactly the content of the log it found and appends nothing but snapshots; it succeeds only if options, cache capacity and replay space allow it, and fails otherwise only on a failed device |
| Open.OpenLoaded | rust/src/format_v3/volume.rs:55-95 | the same from a loaded root: clamp, capacity check, recovery, tail clear |
| Open.Assemble | rust/src/format_v3/volume.rs:74-95 | the assembled volume satisfies every invariant of an operational volume with an empty buffer |
| Open.ClearStaleTail | rust/src/lib.rs:385-418 | zeroes exactly the blocks the scanner could inspect past the tail and no other block |
| Open.ClearedTailEnds | rust/src/lib.rs:385-418 | after the clear, `read_next` at the recovered boundary finds no record and no error |
| Open.ClampBuffer | rust/src/lib.rs:535-545 | the largest buffer within the configured size and a quarter of the log, but at least one block |
| Format.FormatImage | rust/src/format_v3/storage.rs:18-69 | formatting leaves a disk that boots an empty checkpoint over an empty log and does not touch the log region |
| Format.FormattedInv | rust/src/format_v3/index.rs:15-36 | two empty roots and bodies satisfy the disk invariant |
| Volume.Volume.WriteBlock | rust/src/format_v3/volume/write.rs:15-41 | on success the logical map changes at this LBA only; ENOSPC if and only if the LBA is new and the reservation does not fit, and then nothing changed; an out-of-range or failed volume is refused; any other error latches and a device request failed |
| Volume.Volume.AdmitBlock | rust/src/format_v3/volume/write.rs:24-36 | admits exactly when payloads, footers, dirty and pending pages still fit the log |
| Volume.Volume.Coalesce | rust/src/format_v3/volume/write.rs:20-23 | overwriting a buffered LBA needs no admission and keeps every reservation |
| Volume.Volume.Release | rust/src/format_v3/volume/write.rs:43-62 | the whole buffer reaches the log without changing any logical block; never ENOSPC; afterwards the log past the checkpoint is within `checkpoint_after_bytes`; at every moment each LBA holds its old or its buffered content |
| Volume.Volume.PrepareRelease | rust/src/format_v3/volume/write.rs:64-91 | afterwards dirty plus buffered pages fit the cache and the release fits the replay bound; only a failed request can stop it |
| Volume.Volume.Relieve | rust/src/format_v3/volume/write.rs:84-89 | a checkpoint during release keeps every reservation and leaves no page dirty |
| Volume.Volume.ReleaseChunk | rust/src/format_v3/volume/write.rs:54-60 | one record of up to 338 payloads: released LBAs show their buffered payloads, all others their old content |
| Volume.WriteRecord | rust/src/format_v3/volume/write.rs:93-145 | payloads, footer, mapping, tail, in that order: log, cache and the count of live blocks move together, no page acquisition needs a checkpoint, and no fault means success |
| Volume.TracedStep | rust/src/format_v3/volume/write.rs:108-142 | the dirty pages stay exactly the pages that the log touched since the active checkpoint |
| Volume.SearchPage | rust/src/format_v3/volume/write.rs:64-91 | binary search of the sorted buffer finds a page if and only if a buffered LBA falls into it |
| Volume.UnrelatedDirty | rust/src/format_v3/volume/write.rs:64-91 | counts exactly the dirty pages the buffer does not touch |
| Volume.AdmitCounts | rust/src/format_v3/reservation.rs:18-46 | the incremental reservation counts the distinct pages of the buffer with the new LBA and adds payloads, records, dirty and pending pages |
| Volume.BufferBounds | rust/src/format_v3/volume.rs:98-135 | a buffer of distinct LBAs is bounded by the volume, by its capacity and by the page count |
| Volume.Volume.ReadBlock | rust/src/format_v3/volume.rs:191-237 | returns the newest write of the LBA, or zeros, whatever buffering, eviction, prefetch and publication came before; changes no logical block; fails only for a bad address, a failed volume or a failed request |
| Volume.Volume.ReadMapped | rust/src/format_v3/volume.rs:204-237 | the mapping leads to the newest logged payload and its checksum always matches |
| Volume.MappedBlock | rust/src/lib.rs:356-362 | in every disk that satisfies the invariant a mapped address holds the newest payload of its LBA with the right checksum |
| Volume.Volume.Flush | rust/src/format_v3/volume.rs:239-247 | afterwards the log alone holds the whole logical map and everything is synced; never ENOSPC |
| Volume.Volume.CloseCheckpoint | rust/src/format_v3/volume.rs:252-256 | where the log is ahead of the checkpoint, the checkpoint of a close brings the active root to the end of the log and appends only snapshots; a failure latches the volume |
| Volume.Volume.Close | rust/src/format_v3/volume.rs:249-257 | a clean close leaves an active checkpoint that covers the whole log and the whole logical map |
| Volume.MixedData | rust/src/format_v3/volume/write.rs:43-62 | appending one record of buffered payloads keeps every crash state between old and buffered contents |
| Write.AppendRecord | rust/src/format_v3/volume/write.rs:157-215 | payloads first, footer last: the log gains the whole record exactly when its footer is down, and a cut-off append leaves the old log |
| Write.ApplyRecord | rust/src/format_v3/volume/write.rs:108-142 | after the page groups of a record the cache is the mapping of the log including it, with exactly its pages added to the dirty ones |
| Write.ApplyGroup | rust/src/format_v3/volume/write.rs:114-137 | one page group, one page acquisition: the mapping and the live count advance payload by payload |
| Write.ApplyEntry | rust/src/format_v3/volume/write.rs:121-136 | an LBA counts as newly live exactly when it was unmapped |
| Buffer.WriteBackBuffer.Store | rust/src/lib.rs:310-321 | overwrites in place or takes a new slot, and says which |
| Buffer.WriteBackBuffer.Get | rust/src/lib.rs:304-308 | returns the buffered payload of an LBA, if any |
| Buffer.WriteBackBuffer.SortByLba | rust/src/lib.rs:328-331 | sorts the LBA list; payloads stay with their LBAs |
| Buffer.WriteBackBuffer.Payloads | rust/src/format_v3/volume/write.rs:218-240 | the payloads of a slice of the sorted list, in its order |
| Buffer.WriteBackBuffer.Clear | rust/src/lib.rs:323-326 | empties the buffer and keeps its arena |
| Mapping.MappingState.Lookup | rust/src/format_v3/mapping_state.rs:31-102 | returns the mapping entry of the end of the log for every LBA, through hits, loads, read-ahead, eviction or a pressure checkpoint |
| Mapping.MappingState.Claim | rust/src/format_v3/mapping_state.rs:45-74 | a page is resident or gets a replaceable slot; one checkpoint always suffices |
| Mapping.MappingState.Checkpoint | rust/src/format_v3/mapping_state.rs:104-121 | publication keeps the mapping and the space committed, also when there is nothing new to publish; it fails on a failed request, or before writing anything when the last generation number is spent |
| Mapping.MappingState.InstallAhead | rust/src/format_v3/page_read.rs:70-92 | read-ahead pages change neither what a lookup returns nor which pages are dirty |
| Mapping.ReadPages | rust/src/format_v3/page_read.rs:29-68 | returns the page of the checkpoint and only adjacent snapshots behind it |
| Mapping.Fetch | rust/src/format_v3/mapping_state.rs:75-96 | a loaded page equals its indexed snapshot and pushes out only clean pages |
| Mapping.Occupy | rust/src/format_v3/volume/write.rs:108-125 | when dirty pages and this one fit the cache, acquisition never needs a checkpoint |
| Mapping.MapEntry | rust/src/format_v3/recovery.rs:205-240 | one mapping update takes the cache to the next stage of the log and dirties exactly its page |
| Mapping.InstallKeeps | rust/src/mapping_cache.rs:385-434 | replacing clean pages by an indexed snapshot keeps the cache right |
| Mapping.UpdateKeeps | rust/src/mapping_cache.rs:333-361 | one entry update is the step from one payload of a record to the next |
| Mapping.SnapshotReadable | rust/src/format_v3/mapping_page.rs:101-129 | every index pointer of a reachable checkpoint names a snapshot that decodes to the mapping at that checkpoint |
| Cache.Cache.Acquire | rust/src/mapping_cache.rs:177-194 | resident if and only if cached, checkpoint required if and only if absent and every slot is dirty, otherwise a replaceable slot; an out-of-range page is an error |
| Cache.Cache.Resolve | rust/src/mapping_cache.rs:215-249 | the same decision without touching any page |
| Cache.Cache.Install | rust/src/mapping_cache.rs:385-434 | the page becomes resident and clean; at most clean pages leave; invalid entries change nothing |
| Cache.Cache.Update | rust/src/mapping_cache.rs:333-361 | changes one entry of one page and marks it dirty, exactly when the index and entry are valid |
| Cache.Cache.Prefetch | rust/src/mapping_cache.rs:277-310 | never replaces a resident page or pushes out a dirty one; declines exactly when the page is resident or the full cache has no cold clean slot |
| Cache.Cache.CountCold | rust/src/mapping_cache.rs:366-375 | counts the clean slots in use, other than the requested one, that are unreferenced within 32 steps of the hand, up to a maximum |
| Cache.Cache.Available | rust/src/mapping_cache.rs:366-375 | the room for speculation is the unused slots besides the requested one and those cold clean slots, up to one less than the maximum |
| Cache.Cache.SortedDirty | rust/src/mapping_cache.rs:259-275 | every dirty page once, in ascending order, with its entries |
| Cache.Cache.DirtyCount | rust/src/mapping_cache.rs:251-257 | the number of dirty pages |
| Cache.Cache.CheckpointPublished | rust/src/mapping_cache.rs:312-316 | every page becomes clean and keeps its entries |
| Cache.Cache.PrefetchLimit | rust/src/mapping_cache.rs:363-382 | the longest window of absent pages behind the requested one, within the volume, the maximum and the room for speculation |
| Cache.Cache.FullCount | rust/src/mapping_cache.rs:215-249 | when a checkpoint is required, as many pages are dirty as there are slots |
| Clock.Clock.Victim | rust/src/mapping_cache/clock.rs:56-74 | two passes find a clean slot if and only if one exists; the first pass stops at the first unreferenced clean slot, the second at the first clean one; bits are only cleared |
| Clock.Clock.Step | rust/src/mapping_cache/clock.rs:60-71 | the hand clears what it passes and stops at an unreferenced clean slot |
| Clock.Clock.Cold | rust/src/mapping_cache/clock.rs:33-38 | lists exactly the unreferenced slots within 32 steps of the hand |
| Clock.PackedBits | rust/src/mapping_cache/clock.rs:45-54 | setting one bit of the packed 64-bit words, by mask and shift, changes that slot's bit and no other |
| Publish.Publish | rust/src/format_v3/checkpoint_publish.rs:17-70 | a checkpoint of the whole log, new blocks or none: every page clean, root and tail equal, boundary advanced by exactly the dirty pages; it is refused exactly where the snapshots do not fit or the last generation number is spent, before anything is written, and fails otherwise only on a failed request; on error the cache is untouched; a root switch that comes with more log keeps generations behind the log, which always leaves a number |
| Publish.Publishable | rust/src/format_v3/checkpoint_publish.rs:39-70 | in every reachable state the publication checks refuse only a log without room for the snapshots or a spent generation number; a generation that grew no faster than the log is not the last |
| Publish.AppendSnapshots | rust/src/format_v3/checkpoint_publish.rs:72-117 | every dirty page's snapshot enters the log and the candidate index, all other pointers stay |
| Publish.AppendSnapshot | rust/src/format_v3/checkpoint_publish.rs:119-143 | one snapshot extends the log by one record and leaves one page fewer to stage |
| Publish.WriteIndexBody | rust/src/format_v3/checkpoint_publish.rs:145-169 | the candidate's index body is complete and the active root untouched |
| Publish.PersistRoot | rust/src/format_v3/checkpoint_publish.rs:145-186 | after body, sync, descriptor and sync the candidate is the active checkpoint; if it is ahead of the old one, generations stay behind the log |
| Publish.PreparedStaged | rust/src/format_v3/checkpoint_publish.rs:39-70 | a new candidate is already right for every page that is not dirty |
| Disk.WriteQuiet | rust/src/format_v3/tail.rs:54-96 | a payload in flight or a cleared block past the log changes nothing that recovery sees |
| Disk.WriteLast | rust/src/format_v3/volume/write.rs:157-215 | the block that completes a record extends the log by it and keeps the active root |
| Disk.WriteBody | rust/src/format_v3/checkpoint_publish.rs:145-169 | no block of the inactive body affects the active checkpoint |
| Disk.WriteRoot | rust/src/format_v3/checkpoint_publish.rs:170-186 | the descriptor of a complete candidate makes it the root that boots |
| Disk.GenerationLeft | rust/src/format_v3/checkpoint.rs:61-65 | a generation that grew no faster than the log leaves `next_generation` a number; every root switch of a run keeps that pace (`Device.Paced`) |
| Disk.CheckpointBehind | rust/src/format_v3/checkpoint_publish.rs:39-70 | the active checkpoint is never ahead of the log, and equal in LSN exactly when equal in boundary |
| Disk.Stage | rust/src/format_v3/checkpoint_publish.rs:119-143 | a snapshot moves its page out of the work left |
| Disk.PageRecord | rust/src/format_v3/mapping_page.rs:55-76 | every staged snapshot passes the reader's validation at its place |
| Disk.FooterRecord | rust/src/format_v3/data_record.rs:42-57 | every written footer passes the reader's validation |
| Device.KeepPower | rust/src/format_v3/checkpoint_publish.rs:145-169 | any subset of unsynced blocks outside the checkpoints a power loss can load may be lost or kept |
| Device.MorePower | rust/src/format_v3/checkpoint_publish.rs:119-143 | whatever checkpoint a power loss loads still holds the mapping at its LSN when the log has grown |
| Device.CompletesRecord | rust/src/format_v3/volume/write.rs:157-215 | the block that completes a record keeps every surviving image loadable |
| Device.RootPower | rust/src/format_v3/checkpoint_publish.rs:170-186 | with everything else synced, losing or keeping the descriptor leaves the old or the new checkpoint whole |
| Device.SyncPower | rust/src/format_v3/storage.rs:106-109 | after a sync only one image can survive |
| Device.Device.Put | rust/src/format_v3/storage.rs:71-104 | one block write with its crash obligation: the recorded images are exactly the recoverable ones; a fault may strike before or after the block landed, and is remembered |
| Device.Device.WriteRaw | rust/src/format_v3/storage.rs:71-104 | a block past the log keeps log and root |
| Device.Device.WriteEnd | rust/src/format_v3/storage.rs:71-104 | the completing block adds its record |
| Device.Device.WriteIndex | rust/src/format_v3/storage.rs:71-104 | an inactive body block keeps log and root |
| Device.Device.WriteDescriptor | rust/src/format_v3/checkpoint_publish.rs:170-186 | switches the root of a synced, complete candidate |
| Device.Device.Sync | rust/src/format_v3/storage.rs:106-109 | settles all earlier writes |
| Load.RootSwitchAtomic | rust/src/format_v3/checkpoint_load.rs:13-48 | with any subset of unsynced blocks lost at any point of any run, also of blocks an earlier process left unsynced, load succeeds and returns the previous active checkpoint or the complete candidate, and its snapshots in the surviving image hold the log's mapping at its LSN |
| Load.BootsLoads | rust/src/format_v3/checkpoint.rs:67-84 | in every reachable disk both roots decode, `validate_pair` accepts them, their generations are both 0 or differ by one, and load selects the newer |
| Load.LoadRoot | rust/src/format_v3/checkpoint_load.rs:13-48 | the loop over the two slots, with its swap and fallback, returns the newest root that loads completely, or fails only if none does |
| Load.LoadCandidate | rust/src/format_v3/checkpoint_load.rs:50-97 | loads a candidate if and only if its whole tree is there, and counts its mapped LBAs |
| Load.LoadIndex | rust/src/format_v3/checkpoint_load.rs:50-72 | gathers exactly the pointers of the index body or finds a bad block |
| Load.LoadPages | rust/src/format_v3/checkpoint_load.rs:73-97 | accepts if and only if every pointed-to snapshot validates |
| Load.UsedIsLiveIn | rust/src/format_v3/checkpoint_load.rs:73-97 | the loader's count is the number of LBAs that the checkpoint's log prefix maps |
| Scanner.ReadNext | rust/src/format_v3/tail.rs:37-96 | the block-by-block scan computes `Next` |
| Scanner.NextInLog | rust/src/format_v3/tail.rs:37-96 | on a laid-out log the scanner returns exactly its records in order and then stops, without error |
| Scanner.NextLocal | rust/src/format_v3/tail.rs:54-96 | blocks past the last one inspected never change the result |
| Scanner.ClearedStops | rust/src/lib.rs:385-418 | zeros over the inspected blocks end the scan whatever lies behind them |
| Scanner.ClearIsTight | rust/src/lib.rs:385-418 | with any one of those blocks left alone the scan can fail |
| Recovery.Recover | rust/src/format_v3/recovery.rs:47-87 | cache and index together are the replay of the whole log for every cache capacity of at least one; the live count is exact; it fails only with ENOSPC, which changes nothing and means the touched pages do not fit behind the log, or on a failed request |
| Recovery.PublishWindows | rust/src/format_v3/recovery.rs:90-130 | multi-pass replay: every window staged, no marker left, one root switch, same live count as one pass |
| Recovery.StageWindows | rust/src/format_v3/recovery.rs:90-130 | disjoint windows cover every touched page; afterwards the candidate is right everywhere |
| Recovery.PublishWindow | rust/src/format_v3/recovery.rs:99-115 | one window with a fresh cache stages exactly its touched pages |
| Recovery.FinishWindows | rust/src/format_v3/recovery.rs:116-130 | sync and root switch leave a clean cache |
| Recovery.ReplayWindow | rust/src/format_v3/recovery.rs:182-203 | a pass over the fixed tail applies exactly the window's part; what follows the end plays no part; no checkpoint is ever needed inside |
| Recovery.ReplayRecord | rust/src/format_v3/recovery.rs:205-240 | one data record's part of a window |
| Recovery.ReplayEntry | rust/src/format_v3/recovery.rs:205-240 | one payload, applied if and only if its page is in the window |
| Recovery.ReplayAll | rust/src/format_v3/recovery.rs:71-87 | a tail that fits the cache needs one pass and no publication |
| Recovery.ScanTail | rust/src/format_v3/recovery.rs:132-157 | finds the end of the log and marks and counts exactly the touched pages |
| Recovery.MarkRecord | rust/src/format_v3/recovery.rs:132-157 | marks a page once, however often it is touched |
| Recovery.NextWindow | rust/src/format_v3/recovery.rs:168-180 | the next window starts at the first marker and holds at most the cache capacity, stopping early only when no marker is left; none if and only if no marker is left |
| Recovery.ReplayedUpToDate | rust/src/format_v3/recovery.rs:182-203 | a replayed window is the mapping of the log, whatever snapshots other windows appended |
| Recovery.GainIsLive | rust/src/format_v3/recovery.rs:229-237 | the newly mapped blocks of all windows add up to the growth of the live set |
| Bounded.RecoverTwice | rust/src/format_v3/recovery.rs:90-240 | two recoveries of one log with any two cache capacities show the same mapping page by page and count the same live blocks |
| Bounded.RecoverShown | rust/src/format_v3/recovery.rs:47-87 | recovery shows the mapping of the log it started from, whatever it published on the way |
| Log.MidStep | rust/src/format_v3/recovery.rs:205-240 | one payload changes one mapping entry |
| Log.SnapsKeep | rust/src/format_v3/checkpoint_publish.rs:72-117 | snapshot records change neither mapping nor contents |
| Log.UntouchedPage | rust/src/format_v3/recovery.rs:168-203 | pages no record touched keep their mapping |
| Log.PageValid | rust/src/format_v3/mapping_page.rs:31-53 | mapped addresses stay between the log start and the boundary, so a snapshot's own validator never refuses |
| Log.BoundaryGrows | rust/src/format_v3/checkpoint.rs:47-59 | LSN advance never exceeds block advance |
| Live.LiveStep | rust/src/format_v3/volume/write.rs:121-136 | one payload maps at most one new LBA |
| Live.UsedIsLive | rust/src/format_v3/checkpoint_load.rs:90-95 | nonzero addresses of a page count its live LBAs |
| Codec.DataRoundTrip | rust/src/format_v3/data_record.rs:42-75 | decode undoes encode for every valid footer |
| Codec.DataCanonical | rust/src/format_v3/data_record.rs:59-75 | an accepted footer block re-encodes to itself |
| Codec.MappingRoundTrip | rust/src/format_v3/mapping_page.rs:55-129 | decode undoes encode for every valid snapshot |
| Codec.MappingCanonical | rust/src/format_v3/mapping_page.rs:101-129 | an accepted snapshot block re-encodes to itself and meets the expectation |
| Codec.FramingRoundTrip | rust/src/format_v3/mapping_page.rs:79-99 | framing of an encoded snapshot gives its header |
| Codec.FramingLocal | rust/src/format_v3/mapping_page.rs:79-99 | framing depends only on bytes 0 to 39 and the header checksum |
| Codec.FramingAgrees | rust/src/format_v3/mapping_page.rs:101-103 | what the full decoder accepts, framing accepts with the same header |
| Codec.HeaderRoundTrip | rust/src/format_v3.rs:95-126 | a valid header decodes to itself in front of any bytes |
| Codec.HeaderCanonical | rust/src/format_v3.rs:113-126 | an accepted header has exactly its encoding |
| Codec.SealedIff | rust/src/format_v3.rs:129-155 | a block passes the checksum if and only if it is the seal of its body |
| RootCodec.RootRoundTrip | rust/src/format_v3/checkpoint.rs:86-132 | decode undoes encode for every valid descriptor |
| RootCodec.RootCanonical | rust/src/format_v3/checkpoint.rs:104-132 | an accepted descriptor block re-encodes to itself |
| RootCodec.IndexRoundTrip | rust/src/format_v3/index.rs:76-109 | decoding an encoded index block copies exactly that block's pointers into any index of the shape |
| RootCodec.IndexCanonical | rust/src/format_v3/index.rs:90-109 | an accepted index block is what encoding the updated index gives |
| RootCodec.IndexRestored | rust/src/format_v3/index.rs:76-109 | a whole index survives encoding and loading block by block |
| CodecLoops.EncodeDataInPlace | rust/src/format_v3/data_record.rs:42-57 | fills a reused buffer with exactly the footer's bytes; an invalid record leaves it alone |
| CodecLoops.EncodeMappingInPlace | rust/src/format_v3/mapping_page.rs:55-76 | fills a reused buffer with exactly the snapshot's bytes |
| CodecLoops.SealInPlace | rust/src/format_v3.rs:152-155 | writes the checksum and nothing else |
| CodecLoops.ReadArrays | rust/src/format_v3/data_record.rs:64-72 | the entry-by-entry loop reads the packed arrays |
| ByteView.FooterAgrees | rust/src/format_v3/data_record.rs:59-75 | the byte decoder accepts exactly the blocks whose decoded view the engine model accepts as footers |
| ByteView.FramingAgrees | rust/src/format_v3/mapping_page.rs:79-99 | the same for framing |
| ByteView.PageAgrees | rust/src/format_v3/mapping_page.rs:101-129 | the same for whole snapshots |
| ByteView.FooterSeen | rust/src/format_v3/data_record.rs:59-75 | the view of an accepted footer has exactly its decoded fields |
| ByteView.PageSeen | rust/src/format_v3/mapping_page.rs:101-129 | the view of an accepted snapshot has exactly its decoded fields |
| ByteView.FooterWritten | rust/src/format_v3/data_record.rs:42-57 | the encoded footer of a log record is seen as the block the engine model writes for it |
| ByteView.PageWritten | rust/src/format_v3/mapping_page.rs:55-76 | the encoded snapshot of a page is seen as the block the engine model writes for it |
| RootView.RootAgrees | rust/src/format_v3/checkpoint.rs:104-132 | the same for descriptors against the loader's test of a root |
| RootView.IndexAgrees | rust/src/format_v3/index.rs:90-109 | the same for index blocks |
| Oracle.LiveExact | tools/blockcheck/src/checker.rs:51-68 | `live_violation` is None if and only if the LBA's whole history allows the content: the latest acknowledged one or a newer uncertain one |
| Oracle.CrashExact | tools/blockcheck/src/checker.rs:73-95 | for every issued content `crash_violation` is None if and only if the whole history allows it: durable, or later and acknowledged or uncertain |
| Oracle.CrashExactPayload | tools/blockcheck/src/checker.rs:73-88 | the payload half, through the rejected set |
| Oracle.CrashExactZero | tools/blockcheck/src/checker.rs:90-95 | the zero half, through `last_zero` and `uncertain_zero` |
| Oracle.IssuedIsNeeded | tools/blockcheck/src/checker.rs:70-73 | a content that was never issued can be accepted: at a concrete history the version of a zero request passes as a payload |
| Oracle.CrashExactWhen | tools/blockcheck/src/checker.rs:70-95 | over every history the verdict and the history agree if and only if the content was issued or its version lies outside the range between the durable and the latest acknowledged version |
| Oracle.UnissuedVerdict | tools/blockcheck/src/checker.rs:73-88 | a payload that was never issued is accepted exactly between the durable and the latest acknowledged version |
| Oracle.UncertainIs | tools/blockcheck/src/checker.rs:472-484 | an uncertain field is the version of the one open request of its kind, or 0 |
| Oracle.RejectedIs | tools/blockcheck/src/checker.rs:376-380 | a payload version is rejected if and only if its request was refused or retired |
| Oracle.LastZeroIs | tools/blockcheck/src/checker.rs:451-462 | `last_zero` is the largest acknowledged zeroing version |
| Oracle.DurableIs | tools/blockcheck/src/checker.rs:98-109 | durable version and kind are those of the last flush |
| Oracle.LatestIs | tools/blockcheck/src/checker.rs:37-48 | issued, latest and expected content are those of the history |
| Agreement.SaneHistory | tools/blockcheck/src/checker.rs:21-35 | over every history the counters are ordered and no acknowledged or uncertain payload is rejected |
| Agreement.LandedAgrees | tools/blockcheck/src/checker.rs:423-436 | a request that landed leaves a content no later verdict accuses |
| Agreement.DroppedAgrees | tools/blockcheck/src/checker.rs:423-436 | so does one that did not land |
| Agreement.FlushAgrees | tools/blockcheck/src/checker.rs:320-326 | what was visible may be found after a crash once it was flushed |
| Blockcheck.Run | tools/blockcheck/src/checker.rs:277-366 | over every script of writes, zero writes, discards, flushes, reads, injected failures and power losses with any survivors, the checker records no violation of a correct target; each completed command extends the histories with the outcome its injected failure dictates; a script ends early only if it exceeds a limit: all versions of an LBA, more failures than the rejected set holds, or two failures without a power loss between them |
| Blockcheck.Obey | tools/blockcheck/src/checker.rs:277-366 | every command keeps checker and target related and records nothing; one that cannot be tracked was over a limit |
| Checker.Checker.JudgeLive | tools/blockcheck/src/checker.rs:332-344 | for any target: a live read is counted as a violation if and only if the LBA's whole history forbids it |
| Checker.Checker.JudgeCrash | tools/blockcheck/src/checker.rs:368-390 | for any target: the verdict after a crash is exact for issued contents, and uncertain requests end |
| Checker.Checker.RetireUncertain | tools/blockcheck/src/checker.rs:372-380 | retires both uncertain fields and rejects a retired payload |
| Checker.Checker.SubmitWrite | tools/blockcheck/src/checker.rs:403-420 | one version, one answer, one event in the LBA's history; no other LBA changes; each limit error has its cause |
| Checker.Checker.DiscardBlocks | tools/blockcheck/src/checker.rs:291-316 | one answer for the whole range enters every covered LBA's history |
| Checker.Checker.FlushTarget | tools/blockcheck/src/checker.rs:320-326 | the dirty list suffices to make every LBA's latest request durable |
| Checker.Checker.ApplyResult | tools/blockcheck/src/checker.rs:423-484 | acknowledge, reject or mark uncertain; the two limit errors arise exactly for a full rejected set and a second uncertain request of a kind |
| Checker.Checker.IssueVersion | tools/blockcheck/src/checker.rs:513-522 | a fresh version, or the overflow and range errors |
| Checker.Checker.VerifyAll | tools/blockcheck/src/checker.rs:359-361 | reads every LBA before any repair; no accusation of a correct target |
| Checker.Checker.Repair | tools/blockcheck/src/checker.rs:392-401 | a mismatching LBA is rewritten to what the model expects |
| Checker.Checker.Recover | tools/blockcheck/src/checker.rs:352-366 | afterwards model, visible and durable contents are equal at every LBA; it stops only for another geometry, a full rejected set or an LBA out of versions |
| Target.MemoryTarget.Put | tools/blockcheck/src/memory.rs:307-318 | lands and answers exactly as the injected failure says; nothing durable changes |
| Target.MemoryTarget.DiscardRange | tools/blockcheck/src/memory.rs:338-354 | the same for a whole range of zeros |
| Target.MemoryTarget.SettleAll | tools/blockcheck/src/memory.rs:195-206 | each unflushed request becomes durable or is lost |
| Target.MemoryTarget.Flush | tools/blockcheck/src/memory.rs:320-336 | everything visible becomes durable |
| Target.MemoryTarget.Crash | tools/blockcheck/src/memory.rs:174-180 | keeps any subset of the unflushed requests and cancels an injected failure |
| Checker.Checker.Reject | tools/blockcheck/src/checker.rs:464-470 | remembers a rejected payload, or refuses exactly when the set is full |
| Blockcheck.MeterStep | tools/blockcheck/src/checker.rs:423-484 | every rejected or uncertain payload has cost one injected failure, every version one command |
| Blockcheck.LimitCause | tools/blockcheck/src/checker.rs:464-484 | a limit met on an LBA is a limit of the script |
| Blockcheck.ObeyPowerLoss | tools/blockcheck/src/memory.rs:174-180 | a power loss with any survivors, then recovery: no accusation, and everything durable is what the model expects |
| Payload.MixBijective | tools/blockcheck/src/rng.rs:9-14 | the mixer has a two-sided inverse on all 64-bit words |
| Payload.ZeroAtMostOnce | tools/blockcheck/src/rng.rs:26-29 | over its whole period a stream is zero at most once |
| Payload.StreamNotZero | tools/blockcheck/src/payload.rs:57-68 | two words in a row are never both zero |
| Payload.PayloadRoundTrip | tools/blockcheck/src/payload.rs:57-91 | for every seed, LBA and nonzero version the filled block decodes as exactly that version, never as zeros |
| Payload.PayloadCanonical | tools/blockcheck/src/payload.rs:70-91 | a block decodes as a version only if it is the block filled for it |
| Payload.Fill | tools/blockcheck/src/payload.rs:57-68 | the word loop fills that block |
| Payload.Read | tools/blockcheck/src/payload.rs:70-91 | the word loop decides the decoding |
| Ledger.StableSnapshot | rust/src/io_accounting.rs:390-427 | under every interleaving an accepted snapshot is the whole ledger at one moment of even epoch between the first and the last load of the accepted attempt, validation never trips, and an undisturbed reader is never turned away |
| Ledger.Attempt | rust/src/io_accounting.rs:392-420 | one attempt succeeds if and only if both epoch loads saw the same even epoch |
| Ledger.EvenEpochFrozen | rust/src/io_accounting.rs:249-262 | while an even epoch lasts no word changes |
| Ledger.UndisturbedLoads | rust/src/io_accounting.rs:392-411 | all loads between two of the same even epoch saw one memory |
| Ledger.Run | rust/src/io_accounting.rs:224-351 | every script of the writer leaves exactly the ledger it adds up to (`Play`): reserved bytes are completed plus failed plus pending bytes and within the limit, errors count the failures; what a reader can catch at an even epoch is the ledger after some prefix of the script |
| Ledger.Writer.Begin | rust/src/io_accounting.rs:224-270 | admits an operation, reserves its bytes and the headroom to end it, or refuses, exactly as `Admission` says |
| Ledger.Writer.Finish | rust/src/io_accounting.rs:294-328 | exact success enters the totals; it is refused exactly when a total would overflow, and then recorded as a failure |
| Ledger.Writer.RecordFailure | rust/src/io_accounting.rs:330-351 | failing or dropping keeps the reservation, sets the flag and cannot overflow |
| Ledger.Writer.Store | rust/src/io_accounting.rs:249-262 | every store keeps the trace coherent |
| Ledger.ReachedStep | rust/src/io_accounting.rs:249-262 | one command adds no quiet memory state but the ledger before it and after it |
| Ledger.Writer.Complete | rust/src/io_accounting.rs:319-327 | the stores of an exact completion add up to the finished ledger |
| Ledger.FailedBalanced | rust/src/io_accounting.rs:330-340 | the bytes of a failed write move from pending to lost |
| Ledger.FinishedBalanced | rust/src/io_accounting.rs:319-327 | the bytes of a completed write move from pending to completed |

## Left out

- io_uring, `O_DIRECT`, file locking, memory mapping, ownership checks and allocation failures: abstract device steps.
- Multi-block writes are issued as ordered single-block writes; a vectored write cut off in the middle is one of the crash points. Batches of snapshots and index blocks are likewise written one by one.
- Damaged media: a block either holds what was written or, when unsynced, what it held before. Replay accepts a footer without its payloads' checksums, so flushed data is claimed for process loss only.
- Collisions of xxh3 and the payload checksum: the hash is any function.
- Cache sizing from byte budgets (rust/src/mapping_cache/sizing.rs): `Options.cacheSlots` stands for the resulting capacity.
- Scratch buffers, counters, statistics, failpoints and metered I/O of the engine.
- Close in scripts of `Session.RunScript`; its own contract is `Volume.Volume.Close`. Discards: the engine has none.
- 64-bit overflow branches of `Reservation` and the append assertion: they need more blocks than a backing file can have.
- Publish.Publish: the tail it is given is the end of the log, as every caller's is; for another tail `Publish.Prepare` has the refusals.
- States.BudgetServes: counts three blocks a write and a snapshot a page for every opening; scripts beyond that are served as far as `Fits` and `Opens` allow.
- Load.LoadRoot: with two roots that both fail for different reasons the model does not distinguish which error is reported.
- Sorting.Sort stands for the library sort; the sorted order of distinct numbers is unique.
- Payload.Fill: a block is 512 words; the little-endian bytes of a word are not modelled again here.
- Blockcheck.Run: report counters other than violations, and the block-count limits of the two constructors. Blocks are named by what they decode to; `Payload.PayloadRoundTrip` justifies that.
- MemoryTarget's planned faults: whether a fault is detected depends on the workload.
- CodecLoops.ReadArrays: decoding copies are modelled as values, and the descriptor and index encoders as functions.
- Ledger.Run: ledger creation, header validation and the writer lease; a killed writer is a run that stops.
- The ublk daemon, CLI, mount helper, benchmarks, lab scripts and formats 1, 2 and 4.
