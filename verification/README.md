# A verified model of CoLnk's file bridge

CoLnk puts a remote file system behind a FUSE mount. The agent is fast because it keeps writes back, caches blocks and
metadata, and streams listings; this project models that state and proves that each piece agrees with something much
simpler: a flat file, a recency list, a single flag, a list of entries, a sum.

`dafny verify dfyconfig.toml` checks everything. The modules, from the bottom up:

- `Files`, `Overlay`, `WriteBuffer`: flat files, dirty ranges inside a block, and the *logical file*, which is the
  provider's file with all pending ranges laid over it.
- `Recency`: least-recently-used eviction against a recency list. `Paths`, `Renaming`: string tests on paths, and what a
  rename does to a table keyed by paths.
- `BlockCache`, `BlockProtocol`: the read cache as a class, and every interleaving of its locked sections with provider
  changes. `MetadataCache`: attribute, negative, link and listing entries.
- `Provider`: the provider's tree of files and directories and its operations as remote calls. Each call takes its fate from a script, so a theorem that
  holds for every script holds for every pattern of failures; a failing write may have applied any prefix of its data.
- `RemoteNode`, `History`: one file behind the mount, and whole histories of it. `NodeTable`, `MountView`,
  `MountHistory`: all nodes of a mount and the table that finds them, creation, rename and removal, the mount as a value,
  and whole histories over all of its files and directories.
- `Session`, `Frames`, `Directory`, `FileBudget`, `BudgetProtocol` (with `Sums`): admission of provider clients, the wire
  format, paged listings, and the two memory budgets.

The main results are `MountHistory.RunFresh` and `History.Run`, `RemoteNode.Node.FlushWritesLocked`,
`BlockProtocol.StoredIsCurrent` and `BlockProtocol.StoredAfterInvalidations`, `MetadataCache.NothingOldAfterChange`,
`NodeTable.Mount.Rename`, `Session.RunInvariant`, `Directory.ReadDirExact`, `Frames.MessagesRoundTrip` and
`FileBudget.AcquireNeverWaits`.

`MountHistory` explains a history by a `World`: flat files under their paths, the names of the files and directories that
exist, the paths whose cached blocks or attributes are in doubt, and the paths where writes may be pending without a file.
`Right` says what a program may be told and what may have happened, `After` what the world is then, `Shows` that a mount
shows a world. Programs may ask for anything at any path, existing or not; the files and directories a mount starts with have
clean relative paths. `Bill` counts the failures that nothing but a failing call explains: not a refusal by the provider (a
removal of what is absent or has entries, a rename of what is absent, into a missing directory or over another kind, a
creation of what exists, a listing of no directory), not an operation on a path without a file, not a doubt. There are never
more of them than calls that failed (`Faults`): with no failing call, every operation on an existing file is answered. A
refused call leaves the world, doubts included, as it was (`MountHistory.RefusedChangesNothing`). With no failing call and no
unsent write forgotten nothing is ever in doubt, and every answer is exact (`MountHistory.FaultlessIsExact`).

What the functions of the model compute is also said without them: bytes in `Files` and `History.FinalIsLatest`, lookups in
`MetadataCache.AnswersExactly`, answers of the block cache in `BlockProtocol.HitReturns`, `CompleteReturns` and `WakeReturns`, the
wire in `Frames.ParsedExactly` and `SentExactly`, the end of a listing in `Directory.ListedExactly`, admission in
`Session.AdmittedIsAuthentic` and `GuestsComeIn`, refusals in `Provider.Refusals`.

Properties that hold of the code only in part, with the exact extent and an input:

- A truncation whose reply is lost leaves the caches alone. The stored blocks are still right exactly when the cut touches
  none of them, the cached sizes exactly when the length stays or none is cached (`RemoteNode.Node.SetSize`,
  `RemoteNode.Node.Cut`, `Files.TruncateTouches`; `History.LostTruncationExample`).
- A direct write that fails part way leaves the size that an earlier chunk cached. No failure can make it wrong exactly when
  the data lies within the file or no size is cached (`RemoteNode.FailedWriteSizes`, `RemoteNode.Node.DirectWrite`;
  `History.FailedDirectWriteExample` is a write across a block border whose second chunk fails). A write inside one block, with
  nothing pending before it, never leaves a wrong size (`RemoteNode.Node.Write`).
- A removal whose reply is lost leaves the caches of a path that is gone: the stored blocks are still right exactly when they
  hold nothing, what is known about the path exactly when no size is cached (`NodeTable.Mount.Remove`, `MountView.RemoveLost`;
  `MountHistory.LostRemovalExample`). Repeating the removal repairs nothing: it comes through exactly when the path exists and
  has no entries, so it is refused, however often, and everything in doubt stays in doubt
  (`MountHistory.RefusedChangesNothing`, `MountHistory.RetriesRefused`; `MountHistory.RetryExample` looks at a removed file and is
  told its old size).
- A creation whose reply is lost leaves the caches of a path that now exists: what is known about it is right exactly when
  nothing cached denies it (`NodeTable.Mount.Make`, `MountView.MakeLost`; `MountHistory.LostCreationExample`). Repeating it is
  refused and repairs nothing (`MountHistory.RefusedMakesNothing`).
- A rename whose reply is lost moves the files and not the nodes. The moved files are found exactly when nothing was unsent
  below the old path and every byte that is unsent below the new one, without a file behind it, is already in the moved file
  (`MountView.RenameStrands`, `MountHistory.LostIsMoved`; `MountHistory.LostRenameExample`). The caches stay as the two flushes
  left them. At or below the old path the stored blocks are still right exactly when they hold nothing, what is known exactly
  when no size is cached; at or below the new path the stored blocks exactly when the file that came has the same ones, what
  is known exactly when nothing came, or nothing denies what came where nothing was, or the length is the same or not cached
  (`MountView.RenameLostCaches`, `NodeTable.Mount.Rename`; `MountHistory.LostRenameCachedExample`).
- A rename that comes through leaves unsent writes in its way at a path below the new one exactly when they are pending
  there and no node from below the old path replaces theirs; then they lie over what it brings
  (`MountView.RenameCarries`, `MountView.InTheWay`; `MountHistory.InTheWayExample` brings an empty file under an unsent byte).
  They can only be writes without a file behind them (`MountView.RenameBacked`).
- A node that is forgotten with unsent writes takes them along. Nobody notices exactly when every unsent byte is already in
  the provider's file (`MountView.ForgetFalls`, `MountView.ForgetHarmless`, `Overlay.OverlayRedundant`;
  `MountHistory.ForgetExample`). Their units of the budget stay held.
- `path.Dir` and `parentAndName` agree exactly when the parent is not called "." (`Paths.DirAgrees`).

## Model

| member | source | states |
|---|---|---|
| Files.WriteAtShape | pkg/provider/filesystem/write.go:17-19 | Length and every byte of a written file: later bytes win, gaps read as zero. |
| Files.WriteAtBytes | pkg/provider/filesystem/write.go:17-19 | Every byte of a written file, spelled out: the data where it was written, the old bytes elsewhere, zeros in a gap. |
| Files.TruncateBytes | pkg/provider/filesystem/mutation.go:75-82 | The new length, the old bytes below both lengths, zeros above the old one. |
| Files.SliceBytes | pkg/provider/filesystem/read.go:12-27 | The bytes of the file from the offset on, up to the count or the end of the file. |
| Files.BlockBytes | pkg/provider/filesystem/read.go:12-27 | The same for a block of one mebibyte. |
| Files.WriteAtAppend | pkg/agent/filesystem/write_linux.go:16-57 | Writing in consecutive pieces is writing the whole, which is what cutting at block borders relies on. |
| Files.TruncateTouches | pkg/provider/filesystem/mutation.go:75-82 | A truncation changes a block if and only if it moves the end of the file within or across that block. |
| WriteBuffer.MergeDirty | pkg/agent/filesystem/write_buffer.go:13-37 | The merge loop yields a sorted list of strictly separated ranges covering exactly the old ranges and the new one. |
| WriteBuffer.CanonicalUnique | pkg/agent/filesystem/write_buffer.go:15-36 | Two such lists that cover the same positions are the same list. |
| WriteBuffer.CanonicalCount | pkg/agent/filesystem/write_buffer.go:15-36 | A dirty list has at most (block size + 1) / 2 ranges. |
| WriteBuffer.BlockHistory | pkg/agent/filesystem/write_buffer.go:13-37 | After any run of writes a position is dirty exactly if it was written, and holds the byte written last. |
| WriteBuffer.PendingWriteBlock.Write | pkg/agent/filesystem/write_buffer.go:13-37 | One write in place: new bytes inside the range, old ones outside, dirty set extended by the range. |
| Overlay.OverlayWrite | pkg/agent/filesystem/write_linux.go:48-56 | Writing into a block, new or pending, writes the same bytes into the logical file. |
| Overlay.OverlaySent | pkg/agent/filesystem/write_linux.go:86-99 | Sending any prefix of a dirty range leaves the logical file unchanged, bytes and length. |
| Overlay.StoredNext | pkg/agent/filesystem/write_linux.go:86-109 | A range that was sent whole is in the provider's file, and those sent before it still are. |
| Overlay.OverlayDropped | pkg/agent/filesystem/write_linux.go:110-111 | A block whose ranges have all been stored can be dropped without changing the logical file. |
| Overlay.EndAfterWrite | pkg/agent/filesystem/nodes_linux.go:182-189 | The end of the pending ranges after a write is the larger of the old end and the end of the write. |
| Overlay.EndAfterDrop | pkg/agent/filesystem/write_linux.go:81-112 | Dropping a block below another pending one keeps the end: why ascending order matters to a failing flush. |
| Overlay.OverlayRedundant | pkg/agent/filesystem/nodes_linux.go:82-88 | Laying pending blocks over a file changes nothing if and only if every pending byte is already there. |
| Recency.ListsUse | pkg/agent/filesystem/cache.go:170-172 | Renewing a sequence number moves the key to the end of the recency list, with numbers distinct and bounded by the counter. |
| Recency.ListsRemove | pkg/agent/filesystem/cache.go:144-148 | Deleting entries removes their keys from the recency list and keeps its order. |
| Recency.ListsEvict | pkg/agent/filesystem/cache.go:188-198 | The entry with the smallest number is the head of the recency list. |
| Recency.ListsUnique | pkg/agent/filesystem/cache.go:161-198 | The recency list of a cache is determined by its sequence numbers. |
| Recency.EvictOldest | pkg/agent/filesystem/cache.go:308-320 | The scan removes exactly an entry with the least sequence number. |
| Recency.EvictDown | pkg/agent/filesystem/cache.go:183-185 | The eviction loop ends with exactly as many entries as fit, having dropped the least recently used ones and changed no other. |
| Recency.EvictedOlder | pkg/agent/filesystem/cache.go:183-185 | Whatever is dropped was used before everything that is kept. |
| Recency.CappedExactly | pkg/agent/filesystem/cache.go:183-185 | The recency list keeps its most recent members, as many as there is room for, in their order. |
| Recency.UsedSurvives | pkg/agent/filesystem/cache.go:176-186 | With a capacity of at least one, the entry just stored survives its own eviction. |
| Paths.PathPrefixIsComponentPrefix | pkg/agent/filesystem/cache.go:200-205 | On clean paths the string test holds if and only if one component list is a proper prefix of the other. |
| Paths.ParentAndNameOfJoin | pkg/agent/filesystem/cache.go:136-139 | Splitting off the last component undoes joining it on. |
| Paths.DirAgrees | pkg/agent/filesystem/nodes_linux.go:53-57 | The parent that is dropped is the parent lookups use, if and only if that parent is not called ".". |
| Paths.ParentStaysBelow | pkg/agent/filesystem/cache.go:136-149 | Whatever lies below a path has its parent at or below it. |
| Paths.Comparable | pkg/agent/filesystem/nodes_linux.go:94-97 | Two paths above a third are comparable, so subtrees of incomparable paths are disjoint. |
| Paths.ChildOfParent | pkg/agent/filesystem/cache.go:136-139 | A clean path is the entry of its name in its parent directory, so a listing answers for one path per name. |
| BlockCache.BumpEach | pkg/agent/filesystem/cache.go:289-300 | In whatever order the flight paths are walked, each generation goes up by exactly one. |
| BlockCache.ReadBlockCache.Look | pkg/agent/filesystem/cache.go:242-266 | The first locked section: hit, join or start, with the exact new state and recency list. |
| BlockCache.ReadBlockCache.Finish | pkg/agent/filesystem/cache.go:269-282 | The second one: the flight is gone, its result is announced, and the block is stored only in an unchanged generation. |
| BlockCache.ReadBlockCache.Store | pkg/agent/filesystem/cache.go:273-279 | Storing refines the recency list: used, then capped. |
| BlockCache.ReadBlockCache.InvalidatePath | pkg/agent/filesystem/cache.go:286-306 | Invalidation: generations of the path and of flights below it, and every stored block of the subtree. |
| BlockCache.InvalidateExactly | pkg/agent/filesystem/cache.go:286-306 | Exactly the stored blocks at or below the path go; exactly the path and what is being loaded below it are outdated. |
| BlockProtocol.GenerationAfter | pkg/agent/filesystem/cache.go:289-300 | An invalidation outdates a running load if and only if the load is at or below the path. |
| BlockProtocol.Step | pkg/agent/filesystem/cache.go:241-306 | Every step of every thread, and every provider change, keeps the invariant. |
| BlockProtocol.RunInvariant | pkg/agent/filesystem/cache.go:241-306 | The invariant holds in every state of every interleaving. |
| BlockProtocol.OneLoaderPerBlock | pkg/agent/filesystem/cache.go:254-271 | Two loaders never run for the same block. |
| BlockProtocol.StoredIsCurrent | pkg/agent/filesystem/cache.go:263-306 | When no change that covers it awaits its invalidation, a stored block is the file's current block. |
| BlockProtocol.HitReturns | pkg/agent/filesystem/cache.go:242-253 | In every run a load answers at once if and only if its block is stored and has not expired, and then with that block: the current one if no covering change awaits its invalidation. |
| BlockProtocol.CompleteReturns | pkg/agent/filesystem/cache.go:263-284 | In every run a load that completes returns the provider's block as it was at its own fetch, or the failure of that fetch. |
| BlockProtocol.WakeReturns | pkg/agent/filesystem/cache.go:254-262 | In every run a waiter that is woken returns what was fetched for the very block it asked for. |
| BlockProtocol.StoredWasFetched | pkg/agent/filesystem/cache.go:269-282 | Whatever is stored for a block is what some load of that block fetched. |
| BlockProtocol.NobodyElseReturns | pkg/agent/filesystem/cache.go:254-262 | A cancelled waiter fails, and no other step tells anybody anything. |
| BlockProtocol.StoredAfterInvalidations | pkg/agent/filesystem/cache.go:263-306 | In every run a stored block comes from a load that began after every invalidation of its path or an ancestor, and is what the provider had when that load fetched. |
| BlockProtocol.LandsOnce | pkg/agent/filesystem/cache.go:269-282 | A flight lands once; its result never changes. |
| BlockProtocol.WaiterGetsResult | pkg/agent/filesystem/cache.go:254-262 | A waiter that is not cancelled returns what the flight's creator returned, and only after it. |
| MetadataCache.KeyInjective | pkg/agent/filesystem/cache.go:41-131 | Keys of different kinds or paths differ. |
| MetadataCache.ChangeSilences | pkg/agent/filesystem/nodes_linux.go:50-58 | A change leaves nothing from which a lookup at or below the path could be answered. |
| MetadataCache.StaysSilent | pkg/agent/filesystem/cache.go:38-198 | That stays so through every operation that brings no news about the path. |
| MetadataCache.SweptExactly | pkg/agent/filesystem/cache.go:141-159 | A change drops the entries of the path, of what lies below it and of its parent, and no other. |
| MetadataCache.IndexedByLast | pkg/agent/filesystem/cache.go:122-130 | The indices of a listing hold under each name the attributes of its last entry, and the target of its last entry that is a link with a target; other names are in neither. |
| MetadataCache.AnswersExactly | pkg/agent/filesystem/cache.go:38-120 | The four lookups, spelled out over the stored entries and listings, up to and including the last instant of an entry. |
| MetadataCache.StoredAfterChange | pkg/agent/filesystem/cache.go:38-198 | Whatever entry can answer a lookup at or below a changed path was stored, with that very value, after the change. |
| MetadataCache.NothingOldAfterChange | pkg/agent/filesystem/nodes_linux.go:50-63 | In every history after a change, whatever is stored again: each attribute, negative and link answer at or below the path, and each listing of its parent, is one that some operation after the change brought. |
| MetadataCache.Cache.GetLocked | pkg/agent/filesystem/cache.go:161-174 | Only a live entry answers, and it becomes the most recently used; an expired one is dropped, all others stay. |
| MetadataCache.Cache.Put | pkg/agent/filesystem/cache.go:176-186 | The stored entry with its expiry, and the recency list used then capped. |
| MetadataCache.Cache.GetAttr | pkg/agent/filesystem/cache.go:38-56 | The answer is the own entry's or the parent listing's; no live entry is lost. |
| MetadataCache.Cache.IsMissing | pkg/agent/filesystem/cache.go:69-85 | Missing if a negative entry says so or a live listing of the parent lacks the name. |
| MetadataCache.Cache.GetLink | pkg/agent/filesystem/cache.go:91-105 | The link target from the own entry, or that of the last link of its name in the parent listing. |
| MetadataCache.Cache.GetDir | pkg/agent/filesystem/cache.go:112-120 | The listing as stored; an empty one is never a hit. |
| MetadataCache.Cache.PutAttrOf | pkg/agent/filesystem/cache.go:58-67 | A positive attribute replaces a negative entry; without an attribute nothing changes. |
| MetadataCache.Cache.PutMissingOf | pkg/agent/filesystem/cache.go:87-89 | A negative entry is stored as the most recently used one. |
| MetadataCache.Cache.PutLinkOf | pkg/agent/filesystem/cache.go:107-110 | A link entry is stored as the most recently used one. |
| MetadataCache.Cache.PutDirOf | pkg/agent/filesystem/cache.go:122-134 | The loop indexes names and link targets; the listing is stored whole, by their last entries (IndexedByLast). |
| MetadataCache.Cache.InvalidateChange | pkg/agent/filesystem/cache.go:141-159 | Subtree and exact parent entries go, all others stay as they are. |
| Provider.FileService.Write | pkg/provider/filesystem/write.go:11-37 | Data, then modification time, then sync; a failure may come after any of them. |
| Provider.WrittenShape | pkg/provider/filesystem/write.go:11-37 | What a write leaves, stage by stage: a prefix or all of the data, the time asked for or that of the clock, durable content after a sync. |
| Provider.FileService.Read | pkg/provider/filesystem/read.go:12-27 | A successful read returns the block of the current content, short at the end of the file. |
| Provider.FileService.Truncate | pkg/provider/filesystem/mutation.go:75-82 | The old bytes below both lengths and zeros above the old one, or untouched; and the attributes after it. |
| Provider.FileService.Chtimes | pkg/provider/filesystem/mutation.go:65-73 | Of a file only the modification time changes; it succeeds on what exists, file or directory, unless the call fails. |
| Provider.FileService.Sync | pkg/provider/filesystem/write.go:39-46 | The content becomes durable. |
| Provider.FileService.Stat | pkg/provider/filesystem/attributes.go:11-21 | Attributes of whatever is at the path, the current ones of a file; a path is called missing only if nothing is there and no file stands in its way, and otherwise no answer means a failing call; of a file the mode, length and time it has. |
| Provider.FileService.Create | pkg/provider/filesystem/mutation.go:12-27 | An empty file or a directory comes into being exactly where nothing was and the parent is a directory. |
| Provider.FileService.Remove | pkg/provider/filesystem/mutation.go:84-89 | A file or a directory without entries goes; what is absent or has entries is refused and nothing changes; any other failure is a failing call. |
| Provider.FileService.Rename | pkg/provider/filesystem/mutation.go:29-54 | The subtree moves as one exactly if the old path exists, the directory of the new one exists and what is at the new one is of the same kind and empty; otherwise it is refused and nothing changes. |
| Provider.FileService.ReadDir | pkg/provider/filesystem/directory.go:13-53 | Only a directory is listed, and then exactly its files, under their current attributes, and its directories. |
| Provider.Refusals | pkg/provider/filesystem/mutation.go:12-89 | When removals, creations and renames are refused, spelled out. |
| Provider.RenameKeepsTree | pkg/provider/filesystem/mutation.go:29-54 | Every rename that is not refused leaves a tree: nothing is both file and directory, everything is in a directory. |
| Provider.RemoveKeepsTree | pkg/provider/filesystem/mutation.go:84-89 | The same for removals. |
| Provider.NothingBelow | pkg/provider/filesystem/path.go:22-44 | In a tree nothing lies below a path that is no directory. |
| Provider.NoFaults | pkg/agent/remote/filesystem.go:10-30 | A script holds no fault if and only if every call succeeds. |
| RemoteNode.WriteBudget.TryAcquire | pkg/agent/filesystem/write_linux.go:27-35 | One unit, refused exactly when all are taken. |
| RemoteNode.WriteBudget.Release | pkg/agent/filesystem/write_linux.go:111-111 | Returns one held unit; callers prove that one is held. |
| RemoteNode.SortedOffsets | pkg/agent/filesystem/write_linux.go:75-81 | Strictly ascending, and exactly the keys of the block map. |
| RemoteNode.RestNext | pkg/agent/filesystem/write_linux.go:84-112 | In ascending order the end of what is pending stays until the last block is gone. |
| RemoteNode.SendKeepsLogical | pkg/agent/filesystem/write_linux.go:88-99 | Whatever becomes of one flush request, the logical file is unchanged. |
| RemoteNode.SendingNext | pkg/agent/filesystem/write_linux.go:86-109 | One more good reply: sync and modification time are where they belong, the kept size is the provider's. |
| RemoteNode.PendingSize | pkg/agent/filesystem/nodes_linux.go:175-194 | The loops compute the larger of the source's size and the end of the pending ranges. |
| RemoteNode.RemoteFS.InvalidateChange | pkg/agent/filesystem/nodes_linux.go:50-58 | No size is reported for the path afterwards, nothing denies it, and no block of it is stored; what is cached about others only shrinks. |
| RemoteNode.RemoteFS.UpdateChangedAttr | pkg/agent/filesystem/nodes_linux.go:60-63 | The same, but for the attribute that came with the reply, which is cached. |
| RemoteNode.RemoteFS.FetchAttr | pkg/agent/filesystem/nodes_linux.go:114-133 | The answer was cached before or is the provider's; nothing else about the path enters the cache; no answer means an entry denied the path, it is absent, or a call failed; the whole attribute is the cached one or the file's. |
| RemoteNode.Node.SendRange | pkg/agent/filesystem/write_linux.go:86-99 | One request with its flags: logical file unchanged; a good reply means the range is stored. |
| RemoteNode.Node.FlushBlock | pkg/agent/filesystem/write_linux.go:84-112 | A block leaves the map, with its unit of the budget, exactly when all its ranges are stored. |
| RemoteNode.Node.FlushBlocks | pkg/agent/filesystem/write_linux.go:81-112 | Wherever it stops, the logical file and the end of what is pending are unchanged. |
| RemoteNode.Node.FlushWritesLocked | pkg/agent/filesystem/write_linux.go:74-130 | Logical file unchanged on success and failure; success leaves nothing pending and the provider with the logical file; sync and modification time ride on the last request only; the trailing chtimes is never needed. |
| RemoteNode.Node.StoreChunk | pkg/agent/filesystem/write_linux.go:48-56 | A chunk inside one block is written to the logical file. |
| RemoteNode.Node.MakeRoom | pkg/agent/filesystem/write_linux.go:21-36 | A unit is acquired with fewer than eight blocks pending, or refused with nothing pending and the budget used up; with nothing pending before, nothing is sent and no cache changes. |
| RemoteNode.Node.DirectWrite | pkg/agent/filesystem/write_linux.go:36-47 | A prefix of the data is in the file; after a failure the cached size is right if the data lies within the file or no size is cached. |
| RemoteNode.FailedWriteSizes | pkg/agent/filesystem/write_linux.go:36-47 | No failure of a direct write can make a cached size wrong if and only if the data lies within the file or no size is cached. |
| RemoteNode.Node.BufferWrite | pkg/agent/filesystem/write_linux.go:13-59 | The logical file gets the whole data, or on failure exactly a prefix of it, whatever fails and whatever the budget refuses. |
| RemoteNode.Node.Write | pkg/agent/filesystem/nodes_linux.go:305-312 | The same, with block cache and cached sizes left trustworthy; after a failed direct write too, if the data lies within the file, or in one block with nothing pending before. |
| RemoteNode.Node.LoadBlock | pkg/agent/filesystem/nodes_linux.go:281-286 | A coherent cache answers with the provider's current block and stays coherent. |
| RemoteNode.Node.ReadBlocks | pkg/agent/filesystem/nodes_linux.go:278-302 | The block loop terminates and returns exactly the requested slice of the file. |
| RemoteNode.Node.Read | pkg/agent/filesystem/nodes_linux.go:273-303 | A successful read returns logical[offset .. min(offset + size, length)]. |
| RemoteNode.Node.FlushPending | pkg/agent/filesystem/write_linux.go:61-66 | Flush and Release: on success the provider has the logical file. |
| RemoteNode.Node.Fsync | pkg/agent/filesystem/nodes_linux.go:314-324 | On success the durable content is the logical file. |
| RemoteNode.Node.SetSize | pkg/agent/filesystem/nodes_linux.go:135-173 | Size-only Setattr truncates the logical file; after a lost reply the stored blocks are right if and only if the cut touches none, the cached sizes if and only if the length stays or none is cached; bytes spelled out: old ones below both lengths, zeros above the old one. |
| RemoteNode.Node.Cut | pkg/agent/filesystem/nodes_linux.go:142-148 | The truncate request itself, with the same two conditions on what was cached before it, and the bytes spelled out. |
| RemoteNode.Node.SetMtime | pkg/agent/filesystem/nodes_linux.go:156-172 | Deferred exactly while blocks are pending and then answered by Attr, sent otherwise; the file is unchanged; what exists, file or directory, refuses only with a failing call. |
| RemoteNode.Node.Attr | pkg/agent/filesystem/nodes_linux.go:114-133 | The size reported of a file is the length of the logical file, even after a flush that failed part way; nothing absent is reported; what exists is not reported missing without a failing call; mode and time are those of the source unless a time is deferred. |
| RemoteNode.Node.CacheListing | pkg/agent/filesystem/nodes_linux.go:248-259 | A current listing of the parent directory keeps what is cached about the path right. |
| History.ExplainsNext | pkg/agent/filesystem/nodes_linux.go:273-332 | Histories explained by a flat file extend by one explained event. |
| History.Do | pkg/agent/filesystem/nodes_linux.go:114-332 | Every single operation moves the logical file as the flat file moves, replies as it or the directory at the path does, records what the provider holds, and fails on what exists only with a failing call. |
| History.Run | pkg/agent/filesystem/nodes_linux.go:114-332 | Every reply of every history is the flat file's: reads, sizes, flushed and durable contents, prefixes of failed writes; the last event records the provider's content; failures on what exists are no more than failing calls; budget accounting is unchanged. |
| History.FinalIsLatest | pkg/agent/filesystem/nodes_linux.go:273-332 | The flat file of a history holds at each position the byte that was put there last, by a write or by a cut, and ends where they left it. |
| History.RepliesAreLatest | pkg/agent/filesystem/nodes_linux.go:114-332 | In a history in which nothing slipped, reads, sizes and flushed contents are those bytes and that length. |
| History.ReadAfterResize | pkg/agent/filesystem/nodes_linux.go:135-173 | A read after a resize that came through: old bytes below both lengths, zeros above the old one, nothing beyond the new one. |
| History.LostTruncationExample | pkg/agent/filesystem/nodes_linux.go:142-148 | An input on which a lost truncation leaves a wrong block. |
| History.FailedDirectWriteExample | pkg/agent/filesystem/write_linux.go:36-47 | A write across a block border whose second direct chunk fails leaves a wrong size: the model's own calls, run to that state. |
| Renaming.MovedNext | pkg/agent/filesystem/nodes_linux.go:93-101 | One turn of the loop moves one entry, whatever was moved before. |
| Renaming.InsertedOutside | pkg/agent/filesystem/nodes_linux.go:93-101 | An entry inserted by the loop itself is never moved again. |
| Renaming.RenamedShape | pkg/agent/filesystem/nodes_linux.go:90-102 | Path by path, what a rename leaves in a table. |
| Renaming.KeysMovedShape | pkg/provider/filesystem/mutation.go:29-54 | The same for the set of directories, of which nothing is left at the new path but what came there. |
| MountView.RenameCarries | pkg/agent/filesystem/nodes_linux.go:371-391 | The logical file at new + s is the former one at old + s, under the unsent writes that were in the way if there were any; nothing at the old path; all others unchanged. |
| MountView.OthersKept | pkg/agent/filesystem/nodes_linux.go:50-63 | An operation on one path leaves contents, cached blocks and cached sizes of all others as reliable as they were. |
| MountView.RenameRenews | pkg/agent/filesystem/nodes_linux.go:386-389 | After a rename everything cached about both subtrees is right, the rest as before. |
| MountView.RenameBacked | pkg/agent/filesystem/nodes_linux.go:384-387 | Pending writes stay attached to files that the provider has, or to the paths where that was in doubt, and only such writes can be in the way. |
| MountView.RenameStrands | pkg/agent/filesystem/nodes_linux.go:384-390 | Without a reply: below the new path the files without their unsent writes, below the old path these alone, elsewhere what was there. |
| MountView.StrandedKeeps | pkg/agent/filesystem/nodes_linux.go:384-390 | Without a reply, what is cached outside both subtrees is as reliable as before. |
| MountView.RenameLostCaches | pkg/agent/filesystem/nodes_linux.go:384-390 | Without a reply, exactly when stored blocks and what is known are still right, at or below the old path and at or below the new one. |
| MountView.RemoveFinished | pkg/agent/filesystem/nodes_linux.go:364-367 | After a removal nothing is found at the path or below; all else is as before. |
| MountView.RemoveLost | pkg/agent/filesystem/nodes_linux.go:363-368 | Without a reply the path is gone; its stored blocks are right if and only if they hold nothing, what is known about it if and only if no size is cached. |
| MountView.MakeFinished | pkg/agent/filesystem/nodes_linux.go:334-356 | After a creation every file anybody finds is as before, and everything cached about the path and below is right. |
| MountView.MakeLost | pkg/agent/filesystem/nodes_linux.go:334-356 | Without a reply what is known about the path is right if and only if nothing cached denies it; everything else is as reliable as before. |
| MountView.ForgetFalls | pkg/agent/filesystem/nodes_linux.go:82-88 | A forgotten node's path falls back to the provider's file; blocks stay reliable, sizes too if nothing was pending. |
| MountView.ForgetHarmless | pkg/agent/filesystem/nodes_linux.go:82-88 | That loses nothing if and only if every unsent byte is already in the provider's file. |
| MountView.ListingKeeps | pkg/agent/filesystem/nodes_linux.go:248-259 | A fresh listing keeps what is cached right for every path of the directory and every other path. |
| MountView.FreshShown | pkg/agent/filesystem/nodes_linux.go:252-258 | A fresh listing shows a path if and only if it exists, and a file under its size: the logical length once pending writes are counted in. |
| MountView.CachedShown | pkg/agent/filesystem/nodes_linux.go:248-251 | So does a cached one, for every path about which the cache is right. |
| NodeTable.Mount.NodeAt | pkg/agent/filesystem/nodes_linux.go:65-74 | The node at a path, created once; each node is in the table at most once, under its own path. |
| NodeTable.Mount.Forget | pkg/agent/filesystem/nodes_linux.go:82-88 | Only the node found under its path leaves the table, with whatever it has pending. |
| NodeTable.Mount.RemoveNodes | pkg/agent/filesystem/nodes_linux.go:104-112 | The table loses exactly the subtree. |
| NodeTable.Mount.RenameNodes | pkg/agent/filesystem/nodes_linux.go:90-102 | The same table for every iteration order, met or unmet insertions included; every node is found under its path. |
| NodeTable.Mount.MoveTable | pkg/agent/filesystem/nodes_linux.go:90-102 | Pending writes move with their nodes. |
| NodeTable.Mount.Flush | pkg/agent/filesystem/nodes_linux.go:326-332 | Flushing one node changes no file anybody finds, keeps all caches reliable, and keeps held units equal to pending blocks over all nodes ever created. |
| NodeTable.Mount.FlushAt | pkg/agent/filesystem/nodes_linux.go:378-383 | The node at a path, looked up or created, with nothing pending on success and nothing changed for anybody. |
| NodeTable.Mount.FinishRename | pkg/agent/filesystem/nodes_linux.go:385-389 | Table and caches after the reply: nothing is remembered about either subtree but the new path's attributes. |
| NodeTable.Mount.Rename | pkg/agent/filesystem/nodes_linux.go:371-391 | Came through, refused, failed or unanswered: what is found and what can be relied on in each case, and when each can be; refused only if the provider must (absent old path, missing parent, other kind, entries) or a flush without a file could not go; a failure is paid for by a failing call; if nothing was pending at either path and it did not come through, no cache changes; without a reply, exactly which cached blocks and attributes of both subtrees are still right. |
| NodeTable.Mount.SendRename | pkg/agent/filesystem/nodes_linux.go:384-390 | The request and what follows it, from nodes that have been flushed; no cache changes unless it came through; the same exact conditions without a reply. |
| NodeTable.Mount.FinishRemove | pkg/agent/filesystem/nodes_linux.go:364-367 | Table and caches lose the subtree and nothing else. |
| NodeTable.Mount.Remove | pkg/agent/filesystem/nodes_linux.go:358-369 | Nothing is found at the path or below, the rest is unchanged; an absent path is refused, and if nothing was pending there no cache changes; without a reply, exactly when cached blocks and attributes are still right. |
| NodeTable.Mount.Make | pkg/agent/filesystem/nodes_linux.go:334-356 | Create and Mkdir, came through, refused, failed or unanswered: what exists, what is found and what can be relied on; refused exactly where something is or no directory to hold it; unless it came through, no cache changes. |
| NodeTable.Mount.List | pkg/agent/filesystem/nodes_linux.go:248-259 | A listing, cached or fetched, shows among the paths about which the cache is right exactly those that exist, files under their sizes; it leaves everything found as it was and everything known right; what is no directory is refused. |
| MountHistory.ShowsMoved | pkg/agent/filesystem/nodes_linux.go:371-391 | A rename that came through moves the flat files and the directories of the subtree and dispels all doubt about both subtrees. |
| MountHistory.ShowsLost | pkg/agent/filesystem/nodes_linux.go:384-390 | A rename without a reply, on the flat files: split into what was sent and what not, with both subtrees in doubt. |
| MountHistory.LostIsMoved | pkg/agent/filesystem/nodes_linux.go:384-390 | Then the moved files are found if and only if nothing was unsent below the old path and every byte unsent below the new one is already in the moved file. |
| MountHistory.ShowsForgot | pkg/agent/filesystem/nodes_linux.go:82-88 | Forgetting a node, on the flat files: its file falls back to what was sent. |
| MountHistory.ShowsListed | pkg/agent/filesystem/nodes_linux.go:248-259 | A listing changes no flat file and puts nothing in doubt. |
| MountHistory.ListingTold | pkg/agent/filesystem/nodes_linux.go:248-259 | What a listing shows is what the world allows: a path not in doubt is named if and only if it exists, and no file longer than it is. |
| MountHistory.ShowsMade | pkg/agent/filesystem/nodes_linux.go:334-356 | A creation changes no flat file; with its reply it dispels all doubt about the path and below, without it the path is in doubt. |
| MountHistory.ShowsLocal | pkg/agent/filesystem/nodes_linux.go:114-332 | An operation on one file is that operation on its flat file and on no other. |
| MountHistory.Operate | pkg/agent/filesystem/nodes_linux.go:65-74 | Node lookup and one operation at any path, file, directory or neither, explained by the world. |
| MountHistory.Relocate | pkg/agent/filesystem/nodes_linux.go:371-391 | A rename, explained by the world whether it came through, was refused, failed or was unanswered; refused, it changes nothing. |
| MountHistory.Discard | pkg/agent/filesystem/nodes_linux.go:358-369 | A removal, explained by the world, refusals and lost replies included; refused, it changes nothing. |
| MountHistory.Establish | pkg/agent/filesystem/nodes_linux.go:334-356 | A creation, explained by the world, refusals and lost replies included. |
| MountHistory.ForgetNode | pkg/agent/filesystem/nodes_linux.go:82-88 | Forgetting any node, with or without pending writes, explained by the world; nothing is pending at the path afterwards. |
| MountHistory.Enumerate | pkg/agent/filesystem/nodes_linux.go:248-259 | A listing with its entries, explained by the world; what is no directory fails without a failing call. |
| MountHistory.NewMountShows | pkg/agent/filesystem/nodes_linux.go:28-36 | A new mount shows the provider's files and directories, with nothing in doubt. |
| MountHistory.Run | pkg/agent/filesystem/nodes_linux.go:65-391 | In every history over all files, with creations, renames, removals, listings and forgotten nodes, programs are told what the flat files tell them, the mount shows the world at the end, and unexplained failures are no more than failing calls; the last event records what the provider holds, and slips only where the code does. |
| MountHistory.RunFresh | pkg/agent/filesystem/nodes_linux.go:28-44 | The same from a new mount over any files and directories with clean paths and any pattern of failures, with the mount it leaves. |
| MountHistory.NoFaultNoFailure | pkg/agent/remote/filesystem.go:10-30 | A history without failing calls has no unexplained failure. |
| MountHistory.FaultlessIsExact | pkg/agent/remote/filesystem.go:10-30 | With no failing call and no unsent write forgotten, every call on a new mount is answered exactly as the files and directories have it: bytes, sizes, existence, listings, refusals. |
| MountHistory.NothingInDoubt | pkg/agent/filesystem/nodes_linux.go:50-63 | Without a lost reply and a forgotten write nothing is ever in doubt. |
| MountHistory.HistoryKeepsTree | pkg/provider/filesystem/mutation.go:12-89 | In every explained history the files and directories stay a tree. |
| MountHistory.MadeThenDeleted | pkg/provider/filesystem/mutation.go:12-89 | What has been created can be removed, and then files, directories and contents are those from before. |
| MountHistory.GoneListing | pkg/agent/filesystem/nodes_linux.go:248-259 | In a tree a directory that is gone is listed only with entries that are in doubt. |
| MountHistory.RefusedChangesNothing | pkg/agent/filesystem/nodes_linux.go:363-368 | A removal can come through if and only if the path exists and has no entries; otherwise every answer is a failure that changes nothing, doubts included. |
| MountHistory.RetriesRefused | pkg/agent/filesystem/nodes_linux.go:363-368 | However often the removal of an absent path is repeated, every reply is a failure and the world stays as it was. |
| MountHistory.RefusedMakesNothing | pkg/provider/filesystem/mutation.go:12-16 | A creation can come through if and only if nothing is there and the parent is a directory; repeated after a lost reply it is refused and dispels no doubt. |
| MountHistory.ForgetExample | pkg/agent/filesystem/nodes_linux.go:82-88 | An input on which forgetting a node loses a byte. |
| MountHistory.LostRemovalExample | pkg/agent/filesystem/nodes_linux.go:363-368 | An input on which a lost removal leaves a wrong block and a wrong size. |
| MountHistory.LostRenameExample | pkg/agent/filesystem/nodes_linux.go:384-390 | An input on which a lost rename leaves a byte at the old path. |
| MountHistory.LostRenameCachedExample | pkg/agent/filesystem/nodes_linux.go:384-390 | An input on which a lost rename leaves a wrong block and a wrong size at the old path. |
| MountHistory.InTheWayExample | pkg/agent/filesystem/nodes_linux.go:371-391 | An input on which a rename brings an empty file under an unsent byte. |
| MountHistory.RetryExample | pkg/agent/filesystem/nodes_linux.go:358-369 | The history looked at, removed without a reply, removed again and refused, looked at with the old size: explained with one failing call. |
| MountHistory.LostCreationExample | pkg/agent/filesystem/nodes_linux.go:346-356 | An input on which a lost creation leaves an entry that denies the file. |
| Session.StepKeeps | pkg/server/session.go:16-82 | Every step of every handler keeps the invariant. |
| Session.RunInvariant | pkg/server/session.go:18-41 | The flag is set if and only if an admitted session is unreleased, and there is at most one; at most 32 handlers are live. |
| Session.ServedAlone | pkg/server/session.go:42-74 | From admission to the end of serving a handler is alone. |
| Session.AdmittedIsAuthentic | pkg/transport/server.go:27-47 | Whoever is admitted sent a valid handshake with the very credential, at a step of the run. |
| Session.StrangersStayOut | pkg/transport/server.go:27-47 | Without the right handshake a handler is never admitted and gets no further than the check. |
| Session.GuestsComeIn | pkg/server/session.go:18-38 | With the right handshake the check is passed, and admission is given if and only if nobody else has it. |
| Session.StagesInOrder | pkg/server/session.go:42-82 | The stages of a session in order, and where a failure leads from each. |
| Session.SlotForEach | pkg/server/run.go:35-60 | A connection gets a handler if and only if fewer than 32 are live. |
| Session.AllReturnedIsFree | pkg/server/session.go:27-81 | When all handlers have returned, by any path, the flag is clear. |
| Session.OthersCannotRelease | pkg/server/session.go:28-38 | No step of another session, repeated releases included, takes an admission away. |
| Session.SecondAdmissionAfterRelease | pkg/server/session.go:18-38 | A second session is admitted only after the first was released. |
| Session.SessionState.Admit | pkg/server/session.go:18-26 | Admits exactly when the flag was clear. |
| Session.Admission.ReleaseSession | pkg/server/session.go:27-38 | The once-guarded release is the model's release step. |
| Frames.NumberOfBigEndian | pkg/protocol/frame.go:18-34 | The four length bytes decode to the length. |
| Frames.BigEndianPlaces | pkg/protocol/frame.go:18-22 | The most significant byte comes first. |
| Frames.PayloadRoundTrip | pkg/protocol/payload.go:16-62 | Whichever encoding is chosen, the payload is no longer than the data and decodes to it within the limit. |
| Frames.DeflatedExactly | pkg/protocol/payload.go:16-36 | Data is deflated if and only if it has at least 4096 bytes and that saves more than a sixteenth. |
| Frames.DecodedExactly | pkg/protocol/payload.go:38-62 | A payload is accepted if and only if it is plain, or inflates cleanly to the promised number of bytes within the limit. |
| Frames.MessageRoundTrip | pkg/protocol/message.go:8-78 | A message reads back as the same fields and data, and what follows is untouched. |
| Frames.MessageCut | pkg/protocol/message.go:25-78 | A message that is cut short is never accepted. |
| Frames.ParsedExactly | pkg/protocol/message.go:25-48 | Exactly which bytes a reader accepts, with every limit, and what it leaves. |
| Frames.SentExactly | pkg/protocol/message.go:8-23 | A message is refused if and only if data or header are over their limits; otherwise these are its bytes. |
| Frames.MessagesRoundTrip | pkg/protocol/message.go:8-78 | Any concatenation of messages decodes to the original sequence. |
| Frames.WriteHeader | pkg/protocol/frame.go:10-27 | Length and header go out, or as much as the connection takes; too long a header sends nothing. |
| Frames.ReadHeader | pkg/protocol/frame.go:29-46 | Reads exactly one header or fails. |
| Frames.WriteMessage | pkg/protocol/message.go:8-23 | Exactly the bytes of the message go out, or a prefix of them. |
| Frames.ReadMessage | pkg/protocol/message.go:25-48 | Reads exactly one message or fails. |
| Directory.PagesSucceed | pkg/protocol/directory.go:19-43 | Paging succeeds if and only if every entry fits into a page of its own. |
| Directory.PagesDecode | pkg/protocol/directory.go:19-51 | Pages are non-empty, at most 1 MiB, and decode to the entries, each once and in order. |
| Directory.EncodedText | pkg/protocol/directory.go:19-43 | Brackets and commas of the text of a list. |
| Directory.OnePage | pkg/protocol/directory.go:19-43 | A list that fits is one page, an empty one is none. |
| Directory.CollectPlan | pkg/provider/filesystem/directory.go:23-53 | Across batches and pages, the responses mean exactly the shown entries, or an error. |
| Directory.ListedExactly | pkg/provider/filesystem/directory.go:23-53 | A listing stops at the first batch that is empty or at the end of the directory and nowhere else, and is all that is shown up to there, or an error if and only if a batch up to there cannot be read or an entry does not fit a page. |
| Directory.ReadWire | pkg/agent/remote/filesystem.go:43-62 | The bytes of a chain of responses read back as what they mean; any proper prefix is an error. |
| Directory.ReadDirExact | pkg/agent/remote/filesystem.go:32-63 | An error, or exactly the shown entries, and the latter exactly when all was sent and every byte arrived. |
| Directory.Filter | pkg/provider/filesystem/directory.go:29-40 | The readable, non-special entries of a batch in order. |
| Directory.ShownInPlace | pkg/provider/filesystem/directory.go:29-40 | What is shown are the entries at ascending places, each readable one that is not special exactly once, and no other. |
| Directory.HandleReadDir | pkg/provider/filesystem_handler.go:50-70 | The provider sends exactly the planned responses, or as much as the connection takes. |
| Directory.ReadDir | pkg/agent/remote/filesystem.go:43-62 | The reassembly loop computes the listing a byte stream stands for. |
| Directory.ListOver | pkg/agent/remote/filesystem.go:32-63 | Both ends together over a connection that may die after any byte; the entries are those of all batches up to the first that ends the directory. |
| FileBudget.Weight | pkg/provider/audit.go:13-19 | At most 2 MiB, positive if and only if the declared lengths are in bounds, and then the larger of them and one block. |
| FileBudget.WrittenRequestsPass | pkg/protocol/message.go:8-23 | Every request the writer can produce passes the weight check. |
| FileBudget.StepKeeps | pkg/provider/filesystem_handler.go:13-48 | Every step, the two deferred releases apart, keeps slots and held weight equal to what the handlers hold. |
| FileBudget.WithinBudget | pkg/provider/service.go:30-34 | In every interleaving at most 32 slots and 64 MiB are in use. |
| FileBudget.AcquireNeverWaits | pkg/provider/filesystem_handler.go:28-32 | A handler with a slot always gets its weight at once. |
| FileBudget.RequestIsServed | pkg/provider/filesystem_handler.go:13-48 | In every reachable state a request in bounds that finds a slot gets its weight and works, and gives back both. |
| FileBudget.RequestIsRefused | pkg/provider/filesystem_handler.go:13-32 | Without a slot, out of bounds or cancelled, a request ends without any weight. |
| FileBudget.ReleasesWhatIsHeld | pkg/provider/filesystem_handler.go:14-32 | Nothing is given back that is not held. |
| FileBudget.AllGoneNothingHeld | pkg/provider/filesystem_handler.go:13-48 | Every exit returns slot and weight. |
| BudgetProtocol.RunInvariant | pkg/agent/filesystem/write_linux.go:21-53 | In every interleaving the units held are the pending blocks and those in transit, at most 8 for a node and 128 in all. |
| BudgetProtocol.ReleaseCovered | pkg/agent/filesystem/write_linux.go:110-111 | No release returns more than was acquired. |
| BudgetProtocol.UnitForBlock | pkg/agent/filesystem/write_linux.go:21-53 | A unit is taken if and only if fewer than 128 are held; it enters the map with its block and leaves with it, and then all is as before. |
| BudgetProtocol.HeldIsPending | pkg/agent/filesystem/nodes_linux.go:22-26 | With no node in the middle of an operation, units held are exactly the pending blocks of all nodes. |

## Left out

- FUSE, yamux, sockets, deadlines and contexts: a remote call succeeds or fails, and a connection dies after some number of bytes.
- JSON and DEFLATE (section 3.2 of RFC 1951) are pairs of functions with their inverse law as a hypothesis, on strings that are valid UTF-8; only the brackets and commas of a JSON array of entries are spelled out.
- Network set-up, DNS, TCP proxying, configuration, policies, audit logging and reconnection: single-branch or foreign code.
- `path.Clean`, symlink targets and `cleanRemotePath`: paths are clean and relative, and never name ".".
- Symbolic links, special files and hard links in the provider's tree, out-of-band edits, and permissions: the tree holds regular files and directories, and a directory's own size and time are whatever each reply says.
- Locks: operations on one node are sequential, and the metadata cache's operations are atomic; the block cache, sessions, file handlers and the write budget are modelled under every interleaving.
- Setattr with several fields, chmod and Symlink on the agent: the same cache calls as the operations that are modelled.
- Handles of removed or replaced files: in whole-mount histories a path is served by the node in the table.
- The types in a listing, and its order: a listing is a list of names with attributes, and the mount passes on the names.
- Pending blocks are kept in the node's map by value: one is copied into a block object, written in place and put back, so sharing of block objects between maps is not expressible.
- A flight of the block cache is a pointer in the source and a number here; counters and sequence numbers do not wrap.
- Provider.FileService.Write: the file system's rounding of modification times to microseconds is not modelled.
- RemoteNode.Node.FlushWritesLocked: nothing is claimed about the cached modification time, which the code takes as a maximum.
- Session.ServedAlone: admission is released before the unmount, so this is about the admission, not about the mount.
