# FeedCache in Dafny

A model of `FeedCache<T>`, the disk-backed item cache of the FeedCache library, with proofs of what it promises. A cache called `name` keeps these pieces:

- an ordered in-memory sequence of items;
- a best-effort `saved` flag;
- a disk-operation queue that runs one job at a time, oldest first;
- one archive file at `<caches directory>/FeedCache/<name>/feed_cache.archive`.

`addItems` appends to the items and queues a save of a snapshot of the whole sequence. `loadCache` queues a load that either replaces the items with the decoded archive or fails. `clearCache` empties the items and removes the archive. `waitUntilSynchronized` blocks until the queue is empty.

The model has five modules:

- `Paths` (`paths.dfy`): the two file-name constants, the folder and archive path builders, and the facts that every archive lies inside the shared folder and that different names give different archives.
- `Archive` (`archive.dfy`): a stand-in for the keyed archiver. `Blob<T>` is either an archived item sequence or data that does not decode to one.
- `FileSystem` (`file_system.dfy`): files as a map from path to `Blob<T>`, on a shared `Disk<T>` object whose `writable` flag decides whether writes and removals succeed. It also holds `deleteAllFeedCaches`.
- `Engine` (`engine.dfy`): the cache as a state machine over values. `State` holds the items, `saved`, the queue, the files and the log of dispatched load completions. The module defines one function per public operation, `RunHead` (the worker runs the oldest job) and `Drain` (run jobs until the queue is empty). Its lemmas prove the properties below.
- `Cache` (`feed_cache.dfy`): the `FeedCache<T>` class itself. Its fields are updated in place, and each method's `ensures` ties the new state to the matching `Engine` function. The client methods at the end replay the usage scenarios using only those contracts.

Load completions are modelled as a log. Each `loadCache` call gets a ticket. Running its job appends `Completion(ticket, success)` to `completions`. `Engine.Accounted` states that the dispatched tickets, followed by the tickets of loads still queued, are exactly `0, 1, …, tickets - 1`. Every method preserves this invariant (`FeedCache.Valid`). So after a drain, every call has had its completion dispatched exactly once, in call order. In background mode a dispatched completion runs later, on the main queue (Source/FeedCache.swift:48-55); the log records the dispatch.

Behaviour that follows the code as written:

- A save sets `saved := true` when the queue's `operationCount` is 1. Loads count toward that number, so a save with only a load behind it leaves `saved` unchanged. The result of `writeToFile` is ignored (Source/FeedCache.swift:114-117), so a failed write still marks the cache saved.
- With the "perform work synchronously" setting, the queue is the main queue. Jobs are still queued there and run later by the main run loop, and `waitUntilSynchronized` returns at once (Source/FeedCache.swift:31-33, 83-87). The model keeps that: `synchronous` only switches `WaitUntilSynchronized` off, and `Step` stands for whichever worker runs the queue.
- A load replaces the items wholesale. A `loadCache()` followed by `addItems(a)` before the load has run ends with the items read from the archive, without `a`, although the archive holds the old items + `a` and `saved` is true (`Engine.LoadThenAppendDropsAppend`).
- `clearCache` removes the archive directly and does not queue the removal (Source/FeedCache.swift:78, 89-99). See Findings.

## Model

| member | source | states |
|---|---|---|
| `Paths.FolderPath` | Source/FeedCache.swift:143-153 | a cache's folder lies inside `<root>/FeedCache/` (or directly under the root when not inside the cache folder) and ends with the folder name |
| `Paths.CacheRoot` | Source/FeedCache.swift:17-19 | the shared folder is the `FeedCache` component directly under the caches directory |
| `Paths.ArchivePath` | Source/FeedCache.swift:109-112 | an archive's file name is `feed_cache.archive` and its parent is the cache's own folder inside the shared folder |
| `Paths.ArchivePathLayout` | Source/FeedCache.swift:11-14 | the archive of cache `name` is `<root>/FeedCache/<name>/feed_cache.archive` |
| `Paths.ArchivePathInjective` | Source/FeedCache.swift:143-153 | under plain concatenation with `/`, two names with the same archive path are the same name (see Left out for the source's normalisation) |
| `Paths.ArchiveInsideCacheRoot` | Source/FeedCache.swift:109-112 | every cache's archive lies inside the shared `<root>/FeedCache/` folder |
| `Archive.Decode` | Source/FeedCache.swift:63-65 | whatever decodes is exactly what was encoded; undecodable data yields nothing |
| `Archive.DecodeEncode` | Source/FeedCache.swift:41 | encoding an item sequence is lossless, the empty sequence included |
| `FileSystem.WriteFile` | Source/FeedCache.swift:114 | an atomic write: on a writable volume the path then decodes to exactly the written items; otherwise nothing changes; other paths never change |
| `FileSystem.RemoveFile` | Source/FeedCache.swift:93-98 | removal leaves the path absent on a writable volume, changes nothing otherwise (the error is swallowed), and never touches other paths |
| `FileSystem.ReadFile` | Source/FeedCache.swift:133 | a read yields the stored data exactly when the file exists |
| `FileSystem.RemoveAllCaches` | Source/FeedCache.swift:16-21 | removing the shared folder succeeds exactly when the volume allows; what remains is a subset of the old files, unchanged, none of them inside the shared folder |
| `FileSystem.RemoveAllCachesEffect` | Source/FeedCache.swift:16-21 | removing the shared folder fails exactly when the volume refuses; on success no cache of any name has an archive, and files outside the folder are unchanged |
| `FileSystem.DeleteAllFeedCaches` | Source/FeedCache.swift:16-21 | reports failure to the caller (the source throws) and then leaves the files as they were; on success the files are those of `RemoveAllCaches` |
| `FileSystem.Disk.Write` | Source/FeedCache.swift:114 | the disk's files become `WriteFile` of the old files |
| `FileSystem.Disk.Remove` | Source/FeedCache.swift:94 | the disk's files become `RemoveFile` of the old files |
| `Engine.RunHead` | Source/FeedCache.swift:101-140 | running a job removes exactly the oldest job from the queue, keeps every completion already dispatched, and touches no file but this cache's archive |
| `Engine.Drain` | Source/FeedCache.swift:83-87 | draining empties the queue, only adds to the completions already dispatched (the old log is a prefix of the new), and touches no file but this cache's archive |
| `Engine.Init` | Source/FeedCache.swift:25-36 | a new cache has no items, is not saved, has nothing queued and owes no completion |
| `Engine.AddItems` | Source/FeedCache.swift:38-43 | the new items are appended after the old ones, `saved` becomes false, exactly one save of the whole new sequence is queued last, no file changes, and every `loadCache` call stays accounted for |
| `Engine.LoadCache` | Source/FeedCache.swift:46-73 | one load is queued last for a new ticket, which becomes the only extra completion owed; items, flag and files are untouched until it runs |
| `Engine.ClearCache` | Source/FeedCache.swift:75-80 | as written: items become empty and `saved` true, the archive is removed at once (kept if the volume refuses), no other file changes, and the queue is left as it was |
| `Engine.ClearCacheQueued` | Source/FeedCache.swift:75-80 | corrected clear: items become empty and `saved` true, and a delete is queued after every waiting job, so it is the last write to the archive |
| `Engine.LoadResult` | Source/FeedCache.swift:62-72 | a load succeeds exactly when its owner is alive and the archive exists and decodes, and then yields exactly the archived sequence |
| `Engine.RunHeadAccounted` | Source/FeedCache.swift:122-139 | running any job keeps every `loadCache` call accounted for exactly once, in call order |
| `Engine.DrainDeliversAll` | Source/FeedCache.swift:46-72 | after a drain, the completions dispatched are exactly one per `loadCache` call, in call order |
| `Engine.DrainSaved` | Source/FeedCache.swift:115-117 | after a drain, `saved` is true if the last job was a save, and otherwise as before |
| `Engine.DrainArchive` | Source/FeedCache.swift:34 | jobs run in enqueue order: after a drain the archive holds the snapshot of the last queued save (absent after a last queued delete, unchanged if nothing queued writes it) |
| `Engine.DrainReadOnly` | Source/FeedCache.swift:114 | on a volume that refuses writes a drain changes no file |
| `Engine.Run` | Source/FeedCache.swift:101-140 | running the `k` oldest jobs leaves exactly the rest of the queue, in order |
| `Engine.ReadsFollowWrites` | Source/FeedCache.swift:101-134 | wherever a load directly follows a save in the queue, the load reads that save's snapshot back into the items and reports success; that successful completion stays in the log whatever runs after it |
| `Engine.AppendTwiceThenDrain` | Source/FeedCache.swift:38-43 | `addItems(a); addItems(b)` then a drain: items and archive both equal old items + a + b, and the cache is saved |
| `Engine.LoadThenAppendDropsAppend` | Source/FeedCache.swift:38-72 | `loadCache(); addItems(a)` then a drain: the items are the old archive without `a`, while the archive holds old items + `a` and `saved` is true |
| `Engine.NewInstanceLoad` | Source/FeedCache.swift:62-72 | a new instance that loads and waits gets one completion: success with the archive's contents if it decodes, failure and no items otherwise |
| `Engine.FailedLoadKeepsItems` | Source/FeedCache.swift:62-71 | with the archive missing or undecodable, a load reports false and leaves the existing items untouched |
| `Engine.ClearOvertakenByQueuedSave` | Source/FeedCache.swift:75-80 | as written: after `addItems([x])`, `clearCache()` and a drain, the items are empty but the archive holds `[x]` again |
| `Engine.QueuedClearRemovesArchive` | Source/FeedCache.swift:75-80 | corrected clear: after a drain the archive is absent, whatever was queued before the clear |
| `Engine.OtherCacheUntouched` | Source/FeedCache.swift:90-92 | draining the cache called `a` leaves the archive of a cache called `b != a` exactly as it was |
| `Cache.FeedCache.constructor` | Source/FeedCache.swift:30-36 | a new cache has no items, is not saved, has an empty queue and is bound to its name, root, disk and queue kind |
| `Cache.FeedCache.AddItems` | Source/FeedCache.swift:38-43 | items become old items + new items (appended, never replaced), `saved` becomes false, and exactly one save is queued with a snapshot of the new whole sequence |
| `Cache.FeedCache.SaveData` | Source/FeedCache.swift:101-102 | queues one save of the given snapshot behind every job already queued |
| `Cache.FeedCache.LoadCache` | Source/FeedCache.swift:46-73 | queues one load, for a fresh ticket, and changes nothing else |
| `Cache.FeedCache.GetCachedData` | Source/FeedCache.swift:122-123 | queues one load behind every job already queued |
| `Cache.FeedCache.ClearCache` | Source/FeedCache.swift:75-80 | items become empty, the archive is removed at once outside the queue (if the volume allows), `saved` ends true, and the queue is unchanged |
| `Cache.FeedCache.DeleteCache` | Source/FeedCache.swift:89-99 | removes this cache's archive, swallowing failure |
| `Cache.FeedCache.ClearCacheQueued` | Source/FeedCache.swift:75-80 | corrected clear: items become empty, `saved` true, and a delete is queued behind every waiting job |
| `Cache.FeedCache.Step` | Source/FeedCache.swift:101-140 | the worker runs the oldest job and removes it, as `Engine.RunHead` says, keeping every load accounted for |
| `Cache.FeedCache.RunSave` | Source/FeedCache.swift:105-118 | the save job writes its snapshot to the archive path and sets `saved` only when its job is the only one in the queue |
| `Cache.FeedCache.RunLoad` | Source/FeedCache.swift:126-138 | the load job reads and decodes the archive, replaces the items on success, and dispatches its completion once with the outcome |
| `Cache.FeedCache.RunDelete` | Source/FeedCache.swift:89-99 | the queued delete of the corrected clear removes this cache's archive and nothing else |
| `Cache.FeedCache.WaitUntilSynchronized` | Source/FeedCache.swift:83-87 | on a background queue, returns with the queue empty and the state that `Engine.Drain` gives; on the main queue, changes nothing |
| `Cache.Reopen` | Source/FeedCache.swift:46-73 | a new instance that loads and waits has dispatched one completion, reporting success exactly when the archive decodes, and then holds its contents |
| `Cache.AppendTwiceThenReload` | Source/FeedCache.swift:38-43 | `addItems(a); addItems(b)`, wait, then a new instance's load succeeds with `a + b` |
| `Cache.ClearAfterSyncThenReload` | Source/FeedCache.swift:75-80 | a clear after the queue has drained leaves a new instance nothing to load |
| `Cache.ClearWhileSaveQueuedThenReload` | Source/FeedCache.swift:75-80 | as written, a clear with a save still queued is undone: a new instance loads `[x]` back |
| `Cache.QueuedClearWhileSaveQueuedThenReload` | Source/FeedCache.swift:75-80 | with the corrected clear, the same sequence leaves a new instance nothing to load |
| `Cache.DistinctNamesThenReload` | Source/FeedCache.swift:143-153 | writing cache `a` gives cache `b` nothing to load when `b` had no archive |

## Left out

- Keyed archiving (`NSKeyedArchiver` / `NSKeyedUnarchiver`) is foreign code. `Archive.Blob` keeps the encoded sequence itself, and `Unreadable` stands for data that does not unarchive to `[T]`.
- Real concurrency is not modelled. Jobs run atomically, one `Step` at a time. Calls on the owner's side can happen only between jobs. The source's race, where a job is enqueued while a running save reads `operationCount`, is therefore not represented.
- `Engine.DrainDeliversAll`: a log entry means the completion was dispatched. In background mode the source dispatches it asynchronously to the main queue, so it runs only after `waitUntilSynchronized` has returned (Source/FeedCache.swift:48-55). The completion parameter is optional and defaults to nil (Source/FeedCache.swift:46); a nil completion runs nothing, yet the model still logs an entry.
- `Cache.Reopen`: its completion, too, is only dispatched by the time the wait returns, and runs later on the main queue; the model logs it whether or not a completion was passed.
- Thread hops are not modelled: the main-queue redispatch of the load completion, and which thread runs a completion. A completion is an entry in the `completions` log.
- The main queue in synchronous mode may hold unrelated operations that raise `operationCount`. The model's queue holds only this cache's jobs.
- Folders are not represented. `_createFolderIfNeeded` is left out, and a failed folder creation behaves like a failed write (`Disk.writable` false). Error printing is left out.
- `FileSystem.DeleteAllFeedCaches` models only one failure: a volume that refuses removal. The error for a missing `FeedCache` folder is not modelled, because folders are not represented.
- `Paths.ArchivePathInjective` is proved for plain concatenation with `/`. The path normalisation of `stringByAppendingPathComponent` is not modelled. It drops a trailing `/` and collapses repeated separators, so in the source the archive paths are not injective: caches named `a` and `a/`, or `a/b` and `a//b`, share one archive file.
- `Cache.FeedCache.WaitUntilSynchronized` assumes the volume's `writable` flag does not change while it waits, and that the owner is alive, since the owner is the one waiting.
- `Engine.RunHead` allows a load to run with its owner gone, as the code's `else` branch does. In the source that branch is hard to reach, because the load's completion closure holds the cache strongly.
- The `FeedItem` protocol constraint on `T` is not modelled. The cache never inspects items.
- `ExampleProject/ExampleProject/TableViewController.swift` is a UIKit consumer of the cache and is not part of this model.

## Findings

| source | as written | input that shows it | evidently intended | confidence | as-written member | corrected member |
|---|---|---|---|---|---|---|
| Source/FeedCache.swift:75-80 | `clearCache` removes the archive directly, ahead of any saves still in the disk-operation queue | `addItems([x])`, then `clearCache()` before the save has run, then `waitUntilSynchronized()`: the queued save writes `[x]` back, so the items are `[]` but a new instance loads `[x]` | the removal takes its turn in the queue after the saves already queued, so after synchronizing the archive is absent | medium, not executed | `Engine.ClearOvertakenByQueuedSave` | `Engine.QueuedClearRemovesArchive` |
