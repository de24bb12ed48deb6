/** The feed cache object: items and the `saved` flag live in the object and
    are updated in place; disk work goes through a FIFO queue with one job
    running at a time; archives live on a volume shared with every other
    cache of the process. */
module Cache {
  import opened Archive
  import opened Paths
  import opened FileSystem
  import opened Engine

  class FeedCache<T> {
    const name: string
    /** The platform caches directory. */
    const root: string
    /** True when the queue is the main queue (the process-wide "perform
        work synchronously" setting, fixed at creation). */
    const synchronous: bool
    const disk: Disk<T>

    var items: seq<T>
    var saved: bool
    /** The disk-operation queue, oldest job first. */
    var queue: seq<Job<T>>
    /** Completions of `loadCache` dispatched so far, in order. */
    var completions: seq<Completion>
    /** Number of `loadCache` calls so far. */
    var tickets: nat

    /** The one archive file every operation of this cache targets. */
    function Path(): string
    {
      ArchivePath(root, name)
    }

    ghost function State(): Engine.State<T>
      reads this, disk
    {
      Engine.State(items, saved, queue, disk.files, completions, tickets)
    }

    ghost predicate Valid()
      reads this, disk
    {
      Accounted(State())
    }

    constructor (name: string, root: string, disk: Disk<T>, synchronous: bool)
      ensures Valid()
      ensures this.name == name && this.root == root && this.disk == disk
      ensures this.synchronous == synchronous
      ensures State() == Init(disk.files)
    {
      this.name := name;
      this.root := root;
      this.disk := disk;
      this.synchronous := synchronous;
      items := [];
      saved := false;
      queue := [];
      completions := [];
      tickets := 0;
    }

    /** `addItems`: appends (never replaces), marks the cache dirty, and
        enqueues exactly one save carrying the whole new sequence. */
    method AddItems(newItems: seq<T>)
      requires Valid()
      modifies this
      ensures Valid()
      ensures items == old(items) + newItems && !saved
      ensures queue == old(queue) + [Save(items)]
      ensures State() == Engine.AddItems(old(State()), newItems)
    {
      ghost var after := Engine.AddItems(State(), newItems);
      saved := false;
      items := items + newItems;
      var snapshot := items;
      SaveData(snapshot);
    }

    /** `_saveData`: enqueues a save of the given snapshot. */
    method SaveData(snapshot: seq<T>)
      modifies this`queue
      ensures queue == old(queue) + [Save(snapshot)]
    {
      queue := queue + [Save(snapshot)];
    }

    /** `loadCache`: enqueues a load; `ticket` identifies the completion it
        will dispatch. */
    method LoadCache() returns (ticket: nat)
      requires Valid()
      modifies this
      ensures Valid()
      ensures ticket == old(tickets)
      ensures queue == old(queue) + [Load(ticket)]
      ensures State() == Engine.LoadCache(old(State()))
    {
      ghost var after := Engine.LoadCache(State());
      ticket := tickets;
      tickets := tickets + 1;
      GetCachedData(ticket);
    }

    /** `_getCachedData`: enqueues a read of the archive for one completion. */
    method GetCachedData(ticket: nat)
      modifies this`queue
      ensures queue == old(queue) + [Load(ticket)]
    {
      queue := queue + [Load(ticket)];
    }

    /** `clearCache`: empties the items and removes the archive right away,
        outside the queue, then forces `saved` whether or not the removal
        worked. Saves still queued run afterwards. */
    method ClearCache()
      requires Valid()
      modifies this, disk
      ensures Valid()
      ensures items == [] && saved && queue == old(queue)
      ensures disk.writable == old(disk.writable)
      ensures State() == Engine.ClearCache(old(State()), Path(), old(disk.writable))
    {
      saved := false;
      items := [];
      DeleteCache();
      saved := true;
    }

    /** `_deleteCache`: removes the archive; a failure is swallowed. */
    method DeleteCache()
      modifies disk
      ensures disk.files == RemoveFile(old(disk.files), Path(), disk.writable)
      ensures disk.writable == old(disk.writable)
    {
      disk.Remove(Path());
    }

    /** `clearCache` corrected: the removal is queued behind the jobs already
        waiting, so none of them can re-create the archive after it. */
    method ClearCacheQueued()
      requires Valid()
      modifies this
      ensures Valid()
      ensures items == [] && saved && queue == old(queue) + [Delete]
      ensures State() == Engine.ClearCacheQueued(old(State()))
    {
      ghost var after := Engine.ClearCacheQueued(State());
      items := [];
      queue := queue + [Delete];
      saved := true;
    }

    /** The queue's worker runs the oldest job and then removes it from the
        queue. `ownerAlive` is false when the cache object is gone by the
        time the job runs. */
    method Step(ownerAlive: bool)
      requires Valid() && |queue| > 0
      modifies this, disk
      ensures Valid()
      ensures disk.writable == old(disk.writable)
      ensures State() == RunHead(old(State()), Path(), old(disk.writable), ownerAlive)
    {
      ghost var before := State();
      ghost var after := RunHead(before, Path(), disk.writable, ownerAlive);
      RunHeadAccounted(before, Path(), disk.writable, ownerAlive);
      var job := queue[0];
      if job.Save? {
        SaveOutcome(before, Path(), disk.writable, ownerAlive);
        RunSave(job.snapshot, ownerAlive);
        queue := queue[1..];
        assert State() == after;
      } else if job.Load? {
        LoadOutcome(before, Path(), disk.writable, ownerAlive);
        RunLoad(job.ticket, ownerAlive);
        queue := queue[1..];
        assert State() == after;
      } else {
        DeleteOutcome(before, Path(), disk.writable, ownerAlive);
        RunDelete(ownerAlive);
        queue := queue[1..];
        assert State() == after;
      }
    }

    /** The body of a save job: write the snapshot, then mark the cache saved
        if this job is the only operation in the queue (the running job
        itself is still counted). */
    method RunSave(snapshot: seq<T>, ownerAlive: bool)
      modifies this`saved, disk
      ensures disk.writable == old(disk.writable)
      ensures disk.files == if ownerAlive then WriteFile(old(disk.files), Path(), snapshot, disk.writable) else old(disk.files)
      ensures saved == (old(saved) || (ownerAlive && |queue| == 1))
    {
      if ownerAlive {
        disk.Write(Path(), snapshot);
        if |queue| == 1 {
          saved := true;
        }
      }
    }

    /** The body of a load job: read and decode the archive; on success
        replace the items and report true, otherwise report false. */
    method RunLoad(ticket: nat, ownerAlive: bool)
      modifies this`items, this`completions
      ensures var loaded := LoadResult(disk.files, Path(), ownerAlive);
        && completions == old(completions) + [Completion(ticket, loaded.Some?)]
        && items == if loaded.Some? then loaded.value else old(items)
    {
      var data := if ownerAlive then ReadFile(disk.files, Path()) else None;
      var loaded := if data.Some? then Decode(data.value) else None;
      if loaded.Some? {
        items := loaded.value;
        completions := completions + [Completion(ticket, true)];
      } else {
        completions := completions + [Completion(ticket, false)];
      }
    }

    /** The body of a queued delete (corrected clear only). */
    method RunDelete(ownerAlive: bool)
      modifies disk
      ensures disk.writable == old(disk.writable)
      ensures disk.files == if ownerAlive then RemoveFile(old(disk.files), Path(), disk.writable) else old(disk.files)
    {
      if ownerAlive {
        disk.Remove(Path());
      }
    }

    /** `waitUntilSynchronized`: on a background queue, returns once every
        job enqueued so far has run; on the main queue it returns at once. */
    method WaitUntilSynchronized()
      requires Valid()
      modifies this, disk
      ensures Valid()
      ensures disk.writable == old(disk.writable)
      ensures synchronous ==> State() == old(State())
      ensures !synchronous ==> queue == [] && State() == Drain(old(State()), Path(), old(disk.writable))
    {
      if !synchronous {
        while |queue| > 0
          invariant Valid()
          invariant disk.writable == old(disk.writable)
          invariant Drain(State(), Path(), disk.writable) == Drain(old(State()), Path(), disk.writable)
          decreases |queue|
        {
          Step(true);
        }
      }
    }
  }

  // -----------------------------------------------------------------------
  // Clients: what a caller can rely on from the contracts above alone.

  /** A new instance of the cache called `name` loads and waits: it reports
      success exactly when that cache's archive decodes. */
  method Reopen<T>(disk: Disk<T>, root: string, name: string) returns (ok: bool, reloaded: seq<T>)
    modifies disk
    ensures var loaded := LoadResult(disk.files, ArchivePath(root, name), true);
      ok == loaded.Some? && reloaded == if ok then loaded.value else []
    ensures disk.files == old(disk.files) && disk.writable == old(disk.writable)
  {
    ghost var files := disk.files;
    var cache := new FeedCache(name, root, disk, false);
    var ticket := cache.LoadCache();
    cache.WaitUntilSynchronized();
    NewInstanceLoad(files, cache.Path(), disk.writable);
    ok := cache.completions[0].success;
    reloaded := cache.items;
  }

  /** Two appends with no wait between them, a wait, then a new instance of
      the same name loads both batches in order. */
  method AppendTwiceThenReload<T>(disk: Disk<T>, root: string, name: string, a: seq<T>, b: seq<T>)
    returns (ok: bool, reloaded: seq<T>)
    requires disk.writable
    modifies disk
    ensures ok && reloaded == a + b
  {
    var cache := new FeedCache(name, root, disk, false);
    ghost var s0 := cache.State();
    cache.AddItems(a);
    cache.AddItems(b);
    cache.WaitUntilSynchronized();
    AppendTwiceThenDrain(s0, cache.Path(), a, b);
    assert cache.items == a + b && cache.saved;
    ok, reloaded := Reopen(disk, root, name);
  }

  /** A clear issued after the queue has drained leaves nothing to load. */
  method ClearAfterSyncThenReload<T>(disk: Disk<T>, root: string, name: string, a: seq<T>)
    returns (ok: bool)
    requires disk.writable
    modifies disk
    ensures !ok
  {
    var cache := new FeedCache(name, root, disk, false);
    cache.AddItems(a);
    cache.WaitUntilSynchronized();
    cache.ClearCache();
    cache.WaitUntilSynchronized();
    assert cache.items == [] && cache.Path() !in disk.files;
    var reloaded;
    ok, reloaded := Reopen(disk, root, name);
  }

  /** As written, a clear issued while a save is still queued is undone by
      that save: a new instance then loads the cleared items back. */
  method ClearWhileSaveQueuedThenReload<T>(disk: Disk<T>, root: string, name: string, x: T)
    returns (ok: bool, reloaded: seq<T>)
    requires disk.writable
    modifies disk
    ensures ok && reloaded == [x]
  {
    var cache := new FeedCache(name, root, disk, false);
    ghost var s0 := cache.State();
    cache.AddItems([x]);
    cache.ClearCache();
    cache.WaitUntilSynchronized();
    ClearOvertakenByQueuedSave(s0, cache.Path(), x);
    assert s0.items + [x] == [x];
    assert cache.items == [];
    ok, reloaded := Reopen(disk, root, name);
  }

  /** With the corrected clear, the same sequence leaves nothing to load. */
  method QueuedClearWhileSaveQueuedThenReload<T>(disk: Disk<T>, root: string, name: string, x: T)
    returns (ok: bool)
    requires disk.writable
    modifies disk
    ensures !ok
  {
    var cache := new FeedCache(name, root, disk, false);
    cache.AddItems([x]);
    ghost var s1 := cache.State();
    cache.ClearCacheQueued();
    cache.WaitUntilSynchronized();
    QueuedClearRemovesArchive(s1, cache.Path());
    var reloaded;
    ok, reloaded := Reopen(disk, root, name);
  }

  /** Writing the cache called `a` does not give the cache called `b`
      anything to load. */
  method DistinctNamesThenReload<T>(disk: Disk<T>, root: string, a: string, b: string, xs: seq<T>)
    returns (ok: bool)
    requires a != b && ArchivePath(root, b) !in disk.files && disk.writable
    modifies disk
    ensures !ok
  {
    var writer := new FeedCache(a, root, disk, false);
    writer.AddItems(xs);
    ghost var s1 := writer.State();
    writer.WaitUntilSynchronized();
    OtherCacheUntouched(s1, root, a, b, disk.writable);
    var reloaded;
    ok, reloaded := Reopen(disk, root, b);
  }
}
