/** The feed cache as a state machine over values: the in-memory items, the
    best-effort `saved` flag, the FIFO disk-operation queue (one job runs at
    a time), the shared files, and the log of load completions dispatched
    so far. `Cache.FeedCache` is proved against these functions. */
module Engine {
  import opened Archive
  import opened FileSystem
  import opened Paths

  /** A job on the disk-operation queue. A save carries the snapshot of the
      items taken when it was enqueued; a load carries the ticket of the
      `loadCache` call whose completion it will dispatch. `Delete` is only
      enqueued by the corrected clear (`ClearCacheQueued`). */
  datatype Job<T> = Save(snapshot: seq<T>) | Load(ticket: nat) | Delete

  /** One `loadCache` completion, as dispatched by its load job. */
  datatype Completion = Completion(ticket: nat, success: bool)

  datatype State<T> = State(
    items: seq<T>,
    saved: bool,
    queue: seq<Job<T>>,
    files: Files<T>,
    completions: seq<Completion>,
    tickets: nat)  // number of `loadCache` calls so far

  /** A newly created cache over the given files: no items, not saved,
      nothing queued, no `loadCache` call yet. */
  function Init<T>(files: Files<T>): (r: State<T>)
    ensures r.items == [] && !r.saved && r.queue == [] && r.files == files
    ensures Accounted(r)
  {
    State([], false, [], files, [], 0)
  }

  /** `addItems`: the new items are appended after the old ones (never
      replacing them), the cache is marked dirty, and exactly one job is
      queued, last: a save of the whole new sequence. No file changes yet,
      and every `loadCache` call stays accounted for. */
  function AddItems<T>(s: State<T>, newItems: seq<T>): (r: State<T>)
    ensures s.items <= r.items && r.items[|s.items|..] == newItems
    ensures !r.saved
    ensures r.queue == s.queue + [Save(r.items)]
    ensures r.files == s.files && r.completions == s.completions && r.tickets == s.tickets
    ensures Accounted(s) ==> Accounted(r)
  {
    var items := s.items + newItems;
    PendingAppend(s.queue, Save(items));
    s.(items := items, saved := false, queue := s.queue + [Save(items)])
  }

  /** `loadCache`: queues a load, last, for a ticket no earlier call has;
      its completion is the only one still owed beyond those owed before.
      Items, flag and files are untouched until the load runs. */
  function LoadCache<T>(s: State<T>): (r: State<T>)
    ensures r.queue == s.queue + [Load(s.tickets)] && r.tickets == s.tickets + 1
    ensures PendingTickets(r.queue) == PendingTickets(s.queue) + [s.tickets]
    ensures r.items == s.items && r.saved == s.saved && r.files == s.files
    ensures r.completions == s.completions
    ensures Accounted(s) ==> Accounted(r)
  {
    PendingAppend(s.queue, Load(s.tickets));
    s.(queue := s.queue + [Load(s.tickets)], tickets := s.tickets + 1)
  }

  /** `clearCache` as written: the items are emptied and the archive is
      removed at once, outside the queue (on a volume that refuses, the
      error is swallowed and the archive stays); the flag ends set although
      every queued job is still waiting. */
  function ClearCache<T>(s: State<T>, path: string, writable: bool): (r: State<T>)
    ensures r.items == [] && r.saved
    ensures r.queue == s.queue && r.completions == s.completions && r.tickets == s.tickets
    ensures writable ==> path !in r.files
    ensures !writable ==> r.files == s.files
    ensures r.files - {path} == s.files - {path}
    ensures Accounted(s) ==> Accounted(r)
  {
    s.(items := [], files := RemoveFile(s.files, path, writable), saved := true)
  }

  /** `clearCache` corrected: the removal is queued behind every job already
      waiting, so it is the last write to the archive and no earlier save
      can re-create the archive after it. */
  function ClearCacheQueued<T>(s: State<T>): (r: State<T>)
    ensures r.items == [] && r.saved && r.files == s.files
    ensures |r.queue| == |s.queue| + 1 && r.queue[..|s.queue|] == s.queue
    ensures LastWrite(r.queue) == Some(Delete)
    ensures Accounted(s) ==> Accounted(r)
  {
    PendingAppend(s.queue, Delete);
    LastWriteEndsWithWrite(s.queue, Delete);
    s.(items := [], queue := s.queue + [Delete], saved := true)
  }

  /** The outcome of a load job: it succeeds exactly when the owner is still
      there and the archive exists and decodes, and then yields exactly the
      sequence that was archived. */
  function LoadResult<T>(files: Files<T>, path: string, ownerAlive: bool): (r: Option<seq<T>>)
    ensures r.Some? <==> ownerAlive && path in files && files[path].Archived?
    ensures r.Some? ==> Encode(r.value) == files[path]
  {
    if !ownerAlive then None
    else
      match ReadFile(files, path)
      case None => None
      case Some(data) => Decode(data)
  }

  /** The worker runs the job at the head of the queue, then removes it.
      `ownerAlive` is false when the cache object is gone by then (the
      job's weak reference is nil). A save marks the cache saved only when
      it is the sole operation in the queue, whether or not its write
      succeeded. */
  function RunHead<T>(s: State<T>, path: string, writable: bool, ownerAlive: bool): (r: State<T>)
    requires |s.queue| > 0
    ensures r.queue == s.queue[1..] && r.tickets == s.tickets
    ensures r.files - {path} == s.files - {path}
    ensures s.completions <= r.completions
  {
    var sole := |s.queue| == 1;
    var s' := s.(queue := s.queue[1..]);
    match s.queue[0]
    case Save(snapshot) =>
      if ownerAlive
      then s'.(files := WriteFile(s.files, path, snapshot, writable), saved := sole || s.saved)
      else s'
    case Load(ticket) =>
      var loaded := LoadResult(s.files, path, ownerAlive);
      if loaded.Some?
      then s'.(items := loaded.value, completions := s.completions + [Completion(ticket, true)])
      else s'.(completions := s.completions + [Completion(ticket, false)])
    case Delete =>
      if ownerAlive then s'.(files := RemoveFile(s.files, path, writable)) else s'
  }

  /** `waitUntilSynchronized` on a background queue: run jobs until none is
      left. The owner is waiting, so it is alive throughout. */
  function Drain<T>(s: State<T>, path: string, writable: bool): (r: State<T>)
    ensures r.queue == []
    ensures r.tickets == s.tickets
    ensures s.completions <= r.completions
    ensures r.files - {path} == s.files - {path}
    decreases |s.queue|
  {
    if |s.queue| == 0 then s
    else Drain(RunHead(s, path, writable, true), path, writable)
  }

  // ---------------------------------------------------------------------
  // Specification helpers

  /** The last job of the queue that writes the archive (a save or a
      delete), if any. */
  function LastWrite<T>(q: seq<Job<T>>): Option<Job<T>>
  {
    if |q| == 0 then None
    else
      var later := LastWrite(q[1..]);
      if later.Some? then later
      else if q[0].Load? then None
      else Some(q[0])
  }

  /** Tickets of the loads still waiting in the queue, in queue order. */
  function PendingTickets<T>(q: seq<Job<T>>): seq<nat>
  {
    if |q| == 0 then []
    else (if q[0].Load? then [q[0].ticket] else []) + PendingTickets(q[1..])
  }

  /** Tickets of the completions dispatched so far, in dispatch order. */
  function Delivered(cs: seq<Completion>): seq<nat>
  {
    if |cs| == 0 then [] else Delivered(cs[..|cs| - 1]) + [cs[|cs| - 1].ticket]
  }

  /** The tickets 0, 1, ..., n - 1. */
  function Upto(n: nat): seq<nat>
  {
    if n == 0 then [] else Upto(n - 1) + [n - 1]
  }

  /** Every `loadCache` call so far is accounted for exactly once: either
      its completion was dispatched or its load is still queued, and both
      follow call order. */
  ghost predicate Accounted<T>(s: State<T>)
  {
    Delivered(s.completions) + PendingTickets(s.queue) == Upto(s.tickets)
  }

  // ---------------------------------------------------------------------
  // One step

  /** A load has exactly two outcomes, and its completion is dispatched once:
      success replaces the items wholesale with the decoded archive;
      a missing file, undecodable data or a vanished owner leaves the items
      untouched and reports failure. Nothing else changes. */
  lemma LoadOutcome<T>(s: State<T>, path: string, writable: bool, ownerAlive: bool)
    requires |s.queue| > 0 && s.queue[0].Load?
    ensures var ok := ownerAlive && path in s.files && s.files[path].Archived?;
      RunHead(s, path, writable, ownerAlive) == s.(
        queue := s.queue[1..],
        items := if ok then s.files[path].items else s.items,
        completions := s.completions + [Completion(s.queue[0].ticket, ok)])
  {
  }

  /** A save writes its own snapshot (not the current items) to the
      archive path and touches no other file; `saved` becomes true only
      when nothing is queued behind it. A save whose owner is gone does
      nothing. */
  lemma SaveOutcome<T>(s: State<T>, path: string, writable: bool, ownerAlive: bool)
    requires |s.queue| > 0 && s.queue[0].Save?
    ensures RunHead(s, path, writable, ownerAlive) == s.(
      queue := s.queue[1..],
      files := if ownerAlive then WriteFile(s.files, path, s.queue[0].snapshot, writable) else s.files,
      saved := s.saved || (ownerAlive && |s.queue| == 1))
  {
  }

  /** A queued delete removes the archive and nothing else. */
  lemma DeleteOutcome<T>(s: State<T>, path: string, writable: bool, ownerAlive: bool)
    requires |s.queue| > 0 && s.queue[0].Delete?
    ensures RunHead(s, path, writable, ownerAlive) == s.(
      queue := s.queue[1..],
      files := if ownerAlive then RemoveFile(s.files, path, writable) else s.files)
  {
  }

  lemma {:induction false} PendingAppend<T>(q: seq<Job<T>>, j: Job<T>)
    ensures PendingTickets(q + [j]) == PendingTickets(q) + (if j.Load? then [j.ticket] else [])
  {
    if |q| > 0 {
      assert (q + [j])[1..] == q[1..] + [j];
      PendingAppend(q[1..], j);
    }
  }

  /** Running a job keeps every call accounted for exactly once. */
  lemma RunHeadAccounted<T>(s: State<T>, path: string, writable: bool, ownerAlive: bool)
    requires |s.queue| > 0 && Accounted(s)
    ensures Accounted(RunHead(s, path, writable, ownerAlive))
  {
    var r := RunHead(s, path, writable, ownerAlive);
    if s.queue[0].Load? {
      var c := r.completions[|r.completions| - 1];
      assert r.completions[..|r.completions| - 1] == s.completions;
      assert Delivered(r.completions) == Delivered(s.completions) + [c.ticket];
      assert PendingTickets(s.queue) == [s.queue[0].ticket] + PendingTickets(r.queue);
    } else {
      assert PendingTickets(s.queue) == PendingTickets(r.queue);
    }
  }

  // ---------------------------------------------------------------------
  // Draining the queue

  /** Draining keeps every call accounted for; since nothing stays queued,
      every `loadCache` call so far has had its completion dispatched exactly
      once, in call order. */
  lemma {:induction false} DrainDeliversAll<T>(s: State<T>, path: string, writable: bool)
    requires Accounted(s)
    ensures Accounted(Drain(s, path, writable))
    ensures Delivered(Drain(s, path, writable).completions) == Upto(s.tickets)
    decreases |s.queue|
  {
    if |s.queue| > 0 {
      RunHeadAccounted(s, path, writable, true);
      DrainDeliversAll(RunHead(s, path, writable, true), path, writable);
    }
  }

  /** After a drain, the flag says saved exactly when the last job drained
      was a save (it was then the sole operation); loads and deletes leave
      it as it was. */
  lemma {:induction false} DrainSaved<T>(s: State<T>, path: string, writable: bool)
    ensures Drain(s, path, writable).saved ==
      if |s.queue| > 0 && s.queue[|s.queue| - 1].Save? then true else s.saved
    decreases |s.queue|
  {
    if |s.queue| > 1 {
      var s' := RunHead(s, path, writable, true);
      assert s'.queue[|s'.queue| - 1] == s.queue[|s.queue| - 1];
      DrainSaved(s', path, writable);
      if !s.queue[|s.queue| - 1].Save? {
        assert s'.saved == s.saved;
      }
    }
  }

  /** Jobs run in enqueue order, so after a drain the archive holds the
      snapshot of the last save queued, is absent after a last queued
      delete, and is unchanged when nothing queued writes it. */
  lemma {:induction false} DrainArchive<T>(s: State<T>, path: string)
    ensures var r := Drain(s, path, true);
      match LastWrite(s.queue)
      case None => (path in r.files <==> path in s.files) && (path in s.files ==> r.files[path] == s.files[path])
      case Some(job) =>
        if job.Save? then path in r.files && Decode(r.files[path]) == Some(job.snapshot)
        else path !in r.files
    decreases |s.queue|
  {
    if |s.queue| > 0 {
      var s' := RunHead(s, path, true, true);
      DrainArchive(s', path);
      assert s.queue[1..] == s'.queue;
    }
  }

  /** On a volume that refuses writes, draining changes no file. */
  lemma {:induction false} DrainReadOnly<T>(s: State<T>, path: string)
    ensures Drain(s, path, false).files == s.files
    decreases |s.queue|
  {
    if |s.queue| > 0 {
      DrainReadOnly(RunHead(s, path, false, true), path);
    }
  }

  /** The state after the worker has run the `k` oldest jobs. */
  function Run<T>(s: State<T>, path: string, writable: bool, k: nat): (r: State<T>)
    requires k <= |s.queue|
    ensures r.queue == s.queue[k..]
    decreases k
  {
    if k == 0 then s else Run(RunHead(s, path, writable, true), path, writable, k - 1)
  }

  /** Reads follow writes: wherever in the queue a load directly follows a
      save, right after that load has run the items are the save's
      snapshot and the load's completion reports success; whatever runs
      later, the drained log still holds that successful completion. */
  lemma {:induction false} ReadsFollowWrites<T>(s: State<T>, path: string, i: nat, snapshot: seq<T>, ticket: nat)
    requires i + 2 <= |s.queue|
    requires s.queue[i] == Save(snapshot) && s.queue[i + 1] == Load(ticket)
    ensures var m := Run(s, path, true, i + 2);
      && m.items == snapshot
      && |m.completions| > 0
      && m.completions[|m.completions| - 1] == Completion(ticket, true)
    ensures Completion(ticket, true) in Drain(s, path, true).completions
    decreases i
  {
    var s' := RunHead(s, path, true, true);
    if i > 0 {
      assert s'.queue[i - 1] == s.queue[i] && s'.queue[i] == s.queue[i + 1];
      ReadsFollowWrites(s', path, i - 1, snapshot, ticket);
    } else {
      assert s'.files == s.files[path := Archived(snapshot)];
      var s'' := RunHead(s', path, true, true);
      assert s'.queue[0] == Load(ticket);
      assert LoadResult(s'.files, path, true) == Some(snapshot);
      assert s''.items == snapshot;
      assert s''.completions[|s''.completions| - 1] == Completion(ticket, true);
      assert Run(s, path, true, 2) == s'';
      assert Drain(s, path, true) == Drain(s'', path, true);
      var d := Drain(s'', path, true);
      assert d.completions[|s''.completions| - 1] == Completion(ticket, true);
    }
  }

  // ---------------------------------------------------------------------
  // Scenarios

  /** Two quick appends with no wait in between: once drained, the items
      and the archive both hold the first batch followed by the second,
      and the cache is marked saved. */
  lemma AppendTwiceThenDrain<T>(s: State<T>, path: string, a: seq<T>, b: seq<T>)
    requires s.queue == []
    ensures var r := Drain(AddItems(AddItems(s, a), b), path, true);
      && r.items == s.items + a + b
      && path in r.files && Decode(r.files[path]) == Some(s.items + a + b)
      && r.saved
  {
    var t := AddItems(AddItems(s, a), b);
    assert t.queue == [Save(s.items + a), Save(s.items + a + b)];
    var u := RunHead(t, path, true, true);
    var v := RunHead(u, path, true, true);
    assert u.queue == [Save(s.items + a + b)];
    assert v.queue == [];
    assert Drain(t, path, true) == Drain(u, path, true) == v;
    assert v.files == u.files[path := Archived(s.items + a + b)];
  }

  /** A load called just before an append, with no wait in between: the
      load runs first and replaces the items wholesale with the archive
      read then, so once drained the appended items are no longer in
      memory, although the archive holds them and the cache is marked
      saved. */
  lemma LoadThenAppendDropsAppend<T>(s: State<T>, path: string, a: seq<T>, z: seq<T>)
    requires s.queue == [] && path in s.files && s.files[path] == Archived(z)
    ensures var r := Drain(AddItems(LoadCache(s), a), path, true);
      && r.items == z
      && path in r.files && Decode(r.files[path]) == Some(s.items + a)
      && r.saved
      && r.completions == s.completions + [Completion(s.tickets, true)]
  {
    var t := AddItems(LoadCache(s), a);
    assert t.queue == [Load(s.tickets), Save(s.items + a)];
    var u := RunHead(t, path, true, true);
    var v := RunHead(u, path, true, true);
    assert LoadResult(t.files, path, true) == Some(z);
    assert u.queue == [Save(s.items + a)] && u.items == z;
    assert v.queue == [];
    assert Drain(t, path, true) == Drain(u, path, true) == v;
    assert v.files == u.files[path := Archived(s.items + a)];
  }

  /** A new cache instance that loads and waits ends with exactly one
      completion: success with the archive's contents when the archive
      decodes, failure with no items otherwise. The files are untouched. */
  lemma NewInstanceLoad<T>(files: Files<T>, path: string, writable: bool)
    ensures var r := Drain(LoadCache(Init(files)), path, writable);
      var loaded := LoadResult(files, path, true);
      && r.items == (if loaded.Some? then loaded.value else [])
      && r.completions == [Completion(0, loaded.Some?)]
      && r.files == files
  {
    var s := LoadCache(Init(files));
    assert s.queue == [Load(0)];
    assert Drain(s, path, writable) == RunHead(s, path, writable, true);
  }

  /** A cache whose archive is missing or undecodable fails to load and
      keeps the items it already has. */
  lemma FailedLoadKeepsItems<T>(s: State<T>, path: string)
    requires s.queue == []
    requires path !in s.files || s.files[path] == Unreadable
    ensures var r := Drain(LoadCache(s), path, true);
      r.items == s.items && r.completions == s.completions + [Completion(s.tickets, false)]
  {
    var t := LoadCache(s);
    assert t.queue == [Load(s.tickets)];
    assert Drain(t, path, true) == RunHead(t, path, true, true);
  }

  /** As written, `clearCache` is overtaken by a save still in the queue:
      after `addItems([x])`, `clearCache()` and a drain, the items are empty
      but the archive holds `[x]` again, so a later load brings `x` back. */
  lemma ClearOvertakenByQueuedSave<T>(s: State<T>, path: string, x: T)
    requires s.queue == []
    ensures var r := Drain(ClearCache(AddItems(s, [x]), path, true), path, true);
      && r.items == []
      && path in r.files && Decode(r.files[path]) == Some(s.items + [x])
  {
    var t := ClearCache(AddItems(s, [x]), path, true);
    assert t.queue == [Save(s.items + [x])];
    assert Drain(t, path, true) == RunHead(t, path, true, true);
  }

  /** With the removal queued, a drain after the clear always leaves the
      archive absent, whatever was queued before it. */
  lemma QueuedClearRemovesArchive<T>(s: State<T>, path: string)
    ensures path !in Drain(ClearCacheQueued(s), path, true).files
  {
    var t := ClearCacheQueued(s);
    LastWriteEndsWithWrite(s.queue, Delete);
    DrainArchive(t, path);
  }

  lemma {:induction false} LastWriteEndsWithWrite<T>(q: seq<Job<T>>, j: Job<T>)
    requires !j.Load?
    ensures LastWrite(q + [j]) == Some(j)
    decreases |q|
  {
    if |q| > 0 {
      assert (q + [j])[1..] == q[1..] + [j];
      LastWriteEndsWithWrite(q[1..], j);
    }
  }

  /** Caches with different names on one volume never touch each other's
      archive: draining the cache called `a` leaves the archive of the cache
      called `b` as it was. */
  lemma OtherCacheUntouched<T>(s: State<T>, root: string, a: string, b: string, writable: bool)
    requires a != b
    ensures var mine := ArchivePath(root, a);
      var theirs := ArchivePath(root, b);
      var r := Drain(s, mine, writable);
      && (theirs in r.files <==> theirs in s.files)
      && (theirs in s.files ==> r.files[theirs] == s.files[theirs])
  {
    var mine := ArchivePath(root, a);
    var theirs := ArchivePath(root, b);
    if mine == theirs {
      ArchivePathInjective(root, a, b);
    }
    var r := Drain(s, mine, writable);
    assert theirs in r.files <==> theirs in r.files - {mine};
    assert theirs in s.files <==> theirs in s.files - {mine};
    if theirs in s.files {
      assert (s.files - {mine})[theirs] == s.files[theirs];
      assert (r.files - {mine})[theirs] == r.files[theirs];
    }
  }
}
