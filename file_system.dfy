/** The file system as the cache sees it: a map from path to stored data,
    and whether the volume currently accepts writes and removals. Folders
    are not represented; a file's folder exists exactly when some file
    lies below it. */
module FileSystem {
  import opened Archive
  import opened Paths

  type Files<T> = map<string, Blob<T>>

  /** An atomic write: either the whole new content is in place, or the
      file is as it was. */
  function WriteFile<T>(files: Files<T>, path: string, items: seq<T>, writable: bool): (r: Files<T>)
    ensures writable ==> path in r && Decode(r[path]) == Some(items)
    ensures !writable ==> r == files
    ensures r - {path} == files - {path}
  {
    if writable then files[path := Encode(items)] else files
  }

  /** Removes one file. Removing a missing file, or any file from a volume
      that refuses removals, raises an error that the cache logs and
      swallows; either way the result is the map below. */
  function RemoveFile<T>(files: Files<T>, path: string, writable: bool): (r: Files<T>)
    ensures writable ==> path !in r
    ensures !writable ==> r == files
    ensures r - {path} == files - {path}
  {
    if writable then files - {path} else files
  }

  /** Reads a file's contents, `None` when there is no such file. */
  function ReadFile<T>(files: Files<T>, path: string): (r: Option<Blob<T>>)
    ensures r.Some? <==> path in files
    ensures r.Some? ==> r.value == files[path]
  {
    if path in files then Some(files[path]) else None
  }

  /** Removes the shared cache folder with everything below it; `None` when
      the volume refuses, an error that is thrown to the caller. */
  function RemoveAllCaches<T>(files: Files<T>, root: string, writable: bool): (r: Option<Files<T>>)
    ensures r.Some? <==> writable
    ensures r.Some? ==> r.value.Keys <= files.Keys
    ensures r.Some? ==> forall p :: p in r.value ==> r.value[p] == files[p] && !(CacheRoot(root) + "/" <= p)
  {
    if writable then Some(map p | p in files && !(CacheRoot(root) + "/" <= p) :: files[p])
    else None
  }

  /** After a successful removal no cache of any name has an archive, and
      every file outside the shared folder is still there, unchanged. */
  lemma RemoveAllCachesEffect<T>(files: Files<T>, root: string, writable: bool)
    ensures RemoveAllCaches(files, root, writable).Some? <==> writable
    ensures writable ==>
      var r := RemoveAllCaches(files, root, writable).value;
      && (forall name :: ArchivePath(root, name) !in r)
      && (forall p :: p in files && !(CacheRoot(root) + "/" <= p) ==> p in r && r[p] == files[p])
      && r.Keys <= files.Keys
  {
    if writable {
      var r := RemoveAllCaches(files, root, writable).value;
      forall name ensures ArchivePath(root, name) !in r {
        ArchiveInsideCacheRoot(root, name);
      }
    }
  }

  /** The volume shared by every cache instance of the process. */
  class Disk<T> {
    var files: Files<T>
    var writable: bool

    constructor (files: Files<T>, writable: bool)
      ensures this.files == files && this.writable == writable
    {
      this.files := files;
      this.writable := writable;
    }

    method Write(path: string, items: seq<T>)
      modifies this
      ensures files == WriteFile(old(files), path, items, writable)
      ensures writable == old(writable)
    {
      if writable {
        files := files[path := Encode(items)];
      }
    }

    method Remove(path: string)
      modifies this
      ensures files == RemoveFile(old(files), path, writable)
      ensures writable == old(writable)
    {
      if writable {
        files := files - {path};
      }
    }
  }

  /** `deleteAllFeedCaches`: removes the shared folder below `root` and
      reports whether that succeeded (the source throws on failure). */
  method DeleteAllFeedCaches<T>(disk: Disk<T>, root: string) returns (ok: bool)
    modifies disk
    ensures ok == old(disk.writable)
    ensures RemoveAllCaches(old(disk.files), root, old(disk.writable)) ==
      if ok then Some(disk.files) else None
    ensures !ok ==> disk.files == old(disk.files)
    ensures disk.writable == old(disk.writable)
  {
    var r := RemoveAllCaches(disk.files, root, disk.writable);
    ok := r.Some?;
    if ok {
      disk.files := r.value;
    }
  }
}
