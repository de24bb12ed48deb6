/** Where a feed cache keeps its archive: one file per cache name, below a
    shared folder inside the platform's caches directory. The platform
    directory itself is a parameter (`root`). */
module Paths {

  /** Name of the shared folder that holds every cache's own folder. */
  const CacheFolderName: string := "FeedCache"

  /** Name of the single archive file inside a cache's folder. */
  const ArchiveName: string := "feed_cache.archive"

  /** Appends one path component to a directory path that has no trailing
      separator, as `stringByAppendingPathComponent` does. */
  function AppendComponent(dir: string, component: string): string
  {
    dir + "/" + component
  }

  /** The shared folder `<root>/FeedCache`, removed as a whole by
      `deleteAllFeedCaches`. */
  function CacheRoot(root: string): (r: string)
    ensures root + "/" <= r && r[|root| + 1..] == CacheFolderName
  {
    AppendComponent(root, CacheFolderName)
  }

  /** The folder of one cache, optionally inside the shared folder. */
  function FolderPath(root: string, folderName: string, insideCacheFolder: bool): (r: string)
    ensures insideCacheFolder ==> CacheRoot(root) + "/" <= r
    ensures !insideCacheFolder ==> root + "/" <= r
    ensures |folderName| < |r| && r[|r| - |folderName|..] == folderName
  {
    var base := if insideCacheFolder then CacheRoot(root) else root;
    AppendComponent(base, folderName)
  }

  /** The archive file of the cache called `name`; every save, load and
      delete of that cache targets this one path. */
  function ArchivePath(root: string, name: string): (r: string)
    ensures |ArchiveName| + 1 < |r| && r[|r| - |ArchiveName|..] == ArchiveName
    ensures r[..|r| - |ArchiveName| - 1] == FolderPath(root, name, true)
  {
    AppendComponent(FolderPath(root, name, true), ArchiveName)
  }

  /** The archive path spelled out: `<root>/FeedCache/<name>/feed_cache.archive`. */
  lemma ArchivePathLayout(root: string, name: string)
    ensures ArchivePath(root, name) == root + "/" + CacheFolderName + "/" + name + "/" + ArchiveName
  {
  }

  /** Every cache's archive lies inside the shared folder. */
  lemma ArchiveInsideCacheRoot(root: string, name: string)
    ensures CacheRoot(root) + "/" <= ArchivePath(root, name)
  {
    var folder := FolderPath(root, name, true);
    assert ArchivePath(root, name) == folder + ("/" + ArchiveName);
    assert folder <= ArchivePath(root, name);
  }

  /** Caches with different names (under the same root) never share an
      archive file. */
  lemma ArchivePathInjective(root: string, a: string, b: string)
    requires ArchivePath(root, a) == ArchivePath(root, b)
    ensures a == b
  {
    var prefix := root + "/" + CacheFolderName + "/";
    ArchivePathLayout(root, a);
    ArchivePathLayout(root, b);
    InfixInjective(prefix, a, b, "/", ArchiveName);
  }

  /** Between a fixed prefix and suffix, the middle part is determined. */
  lemma InfixInjective(prefix: string, a: string, b: string, separator: string, suffix: string)
    requires prefix + a + separator + suffix == prefix + b + separator + suffix
    ensures a == b
  {
    assert |a| == |b|;
    assert (prefix + a + separator + suffix)[|prefix|..|prefix| + |a|] == a;
    assert (prefix + b + separator + suffix)[|prefix|..|prefix| + |b|] == b;
  }
}
