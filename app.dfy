/** The scanning core of App.tsx: the recursive directory walker with its
    cache consultation and write-back, the scan coordinator that walks a
    fixed set of candidate roots, the file and byte counter, and the set of
    expanded folders.

    A scan is modelled as a function that threads the cache directory's
    state (`CacheDisk`) through the walk in the order the source visits
    entries; the methods do the same work on a `CacheStore` and are proved
    to agree with those functions. */
module App {
  import opened Wrappers
  import opened Sorting
  import opened JsString
  import opened Rnfs
  import opened FileItems
  import opened ScanCache
  import opened Settings

  /** What one scan reads besides the filesystem: the cache store, the
      settings in effect, the clock (read once per scan), and whether
      writing the cache file of a folder succeeds. */
  datatype ScanEnv = ScanEnv(store: CacheStore, settings: AppSettings, now: int, writeOk: string -> bool)

  /** Stands in for a missing target in termination measures. */
  const NoNode: FsNode := File("", 0, "", false)

  /** The walker skips nameless entries and the exact name `.folder_scan_cache`. */
  predicate Skipped(name: string) {
    name == "" || name == CACHE_FILE_NAME
  }

  /** Comparator `(a, b) => b.size - a.size`, read as "a may come before b". */
  predicate BySizeDesc(a: FileItem, b: FileItem) {
    a.size >= b.size
  }

  lemma BySizeDescOrder()
    ensures TotalPreorder(BySizeDesc)
  {
  }

  /** `results.sort((a, b) => b.size - a.size)`: largest first, same items. */
  function SortBySize(items: seq<FileItem>): (r: seq<FileItem>)
    ensures Sorted(r, BySizeDesc)
    ensures multiset(r) == multiset(items)
    ensures |r| == |items|
  {
    BySizeDescOrder();
    Sort(items, BySizeDesc)
  }

  /** The size a file entry gets: `stat(path).size`, or 0 when `stat` throws. */
  function FileSize(e: FsNode): nat {
    match StatSize(e)
    case None => 0
    case Some(s) => s
  }

  /** Caching is on and the folder's cache entry is valid now. */
  predicate CacheHit(env: ScanEnv, d: CacheDisk, path: string, node: FsNode) {
    env.settings.cache.enabled && env.store.IsValidIn(d, path, ReadDir(path, node), env.now)
  }

  // ---- the walker, as functions of the cache state ----

  /** `scanDirectory(path)`, where `target` is the entry at `path` (None:
      `exists(path)` is false). Returns the cache state after the call and
      the result. */
  function ScanDirectorySpec(env: ScanEnv, d: CacheDisk, path: string, target: Option<FsNode>): (CacheDisk, seq<FileItem>)
    decreases if target.Some? then target.value else NoNode, 2
  {
    if path == "" || target.None? then (d, [])
    else ScanDir(env, d, path, target.value)
  }

  /** `scanDirectory` past the existence check. */
  function ScanDir(env: ScanEnv, d: CacheDisk, path: string, node: FsNode): (CacheDisk, seq<FileItem>)
    decreases node, 1
  {
    var listing := ReadDir(path, node);
    if CacheHit(env, d, path, node) then
      assert env.store.ReadIn(d, path).Some?;
      (EnsureDir(d), env.store.ReadIn(d, path).value.files)
    else
      var d1 := if env.settings.cache.enabled then EnsureDir(d) else d;
      if listing.None? || |node.entries| == 0 then (d1, [])
      else
        var (d2, results) := ScanEntries(env, d1, path, node, |node.entries|);
        if results == [] then (d2, [])
        else
          var sorted := SortBySize(results);
          (env.store.WriteIn(d2, path, sorted, SumSizes(sorted), listing, env.now, env.writeOk(path)), sorted)
  }

  /** The loop over the first `n` entries of a listed directory. */
  function ScanEntries(env: ScanEnv, d: CacheDisk, path: string, parent: FsNode, n: nat): (CacheDisk, seq<FileItem>)
    requires parent.Dir? && n <= |parent.entries|
    decreases parent, 0, n
  {
    if n == 0 then (d, [])
    else
      var (d1, rs) := ScanEntries(env, d, path, parent, n - 1);
      var e := parent.entries[n - 1];
      if Skipped(e.name) then (d1, rs)
      else if e.Dir? then
        var (d2, children) := ScanDirectorySpec(env, d1, ChildPath(path, e.name), Some(e));
        (d2, rs + [FileItem(e.name, ChildPath(path, e.name), SumSizes(children), true, children)])
      else
        (d1, rs + [FileItem(e.name, ChildPath(path, e.name), FileSize(e), false, [])])
  }

  // ---- the walker ----

  method ScanDirectory(env: ScanEnv, path: string, target: Option<FsNode>) returns (r: seq<FileItem>)
    requires env.store.Valid()
    modifies env.store
    ensures env.store.Valid()
    ensures (env.store.Disk(), r) == ScanDirectorySpec(env, old(env.store.Disk()), path, target)
    decreases if target.Some? then target.value else NoNode, 1
  {
    ghost var d0 := env.store.Disk();
    if path == "" || target.None? {
      return [];
    }
    var node := target.value;
    if env.settings.cache.enabled {
      var hasCacheValid := env.store.IsCacheValid(path, ReadDir(path, node), env.now);
      if hasCacheValid {
        var cacheData := env.store.ReadCacheData(path);
        if cacheData.Some? {
          return cacheData.value.files;
        }
      }
    }
    ghost var d1 := env.store.Disk();
    assert !CacheHit(env, d0, path, node);
    assert d1 == if env.settings.cache.enabled then EnsureDir(d0) else d0;

    var items := ReadDir(path, node);
    if items.None? || |items.value| == 0 {
      return [];
    }
    var results: seq<FileItem> := [];
    var k := 0;
    while k < |items.value|
      invariant 0 <= k <= |items.value| == |node.entries|
      invariant env.store.Valid()
      invariant (env.store.Disk(), results) == ScanEntries(env, d1, path, node, k)
    {
      results := ScanEntry(env, path, node, items.value[k], k, results, d1);
      k := k + 1;
    }
    if |results| > 0 {
      var sortedResults := SortBySize(results);
      var totalSize := SumSizes(sortedResults);
      env.store.WriteCacheData(path, sortedResults, totalSize, ReadDir(path, node), env.now, env.writeOk(path));
      return sortedResults;
    }
    return [];
  }

  /** One pass of the loop body over `readDir`'s items: the `k`-th item,
      `item`, describes the `k`-th entry of `node`. */
  method ScanEntry(env: ScanEnv, path: string, node: FsNode, item: ReadDirItem, k: nat,
                   results0: seq<FileItem>, ghost d1: CacheDisk)
    returns (results: seq<FileItem>)
    requires env.store.Valid()
    requires node.Dir? && k < |node.entries| && item == ItemOf(path, node.entries[k])
    requires (env.store.Disk(), results0) == ScanEntries(env, d1, path, node, k)
    modifies env.store
    ensures env.store.Valid()
    ensures (env.store.Disk(), results) == ScanEntries(env, d1, path, node, k + 1)
    decreases node, 0
  {
    var entry := node.entries[k];
    ghost var prev := env.store.Disk();
    results := results0;
    if item.name != "" && item.name != CACHE_FILE_NAME {
      if item.isDirectory {
        var children := ScanDirectory(env, item.path, Some(entry));
        assert (env.store.Disk(), children) == ScanDirectorySpec(env, prev, ChildPath(path, entry.name), Some(entry));
        results := results + [FileItem(item.name, item.path, SumSizes(children), true, children)];
      } else {
        var stat := StatSize(entry);
        var size := if stat.Some? then stat.value else 0;
        assert size == FileSize(entry);
        results := results + [FileItem(item.name, item.path, size, false, [])];
      }
    }
  }

  // ---- shape of a scan result ----

  /** Every directory's size is the sum of its children's sizes, and files
      have no children. */
  ghost predicate Aggregated(items: seq<FileItem>)
    decreases items
  {
    forall it | it in items ::
      && (it.isDirectory ==> it.size == SumSizes(it.children) && Aggregated(it.children))
      && (!it.isDirectory ==> it.children == [])
  }

  /** Every level is ordered largest first. */
  ghost predicate SortedTree(items: seq<FileItem>)
    decreases items
  {
    Sorted(items, BySizeDesc) && forall it | it in items :: SortedTree(it.children)
  }

  ghost predicate WellFormed(items: seq<FileItem>) {
    Aggregated(items) && SortedTree(items)
  }

  /** Every readable cache entry holds a well-formed forest. */
  ghost predicate CacheHolds(store: CacheStore, d: CacheDisk) {
    forall k | k in d.files :: store.parse(d.files[k]).Some? ==> WellFormed(store.parse(d.files[k]).value.files)
  }

  lemma SortBySizeKeepsWellFormedItems(items: seq<FileItem>)
    requires forall it | it in items :: WellFormed([it])
    ensures WellFormed(SortBySize(items))
  {
    var r := SortBySize(items);
    forall it | it in r ensures WellFormed([it]) {
      assert it in multiset(r);
    }
  }

  lemma WriteKeepsCacheHolds(env: ScanEnv, d: CacheDisk, path: string, files: seq<FileItem>,
                             listing: Option<seq<ReadDirItem>>)
    requires env.store.Laws() && CacheHolds(env.store, d) && WellFormed(files)
    ensures CacheHolds(env.store, env.store.WriteIn(d, path, files, SumSizes(files), listing, env.now, env.writeOk(path)))
  {
    var data := CacheData(env.now, env.store.FolderHash(listing), files, SumSizes(files), path);
    assert env.store.parse(env.store.stringify(data)) == Some(data);
  }

  /** A scan returns a well-formed forest, and keeps the cache holding
      well-formed forests, provided that the cache did so before (or is
      not consulted). */
  lemma {:induction false} ScanDirectoryWellFormed(env: ScanEnv, d: CacheDisk, path: string, target: Option<FsNode>)
    requires env.store.Laws()
    requires !env.settings.cache.enabled || CacheHolds(env.store, d)
    ensures WellFormed(ScanDirectorySpec(env, d, path, target).1)
    ensures CacheHolds(env.store, d) ==> CacheHolds(env.store, ScanDirectorySpec(env, d, path, target).0)
    decreases if target.Some? then target.value else NoNode, 2
  {
    if path != "" && target.Some? {
      ScanDirWellFormed(env, d, path, target.value);
    }
  }

  lemma {:induction false} ScanDirWellFormed(env: ScanEnv, d: CacheDisk, path: string, node: FsNode)
    requires env.store.Laws()
    requires !env.settings.cache.enabled || CacheHolds(env.store, d)
    ensures WellFormed(ScanDir(env, d, path, node).1)
    ensures CacheHolds(env.store, d) ==> CacheHolds(env.store, ScanDir(env, d, path, node).0)
    decreases node, 1
  {
    var listing := ReadDir(path, node);
    if CacheHit(env, d, path, node) {
      var key := env.store.CacheFilePath(path);
      assert key in d.files && env.store.parse(d.files[key]) == env.store.ReadIn(d, path);
    } else {
      var d1 := if env.settings.cache.enabled then EnsureDir(d) else d;
      if listing.Some? && |node.entries| != 0 {
        ScanEntriesWellFormed(env, d1, path, node, |node.entries|);
        var (d2, results) := ScanEntries(env, d1, path, node, |node.entries|);
        if results != [] {
          SortBySizeKeepsWellFormedItems(results);
          if CacheHolds(env.store, d) {
            WriteKeepsCacheHolds(env, d2, path, SortBySize(results), listing);
          }
        }
      }
    }
  }

  lemma {:induction false} ScanEntriesWellFormed(env: ScanEnv, d: CacheDisk, path: string, parent: FsNode, n: nat)
    requires parent.Dir? && n <= |parent.entries|
    requires env.store.Laws()
    requires !env.settings.cache.enabled || CacheHolds(env.store, d)
    ensures forall it | it in ScanEntries(env, d, path, parent, n).1 :: WellFormed([it])
    ensures CacheHolds(env.store, d) ==> CacheHolds(env.store, ScanEntries(env, d, path, parent, n).0)
    decreases parent, 0, n
  {
    if n > 0 {
      ScanEntriesWellFormed(env, d, path, parent, n - 1);
      var (d1, rs) := ScanEntries(env, d, path, parent, n - 1);
      var e := parent.entries[n - 1];
      if !Skipped(e.name) {
        var it: FileItem;
        if e.Dir? {
          ScanDirectoryWellFormed(env, d1, ChildPath(path, e.name), Some(e));
          var children := ScanDirectorySpec(env, d1, ChildPath(path, e.name), Some(e)).1;
          it := FileItem(e.name, ChildPath(path, e.name), SumSizes(children), true, children);
        } else {
          it := FileItem(e.name, ChildPath(path, e.name), FileSize(e), false, []);
        }
        assert ScanEntries(env, d, path, parent, n).1 == rs + [it];
        assert WellFormed([it]) by {
          forall x | x in [it] ensures x == it { }
        }
        forall x | x in rs + [it] ensures WellFormed([x]) {
          if x != it {
            assert x in rs;
          }
        }
      }
    }
  }

  // ---- what a fresh scan lists ----

  /** The entries the walker keeps, in listing order. */
  function KeptEntries(entries: seq<FsNode>): (r: seq<FsNode>)
    ensures |r| <= |entries|
    ensures forall e | e in r :: e in entries && !Skipped(e.name)
  {
    if entries == [] then []
    else
      var last := entries[|entries| - 1];
      KeptEntries(entries[..|entries| - 1]) + (if Skipped(last.name) then [] else [last])
  }

  /** `it` is the item the walker builds for entry `e` of the folder `path`. */
  ghost predicate Describes(it: FileItem, e: FsNode, path: string) {
    && it.name == e.name
    && it.path == ChildPath(path, e.name)
    && it.isDirectory == e.Dir?
    && (e.File? ==> it.size == FileSize(e) && it.children == [])
  }

  lemma {:induction false} ScanEntriesDescribe(env: ScanEnv, d: CacheDisk, path: string, parent: FsNode, n: nat)
    requires parent.Dir? && n <= |parent.entries|
    ensures |ScanEntries(env, d, path, parent, n).1| == |KeptEntries(parent.entries[..n])|
    ensures forall i :: 0 <= i < |ScanEntries(env, d, path, parent, n).1| ==>
              Describes(ScanEntries(env, d, path, parent, n).1[i], KeptEntries(parent.entries[..n])[i], path)
  {
    if n > 0 {
      ScanEntriesDescribe(env, d, path, parent, n - 1);
      assert parent.entries[..n][..n - 1] == parent.entries[..n - 1];
    }
  }

  function ItemName(it: FileItem): string { it.name }

  function EntryName(e: FsNode): string { e.name }

  /** Sorting items built one per kept entry keeps them in one-to-one
      correspondence with those entries. */
  lemma SortedItemsDescribeEntries(rs: seq<FileItem>, kept: seq<FsNode>, path: string)
    requires |rs| == |kept|
    requires forall i :: 0 <= i < |rs| ==> Describes(rs[i], kept[i], path)
    ensures multiset(Map(SortBySize(rs), ItemName)) == multiset(Map(kept, EntryName))
    ensures forall it | it in SortBySize(rs) :: exists e | e in kept :: Describes(it, e, path)
  {
    var r := SortBySize(rs);
    MapPermutation(r, rs, ItemName);
    assert Map(rs, ItemName) == Map(kept, EntryName);
    forall it | it in r ensures exists e | e in kept :: Describes(it, e, path) {
      assert it in multiset(rs);
      var i :| 0 <= i < |rs| && rs[i] == it;
      assert Describes(it, kept[i], path);
    }
  }

  /** Without a cache hit, a listable folder's result names exactly the
      entries the walker keeps (as a multiset), each item built from its
      entry, and is empty exactly when nothing is kept. */
  lemma FreshScanLists(env: ScanEnv, d: CacheDisk, path: string, node: FsNode)
    requires !CacheHit(env, d, path, node) && node.Dir? && node.readable
    ensures var r := ScanDir(env, d, path, node).1;
      && multiset(Map(r, ItemName)) == multiset(Map(KeptEntries(node.entries), EntryName))
      && (r == [] <==> KeptEntries(node.entries) == [])
      && (forall it | it in r :: exists e | e in KeptEntries(node.entries) :: Describes(it, e, path))
  {
    var kept := KeptEntries(node.entries);
    var r := ScanDir(env, d, path, node).1;
    var d1 := if env.settings.cache.enabled then EnsureDir(d) else d;
    if |node.entries| != 0 {
      var rs := ScanEntries(env, d1, path, node, |node.entries|).1;
      assert r == if rs == [] then [] else SortBySize(rs);
      ScanEntriesDescribe(env, d1, path, node, |node.entries|);
      assert node.entries[..|node.entries|] == node.entries;
      SortedItemsDescribeEntries(rs, kept, path);
    } else {
      assert r == [];
    }
  }

  /** A successful fresh scan stores its result for the folder: a later
      read gives back the result, its total and the folder's fingerprint,
      stamped with the scan's clock. This holds with caching disabled too. */
  lemma FreshScanWritesBack(env: ScanEnv, d: CacheDisk, path: string, node: FsNode)
    requires env.store.Laws()
    requires !CacheHit(env, d, path, node) && env.writeOk(path)
    requires ScanDir(env, d, path, node).1 != []
    ensures var (d', r) := ScanDir(env, d, path, node);
      env.store.ReadIn(d', path) == Some(CacheData(env.now, env.store.FolderHash(ReadDir(path, node)), r, SumSizes(r), path))
  {
    var d1 := if env.settings.cache.enabled then EnsureDir(d) else d;
    var (d2, results) := ScanEntries(env, d1, path, node, |node.entries|);
    env.store.WriteThenRead(d2, path, SortBySize(results), SumSizes(SortBySize(results)), ReadDir(path, node), env.now);
  }

  /** A cache hit returns the stored files and leaves the cache's contents alone. */
  lemma CacheHitReturnsStored(env: ScanEnv, d: CacheDisk, path: string, node: FsNode)
    requires CacheHit(env, d, path, node)
    ensures env.store.ReadIn(d, path).Some?
    ensures ScanDir(env, d, path, node) == (EnsureDir(d), env.store.ReadIn(d, path).value.files)
  {
  }

  /** An empty path, a missing path, a file, an unlistable folder and an
      empty folder all scan to nothing, without any cache write. */
  lemma NothingToScan(env: ScanEnv, d: CacheDisk, path: string, target: Option<FsNode>)
    requires path == "" || target.None? ||
             (!CacheHit(env, d, path, target.value) && (!target.value.Dir? || !target.value.readable || target.value.entries == []))
    ensures ScanDirectorySpec(env, d, path, target).1 == []
    ensures ScanDirectorySpec(env, d, path, target).0.files == d.files
  {
  }

  /** With caching disabled the cache never influences a scan's result. */
  lemma {:induction false} DisabledScanIgnoresCache(env: ScanEnv, d: CacheDisk, d': CacheDisk, path: string, target: Option<FsNode>)
    requires !env.settings.cache.enabled
    ensures ScanDirectorySpec(env, d, path, target).1 == ScanDirectorySpec(env, d', path, target).1
    decreases if target.Some? then target.value else NoNode, 2
  {
    if path != "" && target.Some? {
      var node := target.value;
      if node.Dir? && node.readable && |node.entries| != 0 {
        DisabledEntriesIgnoreCache(env, d, d', path, node, |node.entries|);
      }
    }
  }

  lemma {:induction false} DisabledEntriesIgnoreCache(env: ScanEnv, d: CacheDisk, d': CacheDisk, path: string, parent: FsNode, n: nat)
    requires !env.settings.cache.enabled
    requires parent.Dir? && n <= |parent.entries|
    ensures ScanEntries(env, d, path, parent, n).1 == ScanEntries(env, d', path, parent, n).1
    decreases parent, 0, n
  {
    if n > 0 {
      DisabledEntriesIgnoreCache(env, d, d', path, parent, n - 1);
      var e := parent.entries[n - 1];
      if !Skipped(e.name) && e.Dir? {
        var prev := ScanEntries(env, d, path, parent, n - 1);
        var prev' := ScanEntries(env, d', path, parent, n - 1);
        var child := ChildPath(path, e.name);
        DisabledScanIgnoresCache(env, prev.0, prev'.0, child, Some(e));
        var items := ScanDirectorySpec(env, prev.0, child, Some(e)).1;
        assert ScanEntries(env, d, path, parent, n).1 == prev.1 + [FileItem(e.name, child, SumSizes(items), true, items)];
        assert ScanEntries(env, d', path, parent, n).1 == prev'.1 + [FileItem(e.name, child, SumSizes(items), true, items)];
      }
    }
  }

  /** The configured lifetime has no effect on a scan: two settings that
      agree on whether caching is enabled give the same scan, whatever
      lifetime (including "permanent") each selects. */
  lemma {:induction false} ScanIgnoresTtlSetting(env: ScanEnv, ttl: int, d: CacheDisk, path: string, target: Option<FsNode>)
    ensures ScanDirectorySpec(env.(settings := AppSettings(env.settings.cache.(ttl := ttl))), d, path, target)
            == ScanDirectorySpec(env, d, path, target)
    decreases if target.Some? then target.value else NoNode, 2
  {
    if path != "" && target.Some? {
      var node := target.value;
      var env' := env.(settings := AppSettings(env.settings.cache.(ttl := ttl)));
      assert CacheHit(env', d, path, node) == CacheHit(env, d, path, node);
      if !CacheHit(env, d, path, node) && node.Dir? && node.readable && |node.entries| != 0 {
        var d1 := if env.settings.cache.enabled then EnsureDir(d) else d;
        EntriesIgnoreTtlSetting(env, ttl, d1, path, node, |node.entries|);
      }
    }
  }

  lemma {:induction false} EntriesIgnoreTtlSetting(env: ScanEnv, ttl: int, d: CacheDisk, path: string, parent: FsNode, n: nat)
    requires parent.Dir? && n <= |parent.entries|
    ensures ScanEntries(env.(settings := AppSettings(env.settings.cache.(ttl := ttl))), d, path, parent, n)
            == ScanEntries(env, d, path, parent, n)
    decreases parent, 0, n
  {
    if n > 0 {
      EntriesIgnoreTtlSetting(env, ttl, d, path, parent, n - 1);
      var e := parent.entries[n - 1];
      if !Skipped(e.name) && e.Dir? {
        var d1 := ScanEntries(env, d, path, parent, n - 1).0;
        ScanIgnoresTtlSetting(env, ttl, d1, ChildPath(path, e.name), Some(e));
      }
    }
  }

  /** With the "permanent" lifetime selected, an entry written by a scan
      still expires after CACHE_TTL. */
  lemma PermanentTtlStillExpires(env: ScanEnv, d: CacheDisk, path: string, node: FsNode,
                                 files: seq<FileItem>, writtenAt: int)
    requires env.store.Laws()
    requires env.settings.cache.ttl == PERMANENT
    requires env.now > writtenAt + CACHE_TTL
    ensures !CacheHit(env, env.store.WriteIn(d, path, files, SumSizes(files), ReadDir(path, node), writtenAt, true), path, node)
  {
    env.store.WriteThenValid(d, path, files, SumSizes(files), ReadDir(path, node), writtenAt, ReadDir(path, node), env.now);
  }

  /** The cache files the store writes, children of `<documents>/cache`
      named `<hash prefix>.folder_scan_cache`, never carry the exact name
      the walker skips. */
  lemma CacheFilesAreNotSkipped(store: CacheStore, folderPath: string)
    requires store.Laws() && EndsWith(store.cacheDir, "/cache")
    ensures var name := store.sha256(folderPath)[..KEY_LENGTH] + CACHE_FILE_NAME;
      store.CacheFilePath(folderPath) == ChildPath(store.cacheDir, name) && !Skipped(name)
  {
    assert store.cacheDir[|store.cacheDir| - 1] == 'e';
  }

  // ---- counting ----

  /** `totalBytes` as `countFilesRecursive` accumulates it: every item's
      size, directories included, plus everything below each directory. */
  function NodeBytes(items: seq<FileItem>): nat
    decreases items
  {
    if items == [] then 0
    else items[0].size + (if items[0].isDirectory then NodeBytes(items[0].children) else 0) + NodeBytes(items[1..])
  }

  /** `totalFiles`: the number of non-directory items at any depth. */
  function FileCount(items: seq<FileItem>): nat
    decreases items
  {
    if items == [] then 0
    else (if items[0].isDirectory then FileCount(items[0].children) else 1) + FileCount(items[1..])
  }

  /** The sizes of the files alone, at any depth. */
  function FileBytes(items: seq<FileItem>): nat
    decreases items
  {
    if items == [] then 0
    else (if items[0].isDirectory then FileBytes(items[0].children) else items[0].size) + FileBytes(items[1..])
  }

  /** The sizes of the directories alone, at any depth. */
  function DirBytes(items: seq<FileItem>): nat
    decreases items
  {
    if items == [] then 0
    else (if items[0].isDirectory then items[0].size + DirBytes(items[0].children) else 0) + DirBytes(items[1..])
  }

  /** `countFilesRecursive(items)` adding onto running totals. */
  method CountFilesRecursive(items: seq<FileItem>, bytes0: nat, files0: nat) returns (bytes: nat, files: nat)
    ensures bytes == bytes0 + NodeBytes(items)
    ensures files == files0 + FileCount(items)
    decreases items
  {
    bytes, files := bytes0, files0;
    var k := 0;
    while k < |items|
      invariant 0 <= k <= |items|
      invariant bytes + NodeBytes(items[k..]) == bytes0 + NodeBytes(items)
      invariant files + FileCount(items[k..]) == files0 + FileCount(items)
    {
      var item := items[k];
      assert items[k..][1..] == items[k + 1..];
      if item.isDirectory {
        bytes, files := CountFilesRecursive(item.children, bytes, files);
      } else {
        files := files + 1;
      }
      bytes := bytes + item.size;
      k := k + 1;
    }
  }

  /** The byte total counts every directory on top of its contents. */
  lemma {:induction false} NodeBytesSplit(items: seq<FileItem>)
    ensures NodeBytes(items) == FileBytes(items) + DirBytes(items)
    decreases items
  {
    if items != [] {
      if items[0].isDirectory {
        NodeBytesSplit(items[0].children);
      }
      NodeBytesSplit(items[1..]);
    }
  }

  /** In an aggregated forest the top-level sizes already add up to the
      file bytes. */
  lemma {:induction false} AggregatedSizesAreFileBytes(items: seq<FileItem>)
    requires Aggregated(items)
    ensures SumSizes(items) == FileBytes(items)
    decreases items
  {
    if items != [] {
      assert items[0] in items;
      if items[0].isDirectory {
        AggregatedSizesAreFileBytes(items[0].children);
      }
      assert Aggregated(items[1..]) by {
        forall it | it in items[1..] ensures it in items { }
      }
      AggregatedSizesAreFileBytes(items[1..]);
    }
  }

  /** So the reported total exceeds the true total by the sizes of all
      directories, at every depth. */
  lemma TotalBytesDoubleCounts(items: seq<FileItem>)
    requires Aggregated(items)
    ensures NodeBytes(items) == SumSizes(items) + DirBytes(items)
  {
    NodeBytesSplit(items);
    AggregatedSizesAreFileBytes(items);
  }

  /** One directory holding one 100-byte file is reported as 200 bytes. */
  lemma DoubleCountExample()
    ensures var f := FileItem("a", "/d/a", 100, false, []);
            var items := [FileItem("d", "/d", 100, true, [f])];
            Aggregated(items) && SumSizes(items) == 100 && NodeBytes(items) == 200 && FileCount(items) == 1
  {
    var f := FileItem("a", "/d/a", 100, false, []);
    var items := [FileItem("d", "/d", 100, true, [f])];
    assert SumSizes([f]) == 100;
    assert Aggregated([f]);
    assert NodeBytes([f]) == 100;
    assert items[1..] == [];
  }

  // ---- expanded folders ----

  /** `toggleFolder(path)`: the new set of expanded folders. */
  function ToggleFolder(expanded: set<string>, path: string): (r: set<string>)
    ensures path in r <==> path !in expanded
    ensures forall q :: q != path ==> (q in r <==> q in expanded)
  {
    if path in expanded then expanded - {path} else expanded + {path}
  }

  lemma ToggleTwice(expanded: set<string>, path: string)
    ensures ToggleFolder(ToggleFolder(expanded, path), path) == expanded
  {
  }
}
