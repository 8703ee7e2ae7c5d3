/** The on-disk scan cache of src/utils/scanCache.ts: one file per scanned
    folder under `<documents>/cache`, named after a hash of the folder path,
    holding a serialized entry with a timestamp and a fingerprint of the
    folder's immediate entries. SHA-256 and JSON are opaque functions given
    to the store; what the model relies on about them is stated in `Laws`. */
module ScanCache {
  import opened Wrappers
  import opened Sorting
  import opened JsString
  import opened Rnfs
  import opened FileItems

  /** The suffix of every cache file name. */
  const CACHE_FILE_NAME: string := ".folder_scan_cache"

  /** The time-to-live `isCacheValid` applies: 24 hours in milliseconds. */
  const CACHE_TTL: int := 24 * 60 * 60 * 1000

  /** Length of the hash prefix that names a cache file. */
  const KEY_LENGTH: nat := 32

  /** The serialized record: `{timestamp, hash, files, totalSize, originalPath}`. */
  datatype CacheData = CacheData(timestamp: int, hash: string, files: seq<FileItem>, totalSize: int, originalPath: string)

  /** The cache directory's state: whether it exists, and the text of each
      file in it, by full path. */
  datatype CacheDisk = CacheDisk(dirExists: bool, files: map<string, string>)

  /** A missing cache directory holds no files. */
  predicate DiskOk(d: CacheDisk) {
    d.dirExists || d.files == map[]
  }

  /** `ensureCacheDir`: create the directory unless it is there. */
  function EnsureDir(d: CacheDisk): (r: CacheDisk)
    ensures r.dirExists && r.files == d.files
  {
    d.(dirExists := true)
  }

  /** `${item.name}:${item.size}:${item.mtime}` */
  function EntryLine(item: ReadDirItem): string {
    item.name + ":" + NatToString(item.size) + ":" + item.mtime
  }

  lemma CodeUnitOrder()
    ensures TotalPreorder(CodeUnitLeq)
    ensures Antisymmetric(CodeUnitLeq)
  {
    forall a, b ensures CodeUnitLeq(a, b) || CodeUnitLeq(b, a) {
      CodeUnitTotal(a, b);
    }
    forall a, b, c | CodeUnitLeq(a, b) && CodeUnitLeq(b, c) ensures CodeUnitLeq(a, c) {
      CodeUnitTransitive(a, b, c);
    }
    forall a, b | CodeUnitLeq(a, b) && CodeUnitLeq(b, a) ensures a == b {
      CodeUnitAntisymmetric(a, b);
    }
  }

  /** The string the fingerprint hashes: the entry lines, sorted, joined with '|'. */
  function ContentString(items: seq<ReadDirItem>): string {
    CodeUnitOrder();
    Join(Sort(Map(items, EntryLine), CodeUnitLeq), "|")
  }

  class CacheStore {
    /** `RNFS.DocumentDirectoryPath + '/cache'` */
    const cacheDir: string
    /** `crypto.SHA256(s).toString()`: lower-case hex. */
    const sha256: string -> string
    /** `JSON.parse` of a cache file; None when it throws. */
    const parse: string -> Option<CacheData>
    /** `JSON.stringify` of an entry. */
    const stringify: CacheData -> string

    var cacheDirExists: bool
    var cacheFiles: map<string, string>

    /** A SHA-256 digest is 64 hex characters; JSON gives back what it wrote. */
    ghost predicate Laws() {
      && (forall s :: |sha256(s)| == 64)
      && (forall d :: parse(stringify(d)) == Some(d))
    }

    ghost predicate Valid()
      reads this
    {
      Laws() && DiskOk(Disk())
    }

    function Disk(): CacheDisk
      reads this
    {
      CacheDisk(cacheDirExists, cacheFiles)
    }

    constructor (documentDir: string, sha256: string -> string, parse: string -> Option<CacheData>,
                 stringify: CacheData -> string, disk: CacheDisk)
      requires forall s :: |sha256(s)| == 64
      requires forall d :: parse(stringify(d)) == Some(d)
      requires DiskOk(disk)
      ensures Valid() && Disk() == disk
      ensures cacheDir == documentDir + "/cache"
      ensures this.sha256 == sha256 && this.parse == parse && this.stringify == stringify
    {
      this.cacheDir := documentDir + "/cache";
      this.sha256 := sha256;
      this.parse := parse;
      this.stringify := stringify;
      this.cacheDirExists := disk.dirExists;
      this.cacheFiles := disk.files;
    }

    /** `calculateFolderHash`: the fingerprint of a folder given what
        `readDir` returned for it (None: it threw, and the hash is ''). */
    function FolderHash(listing: Option<seq<ReadDirItem>>): string {
      match listing
      case None => ""
      case Some(items) => sha256(ContentString(items))
    }

    /** `getCacheFilePath`: a name of fixed shape derived from the folder
        path alone. */
    function CacheFilePath(folderPath: string): (p: string)
      ensures StartsWith(p, cacheDir + "/") && EndsWith(p, CACHE_FILE_NAME)
      ensures Laws() ==> |p| == |cacheDir| + 1 + KEY_LENGTH + |CACHE_FILE_NAME|
      ensures Laws() ==> p == cacheDir + "/" + sha256(folderPath)[..KEY_LENGTH] + CACHE_FILE_NAME
    {
      var p := cacheDir + "/" + SubstringTo(sha256(folderPath), KEY_LENGTH) + CACHE_FILE_NAME;
      assert p[..|cacheDir + "/"|] == cacheDir + "/";
      assert p[|p| - |CACHE_FILE_NAME|..] == CACHE_FILE_NAME;
      p
    }

    /** What `readCacheData(folderPath)` returns when the cache holds `d`:
        null when the file is absent, unparsable, or written for another
        folder whose path hash shares the prefix. */
    function ReadIn(d: CacheDisk, folderPath: string): (r: Option<CacheData>)
      ensures r.Some? ==> r.value.originalPath == folderPath
      ensures r.Some? ==> CacheFilePath(folderPath) in d.files && parse(d.files[CacheFilePath(folderPath)]) == r
      ensures CacheFilePath(folderPath) !in d.files ==> r.None?
      ensures r.Some? <==> CacheFilePath(folderPath) in d.files && parse(d.files[CacheFilePath(folderPath)]).Some?
                             && parse(d.files[CacheFilePath(folderPath)]).value.originalPath == folderPath
    {
      var key := CacheFilePath(folderPath);
      if key !in d.files then None
      else match parse(d.files[key])
        case None => None
        case Some(data) => if data.originalPath != folderPath then None else Some(data)
    }

    /** The cache after `writeCacheData(folderPath, files, totalSize)` at
        time `now`, when `readDir(folderPath)` gives `listing` and the file
        write succeeds iff `ok`; a failed write is swallowed. */
    function WriteIn(d: CacheDisk, folderPath: string, files: seq<FileItem>, totalSize: int,
                     listing: Option<seq<ReadDirItem>>, now: int, ok: bool): (r: CacheDisk)
      ensures r.dirExists
      ensures forall k :: k != CacheFilePath(folderPath) ==> (k in r.files <==> k in d.files)
      ensures forall k :: k in d.files && k != CacheFilePath(folderPath) ==> r.files[k] == d.files[k]
      ensures !ok ==> r.files == d.files
    {
      var d1 := EnsureDir(d);
      if ok then
        var data := CacheData(now, FolderHash(listing), files, totalSize, folderPath);
        d1.(files := d1.files[CacheFilePath(folderPath) := stringify(data)])
      else d1
    }

    /** What `isCacheValid(folderPath)` returns at time `now`. */
    predicate IsValidIn(d: CacheDisk, folderPath: string, listing: Option<seq<ReadDirItem>>, now: int) {
      match ReadIn(d, folderPath)
      case None => false
      case Some(data) =>
        if now - data.timestamp > CACHE_TTL then false
        else FolderHash(listing) == data.hash
    }

    // ---- operations on the store ----

    method EnsureCacheDir()
      requires Valid()
      modifies this
      ensures Valid()
      ensures Disk() == EnsureDir(old(Disk()))
    {
      if !cacheDirExists {
        cacheDirExists := true;
      }
    }

    method ReadCacheData(folderPath: string) returns (r: Option<CacheData>)
      requires Valid()
      modifies this
      ensures Valid()
      ensures Disk() == EnsureDir(old(Disk()))
      ensures r == ReadIn(old(Disk()), folderPath)
    {
      EnsureCacheDir();
      var cacheFilePath := CacheFilePath(folderPath);
      if cacheFilePath !in cacheFiles {
        return None;
      }
      var content := cacheFiles[cacheFilePath];
      var cacheData := parse(content);
      if cacheData.None? {
        return None;
      }
      if cacheData.value.originalPath != folderPath {
        return None;
      }
      return cacheData;
    }

    method WriteCacheData(folderPath: string, files: seq<FileItem>, totalSize: int,
                          listing: Option<seq<ReadDirItem>>, now: int, writeOk: bool)
      requires Valid()
      modifies this
      ensures Valid()
      ensures Disk() == WriteIn(old(Disk()), folderPath, files, totalSize, listing, now, writeOk)
    {
      EnsureCacheDir();
      var hash := FolderHash(listing);
      var cacheData := CacheData(now, hash, files, totalSize, folderPath);
      var cacheFilePath := CacheFilePath(folderPath);
      if writeOk {
        cacheFiles := cacheFiles[cacheFilePath := stringify(cacheData)];
      }
    }

    method IsCacheValid(folderPath: string, listing: Option<seq<ReadDirItem>>, now: int) returns (b: bool)
      requires Valid()
      modifies this
      ensures Valid()
      ensures Disk() == EnsureDir(old(Disk()))
      ensures b == IsValidIn(old(Disk()), folderPath, listing, now)
    {
      var cacheData := ReadCacheData(folderPath);
      if cacheData.None? {
        return false;
      }
      var cacheAge := now - cacheData.value.timestamp;
      if cacheAge > CACHE_TTL {
        return false;
      }
      var currentHash := FolderHash(listing);
      return currentHash == cacheData.value.hash;
    }

    // ---- properties ----

    /** The fingerprint depends only on the multiset of entry lines:
        listing order does not matter. */
    lemma FolderHashDependsOnLines(a: seq<ReadDirItem>, b: seq<ReadDirItem>)
      requires multiset(Map(a, EntryLine)) == multiset(Map(b, EntryLine))
      ensures FolderHash(Some(a)) == FolderHash(Some(b))
    {
      CodeUnitOrder();
      var sa := Sort(Map(a, EntryLine), CodeUnitLeq);
      var sb := Sort(Map(b, EntryLine), CodeUnitLeq);
      SortedUnique(sa, sb, CodeUnitLeq);
    }

    lemma FolderHashIgnoresOrder(a: seq<ReadDirItem>, b: seq<ReadDirItem>)
      requires multiset(a) == multiset(b)
      ensures FolderHash(Some(a)) == FolderHash(Some(b))
    {
      MapPermutation(a, b, EntryLine);
      FolderHashDependsOnLines(a, b);
    }

    /** The fingerprint is '' exactly when listing the folder failed. */
    lemma FolderHashEmptyIffUnreadable(listing: Option<seq<ReadDirItem>>)
      requires Laws()
      ensures FolderHash(listing) == "" <==> listing.None?
    {
      if listing.Some? {
        assert |sha256(ContentString(listing.value))| == 64;
      }
    }

    /** Folders whose path hashes share the 32-character prefix share a
        cache file. */
    lemma SharedPrefixSharesFile(p: string, q: string)
      requires Laws()
      requires sha256(p)[..KEY_LENGTH] == sha256(q)[..KEY_LENGTH]
      ensures CacheFilePath(p) == CacheFilePath(q)
    {
    }

    /** Write then read of the same folder gives back the entry written. */
    lemma WriteThenRead(d: CacheDisk, folderPath: string, files: seq<FileItem>, totalSize: int,
                        listing: Option<seq<ReadDirItem>>, now: int)
      requires Laws()
      ensures ReadIn(WriteIn(d, folderPath, files, totalSize, listing, now, true), folderPath)
              == Some(CacheData(now, FolderHash(listing), files, totalSize, folderPath))
    {
      var data := CacheData(now, FolderHash(listing), files, totalSize, folderPath);
      assert parse(stringify(data)) == Some(data);
    }

    /** A write leaves every other folder's read as it was, except a folder
        whose cache file it overwrote, which now reads as null. */
    lemma WriteThenReadOther(d: CacheDisk, p: string, q: string, files: seq<FileItem>, totalSize: int,
                             listing: Option<seq<ReadDirItem>>, now: int, ok: bool)
      requires Laws()
      requires p != q
      ensures ReadIn(WriteIn(d, p, files, totalSize, listing, now, ok), q)
              == if ok && CacheFilePath(q) == CacheFilePath(p) then None else ReadIn(d, q)
    {
      var data := CacheData(now, FolderHash(listing), files, totalSize, p);
      assert parse(stringify(data)) == Some(data);
    }

    /** The age limit is inclusive: an entry written at `now` over an
        unchanged folder is still accepted exactly CACHE_TTL later and
        rejected one millisecond after that. */
    lemma ExpiryBoundary(d: CacheDisk, folderPath: string, files: seq<FileItem>, totalSize: int,
                         listing: Option<seq<ReadDirItem>>, now: int)
      requires Laws()
      ensures var d' := WriteIn(d, folderPath, files, totalSize, listing, now, true);
        && IsValidIn(d', folderPath, listing, now + CACHE_TTL)
        && !IsValidIn(d', folderPath, listing, now + CACHE_TTL + 1)
    {
      WriteThenRead(d, folderPath, files, totalSize, listing, now);
    }

    /** After a successful write, the entry stays valid until CACHE_TTL has
        passed and while the folder's fingerprint is unchanged, and is
        invalid otherwise. */
    lemma WriteThenValid(d: CacheDisk, folderPath: string, files: seq<FileItem>, totalSize: int,
                         listing: Option<seq<ReadDirItem>>, now: int,
                         laterListing: Option<seq<ReadDirItem>>, later: int)
      requires Laws()
      ensures IsValidIn(WriteIn(d, folderPath, files, totalSize, listing, now, true), folderPath, laterListing, later)
              <==> later - now <= CACHE_TTL && FolderHash(laterListing) == FolderHash(listing)
    {
      WriteThenRead(d, folderPath, files, totalSize, listing, now);
    }

    /** An entry written from one listing is still valid for a reordering
        of that listing, and is never valid once listing the folder fails
        if it was written from a successful listing. */
    lemma ValidAcrossReordering(d: CacheDisk, folderPath: string, files: seq<FileItem>, totalSize: int,
                                items: seq<ReadDirItem>, reordered: seq<ReadDirItem>, now: int, later: int)
      requires Laws()
      requires multiset(items) == multiset(reordered)
      requires now <= later <= now + CACHE_TTL
      ensures IsValidIn(WriteIn(d, folderPath, files, totalSize, Some(items), now, true), folderPath, Some(reordered), later)
      ensures !IsValidIn(WriteIn(d, folderPath, files, totalSize, Some(items), now, true), folderPath, None, later)
    {
      FolderHashIgnoresOrder(items, reordered);
      WriteThenValid(d, folderPath, files, totalSize, Some(items), now, Some(reordered), later);
      WriteThenValid(d, folderPath, files, totalSize, Some(items), now, None, later);
      FolderHashEmptyIffUnreadable(Some(items));
    }
  }
}
