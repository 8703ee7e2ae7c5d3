/** The native module android/.../StorageStatsModule.java: space figures of
    the storage volumes, the installed-apps list with per-app sizes, and the
    recursive size of a directory. The platform queries (StatFs,
    PackageManager, StorageStatsManager) become readings passed in. */
module StorageStatsModule {
  import opened Wrappers

  /** A `java.io.File` as the module uses it. `listFiles()` returns null
      unless `listable`, and `files` otherwise. */
  datatype JFile = JFile(present: bool, canRead: bool, isFile: bool, length: int, listable: bool, files: seq<JFile>)

  /** Stands in for a null directory in termination measures. */
  const NoFile: JFile := JFile(false, false, false, 0, false, [])

  // ---- calculateDirectorySize ----

  /** The size `calculateDirectorySize(dir)` returns; None is a null `dir`. */
  function DirSize(dir: Option<JFile>): int
    decreases if dir.Some? then dir.value else NoFile, 1
  {
    if dir.None? || !dir.value.present || !dir.value.canRead || !dir.value.listable then 0
    else EntriesSize(dir.value, |dir.value.files|)
  }

  /** The sum over the first `n` entries of a listed directory: a regular
      file counts its length, anything else its recursive size. */
  function EntriesSize(dir: JFile, n: nat): int
    requires dir.listable && n <= |dir.files|
    decreases dir, 0, n
  {
    if n == 0 then 0
    else
      var file := dir.files[n - 1];
      EntriesSize(dir, n - 1) + (if file.isFile then file.length else DirSize(Some(file)))
  }

  method CalculateDirectorySize(dir: Option<JFile>) returns (size: int)
    ensures size == DirSize(dir)
    decreases if dir.Some? then dir.value else NoFile
  {
    if dir.None? || !dir.value.present || !dir.value.canRead {
      return 0;
    }
    size := 0;
    if !dir.value.listable {
      return 0;
    }
    var files := dir.value.files;
    var k := 0;
    while k < |files|
      invariant 0 <= k <= |files|
      invariant size == EntriesSize(dir.value, k)
    {
      var file := files[k];
      if file.isFile {
        size := size + file.length;
      } else {
        var sub := CalculateDirectorySize(Some(file));
        size := size + sub;
      }
      k := k + 1;
    }
  }

  /** Every file below `dir` reports a non-negative length. */
  ghost predicate LengthsNonNegative(dir: JFile)
    decreases dir
  {
    dir.length >= 0 &&
    forall i :: 0 <= i < |dir.files| ==> LengthsNonNegative(dir.files[i])
  }

  lemma {:induction false} DirSizeNonNegative(dir: Option<JFile>)
    requires dir.Some? ==> LengthsNonNegative(dir.value)
    ensures DirSize(dir) >= 0
    decreases if dir.Some? then dir.value else NoFile, 1
  {
    if dir.Some? && dir.value.present && dir.value.canRead && dir.value.listable {
      EntriesSizeNonNegative(dir.value, |dir.value.files|);
    }
  }

  lemma {:induction false} EntriesSizeNonNegative(dir: JFile, n: nat)
    requires dir.listable && n <= |dir.files|
    requires LengthsNonNegative(dir)
    ensures EntriesSize(dir, n) >= 0
    decreases dir, 0, n
  {
    if n > 0 {
      EntriesSizeNonNegative(dir, n - 1);
      var file := dir.files[n - 1];
      if !file.isFile {
        DirSizeNonNegative(Some(file));
      }
    }
  }

  /** A null, missing or unreadable directory, or one whose listing is
      null, has size 0. */
  lemma DirSizeZeroCases(dir: Option<JFile>)
    requires dir.None? || !dir.value.present || !dir.value.canRead || !dir.value.listable
    ensures DirSize(dir) == 0
  {
  }

  /** The sum of `length` over a list of files. */
  function LengthSum(files: seq<JFile>): int {
    if files == [] then 0 else LengthSum(files[..|files| - 1]) + files[|files| - 1].length
  }

  /** A readable directory holding only regular files has the sum of their
      lengths as its size. */
  lemma FlatDirectorySize(dir: JFile)
    requires dir.present && dir.canRead && dir.listable
    requires forall f | f in dir.files :: f.isFile
    ensures DirSize(Some(dir)) == LengthSum(dir.files)
  {
    FlatEntriesSize(dir, |dir.files|);
    assert dir.files[..|dir.files|] == dir.files;
  }

  lemma {:induction false} FlatEntriesSize(dir: JFile, n: nat)
    requires dir.listable && n <= |dir.files|
    requires forall f | f in dir.files :: f.isFile
    ensures EntriesSize(dir, n) == LengthSum(dir.files[..n])
  {
    if n > 0 {
      FlatEntriesSize(dir, n - 1);
      assert dir.files[..n][..n - 1] == dir.files[..n - 1];
      assert dir.files[n - 1] in dir.files;
    }
  }

  // ---- getStorageStats ----

  /** What `StatFs` reports for a volume. */
  datatype StatFsReading = StatFsReading(totalBytes: int, availableBytes: int)

  datatype Space = Space(totalBytes: int, availableBytes: int, usedBytes: int)

  /** The figures put for a volume, used bytes being total minus available. */
  function SpaceOf(r: StatFsReading): (s: Space)
    ensures s.usedBytes + s.availableBytes == s.totalBytes
    ensures s.totalBytes == r.totalBytes && s.availableBytes == r.availableBytes
    ensures 0 <= r.availableBytes <= r.totalBytes ==> 0 <= s.usedBytes <= s.totalBytes
  {
    Space(r.totalBytes, r.availableBytes, r.totalBytes - r.availableBytes)
  }

  /** A storage volume as the platform describes it; `path` is None when
      the reflective `getPath` fails, `statFs` None when `StatFs` on that
      path throws. */
  datatype VolumeReading = VolumeReading(description: string, state: string, primary: bool, emulated: bool,
                                         removable: bool, path: Option<string>, statFs: Option<StatFsReading>)

  datatype VolumeInfo = VolumeInfo(description: string, state: string, primary: bool, emulated: bool,
                                   removable: bool, path: Option<string>, space: Option<Space>)

  function VolumeInfoOf(v: VolumeReading): (r: VolumeInfo)
    ensures r.space.Some? <==> v.path.Some? && v.statFs.Some?
    ensures r.space.Some? ==> r.space.value.usedBytes + r.space.value.availableBytes == r.space.value.totalBytes
  {
    VolumeInfo(v.description, v.state, v.primary, v.emulated, v.removable, v.path,
               if v.path.Some? && v.statFs.Some? then Some(SpaceOf(v.statFs.value)) else None)
  }

  /** The external storage: not mounted, or mounted with a `StatFs`
      reading (None: `StatFs` throws). */
  datatype External = NotMounted | Mounted(reading: Option<StatFsReading>)

  datatype StorageStats = StorageStats(internal: Space, external: Option<Space>, volumes: Option<seq<VolumeInfo>>)

  datatype Promise<T> = Resolved(value: T) | Rejected(code: string)

  /** `getStorageStats` given the platform readings: `internal` is None when
      `StatFs` on the data directory throws, `volumes` None below API 24. */
  function StorageStatsOf(internal: Option<StatFsReading>, external: External,
                          volumes: Option<seq<VolumeReading>>): Promise<StorageStats>
  {
    if internal.None? || (external.Mounted? && external.reading.None?) then Rejected("STORAGE_STATS_ERROR")
    else Resolved(StorageStats(
      SpaceOf(internal.value),
      if external.Mounted? then Some(SpaceOf(external.reading.value)) else None,
      if volumes.Some? then Some(seq(|volumes.value|, i requires 0 <= i < |volumes.value| => VolumeInfoOf(volumes.value[i])))
      else None))
  }

  method GetStorageStats(internal: Option<StatFsReading>, external: External, volumes: Option<seq<VolumeReading>>)
    returns (p: Promise<StorageStats>)
    ensures p == StorageStatsOf(internal, external, volumes)
  {
    if internal.None? {
      return Rejected("STORAGE_STATS_ERROR");
    }
    var space := SpaceOf(internal.value);
    var externalSpace: Option<Space> := None;
    if external.Mounted? {
      if external.reading.None? {
        return Rejected("STORAGE_STATS_ERROR");
      }
      externalSpace := Some(SpaceOf(external.reading.value));
    }
    var volumesArray: Option<seq<VolumeInfo>> := None;
    if volumes.Some? {
      var vs: seq<VolumeInfo> := [];
      var k := 0;
      while k < |volumes.value|
        invariant 0 <= k <= |volumes.value|
        invariant |vs| == k
        invariant forall i :: 0 <= i < k ==> vs[i] == VolumeInfoOf(volumes.value[i])
      {
        vs := vs + [VolumeInfoOf(volumes.value[k])];
        k := k + 1;
      }
      assert vs == seq(|volumes.value|, i requires 0 <= i < |volumes.value| => VolumeInfoOf(volumes.value[i]));
      volumesArray := Some(vs);
    }
    return Resolved(StorageStats(space, externalSpace, volumesArray));
  }

  /** Every reported space, internal, external or per volume, has used plus
      available equal to total. */
  lemma StorageStatsBalance(internal: Option<StatFsReading>, external: External, volumes: Option<seq<VolumeReading>>)
    ensures var p := StorageStatsOf(internal, external, volumes);
      p.Resolved? ==>
        && p.value.internal.usedBytes + p.value.internal.availableBytes == p.value.internal.totalBytes
        && (p.value.external.Some? ==>
              p.value.external.value.usedBytes + p.value.external.value.availableBytes == p.value.external.value.totalBytes)
        && (p.value.volumes.Some? ==> forall v | v in p.value.volumes.value && v.space.Some? ::
              v.space.value.usedBytes + v.space.value.availableBytes == v.space.value.totalBytes)
  {
  }

  // ---- getInstalledApps ----

  /** `ApplicationInfo.FLAG_SYSTEM` */
  const FLAG_SYSTEM: bv32 := 1

  /** What `queryStatsForPackage` reports. */
  datatype PackageStats = PackageStats(appBytes: int, dataBytes: int, cacheBytes: int)

  /** What the package manager gives for one package. `sourceDir` and
      `dataDir` are None when the path is null (constructing the `File`
      throws); `stats` is None below API 26 or when the query throws. */
  datatype AppInfoReading = AppInfoReading(appLabel: string, flags: bv32, sourceDir: Option<JFile>,
                                           dataDir: Option<JFile>, stats: Option<PackageStats>)

  /** One installed package; `info` is None when `getApplicationInfo` throws. */
  datatype PackageReading = PackageReading(packageName: string, info: Option<AppInfoReading>)

  /** The map pushed for an app; `cacheSize` and `totalSize` are absent
      when the stats query is unavailable. */
  datatype AppEntry = AppEntry(packageName: string, appName: string, isSystemApp: bool, appSize: int,
                               dataSize: int, cacheSize: Option<int>, totalSize: Option<int>)

  /** `File.length()`: 0 for a file that does not exist. */
  function FileLength(f: JFile): int {
    if f.present then f.length else 0
  }

  /** Whether the package makes it into the list: the lookups that throw
      drop it. */
  predicate Listed(p: PackageReading) {
    p.info.Some? && p.info.value.sourceDir.Some? && p.info.value.dataDir.Some?
  }

  function AppEntryOf(p: PackageReading): AppEntry
    requires Listed(p)
  {
    var info := p.info.value;
    AppEntry(p.packageName, info.appLabel, info.flags & FLAG_SYSTEM != 0, FileLength(info.sourceDir.value),
             DirSize(info.dataDir),
             if info.stats.Some? then Some(info.stats.value.cacheBytes) else None,
             if info.stats.Some? then Some(info.stats.value.appBytes + info.stats.value.dataBytes + info.stats.value.cacheBytes) else None)
  }

  /** The list `getInstalledApps` resolves with. */
  function AppsOf(packages: seq<PackageReading>): seq<AppEntry> {
    if packages == [] then []
    else
      var last := packages[|packages| - 1];
      AppsOf(packages[..|packages| - 1]) + (if Listed(last) then [AppEntryOf(last)] else [])
  }

  method GetInstalledApps(packages: seq<PackageReading>) returns (appsArray: seq<AppEntry>)
    ensures appsArray == AppsOf(packages)
  {
    appsArray := [];
    var k := 0;
    while k < |packages|
      invariant 0 <= k <= |packages|
      invariant appsArray == AppsOf(packages[..k])
    {
      assert packages[..k + 1][..k] == packages[..k];
      var packageInfo := packages[k];
      var appInfo := packageInfo.info;
      if appInfo.Some? && appInfo.value.sourceDir.Some? && appInfo.value.dataDir.Some? {
        var appSize := FileLength(appInfo.value.sourceDir.value);
        var dataDirSize := CalculateDirectorySize(appInfo.value.dataDir);
        var isSystemApp := appInfo.value.flags & FLAG_SYSTEM != 0;
        var cacheSize: Option<int> := None;
        var totalSize: Option<int> := None;
        if appInfo.value.stats.Some? {
          var stats := appInfo.value.stats.value;
          cacheSize := Some(stats.cacheBytes);
          totalSize := Some(stats.appBytes + stats.dataBytes + stats.cacheBytes);
        }
        appsArray := appsArray + [AppEntry(packageInfo.packageName, appInfo.value.appLabel, isSystemApp, appSize,
                                           dataDirSize, cacheSize, totalSize)];
      }
      k := k + 1;
    }
    assert packages[..k] == packages;
  }

  /** The packages whose lookups succeed, in package order. */
  function ListedPackages(packages: seq<PackageReading>): (r: seq<PackageReading>)
    ensures |r| <= |packages|
    ensures forall p :: p in r <==> p in packages && Listed(p)
  {
    if packages == [] then []
    else
      var last := packages[|packages| - 1];
      assert packages == packages[..|packages| - 1] + [last];
      ListedPackages(packages[..|packages| - 1]) + (if Listed(last) then [last] else [])
  }

  /** The list holds one entry per package whose lookups succeed, in package
      order: its name and label, the system flag, the APK length, the
      data-folder size, and the cache and total bytes from the stats query
      (app plus data plus cache), both present exactly when the query is. */
  lemma {:induction false} InstalledAppsShape(packages: seq<PackageReading>)
    ensures var apps := AppsOf(packages);
      var listed := ListedPackages(packages);
      && |apps| == |listed|
      && forall i :: 0 <= i < |apps| ==>
           && apps[i] == AppEntryOf(listed[i])
           && apps[i].packageName == listed[i].packageName
           && apps[i].appName == listed[i].info.value.appLabel
           && apps[i].isSystemApp == (listed[i].info.value.flags & FLAG_SYSTEM != 0)
           && apps[i].appSize == FileLength(listed[i].info.value.sourceDir.value)
           && apps[i].dataSize == DirSize(listed[i].info.value.dataDir)
           && (apps[i].cacheSize.Some? <==> listed[i].info.value.stats.Some?)
           && (apps[i].totalSize.Some? <==> listed[i].info.value.stats.Some?)
           && (listed[i].info.value.stats.Some? ==>
                 var st := listed[i].info.value.stats.value;
                 apps[i].cacheSize == Some(st.cacheBytes) && apps[i].totalSize == Some(st.appBytes + st.dataBytes + st.cacheBytes))
  {
    if packages != [] {
      InstalledAppsShape(packages[..|packages| - 1]);
    }
  }

  /** A package whose application info cannot be read is left out. */
  lemma UnreadablePackageOmitted(packages: seq<PackageReading>, p: PackageReading)
    requires p.info.None?
    ensures AppsOf(packages + [p]) == AppsOf(packages)
  {
    assert (packages + [p])[..|packages|] == packages;
  }
}
