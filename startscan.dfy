/** `startScan` of App.tsx: the candidate roots, the Android/data probe,
    the loop that walks each root once, and the totals it reports. */
module StartScan {
  import opened Wrappers
  import opened Sorting
  import opened Rnfs
  import opened FileItems
  import opened ScanCache
  import opened App

  /** The primary shared-storage folder of an Android device. */
  const EMULATED_ROOT: string := "/storage/emulated/0"

  const ANDROID_DATA_PATH: string := EMULATED_ROOT + "/Android/data"

  /** The fixed folders `startScan` lists after the platform ones. */
  const WELL_KNOWN_PATHS: seq<string> := [
    EMULATED_ROOT,
    EMULATED_ROOT + "/Download",
    EMULATED_ROOT + "/DCIM",
    EMULATED_ROOT + "/Pictures",
    EMULATED_ROOT + "/Movies",
    EMULATED_ROOT + "/Music",
    EMULATED_ROOT + "/Documents",
    EMULATED_ROOT + "/Podcasts",
    EMULATED_ROOT + "/Alarms",
    EMULATED_ROOT + "/Notifications",
    EMULATED_ROOT + "/Ringtones"
  ]

  /** The platform folders the file-system library reports. */
  datatype DevicePaths = DevicePaths(externalStorage: string, externalDir: string, documentDir: string)

  ghost predicate NoDuplicates(s: seq<string>) {
    forall i, j :: 0 <= i < j < |s| ==> s[i] != s[j]
  }

  /** `set.add(x)` on a set kept in insertion order. */
  function AddUnique(acc: seq<string>, x: string): seq<string> {
    if x in acc then acc else acc + [x]
  }

  function AddAll(acc: seq<string>, xs: seq<string>): seq<string>
    decreases |xs|
  {
    if xs == [] then acc else AddAll(AddUnique(acc, xs[0]), xs[1..])
  }

  lemma {:induction false} AddAllNoDuplicates(acc: seq<string>, xs: seq<string>)
    requires NoDuplicates(acc)
    ensures NoDuplicates(AddAll(acc, xs))
    decreases |xs|
  {
    if xs != [] {
      var acc' := AddUnique(acc, xs[0]);
      assert NoDuplicates(acc');
      AddAllNoDuplicates(acc', xs[1..]);
    }
  }

  lemma {:induction false} AddAllMembers(acc: seq<string>, xs: seq<string>)
    ensures forall p :: p in AddAll(acc, xs) <==> p in acc || p in xs
    decreases |xs|
  {
    if xs != [] {
      AddAllMembers(AddUnique(acc, xs[0]), xs[1..]);
      assert xs == [xs[0]] + xs[1..];
    }
  }

  lemma {:induction false} AddAllKeepsPrefix(acc: seq<string>, xs: seq<string>)
    ensures |acc| <= |AddAll(acc, xs)| && AddAll(acc, xs)[..|acc|] == acc
    decreases |xs|
  {
    if xs != [] {
      var acc' := AddUnique(acc, xs[0]);
      AddAllKeepsPrefix(acc', xs[1..]);
      var r := AddAll(acc', xs[1..]);
      assert acc'[..|acc|] == acc;
      assert r[..|acc|] == r[..|acc'|][..|acc|];
    }
  }

  /** Adding a list to a `Set` kept in insertion order: no path twice,
      exactly the paths of both, the earlier ones still in front. */
  lemma AddAllIsSet(acc: seq<string>, xs: seq<string>)
    requires NoDuplicates(acc)
    ensures NoDuplicates(AddAll(acc, xs))
    ensures forall p :: p in AddAll(acc, xs) <==> p in acc || p in xs
    ensures |acc| <= |AddAll(acc, xs)| && AddAll(acc, xs)[..|acc|] == acc
  {
    AddAllNoDuplicates(acc, xs);
    AddAllMembers(acc, xs);
    AddAllKeepsPrefix(acc, xs);
  }

  /** The paths `startScan` walks, in iteration order: the platform folders
      and the fixed list as a `Set`, then the current path. */
  function CandidatePaths(device: DevicePaths, currentPath: string): seq<string> {
    AddUnique(AddAll([], [device.externalStorage, device.externalDir, device.documentDir] + WELL_KNOWN_PATHS), currentPath)
  }

  /** Each candidate is walked at most once; the candidates are the listed
      folders plus the current path. */
  lemma CandidatePathsAreASet(device: DevicePaths, currentPath: string)
    ensures NoDuplicates(CandidatePaths(device, currentPath))
    ensures forall p :: p in CandidatePaths(device, currentPath) <==>
              p in [device.externalStorage, device.externalDir, device.documentDir] + WELL_KNOWN_PATHS || p == currentPath
  {
    AddAllIsSet([], [device.externalStorage, device.externalDir, device.documentDir] + WELL_KNOWN_PATHS);
  }

  /** The coordinator's state: cache, accumulated results, processed paths. */
  datatype ScanProgress = ScanProgress(disk: CacheDisk, results: seq<FileItem>, processed: set<string>)

  /** One iteration of the loop over candidate paths; `root` is "/". */
  function ScanPath(env: ScanEnv, root: FsNode, st: ScanProgress, p: string): ScanProgress {
    if p in st.processed then st
    else
      var target := Resolve(root, p);
      if target.None? then st
      else
        var res := ScanDirectorySpec(env, st.disk, p, target);
        if res.1 == [] then st.(disk := res.0) else ScanProgress(res.0, st.results + res.1, st.processed + {p})
  }

  function ScanPaths(env: ScanEnv, root: FsNode, st: ScanProgress, paths: seq<string>): ScanProgress
    decreases |paths|
  {
    if paths == [] then st
    else ScanPath(env, root, ScanPaths(env, root, st, paths[..|paths| - 1]), paths[|paths| - 1])
  }

  /** The attempt on the Android/data folder (`dataPath`) before the loop:
      it is walked only if it exists and can be listed, and marked processed
      only if the walk found something. */
  function ProbeAndroidData(env: ScanEnv, root: FsNode, d: CacheDisk, dataPath: string): ScanProgress {
    var target := Resolve(root, dataPath);
    if target.None? || ReadDir(dataPath, target.value).None? then ScanProgress(d, [], {})
    else
      var res := ScanDirectorySpec(env, d, dataPath, target);
      ScanProgress(res.0, res.1, if res.1 == [] then {} else {dataPath})
  }

  datatype ScanOutcome =
    | PermissionRequested
    | NothingFound
    | Found(files: seq<FileItem>, totalBytes: nat, totalFiles: nat)

  /** The try block of `startScan` that probes Android/data. */
  method ScanAndroidData(env: ScanEnv, root: FsNode, androidDataPath: string)
    returns (results: seq<FileItem>, processedPaths: set<string>)
    requires env.store.Valid()
    modifies env.store
    ensures env.store.Valid()
    ensures ScanProgress(env.store.Disk(), results, processedPaths)
            == ProbeAndroidData(env, root, old(env.store.Disk()), androidDataPath)
  {
    ghost var d0 := env.store.Disk();
    results, processedPaths := [], {};
    var entry := Resolve(root, androidDataPath);
    if entry.Some? {
      var items := ReadDir(androidDataPath, entry.value);
      if items.Some? {
        var androidDataResults := ScanDirectory(env, androidDataPath, entry);
        ghost var res := ScanDirectorySpec(env, d0, androidDataPath, entry);
        assert env.store.Disk() == res.0 && androidDataResults == res.1;
        if |androidDataResults| > 0 {
          results := results + androidDataResults;
          assert results == res.1;
          processedPaths := processedPaths + {androidDataPath};
        }
      }
    }
  }

  /** `startScan`: the cache afterwards and what the screen ends up showing. */
  function StartScanSpec(env: ScanEnv, root: FsNode, device: DevicePaths, currentPath: string,
                         hasPermission: bool, d: CacheDisk): (CacheDisk, ScanOutcome)
  {
    if !hasPermission then (d, PermissionRequested)
    else
      var st := ScanPaths(env, root, ProbeAndroidData(env, root, d, ANDROID_DATA_PATH), CandidatePaths(device, currentPath));
      if st.results == [] then (st.disk, NothingFound)
      else (st.disk, Found(st.results, NodeBytes(st.results), FileCount(st.results)))
  }

  /** One pass of the loop body for `path`. */
  method WalkCandidate(env: ScanEnv, root: FsNode, path: string, results0: seq<FileItem>, processed0: set<string>)
    returns (results: seq<FileItem>, processedPaths: set<string>)
    requires env.store.Valid()
    modifies env.store
    ensures env.store.Valid()
    ensures ScanProgress(env.store.Disk(), results, processedPaths)
            == ScanPath(env, root, ScanProgress(old(env.store.Disk()), results0, processed0), path)
  {
    results, processedPaths := results0, processed0;
    if path !in processedPaths {
      var target := Resolve(root, path);
      if target.Some? {
        var pathResults := ScanDirectory(env, path, target);
        if |pathResults| > 0 {
          results := results + pathResults;
          processedPaths := processedPaths + {path};
        }
      }
    }
  }

  lemma ScanPathsStep(env: ScanEnv, root: FsNode, st: ScanProgress, paths: seq<string>, i: nat)
    requires i < |paths|
    ensures ScanPaths(env, root, st, paths[..i + 1]) == ScanPath(env, root, ScanPaths(env, root, st, paths[..i]), paths[i])
  {
    assert paths[..i + 1][..i] == paths[..i];
  }

  /** The `for (const path of uniquePaths)` loop of `startScan`. */
  method WalkCandidates(env: ScanEnv, root: FsNode, uniquePaths: seq<string>,
                        results0: seq<FileItem>, processed0: set<string>)
    returns (results: seq<FileItem>, processedPaths: set<string>)
    requires env.store.Valid()
    modifies env.store
    ensures env.store.Valid()
    ensures ScanProgress(env.store.Disk(), results, processedPaths)
            == ScanPaths(env, root, ScanProgress(old(env.store.Disk()), results0, processed0), uniquePaths)
  {
    ghost var st0 := ScanProgress(env.store.Disk(), results0, processed0);
    results, processedPaths := results0, processed0;
    var i := 0;
    while i < |uniquePaths|
      invariant 0 <= i <= |uniquePaths|
      invariant env.store.Valid()
      invariant ScanProgress(env.store.Disk(), results, processedPaths) == ScanPaths(env, root, st0, uniquePaths[..i])
    {
      ScanPathsStep(env, root, st0, uniquePaths, i);
      results, processedPaths := WalkCandidate(env, root, uniquePaths[i], results, processedPaths);
      i := i + 1;
    }
    assert uniquePaths[..i] == uniquePaths;
  }

  method StartScan(env: ScanEnv, root: FsNode, device: DevicePaths, currentPath: string, hasPermission: bool)
    returns (outcome: ScanOutcome)
    requires env.store.Valid()
    modifies env.store
    ensures env.store.Valid()
    ensures (env.store.Disk(), outcome) == StartScanSpec(env, root, device, currentPath, hasPermission, old(env.store.Disk()))
  {
    if !hasPermission {
      return PermissionRequested;
    }
    var uniquePaths := CandidatePaths(device, currentPath);
    var results, processedPaths := ScanAndroidData(env, root, ANDROID_DATA_PATH);
    results, processedPaths := WalkCandidates(env, root, uniquePaths, results, processedPaths);

    if |results| == 0 {
      return NothingFound;
    }
    var totalBytes, totalFiles := CountFilesRecursive(results, 0, 0);
    return Found(results, totalBytes, totalFiles);
  }

  /** The loop only adds: processed paths grow by paths of the list, and
      earlier results stay in front. */
  lemma {:induction false} ScanPathsGrows(env: ScanEnv, root: FsNode, st: ScanProgress, paths: seq<string>)
    ensures var st' := ScanPaths(env, root, st, paths);
      && st.processed <= st'.processed
      && (forall p | p in st'.processed :: p in st.processed || p in paths)
      && |st.results| <= |st'.results| && st'.results[..|st.results|] == st.results
    decreases |paths|
  {
    if paths != [] {
      var init := paths[..|paths| - 1];
      ScanPathsGrows(env, root, st, init);
      var mid := ScanPaths(env, root, st, init);
      var st' := ScanPath(env, root, mid, paths[|paths| - 1]);
      assert st'.results[..|mid.results|] == mid.results;
      assert st'.results[..|mid.results|][..|st.results|] == st'.results[..|st.results|];
      forall p | p in init ensures p in paths { }
    }
  }

  /** One step on a path not yet processed appends exactly that path's walk,
      and records the path as processed only when the walk found something. */
  lemma ScanPathRecordsOnlyFinds(env: ScanEnv, root: FsNode, st: ScanProgress, p: string)
    requires p !in st.processed
    ensures var scan := ScanDirectorySpec(env, st.disk, p, Resolve(root, p));
      var st' := ScanPath(env, root, st, p);
      && st'.disk == scan.0
      && st'.results == st.results + scan.1
      && (p in st'.processed <==> Resolve(root, p).Some? && scan.1 != [])
      && st'.processed == st.processed + (if scan.1 != [] then {p} else {})
  {
    if Resolve(root, p).None? || ScanDirectorySpec(env, st.disk, p, Resolve(root, p)).1 == [] {
      assert st.results + [] == st.results;
    }
  }

  /** With distinct paths, the processed-set check skips a path only if it
      was processed before the loop. */
  lemma SkipOnlyIfProcessedBefore(env: ScanEnv, root: FsNode, st: ScanProgress, paths: seq<string>, i: nat)
    requires NoDuplicates(paths) && i < |paths|
    ensures paths[i] in ScanPaths(env, root, st, paths[..i]).processed <==> paths[i] in st.processed
  {
    ScanPathsGrows(env, root, st, paths[..i]);
  }

  /** In `startScan` the only candidate the loop can skip is Android/data,
      and only when the probe found files there. */
  lemma StartScanSkipsOnlyAndroidData(env: ScanEnv, root: FsNode, d: CacheDisk, device: DevicePaths,
                                      currentPath: string, i: nat)
    requires i < |CandidatePaths(device, currentPath)|
    ensures var paths := CandidatePaths(device, currentPath);
      var probe := ProbeAndroidData(env, root, d, ANDROID_DATA_PATH);
      paths[i] in ScanPaths(env, root, probe, paths[..i]).processed <==>
        paths[i] == ANDROID_DATA_PATH && probe.results != []
  {
    CandidatePathsAreASet(device, currentPath);
    SkipOnlyIfProcessedBefore(env, root, ProbeAndroidData(env, root, d, ANDROID_DATA_PATH), CandidatePaths(device, currentPath), i);
  }

  ghost predicate ProgressHolds(env: ScanEnv, st: ScanProgress) {
    Aggregated(st.results) && (!env.settings.cache.enabled || CacheHolds(env.store, st.disk))
  }

  lemma AggregatedAppend(a: seq<FileItem>, b: seq<FileItem>)
    requires Aggregated(a) && Aggregated(b)
    ensures Aggregated(a + b)
  {
    forall it | it in a + b ensures it in a || it in b { }
  }

  lemma ScanPathHolds(env: ScanEnv, root: FsNode, st: ScanProgress, p: string)
    requires env.store.Laws() && ProgressHolds(env, st)
    ensures ProgressHolds(env, ScanPath(env, root, st, p))
  {
    if p !in st.processed && Resolve(root, p).Some? {
      ScanDirectoryWellFormed(env, st.disk, p, Resolve(root, p));
      AggregatedAppend(st.results, ScanDirectorySpec(env, st.disk, p, Resolve(root, p)).1);
    }
  }

  lemma {:induction false} ScanPathsHolds(env: ScanEnv, root: FsNode, st: ScanProgress, paths: seq<string>)
    requires env.store.Laws() && ProgressHolds(env, st)
    ensures ProgressHolds(env, ScanPaths(env, root, st, paths))
    decreases |paths|
  {
    if paths != [] {
      ScanPathsHolds(env, root, st, paths[..|paths| - 1]);
      ScanPathHolds(env, root, ScanPaths(env, root, st, paths[..|paths| - 1]), paths[|paths| - 1]);
    }
  }

  /** The totals `startScan` reports: the file count is exact, while the
      byte total is the sum of the top-level sizes plus every directory's
      size once more. */
  lemma StartScanTotals(env: ScanEnv, root: FsNode, device: DevicePaths, currentPath: string, d: CacheDisk)
    requires env.store.Laws()
    requires !env.settings.cache.enabled || CacheHolds(env.store, d)
    ensures var outcome := StartScanSpec(env, root, device, currentPath, true, d).1;
      outcome.Found? ==>
        && outcome.files != []
        && outcome.totalFiles == FileCount(outcome.files)
        && outcome.totalBytes == SumSizes(outcome.files) + DirBytes(outcome.files)
  {
    var probe := ProbeAndroidData(env, root, d, ANDROID_DATA_PATH);
    var target := Resolve(root, ANDROID_DATA_PATH);
    if target.Some? && ReadDir(ANDROID_DATA_PATH, target.value).Some? {
      ScanDirectoryWellFormed(env, d, ANDROID_DATA_PATH, target);
    }
    assert ProgressHolds(env, probe);
    var st := ScanPaths(env, root, probe, CandidatePaths(device, currentPath));
    ScanPathsHolds(env, root, probe, CandidatePaths(device, currentPath));
    TotalBytesDoubleCounts(st.results);
  }
}
