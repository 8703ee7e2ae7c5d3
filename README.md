# Disk analyzer (React Native, Android) — a Dafny model of its core

The app scans a phone's shared storage. It shows the result as a tree of
folders ordered by size, caches each folder's result on disk, keeps a few
settings, lets the user pick a folder, and lists installed apps with their
sizes. This project models that core in Dafny and proves properties of the
model:

- **ScanCache** (`src/utils/scanCache.ts`): the per-folder cache.
  - A folder's fingerprint is a hash of its sorted entry lines.
  - A cache file is named after a prefix of the hash of the folder path.
  - The module covers reading, writing and validity checking, with a 24-hour age limit.
  - The store is a class whose fields are the cache directory's state.
  - SHA-256 and JSON are opaque functions whose laws are stated in `CacheStore.Laws`.
- **Settings** (`src/utils/settings.ts`): the defaults and the lifetime choices. Loading is a shallow merge over the defaults; saving writes one key of the key-value storage.
- **App** (`App.tsx`): the recursive walker `scanDirectory`, the byte and file counter, and the set of expanded folders.
  - The walker is specified by functions that thread the cache state through the walk in visiting order.
  - The method `ScanDirectory` is proved equal to those functions.
- **StartScan** (`App.tsx`): `startScan`.
  - The candidate roots, de-duplicated in insertion order.
  - The Android/data probe.
  - The loop that skips processed paths.
  - The reported totals.
- **FileBrowser** (`src/components/FileBrowserModal.tsx`): the folder picker, modelled as a class with the component's four state variables.
  - Listing hides dot-entries and puts folders first, then sorts by name.
  - Selecting a folder pushes the current path onto the history.
  - Going back pops the history, or falls back to the parent folder.
  - The breadcrumbs are built from the current path.
- **StorageStatsModule** (the Java native module):
  - the recursive directory size;
  - used space = total − available, for the internal, external and per-volume figures;
  - the installed-apps list.
- **StorageStatsView** (`src/components/StorageStatsView.tsx`): the shown app list.
  - System apps are dropped unless shown.
  - The list is sorted by effective size or by name.
- **TechFileItem** (`src/components/TechFileItem.tsx`): a row's icon and colour. The path's first matching extension group decides both.

Helper modules:

- `Wrappers`: `Option`.
- `Sorting`: a stable insertion sort standing for `Array.prototype.sort`, plus `filter` and `map`.
- `JsString`: `startsWith`, `endsWith`, `lastIndexOf`, `split`, `join`, code-unit order.
- `Rnfs`: the filesystem as an inductive tree, with `readDir`, `stat` and path lookup. A listed entry's path is the folder path without trailing slashes, a `/` and the name, as `java.io.File` builds it.
- `FileItems`: the scan result item.

`localeCompare` is an opaque total preorder. The clock (`Date.now()`) is a
parameter, read once per scan. Whether a file write succeeds is a parameter
too.

Where the code departs from what its own settings screen, names and
comments suggest, the model follows the code. Each difference has a lemma:

- `isCacheValid` applies a fixed 24-hour age limit. It ignores the configured lifetime, including "permanent". See `App.ScanIgnoresTtlSetting` and `App.PermanentTtlStillExpires`.
- The reported byte total counts every directory's size a second time, on top of its contents. See `App.TotalBytesDoubleCounts` and `App.DoubleCountExample`.
- The walker skips only an entry named exactly `.folder_scan_cache`. The cache files are named `<hash prefix>.folder_scan_cache`, so that skip never matches them. See `App.CacheFilesAreNotSkipped`.
- A fresh scan writes its result to the cache even when caching is disabled. See `App.FreshScanWritesBack`.
- An unreadable folder gets the fingerprint `''`; no error reaches the caller. See `ScanCache.CacheStore.FolderHashEmptyIffUnreadable`.
- Android/data is marked processed only when its walk found something, not merely when it could be listed. It is the only candidate the loop can ever skip. See `StartScan.StartScanSkipsOnlyAndroidData`.
- With an empty history, going back from a top-level folder `/name` finds the empty parent and stays where it is. See `FileBrowser.Browser.BackFromTopLevelStays`.

## Model

| member | source | states |
|---|---|---|
| Rnfs.ChildPathSegments | App.tsx:366-368 | the path `readDir` gives a child names the folder's segments and then the child's name, whatever trailing slashes the folder path has |
| Rnfs.ChildOfRoot | src/components/FileBrowserModal.tsx:68-72 | a child of `/` gets the path `/name`, not `//name` |
| Rnfs.ChildPathResolves | src/components/FileBrowserModal.tsx:68-72 | a listed entry's path resolves to the entry of that name in the listed folder |
| ScanCache.EnsureDir | src/utils/scanCache.ts:32-41 | afterwards the cache directory exists and its files are unchanged |
| ScanCache.CodeUnitOrder | src/utils/scanCache.ts:22 | the default sort order of the entry lines is total, transitive and antisymmetric |
| ScanCache.CacheStore.constructor | src/utils/scanCache.ts:6 | the cache directory is `<documents>/cache`; the store starts from the given disk state |
| ScanCache.CacheStore.CacheFilePath | src/utils/scanCache.ts:44-48 | the path lies in the cache directory and ends with `.folder_scan_cache`; it has fixed length and is built from the 32-character prefix of the path hash |
| ScanCache.CacheStore.ReadIn | src/utils/scanCache.ts:51-74 | the read is non-null exactly when the folder's cache file exists, parses, and was written for this folder, and then it is the parsed record; otherwise null |
| ScanCache.CacheStore.WriteIn | src/utils/scanCache.ts:77-109 | a write creates the directory and touches no other cache file; a failed write changes no file |
| ScanCache.CacheStore.EnsureCacheDir | src/utils/scanCache.ts:32-41 | the store's new state is the old one with the directory created |
| ScanCache.CacheStore.ReadCacheData | src/utils/scanCache.ts:51-74 | returns the read for the old state and leaves only the directory created |
| ScanCache.CacheStore.WriteCacheData | src/utils/scanCache.ts:77-109 | the new state is the write of a record stamped with the clock, the folder's fingerprint and the path |
| ScanCache.CacheStore.IsCacheValid | src/utils/scanCache.ts:112-133 | returns validity against the old state: readable, within the age limit, and the fingerprint unchanged |
| ScanCache.CacheStore.FolderHashDependsOnLines | src/utils/scanCache.ts:17-24 | listings with the same multiset of `name:size:mtime` lines have the same fingerprint |
| ScanCache.CacheStore.FolderHashIgnoresOrder | src/utils/scanCache.ts:19-23 | reordering a listing does not change its fingerprint |
| ScanCache.CacheStore.FolderHashEmptyIffUnreadable | src/utils/scanCache.ts:17-28 | the fingerprint is `''` exactly when listing the folder failed |
| ScanCache.CacheStore.SharedPrefixSharesFile | src/utils/scanCache.ts:46-47 | two folders whose path hashes share the 32-character prefix share one cache file |
| ScanCache.CacheStore.WriteThenRead | src/utils/scanCache.ts:77-94 | reading after writing the same folder gives back the written record |
| ScanCache.CacheStore.WriteThenReadOther | src/utils/scanCache.ts:51-94 | a write leaves other folders' reads alone, except a folder whose file it overwrote, which then reads as null |
| ScanCache.CacheStore.ExpiryBoundary | src/utils/scanCache.ts:119-124 | an entry over an unchanged folder is still valid exactly 24 h after its write and invalid one millisecond later |
| ScanCache.CacheStore.WriteThenValid | src/utils/scanCache.ts:112-128 | a written record stays valid until 24 h have passed and while the fingerprint is unchanged, and only then |
| ScanCache.CacheStore.ValidAcrossReordering | src/utils/scanCache.ts:112-128 | a record stays valid for a reordered listing, and is invalid once listing fails |
| Settings.Merge | src/utils/settings.ts:36 | a stored `cache` replaces the default one as a whole; without one the defaults stand |
| Settings.LoadSettings | src/utils/settings.ts:32-42 | returns the defaults for a failed read, a missing key, empty text or an unparsable record, and the merge otherwise |
| Settings.SaveSettings | src/utils/settings.ts:44-50 | the storage gets the serialized settings under `@app_settings` and nothing else changes; a failed write changes nothing |
| Settings.Defaults | src/utils/settings.ts:13-18 | caching is on by default with a 24 h lifetime, which is one of the offered choices |
| Settings.TtlOptionsShape | src/utils/settings.ts:21-28 | there are six choices: five strictly increasing positive durations, then -1 for "permanent" |
| Settings.LoadFallsBackToDefaults | src/utils/settings.ts:32-42 | every failure path of loading yields the defaults |
| Settings.LoadIsShallowMerge | src/utils/settings.ts:36 | a stored record's `cache` wins wholesale over the default |
| Settings.SaveThenLoad | src/utils/settings.ts:32-50 | loading after saving gives back the saved settings |
| App.BySizeDescOrder | App.tsx:400 | the comparator `b.size - a.size` is a consistent order |
| App.SortBySize | App.tsx:400 | the result is ordered largest first and is a permutation of the input |
| App.ScanDirectory | App.tsx:311-413 | the result and the new cache state are those of the walk specification |
| App.ScanEntry | App.tsx:357-392 | one pass of the loop over the listing leaves the results and the cache as the entry-by-entry walk specification does |
| App.SortBySizeKeepsWellFormedItems | App.tsx:399-400 | sorting keeps each item's subtree aggregated and sorted |
| App.WriteKeepsCacheHolds | App.tsx:403-404 | writing a well-formed result keeps every readable cache record well-formed |
| App.ScanDirectoryWellFormed | App.tsx:311-413 | every directory's size is the sum of its children's, every level is sorted largest first, and the cache keeps holding well-formed trees |
| App.ScanDirWellFormed | App.tsx:327-407 | the same, past the existence check, for cache hits and fresh scans |
| App.ScanEntriesWellFormed | App.tsx:357-396 | each item the loop builds is well-formed, and the cache keeps holding well-formed trees |
| App.KeptEntries | App.tsx:360-362 | the kept entries come from the listing and none is nameless or the cache file name |
| App.ScanEntriesDescribe | App.tsx:357-392 | the loop builds one item per kept entry, in order, with its name, its path and its kind; a file's item gets the stat size and no children |
| App.SortedItemsDescribeEntries | App.tsx:399-406 | after sorting, the item names are still exactly the kept entries' names |
| App.FreshScanLists | App.tsx:339-408 | without a cache hit, the result names exactly the kept entries (as a multiset) and is empty iff none is kept |
| App.FreshScanWritesBack | App.tsx:399-406 | a non-empty fresh result is written back, with its total, the fingerprint and the clock, even with caching disabled |
| App.CacheHitReturnsStored | App.tsx:328-336 | a cache hit returns the stored files and changes no cache file |
| App.NothingToScan | App.tsx:315-353 | an empty path, a missing path, an unlistable folder and an empty folder all give `[]` and no cache write |
| App.DisabledScanIgnoresCache | App.tsx:327-337 | with caching disabled, the cache's contents never affect the result |
| App.DisabledEntriesIgnoreCache | App.tsx:373-376 | the same for the loop over entries |
| App.ScanIgnoresTtlSetting | App.tsx:328-330 | the configured lifetime has no effect on a scan |
| App.EntriesIgnoreTtlSetting | App.tsx:373-376 | the same for the loop over entries |
| App.PermanentTtlStillExpires | src/utils/scanCache.ts:119-124 | with "permanent" selected, a record older than 24 h is still not a hit |
| App.CacheFilesAreNotSkipped | App.tsx:360 | a cache file, a child of `<documents>/cache`, never has the one name the walker skips |
| App.CountFilesRecursive | App.tsx:531-541 | the running totals grow by every visited item's size and by the number of non-directories |
| App.NodeBytesSplit | App.tsx:531-541 | the byte total is the file bytes plus the directory bytes |
| App.AggregatedSizesAreFileBytes | App.tsx:376 | in an aggregated tree the top-level sizes add up to the file bytes |
| App.TotalBytesDoubleCounts | App.tsx:527-545 | the reported bytes are the true total plus every directory's size |
| App.DoubleCountExample | App.tsx:531-541 | one folder holding one 100-byte file is reported as 200 bytes and one file |
| App.ToggleFolder | App.tsx:572-582 | the path's membership flips and no other path's membership changes |
| App.ToggleTwice | App.tsx:572-582 | toggling twice restores the set |
| StartScan.AddAllIsSet | App.tsx:426-441 | a `Set` built from a list holds each listed path once, keeps earlier paths in front, and holds nothing else |
| StartScan.CandidatePathsAreASet | App.tsx:426-444 | the candidates are the three platform folders, the eleven fixed ones and the current path, each once |
| StartScan.ScanAndroidData | App.tsx:451-483 | the probe walks Android/data only if it exists and can be listed, and marks it processed only if the walk found something |
| StartScan.WalkCandidate | App.tsx:486-507 | one loop step leaves the results, processed set and cache as the one-path specification does |
| StartScan.WalkCandidates | App.tsx:485-507 | the loop's results, processed set and cache state are those of the path-by-path specification |
| StartScan.StartScan | App.tsx:415-570 | without permission it only requests permission; otherwise nothing found, or the results with the counted totals, and the cache as specified |
| StartScan.ScanPathRecordsOnlyFinds | App.tsx:486-502 | a step on an unprocessed path appends exactly that path's walk and marks the path processed iff it exists and the walk found something |
| StartScan.ScanPathsGrows | App.tsx:486-507 | the loop only adds: the processed set grows by paths of the list, and earlier results stay in front |
| StartScan.SkipOnlyIfProcessedBefore | App.tsx:488-490 | with distinct paths, a path is skipped only if it was processed before the loop |
| StartScan.StartScanSkipsOnlyAndroidData | App.tsx:449-507 | a candidate is skipped iff it is Android/data and the probe found files there |
| StartScan.AggregatedAppend | App.tsx:500 | concatenating aggregated result lists keeps them aggregated |
| StartScan.ScanPathHolds | App.tsx:486-507 | one loop step keeps the results aggregated and the cache well-formed |
| StartScan.ScanPathsHolds | App.tsx:486-507 | the whole loop keeps the results aggregated and the cache well-formed |
| StartScan.StartScanTotals | App.tsx:527-545 | when files are found, the file count is exact and the byte total is the top-level sum plus all directory sizes |
| FileBrowser.DirsFirstOrder | src/components/FileBrowserModal.tsx:63-67 | the folders-first comparator is a consistent order when `localeCompare` is |
| FileBrowser.ListingProperties | src/components/FileBrowserModal.tsx:61-72 | no dot-entries; every folder before every file; each kind ordered by name; a permutation of the visible entries |
| FileBrowser.TrailShape | src/components/FileBrowserModal.tsx:123-131 | the trail has one crumb per segment, naming it and carrying the path up to it |
| FileBrowser.PrefixPathGrows | src/components/FileBrowserModal.tsx:123-129 | each crumb path extends every earlier one |
| FileBrowser.PrefixPathRooted | src/components/FileBrowserModal.tsx:125 | every crumb path starts with `/` |
| FileBrowser.Browser.constructor | src/components/FileBrowserModal.tsx:41-45 | the browser starts at the initial path with no files, no error and no history |
| FileBrowser.Browser.LoadIn | src/components/FileBrowserModal.tsx:53-83 | on success the files shown are the folder's listing (dot-entries dropped, folders first, each kind by name), the path changes and the error clears; on failure no files are shown, the error text is set and the path stays; the history is never touched |
| FileBrowser.Browser.ParentPath | src/components/FileBrowserModal.tsx:99 | the parent is the part of the path before its last `/`; it is empty exactly when no `/` follows the first character |
| FileBrowser.Browser.LoadFiles | src/components/FileBrowserModal.tsx:53-83 | the new state is the load specification applied to the old state |
| FileBrowser.Browser.HandleSelectFolder | src/components/FileBrowserModal.tsx:85-90 | the new state is the select specification applied to the old state |
| FileBrowser.Browser.NavigateBack | src/components/FileBrowserModal.tsx:92-104 | the new state is the back specification applied to the old state |
| FileBrowser.Browser.GetBreadcrumbs | src/components/FileBrowserModal.tsx:121-134 | a root crumb `/`, then the trail of the current path's non-empty segments |
| FileBrowser.Browser.SelectPushesOnlyFolders | src/components/FileBrowserModal.tsx:85-90 | selecting a file changes nothing; selecting a folder pushes the current path and moves there if it can be listed |
| FileBrowser.Browser.BackPops | src/components/FileBrowserModal.tsx:93-96 | back with a history pops its last entry and loads exactly that path |
| FileBrowser.Browser.SelectThenBack | src/components/FileBrowserModal.tsx:85-104 | select then back restores the history and returns to the folder left, with its listing |
| FileBrowser.Browser.BackFromTopLevelStays | src/components/FileBrowserModal.tsx:97-103 | with no history, back from `/name` leaves the state as it is |
| FileBrowser.Browser.CrumbPathsArePrefixes | src/components/FileBrowserModal.tsx:121-134 | crumb paths are rooted and each extends the earlier ones |
| StorageStatsModule.CalculateDirectorySize | android/app/src/main/java/com/diskscanpro/StorageStatsModule.java:185-206 | returns the recursive size: file lengths summed through readable folders, 0 for a null, missing, unreadable or unlistable folder |
| StorageStatsModule.DirSizeNonNegative | android/app/src/main/java/com/diskscanpro/StorageStatsModule.java:185-206 | the size is never negative when no file reports a negative length |
| StorageStatsModule.EntriesSizeNonNegative | android/app/src/main/java/com/diskscanpro/StorageStatsModule.java:197-203 | the same for the loop over a listing |
| StorageStatsModule.DirSizeZeroCases | android/app/src/main/java/com/diskscanpro/StorageStatsModule.java:186-195 | each early exit gives 0 |
| StorageStatsModule.FlatDirectorySize | android/app/src/main/java/com/diskscanpro/StorageStatsModule.java:197-200 | a readable folder of plain files has the sum of their lengths as its size |
| StorageStatsModule.FlatEntriesSize | android/app/src/main/java/com/diskscanpro/StorageStatsModule.java:197-203 | the same for the first entries of the listing |
| StorageStatsModule.SpaceOf | android/app/src/main/java/com/diskscanpro/StorageStatsModule.java:54-56 | used plus available is total, and used lies in `[0, total]` when the reading is sane |
| StorageStatsModule.VolumeInfoOf | android/app/src/main/java/com/diskscanpro/StorageStatsModule.java:82-110 | a volume has space figures iff its path and its `StatFs` are both available, and they balance |
| StorageStatsModule.GetStorageStats | android/app/src/main/java/com/diskscanpro/StorageStatsModule.java:46-119 | rejects with `STORAGE_STATS_ERROR` when a required `StatFs` fails; otherwise resolves with the internal, external and per-volume figures |
| StorageStatsModule.StorageStatsBalance | android/app/src/main/java/com/diskscanpro/StorageStatsModule.java:54-102 | every reported space has used plus available equal to total |
| StorageStatsModule.GetInstalledApps | android/app/src/main/java/com/diskscanpro/StorageStatsModule.java:122-183 | the list holds one entry per package whose lookups succeed, in package order |
| StorageStatsModule.InstalledAppsShape | android/app/src/main/java/com/diskscanpro/StorageStatsModule.java:129-177 | entry `i` is built from the `i`-th package whose lookups succeed: its name, label, system flag, APK length, data-folder size, and the stats query's cache bytes and app + data + cache total, both present exactly when the query is |
| StorageStatsModule.UnreadablePackageOmitted | android/app/src/main/java/com/diskscanpro/StorageStatsModule.java:133-176 | a package whose application info cannot be read adds nothing |
| StorageStatsView.EffectiveSize | src/components/StorageStatsView.tsx:72-73 | a non-zero total wins; a missing or zero total falls back to app plus data bytes |
| StorageStatsView.ByAppNameOrder | src/components/StorageStatsView.tsx:78 | ordering by `appName.localeCompare` is a consistent order |
| StorageStatsView.OrderIsPreorder | src/components/StorageStatsView.tsx:68-79 | both sort orders are consistent |
| StorageStatsView.FilteredAppsContents | src/components/StorageStatsView.tsx:63-81 | each app appears as often as in the input, except hidden system apps, which are gone |
| StorageStatsView.FilteredAppsOrdered | src/components/StorageStatsView.tsx:68-79 | the list is ordered by descending effective size, or by name |
| StorageStatsView.FilteredAppsIdempotent | src/components/StorageStatsView.tsx:63-81 | filtering and sorting the shown list again gives the same list |
| StorageStatsView.EffectiveSizeOfListed | src/components/StorageStatsView.tsx:209 | an app's shown size is app + data + cache bytes from the stats query when non-zero, and otherwise APK length + data-folder size |
| TechFileItem.KindOf | src/components/TechFileItem.tsx:74-93 | the group chosen is the first in chain order whose extensions the path ends with; `Other` when none match |
| TechFileItem.FileIcon | src/components/TechFileItem.tsx:69-94 | folder icons exactly for folders (open iff expanded); files get their group's icon |
| TechFileItem.IconColor | src/components/TechFileItem.tsx:96-120 | amber for folders and never for files; files get their group's colour |
| TechFileItem.IconsDistinct | src/components/TechFileItem.tsx:69-94 | no two groups share an icon |
| TechFileItem.ColorFollowsIcon | src/components/TechFileItem.tsx:96-120 | the colour is determined by the icon |
| TechFileItem.SharedGreen | src/components/TechFileItem.tsx:100-111 | green marks exactly images and spreadsheets |
| TechFileItem.UpperCaseExtensionIsDefault | src/components/TechFileItem.tsx:74-93 | any path ending in `.JPG` matches no group: default icon and grey |
| TechFileItem.DocxIsWord | src/components/TechFileItem.tsx:82-83 | a `.docx` path gets the Word icon |

## Left out

- Asynchrony and React: `async`/`await`, the `loading`, `scanning` and `progress` flags, `refreshing`, and re-rendering. Each handler is modelled as one atomic step on its state. Batched state updates are read in the order the handler issues them.
- Console logging, `Alert` dialogs and the permission request. `requestAllFilesAccess` is reduced to the outcome `PermissionRequested`; the permission flag is a parameter.
- SHA-256 and JSON internals. They are opaque functions with stated laws. `JSON.parse` of a settings record is reduced to whether it carries a `cache` object.
- The JavaScript `||` on `NaN` and `undefined`: `dataSize` is always a number in the bridged record.
- Number widths. JavaScript numbers and Java `long` are unbounded integers here, so overflow of `calculateDirectorySize` and of summed sizes is not modelled.
- `localeCompare`'s collation. It is an opaque total preorder. The fingerprint's `.sort()` uses code-unit order on `char`, and UTF-16 surrogate pairs are not modelled.
- `mkdir` failing inside `ensureCacheDir`. The directory is taken to exist afterwards.
- The Android hide-file step after a cache write (an `exists` call whose result is unused).
- The clock. It is a single reading per scan, so all cache writes in one scan carry the same timestamp.
- `formatSize`, percentages and all rendering, including `getCommonPaths` and `confirmSelection`, which only hand fixed paths or the current path to the caller.
- The SDK-version gates. `volumes` is None below API 24 and `stats` is None below API 26; they are passed in as readings.
- Symbolic-link cycles. The filesystem is a finite tree.
- App.ScanDirectory: the cache directory is not part of the walked tree; cache writes during a scan do not appear in later listings or fingerprints of `<documents>/cache`.
- StartScan.StartScan: the same. Writes made while walking one candidate are not seen when the documents folder is walked later in the same scan.
- Rnfs.ChildPath: drops trailing slashes of the folder path as `java.io.File` does, but does not collapse doubled slashes inside it.
- StorageStatsModule.GetInstalledApps: does not model the outer `APP_LIST_ERROR` rejection when `getInstalledPackages` itself throws; the list of packages is given.
- StorageStatsModule.GetStorageStats: does not model `getStorageVolumes` throwing, which would reject the whole call; the volume list is given.
- StorageStatsView.FilteredAppsOrdered: does not state how apps of equal size or equal name are ordered among themselves. The sort is stable, so that order is the input order, but no lemma states it.
