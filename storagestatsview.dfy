/** The apps tab of src/components/StorageStatsView.tsx: the list of
    installed apps as shown, optionally without system apps, ordered by
    size (largest first) or by name. `localeCompare` is an opaque total
    preorder. */
module StorageStatsView {
  import opened Wrappers
  import opened Sorting
  import opened StorageStatsModule

  /** The size an app is ranked and shown by:
      `totalSize || appSize + (dataSize || 0)`. A missing or zero total
      falls back to the app plus data bytes. */
  function EffectiveSize(app: AppEntry): (n: int)
    ensures app.totalSize.Some? && app.totalSize.value != 0 ==> n == app.totalSize.value
    ensures app.totalSize.None? || app.totalSize.value == 0 ==> n == app.appSize + app.dataSize
  {
    match app.totalSize
    case Some(t) => if t != 0 then t else app.appSize + app.dataSize
    case None => app.appSize + app.dataSize
  }

  datatype SortBy = BySize | ByName

  predicate NotSystem(app: AppEntry) {
    !app.isSystemApp
  }

  /** The comparator `bSize - aSize` as "a may come before b". */
  predicate LargerFirst(a: AppEntry, b: AppEntry) {
    EffectiveSize(a) >= EffectiveSize(b)
  }

  /** The comparator `a.appName.localeCompare(b.appName)` as "a may come before b". */
  function ByAppName(localeLeq: (string, string) -> bool): (AppEntry, AppEntry) -> bool {
    (a: AppEntry, b: AppEntry) => localeLeq(a.appName, b.appName)
  }

  lemma ByAppNameOrder(localeLeq: (string, string) -> bool)
    requires TotalPreorder(localeLeq)
    ensures TotalPreorder(ByAppName(localeLeq))
  {
    var leq := ByAppName(localeLeq);
    forall a, b ensures leq(a, b) || leq(b, a) {
      assert localeLeq(a.appName, b.appName) || localeLeq(b.appName, a.appName);
    }
    forall a, b, c | leq(a, b) && leq(b, c) ensures leq(a, c) {
      assert localeLeq(a.appName, b.appName) && localeLeq(b.appName, c.appName);
    }
  }

  /** The order `sortBy` selects. */
  function Order(sortBy: SortBy, localeLeq: (string, string) -> bool): (AppEntry, AppEntry) -> bool {
    if sortBy == BySize then LargerFirst else ByAppName(localeLeq)
  }

  lemma OrderIsPreorder(sortBy: SortBy, localeLeq: (string, string) -> bool)
    requires TotalPreorder(localeLeq)
    ensures TotalPreorder(Order(sortBy, localeLeq))
  {
    ByAppNameOrder(localeLeq);
  }

  /** `getFilteredApps`: a copy of the list, without system apps unless
      they are shown, sorted by the selected order. */
  function FilteredApps(apps: seq<AppEntry>, showSystemApps: bool, sortBy: SortBy,
                        localeLeq: (string, string) -> bool): seq<AppEntry>
    requires TotalPreorder(localeLeq)
  {
    OrderIsPreorder(sortBy, localeLeq);
    var filtered := if !showSystemApps then Filter(apps, NotSystem) else apps;
    Sort(filtered, Order(sortBy, localeLeq))
  }

  /** The shown list holds each app as often as the input does, except
      that system apps are dropped when hidden. */
  lemma FilteredAppsContents(apps: seq<AppEntry>, showSystemApps: bool, sortBy: SortBy,
                             localeLeq: (string, string) -> bool)
    requires TotalPreorder(localeLeq)
    ensures var r := FilteredApps(apps, showSystemApps, sortBy, localeLeq);
      && (forall a :: multiset(r)[a] == if showSystemApps || !a.isSystemApp then multiset(apps)[a] else 0)
      && (!showSystemApps ==> forall i :: 0 <= i < |r| ==> !r[i].isSystemApp)
  {
    OrderIsPreorder(sortBy, localeLeq);
    var filtered := if !showSystemApps then Filter(apps, NotSystem) else apps;
    var r := FilteredApps(apps, showSystemApps, sortBy, localeLeq);
    assert multiset(r) == multiset(filtered);
    if !showSystemApps {
      forall i | 0 <= i < |r| ensures !r[i].isSystemApp {
        assert r[i] in multiset(filtered);
      }
    }
  }

  /** The shown list is ordered largest first or by name as selected. */
  lemma FilteredAppsOrdered(apps: seq<AppEntry>, showSystemApps: bool, sortBy: SortBy,
                            localeLeq: (string, string) -> bool)
    requires TotalPreorder(localeLeq)
    ensures var r := FilteredApps(apps, showSystemApps, sortBy, localeLeq);
      && (sortBy == BySize ==> forall i, j :: 0 <= i < j < |r| ==> EffectiveSize(r[i]) >= EffectiveSize(r[j]))
      && (sortBy == ByName ==> forall i, j :: 0 <= i < j < |r| ==> localeLeq(r[i].appName, r[j].appName))
  {
    var r := FilteredApps(apps, showSystemApps, sortBy, localeLeq);
    assert Sorted(r, Order(sortBy, localeLeq));
  }

  /** Filtering and sorting the shown list again gives the same list: the
      sort is stable and the list is already in order. */
  lemma FilteredAppsIdempotent(apps: seq<AppEntry>, showSystemApps: bool, sortBy: SortBy,
                               localeLeq: (string, string) -> bool)
    requires TotalPreorder(localeLeq)
    ensures var r := FilteredApps(apps, showSystemApps, sortBy, localeLeq);
      FilteredApps(r, showSystemApps, sortBy, localeLeq) == r
  {
    OrderIsPreorder(sortBy, localeLeq);
    var r := FilteredApps(apps, showSystemApps, sortBy, localeLeq);
    FilteredAppsContents(apps, showSystemApps, sortBy, localeLeq);
    FilteredAppsOrdered(apps, showSystemApps, sortBy, localeLeq);
    if !showSystemApps {
      FilterKeepsAll(r, NotSystem);
    }
    SortKeepsSorted(r, Order(sortBy, localeLeq));
  }

  /** For an app the native module lists with stats, the effective size is
      app plus data plus cache bytes as reported by the stats query, unless
      that total is zero; without stats, or with a zero total, it is the
      APK length plus the recursive size of the data directory. */
  lemma EffectiveSizeOfListed(p: PackageReading)
    requires Listed(p)
    ensures var a := AppEntryOf(p);
      var info := p.info.value;
      && (info.stats.Some? && info.stats.value.appBytes + info.stats.value.dataBytes + info.stats.value.cacheBytes != 0 ==>
            EffectiveSize(a) == info.stats.value.appBytes + info.stats.value.dataBytes + info.stats.value.cacheBytes)
      && (info.stats.None? || info.stats.value.appBytes + info.stats.value.dataBytes + info.stats.value.cacheBytes == 0 ==>
            EffectiveSize(a) == FileLength(info.sourceDir.value) + DirSize(info.dataDir))
  {
  }
}
