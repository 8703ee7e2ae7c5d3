/** The folder picker of src/components/FileBrowserModal.tsx: listing a
    folder (hidden entries dropped, folders first, then by name), descending
    into a folder with a history stack, going back, and the breadcrumb trail
    of the current path. `localeCompare` is an opaque total preorder. */
module FileBrowser {
  import opened Wrappers
  import opened Sorting
  import opened JsString
  import opened Rnfs

  /** An entry as the browser shows it. */
  datatype BrowserItem = BrowserItem(name: string, path: string, isDirectory: bool)

  datatype Crumb = Crumb(name: string, path: string)

  /** The browser's state: `currentPath`, `files`, `error`, `pathHistory`. */
  datatype BrowserState = BrowserState(currentPath: string, files: seq<BrowserItem>, error: string, pathHistory: seq<string>)

  /** Entries whose name does not start with '.' are shown. */
  predicate Visible(item: ReadDirItem) {
    !StartsWith(item.name, ".")
  }

  /** The comparator of `loadFiles` as "a may come before b": a folder
      before a file, otherwise `localeCompare` of the names. */
  function DirsFirst(localeLeq: (string, string) -> bool): (ReadDirItem, ReadDirItem) -> bool {
    (a: ReadDirItem, b: ReadDirItem) =>
      (a.isDirectory && !b.isDirectory) || (a.isDirectory == b.isDirectory && localeLeq(a.name, b.name))
  }

  lemma DirsFirstOrder(localeLeq: (string, string) -> bool)
    requires TotalPreorder(localeLeq)
    ensures TotalPreorder(DirsFirst(localeLeq))
  {
    var leq := DirsFirst(localeLeq);
    forall a, b ensures leq(a, b) || leq(b, a) {
      assert localeLeq(a.name, b.name) || localeLeq(b.name, a.name);
    }
    forall a, b, c | leq(a, b) && leq(b, c) ensures leq(a, c) {
      if a.isDirectory == b.isDirectory == c.isDirectory {
        assert localeLeq(a.name, b.name) && localeLeq(b.name, c.name);
      }
    }
  }

  function ToBrowserItem(item: ReadDirItem): BrowserItem {
    BrowserItem(item.name, item.path, item.isDirectory)
  }

  /** The filter/sort/map pipeline of `loadFiles`. */
  function Listing(localeLeq: (string, string) -> bool, items: seq<ReadDirItem>): seq<BrowserItem>
    requires TotalPreorder(localeLeq)
  {
    DirsFirstOrder(localeLeq);
    Map(Sort(Filter(items, Visible), DirsFirst(localeLeq)), ToBrowserItem)
  }

  /** The listing hides dot-entries, puts every folder before every file,
      orders each kind by name, and is a permutation of the visible entries. */
  lemma ListingProperties(localeLeq: (string, string) -> bool, items: seq<ReadDirItem>)
    requires TotalPreorder(localeLeq)
    ensures var r := Listing(localeLeq, items);
      && (forall i :: 0 <= i < |r| ==> !StartsWith(r[i].name, "."))
      && (forall i, j :: 0 <= i < j < |r| && r[j].isDirectory ==> r[i].isDirectory)
      && (forall i, j :: 0 <= i < j < |r| && r[i].isDirectory == r[j].isDirectory ==> localeLeq(r[i].name, r[j].name))
      && multiset(r) == multiset(Map(Filter(items, Visible), ToBrowserItem))
  {
    DirsFirstOrder(localeLeq);
    var visible := Filter(items, Visible);
    var sorted := Sort(visible, DirsFirst(localeLeq));
    var r := Map(sorted, ToBrowserItem);
    forall i | 0 <= i < |r| ensures !StartsWith(r[i].name, ".") {
      assert sorted[i] in multiset(visible);
    }
    forall i, j | 0 <= i < j < |r| ensures DirsFirst(localeLeq)(sorted[i], sorted[j]) {
    }
    MapPermutation(sorted, visible, ToBrowserItem);
  }

  /** `'/' + seg[0] + '/' + ... + '/' + seg[k-1]`: the path of the crumb for the first `k` segments. */
  function PrefixPath(parts: seq<string>): string {
    if parts == [] then "" else PrefixPath(parts[..|parts| - 1]) + "/" + parts[|parts| - 1]
  }

  lemma PrefixPathStep(parts: seq<string>, k: nat)
    requires k < |parts|
    ensures PrefixPath(parts[..k + 1]) == PrefixPath(parts[..k]) + "/" + parts[k]
  {
    assert parts[..k + 1][..k] == parts[..k];
  }

  /** The crumbs after the root one, built segment by segment. */
  function Trail(parts: seq<string>): seq<Crumb> {
    if parts == [] then [] else Trail(parts[..|parts| - 1]) + [Crumb(parts[|parts| - 1], PrefixPath(parts))]
  }

  lemma TrailStep(parts: seq<string>, k: nat)
    requires k < |parts|
    ensures Trail(parts[..k + 1]) == Trail(parts[..k]) + [Crumb(parts[k], PrefixPath(parts[..k + 1]))]
  {
    assert parts[..k + 1][..k] == parts[..k];
  }

  /** One crumb per segment, naming it and carrying the path up to it. */
  lemma {:induction false} TrailShape(parts: seq<string>)
    ensures |Trail(parts)| == |parts|
    ensures forall i :: 0 <= i < |parts| ==> Trail(parts)[i] == Crumb(parts[i], PrefixPath(parts[..i + 1]))
  {
    if parts != [] {
      var init := parts[..|parts| - 1];
      TrailShape(init);
      forall i | 0 <= i < |init| ensures Trail(parts)[i] == Crumb(parts[i], PrefixPath(parts[..i + 1])) {
        assert parts[..i + 1] == init[..i + 1];
      }
      assert parts[..|parts|] == parts;
    }
  }

  lemma {:induction false} PrefixPathGrows(parts: seq<string>, i: nat, j: nat)
    requires i <= j <= |parts|
    ensures StartsWith(PrefixPath(parts[..j]), PrefixPath(parts[..i]))
    decreases j
  {
    if i < j {
      PrefixPathGrows(parts, i, j - 1);
      assert parts[..j][..j - 1] == parts[..j - 1];
      var a := PrefixPath(parts[..i]);
      var b := PrefixPath(parts[..j - 1]);
      assert PrefixPath(parts[..j]) == b + "/" + parts[j - 1];
      assert (b + "/" + parts[j - 1])[..|a|] == b[..|a|];
    }
  }

  lemma {:induction false} PrefixPathRooted(parts: seq<string>)
    requires parts != []
    ensures StartsWith(PrefixPath(parts), "/")
    decreases |parts|
  {
    var init := parts[..|parts| - 1];
    if init != [] {
      PrefixPathRooted(init);
      var a := PrefixPath(init);
      assert (a + "/" + parts[|parts| - 1])[..1] == a[..1];
    }
  }

  /** The device's folders (RNFS) and localized texts the browser uses. */
  class Browser {
    const root: FsNode
    /** `localeCompare(a, b) <= 0` */
    const localeLeq: (string, string) -> bool
    /** `t.cannotAccessPath` */
    const cannotAccessPath: string

    var currentPath: string
    var files: seq<BrowserItem>
    var error: string
    var pathHistory: seq<string>

    function State(): BrowserState
      reads this
    {
      BrowserState(currentPath, files, error, pathHistory)
    }

    constructor (root: FsNode, localeLeq: (string, string) -> bool, cannotAccessPath: string, initialPath: string)
      requires TotalPreorder(localeLeq)
      ensures this.root == root && this.localeLeq == localeLeq && this.cannotAccessPath == cannotAccessPath
      ensures State() == BrowserState(initialPath, [], "", [])
    {
      this.root := root;
      this.localeLeq := localeLeq;
      this.cannotAccessPath := cannotAccessPath;
      currentPath := initialPath;
      files := [];
      error := "";
      pathHistory := [];
    }

    ghost predicate Valid() {
      TotalPreorder(localeLeq)
    }

    /** The state after `loadFiles(path)`: on success the folders-first,
        name-sorted listing without dot-entries, and the new path; on failure no files, the error text, the old path. The
        history is not touched. */
    function LoadIn(s: BrowserState, path: string): (r: BrowserState)
      requires Valid()
      ensures r.pathHistory == s.pathHistory
      ensures ListDir(root, path).Some? ==> r.currentPath == path && r.error == ""
      ensures ListDir(root, path).Some? ==> r.files == Listing(localeLeq, ListDir(root, path).value)
      ensures ListDir(root, path).None? ==> r.currentPath == s.currentPath && r.files == [] && r.error == cannotAccessPath
    {
      match ListDir(root, path)
      case None => s.(files := [], error := cannotAccessPath)
      case Some(items) => s.(files := Listing(localeLeq, items), currentPath := path, error := "")
    }

    /** The state after `handleSelectFolder(item)`. */
    function SelectIn(s: BrowserState, item: BrowserItem): BrowserState
      requires Valid()
    {
      if item.isDirectory then LoadIn(s.(pathHistory := s.pathHistory + [s.currentPath]), item.path) else s
    }

    /** The folder `navigateBack` tries when the history is empty:
        `currentPath.substring(0, currentPath.lastIndexOf('/'))`. */
    function ParentPath(path: string): (p: string)
      ensures |p| < |path| || p == ""
      ensures p == path[..|p|]
      ensures p != "" ==> path[|p|] == '/' && '/' !in path[|p| + 1..]
      ensures p == "" <==> forall k :: 0 < k < |path| ==> path[k] != '/'
    {
      SubstringTo(path, LastIndexOf(path, '/'))
    }

    /** The state after `navigateBack()`. */
    function BackIn(s: BrowserState): BrowserState
      requires Valid()
    {
      if |s.pathHistory| > 0 then
        LoadIn(s.(pathHistory := s.pathHistory[..|s.pathHistory| - 1]), s.pathHistory[|s.pathHistory| - 1])
      else
        var parentPath := ParentPath(s.currentPath);
        if parentPath != "" then LoadIn(s, parentPath) else s
    }

    method LoadFiles(path: string)
      requires Valid()
      modifies this
      ensures State() == LoadIn(old(State()), path)
    {
      error := "";
      var items := ListDir(root, path);
      if items.Some? {
        var sortedItems := Listing(localeLeq, items.value);
        files := sortedItems;
        currentPath := path;
      } else {
        error := cannotAccessPath;
        files := [];
      }
    }

    method HandleSelectFolder(item: BrowserItem)
      requires Valid()
      modifies this
      ensures State() == SelectIn(old(State()), item)
    {
      if item.isDirectory {
        pathHistory := pathHistory + [currentPath];
        LoadFiles(item.path);
      }
    }

    method NavigateBack()
      requires Valid()
      modifies this
      ensures State() == BackIn(old(State()))
    {
      if |pathHistory| > 0 {
        var previousPath := pathHistory[|pathHistory| - 1];
        pathHistory := pathHistory[..|pathHistory| - 1];
        LoadFiles(previousPath);
      } else {
        var parentPath := ParentPath(currentPath);
        if parentPath != "" {
          LoadFiles(parentPath);
        }
      }
    }

    /** `getBreadcrumbs()`: the root crumb, then one crumb per non-empty
        segment of the current path, each naming its segment and carrying
        the path up to it. */
    method GetBreadcrumbs() returns (crumbs: seq<Crumb>)
      ensures crumbs == [Crumb("/", "/")] + Trail(Segments(currentPath, '/'))
    {
      var parts := Segments(currentPath, '/');
      var constructedPath := "";
      var breadcrumbs: seq<Crumb> := [];
      var k := 0;
      while k < |parts|
        invariant 0 <= k <= |parts|
        invariant constructedPath == PrefixPath(parts[..k])
        invariant breadcrumbs == Trail(parts[..k])
      {
        PrefixPathStep(parts, k);
        TrailStep(parts, k);
        constructedPath := constructedPath + "/" + parts[k];
        breadcrumbs := breadcrumbs + [Crumb(parts[k], constructedPath)];
        k := k + 1;
      }
      crumbs := [Crumb("/", "/")] + breadcrumbs;
      assert parts[..k] == parts;
    }

    // ---- properties ----

    /** Selecting a file changes nothing; selecting a folder pushes the
        current path and loads the folder. */
    lemma SelectPushesOnlyFolders(s: BrowserState, item: BrowserItem)
      requires Valid()
      ensures !item.isDirectory ==> SelectIn(s, item) == s
      ensures item.isDirectory ==> SelectIn(s, item).pathHistory == s.pathHistory + [s.currentPath]
      ensures item.isDirectory && ListDir(root, item.path).Some? ==> SelectIn(s, item).currentPath == item.path
    {
    }

    /** Back with a history pops its last entry and loads exactly that path. */
    lemma BackPops(s: BrowserState)
      requires Valid() && |s.pathHistory| > 0
      ensures BackIn(s).pathHistory == s.pathHistory[..|s.pathHistory| - 1]
      ensures BackIn(s) == LoadIn(s.(pathHistory := BackIn(s).pathHistory), s.pathHistory[|s.pathHistory| - 1])
    {
    }

    /** Selecting a folder then going back restores the history and, when
        the folder left can still be listed, returns to it with its listing. */
    lemma SelectThenBack(s: BrowserState, item: BrowserItem)
      requires Valid() && item.isDirectory
      ensures BackIn(SelectIn(s, item)).pathHistory == s.pathHistory
      ensures ListDir(root, s.currentPath).Some? ==>
                BackIn(SelectIn(s, item)).currentPath == s.currentPath &&
                BackIn(SelectIn(s, item)).files == Listing(localeLeq, ListDir(root, s.currentPath).value)
    {
      var s1 := SelectIn(s, item);
      assert s1.pathHistory == s.pathHistory + [s.currentPath];
      assert s1.pathHistory[..|s1.pathHistory| - 1] == s.pathHistory;
    }

    /** With no history, back from a top-level folder `/name` finds the
        empty parent and does nothing, so the root is never reached this way. */
    lemma BackFromTopLevelStays(s: BrowserState, name: string)
      requires Valid() && s.pathHistory == [] && '/' !in name
      requires s.currentPath == "/" + name
      ensures BackIn(s) == s
    {
      assert LastIndexOf(s.currentPath, '/') == 0 by {
        assert s.currentPath[0] == '/';
        forall k | 0 < k < |s.currentPath| ensures s.currentPath[k] != '/' {
          assert s.currentPath[k] == name[k - 1];
        }
      }
    }

    /** Each crumb's path extends every earlier one, the root crumb's "/"
        included. */
    lemma CrumbPathsArePrefixes(parts: seq<string>, i: nat, j: nat)
      requires 0 < i <= j <= |parts|
      ensures StartsWith(PrefixPath(parts[..j]), PrefixPath(parts[..i]))
      ensures StartsWith(PrefixPath(parts[..i]), "/")
    {
      PrefixPathGrows(parts, i, j);
      PrefixPathRooted(parts[..i]);
    }
  }
}
