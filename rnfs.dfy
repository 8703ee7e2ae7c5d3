/** The on-device filesystem as the scanning code sees it through the React
    Native file-system library: a finite tree of entries, each with the
    metadata `readDir` and `stat` report. The tree is acyclic by
    construction; no symbolic links are represented. */
module Rnfs {
  import opened Wrappers
  import opened Sorting
  import opened JsString

  /** One entry. `statOk` says whether `stat` succeeds on a file;
      `readable` whether `readDir` succeeds on a directory. */
  datatype FsNode =
    | File(name: string, size: nat, mtime: string, statOk: bool)
    | Dir(name: string, size: nat, mtime: string, readable: bool, entries: seq<FsNode>)

  /** What `readDir` reports for one entry. `mtime` is the text the
      modification time renders to in a template literal. */
  datatype ReadDirItem = ReadDirItem(name: string, path: string, isDirectory: bool, size: nat, mtime: string)

  /** The folder path as `java.io.File` normalises it: trailing `/`
      characters are dropped, so "/" itself becomes "". */
  function StripTrailingSlashes(dir: string): (r: string)
    ensures |r| <= |dir| && r == dir[..|r|]
    ensures r == [] || r[|r| - 1] != '/'
    ensures forall k :: |r| <= k < |dir| ==> dir[k] == '/'
  {
    if dir != [] && dir[|dir| - 1] == '/' then StripTrailingSlashes(dir[..|dir| - 1]) else dir
  }

  /** The path `readDir` gives a child of `dir`: the child's absolute path,
      the normalised folder path, a `/` and the name ("/storage" for the
      child "storage" of "/"). */
  function ChildPath(dir: string, name: string): (p: string)
    ensures p != ""
    ensures EndsWith(p, "/" + name)
  {
    StripTrailingSlashes(dir) + "/" + name
  }

  /** Dropping trailing slashes keeps the segments. */
  lemma {:induction false} StripKeepsSegments(dir: string)
    ensures Segments(StripTrailingSlashes(dir), '/') == Segments(dir, '/')
    decreases |dir|
  {
    if dir != [] && dir[|dir| - 1] == '/' {
      var init := dir[..|dir| - 1];
      StripKeepsSegments(init);
      assert dir == init + ['/'];
      SegmentsOfTrailing(init, '/');
    }
  }

  /** A child path names the folder's segments and then the child's name. */
  lemma ChildPathSegments(dir: string, name: string)
    requires name != "" && '/' !in name
    ensures Segments(ChildPath(dir, name), '/') == Segments(dir, '/') + [name]
  {
    StripKeepsSegments(dir);
    SegmentsOfChild(StripTrailingSlashes(dir), name, '/');
  }

  /** Listing "/" gives each child the path "/name", with no doubled slash. */
  lemma ChildOfRoot(name: string)
    ensures ChildPath("/", name) == "/" + name
  {
  }

  /** A child of an absolute folder path is absolute. */
  lemma ChildPathRooted(dir: string, name: string)
    requires StartsWith(dir, "/")
    ensures StartsWith(ChildPath(dir, name), "/")
  {
    var t := StripTrailingSlashes(dir);
    if t != [] {
      assert t[0] == dir[0];
    }
  }

  function ItemOf(dir: string, n: FsNode): ReadDirItem {
    ReadDirItem(n.name, ChildPath(dir, n.name), n.Dir?, n.size, n.mtime)
  }

  /** `readDir(path)` on the entry found at `path`: it throws (None) on a
      file or on a directory that cannot be listed. */
  function ReadDir(path: string, n: FsNode): (r: Option<seq<ReadDirItem>>)
    ensures r.Some? <==> n.Dir? && n.readable
    ensures r.Some? ==> |r.value| == |n.entries|
  {
    if n.Dir? && n.readable then Some(Map(n.entries, e => ItemOf(path, e))) else None
  }

  /** `readDir(path)` given the root directory: it throws (None) when the
      path names nothing, a file, or an unlistable directory. */
  function ListDir(root: FsNode, path: string): (r: Option<seq<ReadDirItem>>)
    ensures r.Some? <==> Resolve(root, path).Some? && ReadDir(path, Resolve(root, path).value).Some?
  {
    match Resolve(root, path)
    case None => None
    case Some(n) => ReadDir(path, n)
  }

  /** `stat(path).size`; None when `stat` throws. */
  function StatSize(n: FsNode): Option<nat> {
    if n.File? && !n.statOk then None else Some(n.size)
  }

  /** The first entry called `name`. */
  function Lookup(entries: seq<FsNode>, name: string): (r: Option<FsNode>)
    ensures r.Some? ==> r.value in entries && r.value.name == name
  {
    if entries == [] then None
    else if entries[0].name == name then Some(entries[0])
    else Lookup(entries[1..], name)
  }

  function Walk(n: FsNode, segments: seq<string>): Option<FsNode>
    decreases segments
  {
    if segments == [] then Some(n)
    else if n.File? then None
    else match Lookup(n.entries, segments[0])
      case None => None
      case Some(child) => Walk(child, segments[1..])
  }

  lemma {:induction false} WalkAppend(n: FsNode, segments: seq<string>, name: string)
    ensures Walk(n, segments + [name]) ==
      match Walk(n, segments)
      case None => None
      case Some(m) => if m.File? then None else Lookup(m.entries, name)
    decreases segments
  {
    if segments != [] && n.Dir? {
      assert (segments + [name])[1..] == segments[1..] + [name];
      match Lookup(n.entries, segments[0])
      case None =>
      case Some(child) => WalkAppend(child, segments[1..], name);
    }
  }

  /** The path `readDir` reports for an entry names that entry: resolving it
      looks the name up in the folder. */
  lemma ChildPathResolves(root: FsNode, dir: string, name: string)
    requires StartsWith(dir, "/") && name != "" && '/' !in name
    requires Resolve(root, dir).Some? && Resolve(root, dir).value.Dir?
    ensures Resolve(root, ChildPath(dir, name)) == Lookup(Resolve(root, dir).value.entries, name)
  {
    ChildPathRooted(dir, name);
    ChildPathSegments(dir, name);
    WalkAppend(root, Segments(dir, '/'), name);
  }

  /** The entry an absolute path names, with `root` the directory "/";
      `exists(path)` is `Resolve(root, path).Some?`. */
  function Resolve(root: FsNode, path: string): Option<FsNode> {
    if StartsWith(path, "/") then Walk(root, Segments(path, '/')) else None
  }
}
