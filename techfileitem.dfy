/** The icon and icon colour of a row in the scan result tree
    (src/components/TechFileItem.tsx). A folder gets a folder icon; a file
    is classified by the first group of extensions its path ends with,
    case-sensitively, and both the icon and the colour follow that group. */
module TechFileItem {
  import opened JsString

  /** The extension groups, in the order the chains test them; `Other`
      is the final `else`. */
  datatype FileKind = Image | Video | Music | Pdf | Word | Excel | PowerPoint | Zip | Other

  /** The position of a group in the chain. */
  function Rank(k: FileKind): nat {
    match k
    case Image => 0
    case Video => 1
    case Music => 2
    case Pdf => 3
    case Word => 4
    case Excel => 5
    case PowerPoint => 6
    case Zip => 7
    case Other => 8
  }

  /** The suffixes tested for each group. */
  function Extensions(k: FileKind): seq<string> {
    match k
    case Image => [".jpg", ".png", ".jpeg", ".gif"]
    case Video => [".mp4", ".avi", ".mov"]
    case Music => [".mp3", ".wav", ".ogg"]
    case Pdf => [".pdf"]
    case Word => [".doc", ".docx"]
    case Excel => [".xls", ".xlsx"]
    case PowerPoint => [".ppt", ".pptx"]
    case Zip => [".zip", ".rar", ".7z"]
    case Other => []
  }

  predicate Matches(path: string, k: FileKind) {
    exists e | e in Extensions(k) :: EndsWith(path, e)
  }

  /** The group the `else if` chain selects: the path ends with one of its
      extensions, and with none of any group tested earlier. Each test is
      the chain's `endsWith(...) || ...` over the group's extensions. */
  function KindOf(path: string): (k: FileKind)
    ensures k != Other ==> Matches(path, k)
    ensures forall g :: Rank(g) < Rank(k) ==> !Matches(path, g)
  {
    if Matches(path, Image) then Image
    else if Matches(path, Video) then Video
    else if Matches(path, Music) then Music
    else if Matches(path, Pdf) then Pdf
    else if Matches(path, Word) then Word
    else if Matches(path, Excel) then Excel
    else if Matches(path, PowerPoint) then PowerPoint
    else if Matches(path, Zip) then Zip
    else Other
  }

  /** `colors.text.secondary` of src/theme/colors.ts. */
  const TEXT_SECONDARY: string := "#BBBBBB"

  const FOLDER_COLOR: string := "#FFD54F"

  function KindIcon(k: FileKind): string {
    match k
    case Image => "file-image"
    case Video => "file-video"
    case Music => "file-music"
    case Pdf => "file-pdf"
    case Word => "file-word"
    case Excel => "file-excel"
    case PowerPoint => "file-powerpoint"
    case Zip => "file-zip"
    case Other => "file-document"
  }

  function KindColor(k: FileKind): string {
    match k
    case Image => "#4CAF50"
    case Video => "#F44336"
    case Music => "#9C27B0"
    case Pdf => "#FF5722"
    case Word => "#2196F3"
    case Excel => "#4CAF50"
    case PowerPoint => "#FF9800"
    case Zip => "#795548"
    case Other => TEXT_SECONDARY
  }

  /** `getFileIcon`: an open or closed folder, else the icon of the
      path's group. */
  function FileIcon(isDirectory: bool, isExpanded: bool, path: string): (icon: string)
    ensures icon == "folder" || icon == "folder-open" <==> isDirectory
    ensures icon == "folder-open" <==> isDirectory && isExpanded
    ensures !isDirectory ==> icon == KindIcon(KindOf(path))
  {
    if isDirectory then (if isExpanded then "folder-open" else "folder")
    else KindIcon(KindOf(path))
  }

  /** `getIconColor`: amber for every folder, else the colour of the
      path's group. */
  function IconColor(isDirectory: bool, path: string): (color: string)
    ensures isDirectory ==> color == FOLDER_COLOR
    ensures !isDirectory ==> color == KindColor(KindOf(path)) && color != FOLDER_COLOR
  {
    if isDirectory then FOLDER_COLOR else KindColor(KindOf(path))
  }

  // ---- properties ----

  /** Each group has its own icon. */
  lemma IconsDistinct(a: FileKind, b: FileKind)
    requires KindIcon(a) == KindIcon(b)
    ensures a == b
  {
    assert KindIcon(a)[5] == KindIcon(b)[5];
  }

  /** The colour is a function of the icon: the two chains test the same
      groups in the same order. */
  lemma ColorFollowsIcon(d1: bool, e1: bool, p1: string, d2: bool, e2: bool, p2: string)
    requires FileIcon(d1, e1, p1) == FileIcon(d2, e2, p2)
    ensures IconColor(d1, p1) == IconColor(d2, p2)
  {
    if !d1 && !d2 {
      IconsDistinct(KindOf(p1), KindOf(p2));
    }
  }

  /** The icon is not a function of the colour: images and spreadsheets
      share green, and no other two groups share a colour. */
  lemma SharedGreen(path: string)
    ensures IconColor(false, path) == "#4CAF50" <==> KindOf(path) == Image || KindOf(path) == Excel
  {
  }

  /** A path whose last character differs from a suffix's last character
      does not end with that suffix. */
  lemma LastCharMismatch(path: string, e: string)
    requires |path| > 0 && |e| > 0 && path[|path| - 1] != e[|e| - 1]
    ensures !EndsWith(path, e)
  {
    if |e| <= |path| {
      assert path[|path| - |e|..][|e| - 1] == path[|path| - 1];
    }
  }

  /** Matching is case-sensitive: a path ending in an upper-case ".JPG"
      gets the default icon and colour. */
  lemma UpperCaseExtensionIsDefault(path: string, isExpanded: bool)
    requires EndsWith(path, ".JPG")
    ensures KindOf(path) == Other
    ensures FileIcon(false, isExpanded, path) == "file-document"
    ensures IconColor(false, path) == TEXT_SECONDARY
  {
    assert path[|path| - 1] == path[|path| - 4..][3] == 'G';
    forall g ensures !Matches(path, g) {
      forall e | e in Extensions(g) ensures !EndsWith(path, e) {
        LastCharMismatch(path, e);
      }
    }
  }

  /** A ".docx" path is a Word document although ".doc" is tested first
      and does not match it. */
  lemma DocxIsWord(path: string, isExpanded: bool)
    requires EndsWith(path, ".docx")
    ensures KindOf(path) == Word
    ensures FileIcon(false, isExpanded, path) == "file-word"
  {
    assert path[|path| - 1] == path[|path| - 5..][4] == 'x';
    assert Matches(path, Word) by {
      assert ".docx" in Extensions(Word);
    }
    forall g | Rank(g) < Rank(Word) ensures !Matches(path, g) {
      forall e | e in Extensions(g) ensures !EndsWith(path, e) {
        LastCharMismatch(path, e);
      }
    }
  }
}
