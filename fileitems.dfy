/** The sized tree the disk scan produces (the `FileItem` record of
    App.tsx), also the payload of a cache entry. */
module FileItems {

  /** A scanned entry. `children` is empty for a file; for a directory it is
      the scan of that directory. */
  datatype FileItem = FileItem(name: string, path: string, size: nat, isDirectory: bool, children: seq<FileItem>)

  /** `items.reduce((acc, item) => acc + item.size, 0)` */
  function SumSizes(items: seq<FileItem>): nat {
    if items == [] then 0 else items[0].size + SumSizes(items[1..])
  }

  lemma {:induction false} SumSizesAppend(a: seq<FileItem>, b: seq<FileItem>)
    ensures SumSizes(a + b) == SumSizes(a) + SumSizes(b)
  {
    if a == [] {
      assert a + b == b;
    } else {
      assert (a + b)[1..] == a[1..] + b;
      SumSizesAppend(a[1..], b);
    }
  }

  function Names(items: seq<FileItem>): (r: seq<string>)
    ensures |r| == |items|
    ensures forall i :: 0 <= i < |items| ==> r[i] == items[i].name
  {
    seq(|items|, i requires 0 <= i < |items| => items[i].name)
  }
}
