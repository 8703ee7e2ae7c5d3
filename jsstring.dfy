/** The JavaScript string built-ins the core relies on, over `seq<char>`. */
module JsString {

  /** `s.startsWith(p)` */
  predicate StartsWith(s: string, p: string) {
    |p| <= |s| && s[..|p|] == p
  }

  /** `s.endsWith(suffix)`: case-sensitive, on the whole string. */
  predicate EndsWith(s: string, suffix: string) {
    |suffix| <= |s| && s[|s| - |suffix|..] == suffix
  }

  /** `s.lastIndexOf(c)` for a one-character needle: -1 when absent. */
  function LastIndexOf(s: string, c: char): (r: int)
    ensures -1 <= r < |s|
    ensures r >= 0 ==> s[r] == c
    ensures forall k :: r < k < |s| ==> s[k] != c
  {
    if s == [] then -1
    else if s[|s| - 1] == c then |s| - 1
    else LastIndexOf(s[..|s| - 1], c)
  }

  /** `s.substring(0, end)`: a negative end is clamped to 0 and one past
      the length to the length. */
  function SubstringTo(s: string, end: int): (r: string)
    ensures |r| <= |s| && r == s[..|r|]
    ensures |r| == if end <= 0 then 0 else if end >= |s| then |s| else end
  {
    if end <= 0 then "" else if end >= |s| then s else s[..end]
  }

  /** Default `Array.prototype.sort` order on strings: lexicographic on
      characters (each character compared by its code). */
  predicate CodeUnitLeq(a: string, b: string) {
    a == [] || (b != [] && (a[0] < b[0] || (a[0] == b[0] && CodeUnitLeq(a[1..], b[1..]))))
  }

  lemma {:induction false} CodeUnitTotal(a: string, b: string)
    ensures CodeUnitLeq(a, b) || CodeUnitLeq(b, a)
  {
    if a != [] && b != [] && a[0] == b[0] {
      CodeUnitTotal(a[1..], b[1..]);
    }
  }

  lemma {:induction false} CodeUnitTransitive(a: string, b: string, c: string)
    requires CodeUnitLeq(a, b) && CodeUnitLeq(b, c)
    ensures CodeUnitLeq(a, c)
  {
    if a != [] && b != [] && c != [] && a[0] == b[0] && b[0] == c[0] {
      CodeUnitTransitive(a[1..], b[1..], c[1..]);
    }
  }

  lemma {:induction false} CodeUnitAntisymmetric(a: string, b: string)
    requires CodeUnitLeq(a, b) && CodeUnitLeq(b, a)
    ensures a == b
  {
    if a != [] && b != [] {
      CodeUnitAntisymmetric(a[1..], b[1..]);
      assert a == [a[0]] + a[1..];
      assert b == [b[0]] + b[1..];
    }
  }

  /** `parts.join(sep)` */
  function Join(parts: seq<string>, sep: string): string {
    if |parts| == 0 then ""
    else if |parts| == 1 then parts[0]
    else parts[0] + sep + Join(parts[1..], sep)
  }

  /** `s.split(c)` for a one-character separator: `|s.split(c)|` is one
      more than the number of separators, and no piece contains one. */
  function Split(s: string, c: char): (r: seq<string>)
    ensures |r| >= 1
    ensures forall i :: 0 <= i < |r| ==> c !in r[i]
  {
    if s == [] then [""]
    else
      var rest := Split(s[1..], c);
      if s[0] == c then [""] + rest
      else [[s[0]] + rest[0]] + rest[1..]
  }

  /** `s.split(c).filter(p => p)`: the non-empty pieces. */
  function Segments(s: string, c: char): (r: seq<string>)
    ensures forall i :: 0 <= i < |r| ==> r[i] != "" && c !in r[i]
  {
    NonEmpty(Split(s, c))
  }

  function NonEmpty(parts: seq<string>): (r: seq<string>)
    ensures forall i :: 0 <= i < |r| ==> r[i] != "" && r[i] in parts
  {
    if parts == [] then []
    else (if parts[0] != "" then [parts[0]] else []) + NonEmpty(parts[1..])
  }

  /** `split` turns a separator into a piece boundary. */
  lemma {:induction false} SplitAround(x: string, y: string, c: char)
    ensures Split(x + [c] + y, c) == Split(x, c) + Split(y, c)
    decreases |x|
  {
    var s := x + [c] + y;
    if x == [] {
      assert s[1..] == y;
    } else {
      assert s[1..] == x[1..] + [c] + y;
      SplitAround(x[1..], y, c);
    }
  }

  /** A string without the separator splits into itself. */
  lemma {:induction false} SplitWithout(y: string, c: char)
    requires c !in y
    ensures Split(y, c) == [y]
    decreases |y|
  {
    if y != [] {
      SplitWithout(y[1..], c);
      assert y == [y[0]] + y[1..];
    }
  }

  lemma {:induction false} NonEmptyAppend(a: seq<string>, b: seq<string>)
    ensures NonEmpty(a + b) == NonEmpty(a) + NonEmpty(b)
    decreases |a|
  {
    if a != [] {
      var head: seq<string> := if a[0] != "" then [a[0]] else [];
      assert (a + b)[0] == a[0];
      assert (a + b)[1..] == a[1..] + b;
      assert NonEmpty(a + b) == head + NonEmpty(a[1..] + b);
      assert NonEmpty(a) == head + NonEmpty(a[1..]);
      NonEmptyAppend(a[1..], b);
    } else {
      assert a + b == b;
    }
  }

  /** Appending a separator adds no segment. */
  lemma SegmentsOfTrailing(s: string, c: char)
    ensures Segments(s + [c], c) == Segments(s, c)
  {
    assert s + [c] == s + [c] + [];
    SplitAround(s, [], c);
    NonEmptyAppend(Split(s, c), [""]);
  }

  /** Appending a separator and a non-empty piece without one adds that
      piece as the last segment. */
  lemma SegmentsOfChild(s: string, name: string, c: char)
    requires name != "" && c !in name
    ensures Segments(s + [c] + name, c) == Segments(s, c) + [name]
  {
    SplitAround(s, name, c);
    SplitWithout(name, c);
    NonEmptyAppend(Split(s, c), [name]);
  }

  /** Decimal text of a non-negative integer (`${n}` in a template literal). */
  function NatToString(n: nat): (r: string)
    ensures r != []
    ensures forall i :: 0 <= i < |r| ==> '0' <= r[i] <= '9'
  {
    var d := [(('0' as int) + n % 10) as char];
    if n < 10 then d else NatToString(n / 10) + d
  }
}
