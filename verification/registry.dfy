/**
 * Which comment family a file gets, chosen from its suffix. Two copies of
 * the extension lists exist in the repository: dotted ones used when a
 * header is applied, and bare ones in the older class module.
 */
module Registry {
  import opened Wrappers
  import opened PyStr
  import opened Symbols

  datatype Family = Hash | Star

  function FamilySymbols(f: Family): CommentSymbols {
    match f
    case Hash => HashSymbols
    case Star => StarSymbols
  }

  /** Dotted suffixes of the hash family, in declaration order. */
  const HashExtensions: seq<string> := [
    ".py", ".pyw", ".pyx", ".pxd", ".pxi", ".pyi",
    ".rb", ".rbw",
    ".pl", ".pm", ".t", ".pod",
    ".sh", ".bash", ".ksh", ".csh", ".tcsh", ".zsh",
    ".r", ".R", ".Rmd",
    ".php", ".phtml", ".php4", ".php5", ".php7", ".phps",
    ".lua",
    ".tcl",
    ".yaml", ".yml"
  ]

  /** Dotted suffixes of the star family, in declaration order. */
  const StarExtensions: seq<string> := [
    ".c", ".h",
    ".cpp", ".hpp", ".cc", ".cxx", ".hxx",
    ".cs",
    ".java",
    ".js", ".jsx",
    ".css",
    ".php", ".phtml", ".php4", ".php5", ".php7", ".phps",
    ".swift",
    ".go",
    ".rs",
    ".kt", ".kts",
    ".ts", ".tsx",
    ".sass", ".scss",
    ".less",
    ".scala",
    ".groovy", ".gvy", ".gy", ".gsh"
  ]

  /** The same lists without the leading dot, as the extension maps keep them. */
  const HashExtMap: seq<string> := [
    "py", "pyw", "pyx", "pxd", "pxi", "pyi",
    "rb", "rbw",
    "pl", "pm", "t", "pod",
    "sh", "bash", "ksh", "csh", "tcsh", "zsh",
    "r", "R", "Rmd",
    "php", "phtml", "php4", "php5", "php7", "phps",
    "lua",
    "tcl",
    "yaml", "yml"
  ]

  const StarExtMap: seq<string> := [
    "c", "h",
    "cpp", "hpp", "cc", "cxx", "hxx",
    "cs",
    "java",
    "js", "jsx",
    "css",
    "php", "phtml", "php4", "php5", "php7", "phps",
    "swift",
    "go",
    "rs",
    "kt", "kts",
    "ts", "tsx",
    "sass", "scss",
    "less",
    "scala",
    "groovy", "gvy", "gy", "gsh"
  ]

  function Extensions(f: Family): seq<string> {
    match f
    case Hash => HashExtensions
    case Star => StarExtensions
  }

  function BareExtensions(f: Family): seq<string> {
    match f
    case Hash => HashExtMap
    case Star => StarExtMap
  }

  /** Between `lo` and `hi`, each entry of `d` is the entry of `b` with a dot in front. */
  predicate DottedBetween(d: seq<string>, b: seq<string>, lo: nat, hi: nat) {
    forall i :: lo <= i < hi && i < |d| && i < |b| ==> d[i] == "." + b[i]
  }

  /** The lists, checked a few entries at a time. */
  lemma DottedHashPart0()
    ensures DottedBetween(HashExtensions, HashExtMap, 0, 8)
  {
    forall i | 0 <= i < 8 ensures HashExtensions[i] == "." + HashExtMap[i] {}
  }

  lemma DottedHashPart1()
    ensures DottedBetween(HashExtensions, HashExtMap, 8, 16)
  {
    forall i | 8 <= i < 16 ensures HashExtensions[i] == "." + HashExtMap[i] {}
  }

  lemma DottedHashPart2()
    ensures DottedBetween(HashExtensions, HashExtMap, 16, 24)
  {
    forall i | 16 <= i < 24 ensures HashExtensions[i] == "." + HashExtMap[i] {}
  }

  lemma DottedHashPart3()
    ensures DottedBetween(HashExtensions, HashExtMap, 24, 31)
  {
    forall i | 24 <= i < 31 ensures HashExtensions[i] == "." + HashExtMap[i] {}
  }

  lemma DottedStarPart0()
    ensures DottedBetween(StarExtensions, StarExtMap, 0, 9)
  {
    forall i | 0 <= i < 9 ensures StarExtensions[i] == "." + StarExtMap[i] {}
  }

  lemma DottedStarPart1()
    ensures DottedBetween(StarExtensions, StarExtMap, 9, 17)
  {
    forall i | 9 <= i < 17 ensures StarExtensions[i] == "." + StarExtMap[i] {}
  }

  lemma DottedStarPart2()
    ensures DottedBetween(StarExtensions, StarExtMap, 17, 25)
  {
    forall i | 17 <= i < 25 ensures StarExtensions[i] == "." + StarExtMap[i] {}
  }

  lemma DottedStarPart3()
    ensures DottedBetween(StarExtensions, StarExtMap, 25, 33)
  {
    forall i | 25 <= i < 33 ensures StarExtensions[i] == "." + StarExtMap[i] {}
  }

  /** Each dotted suffix of the `#` family is its bare suffix with a dot in front. */
  lemma DottedHash()
    ensures |HashExtensions| == |HashExtMap|
    ensures forall i :: 0 <= i < |HashExtensions| ==> HashExtensions[i] == "." + HashExtMap[i]
  {
    assert |HashExtensions| == |HashExtMap| == 31;
    DottedHashPart0();
    DottedHashPart1();
    DottedHashPart2();
    DottedHashPart3();
  }

  /** Each dotted suffix of the block-comment family is its bare suffix with a dot in front. */
  lemma DottedStar()
    ensures |StarExtensions| == |StarExtMap|
    ensures forall i :: 0 <= i < |StarExtensions| ==> StarExtensions[i] == "." + StarExtMap[i]
  {
    assert |StarExtensions| == |StarExtMap| == 33;
    DottedStarPart0();
    DottedStarPart1();
    DottedStarPart2();
    DottedStarPart3();
  }

  /** The dotted and the bare lists name the same suffixes in the same order, so a
      lookup normalised by adding the dot agrees with a lookup of the dotted list. */
  lemma DottedAgreesWithBare(f: Family)
    ensures |Extensions(f)| == |BareExtensions(f)|
    ensures forall i :: 0 <= i < |Extensions(f)| ==> Extensions(f)[i] == "." + BareExtensions(f)[i]
  {
    match f
    case Hash => DottedHash();
    case Star => DottedStar();
  }

  /** Index of the last dot of `name`, or -1 (`str.rfind('.')`). */
  function LastDot(name: string): (i: int)
    ensures -1 <= i < |name|
    ensures i >= 0 ==> name[i] == '.'
    ensures forall j :: i < j < |name| ==> name[j] != '.'
  {
    if |name| == 0 then -1
    else if name[|name| - 1] == '.' then |name| - 1
    else LastDot(name[..|name| - 1])
  }

  /** `Path.suffix` of a file name: from the last dot on, provided that dot is neither
      the first nor the last character; otherwise empty. */
  function Suffix(name: string): (r: string)
    ensures r != "" <==> exists i :: 0 < i < |name| - 1 && name[i] == '.' && NoDotAfter(name, i)
    ensures r != "" ==> |r| >= 2 && r[0] == '.' && EndsWith(name, r) && NoDotAfter(r, 0)
  {
    var i := LastDot(name);
    if 0 < i < |name| - 1 then
      assert NoDotAfter(name, i);
      name[i..]
    else
      assert forall k :: 0 < k < |name| - 1 && name[k] == '.' ==> !NoDotAfter(name, k) by {
        forall k | 0 < k < |name| - 1 && name[k] == '.'
          ensures !NoDotAfter(name, k)
        {
          assert i >= k;
          assert i != k;
          assert name[i] == '.';
        }
      }
      ""
  }

  predicate NoDotAfter(s: string, i: nat) {
    forall j :: i < j < |s| ==> s[j] != '.'
  }

  /** Index of the last family in `fs` whose suffix list contains `suffix`: the routing
      loop assigns on every match and never breaks, so later families win. */
  function LastMatch(lists: seq<seq<string>>, suffix: string): (r: Option<nat>)
    ensures r.Some? ==> r.value < |lists| && suffix in lists[r.value]
    ensures r.Some? ==> forall j :: r.value < j < |lists| ==> suffix !in lists[j]
    ensures r.None? ==> forall j :: 0 <= j < |lists| ==> suffix !in lists[j]
  {
    if |lists| == 0 then None
    else if suffix in lists[|lists| - 1] then Some(|lists| - 1)
    else LastMatch(lists[..|lists| - 1], suffix)
  }

  /** The suffix lists of a sequence of families. */
  function ListsOf(fs: seq<Family>): (r: seq<seq<string>>)
    ensures |r| == |fs| && forall i :: 0 <= i < |fs| ==> r[i] == Extensions(fs[i])
  {
    seq(|fs|, i requires 0 <= i < |fs| => Extensions(fs[i]))
  }

  /** Headers are rendered star first, then hash. */
  const RenderOrder: seq<Family> := [Star, Hash]

  /** With that order a suffix routes to the hash family whenever the hash list has it,
      to the star family when only the star list has it, and nowhere otherwise. */
  lemma {:induction false} RoutingInRenderOrder(suffix: string)
    ensures suffix in HashExtensions ==> LastMatch(ListsOf(RenderOrder), suffix) == Some(1)
    ensures suffix !in HashExtensions && suffix in StarExtensions ==> LastMatch(ListsOf(RenderOrder), suffix) == Some(0)
    ensures suffix !in HashExtensions && suffix !in StarExtensions ==> LastMatch(ListsOf(RenderOrder), suffix) == None
  {
    var lists := ListsOf(RenderOrder);
    assert lists[0] == StarExtensions && lists[1] == HashExtensions;
    var r := LastMatch(lists, suffix);
  }

  /** The PHP suffixes belong to both families and therefore route to the hash family. */
  lemma PhpRoutesToHash()
    ensures ".php" in HashExtensions && ".php" in StarExtensions
    ensures LastMatch(ListsOf(RenderOrder), ".php") == Some(1)
  {
    RoutingInRenderOrder(".php");
  }
}
