/**
 * The classification rule of `move_files`: for a file met by the walk, given
 * the walk root it sits under and its name, decide whether the root is
 * ignored (the file is not counted at all), or the file is skipped, copied to
 * the `stream` bucket, or copied to the `data` bucket.
 *
 * Every match is case-insensitive and works on the whole root string: a table
 * entry matches when it occurs anywhere in the lower-cased root.
 */
module Classification {
  import opened Wrappers

  const StreamExtensions: set<string> :=
    {"yft", "ytd", "ydr", "ydd", "ybn", "ymap", "ytyp",
     "awc", "cut", "rel", "ynv", "ycd", "ynd",
     "ypdb", "ysc", "yvr", "xtd"}

  const DataExtensions: set<string> := {"meta", "xml", "dat"}

  const ImportantFolders: set<string> := {"vehicles", "weapons", "peds", "props"}

  const IgnoreFolders: set<string> :=
    {"audio", "lang", "common.rpf",
     "x64a.rpf", "x64b.rpf", "x64c.rpf", "x64d.rpf", "x64e.rpf", "x64f.rpf", "x64g.rpf",
     "dlc_patch", "update", "platform"}

  /** The container format's own extension. */
  const ContainerExtension: string := "rpf"

  /** ASCII lower-casing of one character. */
  function LowerChar(c: char): char
  {
    if 'A' <= c <= 'Z' then (c as int + 32) as char else c
  }

  /** `s.lower()`, restricted to ASCII letters. */
  function Lower(s: string): (r: string)
    ensures |r| == |s|
  {
    if s == [] then [] else Lower(s[..|s| - 1]) + [LowerChar(s[|s| - 1])]
  }

  /** `Lower` works character by character. */
  lemma {:induction false} LowerAt(s: string)
    ensures forall i :: 0 <= i < |s| ==> Lower(s)[i] == LowerChar(s[i])
  {
    if s != [] {
      LowerAt(s[..|s| - 1]);
    }
  }

  /** `needle` occurs in `haystack` starting at index `i`. */
  predicate OccursAt(haystack: string, needle: string, i: int)
  {
    0 <= i <= |haystack| - |needle| && haystack[i..i + |needle|] == needle
  }

  /** Python's `needle in haystack` on strings. */
  function Contains(haystack: string, needle: string): (r: bool)
    ensures r <==> exists i :: OccursAt(haystack, needle, i)
    decreases |haystack|
  {
    if |needle| > |haystack| then false
    else if haystack[..|needle|] == needle then
      assert OccursAt(haystack, needle, 0);
      true
    else
      var rest := Contains(haystack[1..], needle);
      if rest then
        var i :| OccursAt(haystack[1..], needle, i);
        assert OccursAt(haystack, needle, i + 1) by {
          TailSlice(haystack, i + 1, |needle|);
        }
        true
      else
        assert forall i :: OccursAt(haystack, needle, i) ==> OccursAt(haystack[1..], needle, i - 1) by {
          forall i | OccursAt(haystack, needle, i)
            ensures OccursAt(haystack[1..], needle, i - 1)
          {
            assert i != 0;
            TailSlice(haystack, i, |needle|);
          }
        }
        false
  }

  /** A slice of `s` seen through `s[1..]`. */
  lemma TailSlice(s: string, i: int, n: int)
    requires 1 <= i && 0 <= n && i + n <= |s|
    ensures s[i..i + n] == s[1..][i - 1..i - 1 + n]
  {
    var a, b := s[i..i + n], s[1..][i - 1..i - 1 + n];
    forall k | 0 <= k < n
      ensures a[k] == b[k]
    {
      assert a[k] == s[i + k];
    }
  }

  /** The root contains one of the ignored folder names (line 111). */
  predicate IsIgnoredRoot(root: string)
  {
    exists n :: n in IgnoreFolders && Contains(Lower(root), Lower(n))
  }

  /** The root contains one of the important folder names (line 114). */
  predicate IsImportantRoot(root: string)
  {
    exists n :: n in ImportantFolders && Contains(Lower(root), Lower(n))
  }

  /**
   * `s.split('.')[-1]`: the longest suffix of `s` without a dot, which is all
   * of `s` when `s` has no dot.
   */
  function LastSegment(s: string): (r: string)
    ensures '.' !in r
    ensures |r| <= |s| && r == s[|s| - |r|..]
    ensures |r| < |s| ==> s[|s| - |r| - 1] == '.'
  {
    if s == [] then []
    else if s[|s| - 1] == '.' then []
    else LastSegment(s[..|s| - 1]) + [s[|s| - 1]]
  }

  /** `file.lower().split('.')[-1]` (line 121). */
  function Extension(file: string): string
  {
    LastSegment(Lower(file))
  }

  /** `file.lower().endswith(".rpf")`: the rule that finds nested containers (line 267). */
  predicate IsContainerName(file: string)
  {
    |file| >= 4 && Lower(file)[|file| - 4..] == ".rpf"
  }

  /** What happens to a file under a root that is not ignored. */
  datatype Route = SkipFile | ToStream | ToData

  /** The per-file rule (lines 125-137), given whether the root is important. */
  function RouteOf(important: bool, ext: string): (r: Route)
    ensures r == ToStream <==> ext != ContainerExtension && (important || ext in StreamExtensions)
    ensures r == ToData <==> !important && ext in DataExtensions
    ensures r == SkipFile <==>
      ext == ContainerExtension || (!important && ext !in StreamExtensions && ext !in DataExtensions)
  {
    if ext == ContainerExtension then SkipFile
    else if important || ext in StreamExtensions then ToStream
    else if ext in DataExtensions then ToData
    else SkipFile
  }

  /**
   * The whole decision for one file: `None` when its root is ignored (the file
   * is not counted), otherwise the route.
   */
  function Classify(root: string, file: string): (r: Option<Route>)
    ensures r == None <==> IsIgnoredRoot(root)
    ensures r == Some(SkipFile) <==>
              (!IsIgnoredRoot(root) &&
               (Extension(file) == ContainerExtension ||
                (!IsImportantRoot(root) && Extension(file) !in StreamExtensions && Extension(file) !in DataExtensions)))
    ensures r == Some(ToStream) <==>
              (!IsIgnoredRoot(root) && Extension(file) != ContainerExtension &&
               (IsImportantRoot(root) || Extension(file) in StreamExtensions))
    ensures r == Some(ToData) <==> !IsIgnoredRoot(root) && !IsImportantRoot(root) && Extension(file) in DataExtensions
  {
    if IsIgnoredRoot(root) then None else Some(RouteOf(IsImportantRoot(root), Extension(file)))
  }

  /** The two extension tables are disjoint and neither holds the container extension. */
  lemma TablesDisjoint()
    ensures StreamExtensions !! DataExtensions
    ensures ContainerExtension !in StreamExtensions && ContainerExtension !in DataExtensions
  {
  }

  lemma LowerIdempotent(s: string)
    ensures Lower(Lower(s)) == Lower(s)
  {
  }

  /** Classification depends on the root and the file name only up to letter case. */
  lemma ClassifyCaseInsensitive(root: string, file: string)
    ensures Classify(Lower(root), Lower(file)) == Classify(root, file)
  {
    LowerIdempotent(root);
    LowerIdempotent(file);
  }

  /** A name that the nested-container search picks up has the container extension. */
  lemma ContainerNameExtension(file: string)
    requires IsContainerName(file)
    ensures Extension(file) == ContainerExtension
  {
    var s := Lower(file);
    assert s[|s| - 4..] == ".rpf";
    assert s[|s| - 4] == '.' && s[|s| - 3] == 'r' && s[|s| - 2] == 'p' && s[|s| - 1] == 'f';
  }

  /**
   * A nested container is never copied into either bucket: the `ext == 'rpf'`
   * test (line 125) comes before the stream and data tests.
   */
  lemma ContainersNeverMoved(root: string, file: string)
    requires IsContainerName(file)
    ensures Classify(root, file) == None || Classify(root, file) == Some(SkipFile)
  {
    ContainerNameExtension(file);
  }

  /** A dot-free string is its own last segment. */
  lemma NoDotLastSegment(s: string)
    requires '.' !in s
    ensures LastSegment(s) == s
  {
  }

  /**
   * The skip rule and the nested-container search disagree on a file called
   * `RPF` with no dot: its extension is `rpf`, so it is skipped under every
   * root, yet it does not end in `.rpf`, so it is never decoded either.
   */
  lemma BareContainerWordIsSkippedButNotDiscovered(root: string)
    ensures Extension("RPF") == ContainerExtension
    ensures !IsContainerName("RPF")
    ensures Classify(root, "RPF") == None || Classify(root, "RPF") == Some(SkipFile)
  {
    assert Lower("RPF") == "rpf" by {
      LowerAt("RPF");
    }
    NoDotLastSegment("rpf");
  }
}
