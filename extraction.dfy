/**
 * `extract_rpf_recursive` (lines 183-301): run the decoder on one container,
 * pick the directory it extracted into, consolidate that tree into the
 * buckets, then decode every nested container found anywhere in the tree,
 * merging each successful nested tally and collecting the containers whose
 * contents reached a bucket. The optional prune step of `extraction_thread`
 * (lines 489-507) is modelled at the end.
 *
 * Nesting is a finite tree: a nested container's decoder outcome is part of
 * the `SourceFile` that holds it, so every recursive call works on a strictly
 * smaller `Decoding` value.
 */
module Extraction {
  import opened Wrappers
  import opened FileSystem
  import opened Classification
  import opened Naming
  import opened Consolidation

  const TimeoutMessage: string := "Extraction timed out (5 minutes limit)"
  const ExitFailurePrefix: string := "Extraction failed:\n"
  const ToolMissingMessage: string := "Extraction tool not found. Please check the tool path."
  const UnexpectedPrefix: string := "Unexpected error during extraction: "
  const NoContentMessage: string :=
    "No extracted content found. The RPF file may be empty or in an unsupported format."

  /**
   * What `extract_rpf_recursive` returns: `(None, message, [])` or
   * `(moved_files, None, successfully_extracted_rpfs)`.
   */
  datatype Outcome = Failed(message: string) | Extracted(tally: Tally, absorbed: seq<Path>)

  /**
   * The error return for a decoder outcome (lines 218-226): none exactly when
   * the decoder ran to completion. A non-zero exit reports the decoded
   * standard error when the raw bytes are non-empty (even if they decode to
   * nothing), else the exception's own text.
   */
  function DecoderError(d: Decoding): (r: Option<string>)
    ensures r.None? <==> d.Ran?
    ensures d.TimedOut? ==> r == Some(TimeoutMessage)
    ensures d.ToolMissing? ==> r == Some(ToolMissingMessage)
    ensures d.ExitFailure? ==> r.Some? && |ExitFailurePrefix| <= |r.value| &&
                               r.value[..|ExitFailurePrefix|] == ExitFailurePrefix &&
                               r.value[|ExitFailurePrefix|..] == (if d.stderr != [] then d.decodedStderr else d.description)
    ensures d.Crashed? ==> r.Some? && |UnexpectedPrefix| <= |r.value| &&
                           r.value[..|UnexpectedPrefix|] == UnexpectedPrefix &&
                           r.value[|UnexpectedPrefix|..] == d.reason
  {
    match d
    case TimedOut => Some(TimeoutMessage)
    case ExitFailure(stderr, decodedStderr, description) =>
      Some(ExitFailurePrefix + if stderr != [] then decodedStderr else description)
    case ToolMissing => Some(ToolMissingMessage)
    case Crashed(reason) => Some(UnexpectedPrefix + reason)
    case Ran(_) => None
  }

  /** The directory the decoder is expected to extract into (lines 189-192). */
  function ExtractionDirName(name: string, nested: bool): string
  {
    if nested then "_temp_" + name + "_extract" else "dlc"
  }

  /** `possible_dirs` (lines 229-233), as names inside the container's own directory. */
  function Candidates(name: string, nested: bool): seq<string>
  {
    [ExtractionDirName(name, nested), "dlc", SplitExt(name).0]
  }

  /** `os.path.exists` on a name inside a listed directory: the first item with that name. */
  function Lookup(listing: seq<Entry>, name: string): (r: Option<nat>)
    ensures r.Some? ==> r.value < |listing| && listing[r.value].name == name &&
                        forall i :: 0 <= i < r.value ==> listing[i].name != name
    ensures r.None? ==> forall i :: 0 <= i < |listing| ==> listing[i].name != name
  {
    if listing == [] then None
    else if listing[0].name == name then Some(0)
    else
      match Lookup(listing[1..], name)
      case None => None
      case Some(i) => Some(i + 1)
  }

  /** The fallback scan (lines 240-246) accepts a subdirectory not named `stream` or `data`. */
  predicate IsFallback(e: Entry)
  {
    e.isDir && e.name != "stream" && e.name != "data"
  }

  /**
   * The base directory chosen from a listing of the container's directory:
   * the first candidate that exists, else the first fallback subdirectory,
   * else nothing.
   */
  function SelectBase(listing: seq<Entry>, candidates: seq<string>): (r: Option<Entry>)
    ensures r.Some? ==> r.value in listing
    ensures (exists c :: 0 <= c < |candidates| && Lookup(listing, candidates[c]).Some?) ==>
              exists c :: 0 <= c < |candidates| && Lookup(listing, candidates[c]).Some? &&
                          (forall c' :: 0 <= c' < c ==> Lookup(listing, candidates[c']).None?) &&
                          r == Some(listing[Lookup(listing, candidates[c]).value])
    ensures (forall c :: 0 <= c < |candidates| ==> Lookup(listing, candidates[c]).None?) ==>
              (r.None? <==> forall i :: 0 <= i < |listing| ==> !IsFallback(listing[i])) &&
              (r.Some? ==> exists i :: 0 <= i < |listing| && r.value == listing[i] && IsFallback(listing[i]) &&
                                       forall i' :: 0 <= i' < i ==> !IsFallback(listing[i']))
  {
    match FirstCandidate(listing, candidates)
    case Some(e) => Some(e)
    case None => FirstFallback(listing)
  }

  /** The first candidate that exists in the listing (the loop of lines 235-238). */
  function FirstCandidate(listing: seq<Entry>, candidates: seq<string>): (r: Option<Entry>)
    ensures r.Some? ==> r.value in listing
    ensures r.None? <==> forall c :: 0 <= c < |candidates| ==> Lookup(listing, candidates[c]).None?
    ensures r.Some? ==>
              exists c :: 0 <= c < |candidates| && Lookup(listing, candidates[c]).Some? &&
                          (forall c' :: 0 <= c' < c ==> Lookup(listing, candidates[c']).None?) &&
                          r == Some(listing[Lookup(listing, candidates[c]).value])
  {
    if candidates == [] then None
    else
      match Lookup(listing, candidates[0])
      case Some(i) => Some(listing[i])
      case None =>
        var r := FirstCandidate(listing, candidates[1..]);
        if r.Some? then
          var c :| 0 <= c < |candidates| - 1 && Lookup(listing, candidates[1..][c]).Some? &&
                   (forall c' :: 0 <= c' < c ==> Lookup(listing, candidates[1..][c']).None?) &&
                   r == Some(listing[Lookup(listing, candidates[1..][c]).value]);
          assert forall c' :: 0 <= c' < c + 1 ==> Lookup(listing, candidates[c']).None? by {
            forall c' | 0 <= c' < c + 1 ensures Lookup(listing, candidates[c']).None? {
              if c' > 0 {
                assert candidates[c'] == candidates[1..][c' - 1];
              }
            }
          }
          r
        else
          assert forall c :: 0 <= c < |candidates| ==> Lookup(listing, candidates[c]).None? by {
            forall c | 0 <= c < |candidates| ensures Lookup(listing, candidates[c]).None? {
              if c > 0 {
                assert candidates[c] == candidates[1..][c - 1];
              }
            }
          }
          r
  }

  /** The first subdirectory accepted by the fallback scan. */
  function FirstFallback(listing: seq<Entry>): (r: Option<Entry>)
    ensures r.None? <==> forall i :: 0 <= i < |listing| ==> !IsFallback(listing[i])
    ensures r.Some? ==> exists i :: 0 <= i < |listing| && r.value == listing[i] && IsFallback(listing[i]) &&
                                    forall i' :: 0 <= i' < i ==> !IsFallback(listing[i'])
  {
    if listing == [] then None
    else if IsFallback(listing[0]) then Some(listing[0])
    else
      var r := FirstFallback(listing[1..]);
      assert forall i :: 0 < i < |listing| ==> listing[i] == listing[1..][i - 1];
      r
  }

  /** A nested container found by the walk of lines 264-268, with the root it sits under. */
  datatype Discovered = Discovered(root: string, file: SourceFile)

  /** The containers among the files of one root, in order. */
  function ContainersAmong(root: string, files: seq<SourceFile>): (r: seq<Discovered>)
    ensures forall x :: x in r ==> x.root == root && x.file in files && IsContainerName(x.file.name)
    ensures forall f :: f in files && IsContainerName(f.name) ==> Discovered(root, f) in r
  {
    if files == [] then []
    else
      var f := files[|files| - 1];
      ContainersAmong(root, files[..|files| - 1]) + if IsContainerName(f.name) then [Discovered(root, f)] else []
  }

  /**
   * `nested_rpfs`: every file of the tree whose name ends in `.rpf` in any
   * letter case, in walk order. Unlike `move_files`, the search does not
   * consult the ignore table.
   */
  function NestedContainers(walk: seq<WalkStep>): (r: seq<Discovered>)
    ensures forall x :: x in r ==>
              IsContainerName(x.file.name) && exists i :: 0 <= i < |walk| && x.root == walk[i].root && x.file in walk[i].files
    ensures forall i, f :: 0 <= i < |walk| && f in walk[i].files && IsContainerName(f.name) ==>
                             Discovered(walk[i].root, f) in r
  {
    if walk == [] then []
    else
      var step := walk[|walk| - 1];
      var r := NestedContainers(walk[..|walk| - 1]) + ContainersAmong(step.root, step.files);
      assert forall i :: 0 <= i < |walk| - 1 ==> walk[..|walk| - 1][i] == walk[i];
      r
  }

  /** The path `os.path.join(root, f)` of a discovered container. */
  function PathOf(x: Discovered): Path
  {
    Path(x.root, x.file.name)
  }

  /** Every container found in an item of a decoder listing is a strictly smaller decoding. */
  lemma DiscoveredSmaller(d: Decoding, e: Entry)
    requires d.Ran? && e in d.parent
    ensures forall x :: x in NestedContainers(TreeOf(e)) ==> (d decreases to x.file.decoded)
  {
    var walk := TreeOf(e);
    forall x | x in NestedContainers(walk) ensures (d decreases to x.file.decoded) {
      var i :| 0 <= i < |walk| && x.root == walk[i].root && x.file in walk[i].files;
      var k :| 0 <= k < |d.parent| && d.parent[k] == e;
      var j :| 0 <= j < |walk[i].files| && walk[i].files[j] == x.file;
    }
  }

  /**
   * The whole of `extract_rpf_recursive` on the buckets `b`, for the container
   * at `rpf` whose decoder outcome is `d`: the buckets afterwards and the
   * return value. Every error return leaves the buckets as they were; the top
   * level empties them before consolidating.
   */
  function Extract(b: Buckets, rpf: Path, d: Decoding, nested: bool): (r: (Buckets, Outcome))
    ensures r.1.Failed? ==> r.0 == b
    ensures r.1.Failed? <==> (d.Ran? ==> SelectBase(d.parent, Candidates(rpf.name, nested)).None?)
    decreases d, 1
  {
    match d
    case Ran(parent) =>
      (match SelectBase(parent, Candidates(rpf.name, nested))
       case None => (b, Failed(NoContentMessage))
       case Some(e) =>
         var walk := TreeOf(e);
         var m := MoveFilesResult(if nested then b else Buckets(map[], map[]), walk);
         DiscoveredSmaller(d, e);
         var merged := MergeNested(d, m.buckets, m.tally, NestedContainers(walk));
         (merged.buckets, Extracted(merged.tally, merged.absorbed)))
    case _ => (b, Failed(DecoderError(d).value))
  }

  /** The state of the nested loop: the buckets, `moved_files` and `successfully_extracted_rpfs`. */
  datatype Merge = Merge(buckets: Buckets, tally: Tally, absorbed: seq<Path>)

  /**
   * One nested container handled by the loop of lines 273-292: its recursive
   * extraction runs on the shared buckets; a success adds its tally field-wise
   * and, when it moved anything, records the container followed by its own
   * absorbed list; a failure adds nothing.
   */
  function MergeOne(acc: Merge, x: Discovered, sub: (Buckets, Outcome)): (r: Merge)
    ensures r.buckets == sub.0 && acc.absorbed <= r.absorbed
    ensures sub.1.Failed? ==> r == acc.(buckets := sub.0)
    ensures sub.1.Extracted? ==> r.tally.stream == acc.tally.stream + sub.1.tally.stream
    ensures sub.1.Extracted? ==> r.tally.data == acc.tally.data + sub.1.tally.data
    ensures sub.1.Extracted? ==> r.tally.skipped == acc.tally.skipped + sub.1.tally.skipped
    ensures sub.1.Extracted? ==> r.tally.Total() == acc.tally.Total() + sub.1.tally.Total()
    ensures sub.1.Extracted? ==>
              r.absorbed == acc.absorbed + if sub.1.tally.stream > 0 || sub.1.tally.data > 0
                                           then [PathOf(x)] + sub.1.absorbed else []
    ensures sub.1.Extracted? ==>
              (|r.absorbed| > |acc.absorbed| <==> sub.1.tally.stream > 0 || sub.1.tally.data > 0)
    ensures |r.absorbed| > |acc.absorbed| ==> r.absorbed[|acc.absorbed|] == PathOf(x)
  {
    match sub.1
    case Failed(_) => acc.(buckets := sub.0)
    case Extracted(t, absorbed) =>
      Merge(sub.0, acc.tally.Add(t),
            if t.stream > 0 || t.data > 0 then acc.absorbed + [PathOf(x)] + absorbed else acc.absorbed)
  }

  /** The loop over `nested_rpfs`, starting from the state left by `move_files`. */
  function MergeNested(ghost parent: Decoding, b: Buckets, t: Tally, found: seq<Discovered>): (r: Merge)
    requires forall x :: x in found ==> (parent decreases to x.file.decoded)
    decreases parent, 0, |found|
  {
    if found == [] then Merge(b, t, [])
    else
      var x := found[|found| - 1];
      var acc := MergeNested(parent, b, t, found[..|found| - 1]);
      MergeOne(acc, x, Extract(acc.buckets, PathOf(x), x.file.decoded, true))
  }

  /**
   * What `extract_rpf_recursive` returns, computed from the decoder outcomes
   * alone, with no buckets: the tally adds up the nested results field by
   * field, and the absorbed list is a pre-order of the nesting tree in which
   * each nested container that moved something is followed by its own
   * absorbed containers, in discovery order.
   */
  function ExtractOutcome(rpf: Path, d: Decoding, nested: bool): Outcome
    decreases d, 1
  {
    match d
    case Ran(parent) =>
      (match SelectBase(parent, Candidates(rpf.name, nested))
       case None => Failed(NoContentMessage)
       case Some(e) =>
         var walk := TreeOf(e);
         DiscoveredSmaller(d, e);
         var (t, absorbed) := MergeOutcomes(d, MoveFilesTally(walk), NestedContainers(walk));
         Extracted(t, absorbed))
    case _ => Failed(DecoderError(d).value)
  }

  /** The nested loop's tally and absorbed list, with no buckets. */
  function MergeOutcomes(ghost parent: Decoding, t: Tally, found: seq<Discovered>): (Tally, seq<Path>)
    requires forall x :: x in found ==> (parent decreases to x.file.decoded)
    decreases parent, 0, |found|
  {
    if found == [] then (t, [])
    else
      var x := found[|found| - 1];
      var (t', absorbed) := MergeOutcomes(parent, t, found[..|found| - 1]);
      match ExtractOutcome(PathOf(x), x.file.decoded, true)
      case Failed(_) => (t', absorbed)
      case Extracted(s, sub) =>
        (t'.Add(s), if s.stream > 0 || s.data > 0 then absorbed + [PathOf(x)] + sub else absorbed)
  }

  /** `Extract` returns exactly the bucket-free outcome, at every depth. */
  lemma {:induction false} ExtractOutcomeAgrees(b: Buckets, rpf: Path, d: Decoding, nested: bool)
    ensures Extract(b, rpf, d, nested).1 == ExtractOutcome(rpf, d, nested)
    decreases d, 1
  {
    if d.Ran? {
      match SelectBase(d.parent, Candidates(rpf.name, nested))
      case None =>
      case Some(e) =>
        var walk := TreeOf(e);
        var start := if nested then b else Buckets(map[], map[]);
        var m := MoveFilesResult(start, walk);
        DiscoveredSmaller(d, e);
        MoveFilesTallyOf(start, walk);
        MergeOutcomesAgree(d, m.buckets, m.tally, NestedContainers(walk));
    }
  }

  /** The nested loop's tally and absorbed list are exactly the bucket-free ones. */
  lemma {:induction false} MergeOutcomesAgree(parent: Decoding, b: Buckets, t: Tally, found: seq<Discovered>)
    requires forall x :: x in found ==> (parent decreases to x.file.decoded)
    ensures var m := MergeNested(parent, b, t, found);
            (m.tally, m.absorbed) == MergeOutcomes(parent, t, found)
    decreases parent, 0, |found|
  {
    if found != [] {
      var init := found[..|found| - 1];
      var x := found[|found| - 1];
      MergeOutcomesAgree(parent, b, t, init);
      var acc := MergeNested(parent, b, t, init);
      ExtractOutcomeAgrees(acc.buckets, PathOf(x), x.file.decoded, true);
    }
  }

  /**
   * What an extraction returns, nested or not, does not depend on the buckets
   * it starts from: only the decoder outcomes and the walks decide it.
   */
  lemma OutcomeIgnoresBuckets(b1: Buckets, b2: Buckets, rpf: Path, d: Decoding, nested: bool)
    ensures Extract(b1, rpf, d, nested).1 == Extract(b2, rpf, d, nested).1
  {
    ExtractOutcomeAgrees(b1, rpf, d, nested);
    ExtractOutcomeAgrees(b2, rpf, d, nested);
  }

  /**
   * The top level empties the buckets before consolidating, so what it returns,
   * and on success the buckets it leaves, do not depend on the buckets it
   * started from.
   */
  lemma TopLevelIgnoresPriorBuckets(b1: Buckets, b2: Buckets, rpf: Path, d: Decoding)
    ensures Extract(b1, rpf, d, false).1 == Extract(b2, rpf, d, false).1
    ensures Extract(b1, rpf, d, false).1.Extracted? ==> Extract(b1, rpf, d, false).0 == Extract(b2, rpf, d, false).0
  {
  }

  /** `move_files` as a whole: each bucket gains at least one entry per move counted there. */
  lemma MoveFilesGrowth(b: Buckets, walk: seq<WalkStep>)
    ensures var m := MoveFilesResult(b, walk);
      && |m.buckets.stream| - |b.stream| >= m.tally.stream
      && |m.buckets.data| - |b.data| >= m.tally.data
  {
    if TotalFiles(walk) != 0 {
      ConsolidateGrowth(Moved(b, NoMoves), walk);
    }
  }

  /** `move_files` never overwrites or removes a file already in a bucket. */
  lemma MoveFilesKeeps(b: Buckets, walk: seq<WalkStep>)
    ensures KeepsBoth(b, MoveFilesResult(b, walk).buckets)
  {
    if TotalFiles(walk) != 0 {
      ConsolidateKeeps(Moved(b, NoMoves), walk);
    }
  }

  /**
   * A nested extraction, and with it the whole nested loop, never overwrites
   * or removes a file that an earlier step placed in a bucket.
   */
  lemma {:induction false} NestedExtractKeeps(b: Buckets, rpf: Path, d: Decoding)
    ensures KeepsBoth(b, Extract(b, rpf, d, true).0)
    decreases d, 1
  {
    if d.Ran? {
      match SelectBase(d.parent, Candidates(rpf.name, true))
      case None =>
      case Some(e) =>
        var walk := TreeOf(e);
        var m := MoveFilesResult(b, walk);
        MoveFilesKeeps(b, walk);
        DiscoveredSmaller(d, e);
        var merged := MergeNested(d, m.buckets, m.tally, NestedContainers(walk));
        assert Extract(b, rpf, d, true).0 == merged.buckets;
        MergeKeeps(d, m.buckets, m.tally, NestedContainers(walk));
    }
  }

  lemma {:induction false} MergeKeeps(parent: Decoding, b: Buckets, t: Tally, found: seq<Discovered>)
    requires forall x :: x in found ==> (parent decreases to x.file.decoded)
    ensures KeepsBoth(b, MergeNested(parent, b, t, found).buckets)
    decreases parent, 0, |found|
  {
    if found != [] {
      var x := found[|found| - 1];
      var acc := MergeNested(parent, b, t, found[..|found| - 1]);
      MergeKeeps(parent, b, t, found[..|found| - 1]);
      NestedExtractKeeps(acc.buckets, PathOf(x), x.file.decoded);
    }
  }

  /** Every absorbed container's name ends in `.rpf`, at every depth. */
  lemma {:induction false} AbsorbedAreContainers(b: Buckets, rpf: Path, d: Decoding, nested: bool)
    ensures Extract(b, rpf, d, nested).1.Extracted? ==>
              forall p :: p in Extract(b, rpf, d, nested).1.absorbed ==> IsContainerName(p.name)
    decreases d, 1
  {
    if d.Ran? {
      match SelectBase(d.parent, Candidates(rpf.name, nested))
      case None =>
      case Some(e) =>
        var walk := TreeOf(e);
        var m := MoveFilesResult(if nested then b else Buckets(map[], map[]), walk);
        DiscoveredSmaller(d, e);
        MergeAbsorbedAreContainers(d, m.buckets, m.tally, NestedContainers(walk));
    }
  }

  lemma {:induction false} MergeAbsorbedAreContainers(parent: Decoding, b: Buckets, t: Tally, found: seq<Discovered>)
    requires forall x :: x in found ==> (parent decreases to x.file.decoded)
    requires forall x :: x in found ==> IsContainerName(x.file.name)
    ensures forall p :: p in MergeNested(parent, b, t, found).absorbed ==> IsContainerName(p.name)
    decreases parent, 0, |found|
  {
    if found != [] {
      var x := found[|found| - 1];
      var acc := MergeNested(parent, b, t, found[..|found| - 1]);
      MergeAbsorbedAreContainers(parent, b, t, found[..|found| - 1]);
      AbsorbedAreContainers(acc.buckets, PathOf(x), x.file.decoded, true);
    }
  }

  /** `MergeNested` over one more container of the same list. */
  lemma MergeSnoc(parent: Decoding, b: Buckets, t: Tally, found: seq<Discovered>, k: nat)
    requires k < |found|
    requires forall x :: x in found ==> (parent decreases to x.file.decoded)
    ensures var acc := MergeNested(parent, b, t, found[..k]);
            MergeNested(parent, b, t, found[..k + 1]) ==
              MergeOne(acc, found[k], Extract(acc.buckets, PathOf(found[k]), found[k].file.decoded, true))
  {
    assert found[..k + 1][..k] == found[..k];
  }

  /**
   * The nested loop only adds to the tally, and a container is recorded as
   * absorbed only when its own extraction moved something to a bucket, so a
   * non-empty absorbed list means the stream and data counters rose.
   */
  lemma {:induction false} MergeAbsorbedMeansMoves(parent: Decoding, b: Buckets, t: Tally, found: seq<Discovered>)
    requires forall x :: x in found ==> (parent decreases to x.file.decoded)
    ensures var r := MergeNested(parent, b, t, found);
      && r.tally.stream >= t.stream && r.tally.data >= t.data && r.tally.skipped >= t.skipped
      && (r.absorbed != [] ==> r.tally.stream + r.tally.data > t.stream + t.data)
  {
    if found != [] {
      MergeAbsorbedMeansMoves(parent, b, t, found[..|found| - 1]);
    }
  }

  /** A successful extraction that absorbed a container moved something to a bucket. */
  lemma AbsorbedMeansMoves(b: Buckets, rpf: Path, d: Decoding, nested: bool)
    ensures var r := Extract(b, rpf, d, nested);
      r.1.Extracted? && r.1.absorbed != [] ==> r.1.tally.stream > 0 || r.1.tally.data > 0
  {
    if d.Ran? {
      match SelectBase(d.parent, Candidates(rpf.name, nested))
      case None =>
      case Some(e) =>
        var walk := TreeOf(e);
        var m := MoveFilesResult(if nested then b else Buckets(map[], map[]), walk);
        DiscoveredSmaller(d, e);
        MergeAbsorbedMeansMoves(d, m.buckets, m.tally, NestedContainers(walk));
    }
  }

  /**
   * Bucket growth through the recursion: the buckets that a successful
   * extraction consolidated into gain at least one entry per file counted as
   * moved, nested moves included.
   */
  lemma {:induction false} ExtractGrowth(b: Buckets, rpf: Path, d: Decoding, nested: bool)
    ensures var r := Extract(b, rpf, d, nested);
            var b0 := if nested then b else Buckets(map[], map[]);
      r.1.Extracted? ==>
        && |r.0.stream| - |b0.stream| >= r.1.tally.stream
        && |r.0.data| - |b0.data| >= r.1.tally.data
    decreases d, 1
  {
    if d.Ran? {
      match SelectBase(d.parent, Candidates(rpf.name, nested))
      case None =>
      case Some(e) =>
        var walk := TreeOf(e);
        var b0 := if nested then b else Buckets(map[], map[]);
        var m := MoveFilesResult(b0, walk);
        MoveFilesGrowth(b0, walk);
        DiscoveredSmaller(d, e);
        var merged := MergeNested(d, m.buckets, m.tally, NestedContainers(walk));
        assert Extract(b, rpf, d, nested) == (merged.buckets, Extracted(merged.tally, merged.absorbed));
        MergeGrowth(d, m.buckets, m.tally, NestedContainers(walk));
    }
  }

  lemma {:induction false} MergeGrowth(parent: Decoding, b: Buckets, t: Tally, found: seq<Discovered>)
    requires forall x :: x in found ==> (parent decreases to x.file.decoded)
    ensures var r := MergeNested(parent, b, t, found);
      && |r.buckets.stream| - |b.stream| >= r.tally.stream - t.stream
      && |r.buckets.data| - |b.data| >= r.tally.data - t.data
    decreases parent, 0, |found|
  {
    if found != [] {
      var x := found[|found| - 1];
      var acc := MergeNested(parent, b, t, found[..|found| - 1]);
      MergeGrowth(parent, b, t, found[..|found| - 1]);
      ExtractGrowth(acc.buckets, PathOf(x), x.file.decoded, true);
    }
  }

  /**
   * No bucket ever holds a name with the container extension after a
   * successful extraction: the top level starts from empty buckets, and a
   * nested one from buckets that hold none.
   */
  lemma {:induction false} ExtractNoContainer(b: Buckets, rpf: Path, d: Decoding, nested: bool)
    requires nested ==> NoContainersInBuckets(b)
    ensures Extract(b, rpf, d, nested).1.Extracted? ==> NoContainersInBuckets(Extract(b, rpf, d, nested).0)
    decreases d, 1
  {
    if d.Ran? {
      match SelectBase(d.parent, Candidates(rpf.name, nested))
      case None =>
      case Some(e) =>
        var walk := TreeOf(e);
        var b0 := if nested then b else Buckets(map[], map[]);
        var m := MoveFilesResult(b0, walk);
        MoveFilesNoContainer(b0, walk);
        DiscoveredSmaller(d, e);
        MergeNoContainer(d, m.buckets, m.tally, NestedContainers(walk));
    }
  }

  lemma {:induction false} MergeNoContainer(parent: Decoding, b: Buckets, t: Tally, found: seq<Discovered>)
    requires forall x :: x in found ==> (parent decreases to x.file.decoded)
    requires NoContainersInBuckets(b)
    ensures NoContainersInBuckets(MergeNested(parent, b, t, found).buckets)
    decreases parent, 0, |found|
  {
    if found != [] {
      var x := found[|found| - 1];
      var acc := MergeNested(parent, b, t, found[..|found| - 1]);
      MergeNoContainer(parent, b, t, found[..|found| - 1]);
      ExtractNoContainer(acc.buckets, PathOf(x), x.file.decoded, true);
    }
  }

  /** The candidate loop and the fallback scan of lines 228-252. */
  method LocateOutput(listing: seq<Entry>, candidates: seq<string>) returns (base: Option<Entry>)
    ensures base == SelectBase(listing, candidates)
  {
    base := FindCandidate(listing, candidates);
    if base.None? {
      base := ScanFallback(listing);
    }
  }

  /** The loop over `possible_dirs` (lines 235-238): the first one that exists. */
  method FindCandidate(listing: seq<Entry>, candidates: seq<string>) returns (base: Option<Entry>)
    ensures base == FirstCandidate(listing, candidates)
  {
    var c := 0;
    while c < |candidates|
      invariant 0 <= c <= |candidates|
      invariant forall c' :: 0 <= c' < c ==> Lookup(listing, candidates[c']).None?
    {
      var found := Lookup(listing, candidates[c]);
      if found.Some? {
        return Some(listing[found.value]);
      }
      c := c + 1;
    }
    return None;
  }

  /** The fallback scan over the parent directory (lines 240-246). */
  method ScanFallback(listing: seq<Entry>) returns (base: Option<Entry>)
    ensures base == FirstFallback(listing)
  {
    var i := 0;
    while i < |listing|
      invariant 0 <= i <= |listing|
      invariant forall i' :: 0 <= i' < i ==> !IsFallback(listing[i'])
    {
      if IsFallback(listing[i]) {
        return Some(listing[i]);
      }
      i := i + 1;
    }
    return None;
  }

  /** `ContainersAmong` over one more file of the same list. */
  lemma ContainersAmongSnoc(root: string, files: seq<SourceFile>, j: nat)
    requires j < |files|
    ensures ContainersAmong(root, files[..j + 1]) ==
              ContainersAmong(root, files[..j]) + if IsContainerName(files[j].name) then [Discovered(root, files[j])] else []
  {
    assert files[..j + 1][..j] == files[..j];
  }

  /** `NestedContainers` over one more root of the same walk. */
  lemma NestedContainersSnoc(walk: seq<WalkStep>, i: nat)
    requires i < |walk|
    ensures NestedContainers(walk[..i + 1]) == NestedContainers(walk[..i]) + ContainersAmong(walk[i].root, walk[i].files)
  {
    assert walk[..i + 1][..i] == walk[..i];
  }

  /** The discovery walk of lines 264-268. */
  method DiscoverNested(walk: seq<WalkStep>) returns (found: seq<Discovered>)
    ensures found == NestedContainers(walk)
  {
    found := [];
    var i := 0;
    while i < |walk|
      invariant 0 <= i <= |walk|
      invariant found == NestedContainers(walk[..i])
    {
      NestedContainersSnoc(walk, i);
      found := DiscoverInRoot(walk[i].root, walk[i].files, found);
      i := i + 1;
    }
    assert walk[..i] == walk;
  }

  /** The inner loop of the discovery walk: append the containers among one root's files. */
  method DiscoverInRoot(root: string, files: seq<SourceFile>, found0: seq<Discovered>) returns (found: seq<Discovered>)
    ensures found == found0 + ContainersAmong(root, files)
  {
    found := found0;
    var j := 0;
    while j < |files|
      invariant 0 <= j <= |files|
      invariant found == found0 + ContainersAmong(root, files[..j])
    {
      ContainersAmongSnoc(root, files, j);
      if IsContainerName(files[j].name) {
        found := found + [Discovered(root, files[j])];
      }
      j := j + 1;
    }
    assert files[..j] == files;
  }

  /**
   * `extract_rpf_recursive` on the output directory `out`: its buckets
   * afterwards and the return value are those of `Extract`.
   */
  method ExtractRecursive(out: Output, rpf: Path, d: Decoding, nested: bool) returns (r: Outcome)
    modifies out
    ensures (out.Contents(), r) == Extract(old(out.Contents()), rpf, d, nested)
    decreases d, 2
  {
    if !d.Ran? {
      return Failed(DecoderError(d).value);
    }
    var base := LocateOutput(d.parent, Candidates(rpf.name, nested));
    if base.None? {
      return Failed(NoContentMessage);
    }
    if !nested {
      out.EnsureCleanDirs();
    }
    var walk := TreeOf(base.value);
    var t, progress := out.MoveFiles(walk);
    var found := DiscoverNested(walk);
    DiscoveredSmaller(d, base.value);
    var absorbed;
    t, absorbed := MergeAll(out, d, t, found);
    return Extracted(t, absorbed);
  }

  /** The loop over `nested_rpfs` (lines 273-299). */
  method MergeAll(out: Output, ghost parent: Decoding, t0: Tally, found: seq<Discovered>)
    returns (t: Tally, absorbed: seq<Path>)
    requires forall x :: x in found ==> (parent decreases to x.file.decoded)
    modifies out
    ensures Merge(out.Contents(), t, absorbed) == MergeNested(parent, old(out.Contents()), t0, found)
    decreases parent, 1
  {
    ghost var b0 := out.Contents();
    t, absorbed := t0, [];
    var k := 0;
    assert found[..k] == [];
    while k < |found|
      invariant 0 <= k <= |found|
      invariant Merge(out.Contents(), t, absorbed) == MergeNested(parent, b0, t0, found[..k])
    {
      t, absorbed := MergeNext(out, parent, b0, t0, found, k, t, absorbed);
      k := k + 1;
    }
    assert found[..k] == found;
  }

  /**
   * One pass of the loop over `nested_rpfs`: extract the nested container on
   * the shared buckets, then merge its tally and absorbed list on success.
   */
  method MergeNext(out: Output, ghost parent: Decoding, ghost b0: Buckets, ghost t0: Tally,
                   found: seq<Discovered>, k: nat, t: Tally, absorbed: seq<Path>)
    returns (t': Tally, absorbed': seq<Path>)
    requires k < |found|
    requires forall x :: x in found ==> (parent decreases to x.file.decoded)
    requires Merge(out.Contents(), t, absorbed) == MergeNested(parent, b0, t0, found[..k])
    modifies out
    ensures Merge(out.Contents(), t', absorbed') == MergeNested(parent, b0, t0, found[..k + 1])
    decreases parent, 0
  {
    MergeSnoc(parent, b0, t0, found, k);
    var x := found[k];
    var sub := ExtractRecursive(out, PathOf(x), x.file.decoded, true);
    match sub {
      case Failed(_) =>
        t', absorbed' := t, absorbed;
      case Extracted(nt, nabsorbed) =>
        t' := t.Add(nt);
        absorbed' := absorbed;
        if nt.stream > 0 || nt.data > 0 {
          absorbed' := absorbed' + [PathOf(x)] + nabsorbed;
        }
    }
  }

  /** The base names of a list of paths. */
  function Names(paths: seq<Path>): (r: set<string>)
    ensures forall p :: p in paths ==> p.name in r
    ensures forall n :: n in r ==> exists p :: p in paths && p.name == n
  {
    set p | p in paths :: p.name
  }

  /**
   * The prune loop of lines 493-507 on the stream bucket: the bucket
   * afterwards and the names deleted, in order. It is set removal of the
   * absorbed containers' base names, and it deletes each name at most once.
   */
  function Pruned(stream: Dir, absorbed: seq<Path>): (r: (Dir, seq<string>))
    ensures r.0 == stream - Names(absorbed)
    ensures forall n :: n in r.1 <==> n in stream && n in Names(absorbed)
    ensures forall i, j :: 0 <= i < j < |r.1| ==> r.1[i] != r.1[j]
  {
    if absorbed == [] then (stream, [])
    else
      var prefix := absorbed[..|absorbed| - 1];
      var (s, deleted) := Pruned(stream, prefix);
      var name := absorbed[|absorbed| - 1].name;
      assert Names(absorbed) == Names(prefix) + {name};
      if name in s then
        assert s - {name} == stream - Names(absorbed);
        (s - {name}, deleted + [name])
      else
        assert s == stream - Names(absorbed);
        (s, deleted)
  }

  /** `Pruned` over one more absorbed container of the same list. */
  lemma PrunedSnoc(stream: Dir, absorbed: seq<Path>, k: nat)
    requires k < |absorbed|
    ensures var (s, deleted) := Pruned(stream, absorbed[..k]);
            var name := absorbed[k].name;
            Pruned(stream, absorbed[..k + 1]) == if name in s then (s - {name}, deleted + [name]) else (s, deleted)
  {
    assert absorbed[..k + 1][..k] == absorbed[..k];
  }

  /** The prune loop run on the output directory. Removals are taken to succeed. */
  method Prune(out: Output, absorbed: seq<Path>) returns (deleted: seq<string>)
    modifies out
    ensures (out.stream, deleted) == Pruned(old(out.stream), absorbed)
    ensures out.data == old(out.data)
  {
    ghost var s0 := out.stream;
    deleted := [];
    var k := 0;
    assert absorbed[..k] == [];
    while k < |absorbed|
      invariant 0 <= k <= |absorbed|
      invariant (out.stream, deleted) == Pruned(s0, absorbed[..k])
      invariant out.data == old(out.data)
    {
      deleted := PruneNext(out, absorbed, k, s0, deleted);
      k := k + 1;
    }
    assert absorbed[..k] == absorbed;
  }

  /** One pass of the prune loop: delete the container's base name from the stream bucket if it is there. */
  method PruneNext(out: Output, absorbed: seq<Path>, k: nat, ghost s0: Dir, deleted: seq<string>)
    returns (deleted': seq<string>)
    requires k < |absorbed|
    requires (out.stream, deleted) == Pruned(s0, absorbed[..k])
    modifies out
    ensures (out.stream, deleted') == Pruned(s0, absorbed[..k + 1])
    ensures out.data == old(out.data)
  {
    PrunedSnoc(s0, absorbed, k);
    var name := absorbed[k].name;
    deleted' := deleted;
    if name in out.stream {
      out.stream := out.stream - {name};
      deleted' := deleted + [name];
    }
  }

  /** The prune deletes nothing when no absorbed base name is in the stream bucket. */
  lemma PruneFindsNothing(stream: Dir, absorbed: seq<Path>)
    requires Names(absorbed) !! stream.Keys
    ensures Pruned(stream, absorbed) == (stream, [])
  {
    assert stream - Names(absorbed) == stream;
  }

  /**
   * No absorbed base name is in a stream bucket free of container names,
   * because every absorbed name ends in `.rpf`.
   */
  lemma AbsorbedNamesAbsent(stream: Dir, absorbed: seq<Path>)
    requires NoContainerNames(stream)
    requires forall p :: p in absorbed ==> IsContainerName(p.name)
    ensures Names(absorbed) !! stream.Keys
  {
    forall n | n in Names(absorbed) ensures n !in stream {
      var p :| p in absorbed && p.name == n;
      ContainerNameExtension(n);
    }
  }

  /**
   * The top-level run of `extraction_thread` (lines 489-507): extract, then
   * prune the stream bucket when something was moved. The prune never
   * deletes anything, because a top-level success leaves no name with the
   * container extension in the stream bucket while every absorbed name has
   * it: the buckets are exactly those of `Extract`.
   */
  method RunExtraction(out: Output, rpf: Path, d: Decoding) returns (r: Outcome, deleted: seq<string>)
    modifies out
    ensures (out.Contents(), r) == Extract(old(out.Contents()), rpf, d, false)
    ensures deleted == []
  {
    ghost var b := out.Contents();
    r := ExtractRecursive(out, rpf, d, false);
    deleted := [];
    if r.Extracted? && (r.tally.stream > 0 || r.tally.data > 0) {
      ExtractNoContainer(b, rpf, d, false);
      AbsorbedAreContainers(b, rpf, d, false);
      AbsorbedNamesAbsent(out.stream, r.absorbed);
      PruneFindsNothing(out.stream, r.absorbed);
      deleted := Prune(out, r.absorbed);
    }
  }
}
