/**
 * `move_files` (lines 100-181): walk an extracted tree once, classify every
 * file, copy stream and data files into the shared buckets under a
 * collision-free name, and count each processed file in exactly one of the
 * counters `stream`, `data` and `skipped`. Any per-file exception, a size
 * mismatch included, becomes a skip and the walk goes on.
 */
module Consolidation {
  import opened FileSystem
  import opened Classification
  import opened Naming
  import opened Copying

  /** Which counter of `moved_files` one processed file increments. */
  datatype Counter = StreamCounter | DataCounter | SkippedCounter

  /** The `moved_files` dictionary. */
  datatype Tally = Tally(stream: nat, data: nat, skipped: nat) {

    function Total(): nat
    {
      stream + data + skipped
    }

    /** `moved_files[c] += 1`. */
    function Bump(c: Counter): (r: Tally)
      ensures r.Total() == Total() + 1
      ensures r.stream == stream + (if c == StreamCounter then 1 else 0)
      ensures r.data == data + (if c == DataCounter then 1 else 0)
      ensures r.skipped == skipped + (if c == SkippedCounter then 1 else 0)
    {
      match c
      case StreamCounter => this.(stream := stream + 1)
      case DataCounter => this.(data := data + 1)
      case SkippedCounter => this.(skipped := skipped + 1)
    }

    /** Field-wise merge of a nested result (lines 286-288). */
    function Add(other: Tally): (r: Tally)
      ensures r.stream == stream + other.stream
      ensures r.data == data + other.data
      ensures r.skipped == skipped + other.skipped
      ensures r.Total() == Total() + other.Total()
    {
      Tally(stream + other.stream, data + other.data, skipped + other.skipped)
    }
  }

  /** Merging results in either order gives the same counts. */
  lemma AddComm(a: Tally, b: Tally)
    ensures a.Add(b) == b.Add(a)
  {
  }

  /** Merging three results gives the same counts however they are grouped. */
  lemma AddAssoc(a: Tally, b: Tally, c: Tally)
    ensures a.Add(b).Add(c) == a.Add(b.Add(c))
  {
  }

  const NoMoves: Tally := Tally(0, 0, 0)

  /** The contents of the two shared bucket directories. */
  datatype Buckets = Buckets(stream: Dir, data: Dir)

  /** The first `n` bytes of `bytes`, or all of them when there are fewer. */
  function Prefix(bytes: Bytes, n: nat): (r: Bytes)
    ensures |r| <= |bytes| && r == bytes[..|r|]
    ensures |r| == |bytes| <==> n >= |bytes|
  {
    if n < |bytes| then bytes[..n] else bytes
  }

  /** No exception escapes the copy of `f`: the I/O is clean, or the sizes still agree. */
  predicate CopySucceeds(f: SourceFile)
  {
    f.io.Clean? || (f.io.DestinationHolds? && f.io.kept >= |f.bytes|)
  }

  /**
   * The safe mover on one bucket (lines 139-174): the bucket afterwards and
   * whether the copy counts. It never overwrites an entry; it adds at most the
   * chosen name; a counted copy holds exactly the source bytes; and it counts
   * exactly when no exception is raised and the sizes agree.
   */
  function Deposit(d: Dir, f: SourceFile): (r: (Dir, bool))
    ensures forall n :: n in d ==> n in r.0 && r.0[n] == d[n]
    ensures r.0.Keys <= d.Keys + {ChosenName(d, f.name)}
    ensures |r.0| == if f.io.FailsBeforeCopy? then |d| else |d| + 1
    ensures r.1 <==> CopySucceeds(f)
    ensures r.1 ==> ChosenName(d, f.name) in r.0 && r.0[ChosenName(d, f.name)] == f.bytes
  {
    var name := ChosenName(d, f.name);
    match f.io
    case FailsBeforeCopy => (d, false)
    case FailsMidCopy(n) => (d[name := Prefix(f.bytes, n)], false)
    case DestinationHolds(n) =>
      var held := Prefix(f.bytes, n);
      (d[name := held], |held| == |f.bytes|)
    case Clean => (d[name := f.bytes], true)
  }

  /**
   * The body of the `try` block for a file routed to a bucket: pick the
   * name, copy in chunks, and compare the sizes of source and destination.
   */
  method CopyFile(d: Dir, f: SourceFile) returns (d': Dir, ok: bool)
    ensures (d', ok) == Deposit(d, f)
  {
    var dest := FreeName(d, f.name);
    if f.io.FailsBeforeCopy? {
      return d, false;
    }
    var srcSize := |f.bytes|;
    var written, copied, chunkSizes := CopyChunked(f.bytes);
    var held := written;
    match f.io {
      case FailsMidCopy(n) => held := Prefix(written, n);
      case DestinationHolds(n) => held := Prefix(written, n);
      case Clean =>
    }
    d' := d[dest := held];
    if f.io.FailsMidCopy? {
      return d', false;
    }
    var destSize := |held|;
    ok := srcSize == destSize;
  }

  /**
   * One file under a root that is not ignored: the buckets afterwards and the
   * counter it increments. Only a route to a bucket together with a
   * successful copy counts as a move; everything else is a skip.
   */
  function Process(b: Buckets, important: bool, f: SourceFile): (r: (Buckets, Counter))
    ensures r.1 == StreamCounter <==> RouteOf(important, Extension(f.name)) == ToStream && CopySucceeds(f)
    ensures r.1 == DataCounter <==> RouteOf(important, Extension(f.name)) == ToData && CopySucceeds(f)
    ensures RouteOf(important, Extension(f.name)) != ToStream ==> r.0.stream == b.stream
    ensures RouteOf(important, Extension(f.name)) != ToData ==> r.0.data == b.data
  {
    Place(b, RouteOf(important, Extension(f.name)), f)
  }

  /**
   * A file placed by an already decided route (lines 125-179): a move is
   * counted exactly when the route names a bucket and the copy succeeds, and
   * the bucket the route does not name is untouched.
   */
  function Place(b: Buckets, route: Route, f: SourceFile): (r: (Buckets, Counter))
    ensures r.1 == StreamCounter <==> route == ToStream && CopySucceeds(f)
    ensures r.1 == DataCounter <==> route == ToData && CopySucceeds(f)
    ensures route != ToStream ==> r.0.stream == b.stream
    ensures route != ToData ==> r.0.data == b.data
  {
    match route
    case SkipFile => (b, SkippedCounter)
    case ToStream =>
      var (s, ok) := Deposit(b.stream, f);
      (b.(stream := s), if ok then StreamCounter else SkippedCounter)
    case ToData =>
      var (s, ok) := Deposit(b.data, f);
      (b.(data := s), if ok then DataCounter else SkippedCounter)
  }

  /**
   * A nested container met by the walk is counted as skipped and copied
   * nowhere: its contents are counted when it is itself extracted.
   */
  lemma ContainerCountsAsSkipped(b: Buckets, important: bool, f: SourceFile)
    requires IsContainerName(f.name)
    ensures Process(b, important, f) == (b, SkippedCounter)
  {
    ContainerNameExtension(f.name);
  }

  /** The buckets together with the running `moved_files`. */
  datatype Moved = Moved(buckets: Buckets, tally: Tally)

  /** The inner loop over the files of one root (lines 116-179). */
  function ProcessFiles(m: Moved, important: bool, files: seq<SourceFile>): Moved
  {
    if files == [] then m
    else
      var prev := ProcessFiles(m, important, files[..|files| - 1]);
      var (b, c) := Process(prev.buckets, important, files[|files| - 1]);
      Moved(b, prev.tally.Bump(c))
  }

  /** `ProcessFiles` over one more file of the same list. */
  lemma ProcessFilesSnoc(m: Moved, important: bool, files: seq<SourceFile>, j: nat)
    requires j < |files|
    ensures var prev := ProcessFiles(m, important, files[..j]);
            var r := Process(prev.buckets, important, files[j]);
            ProcessFiles(m, important, files[..j + 1]) == Moved(r.0, prev.tally.Bump(r.1))
  {
    assert files[..j + 1][..j] == files[..j];
  }

  /** The outer loop over the walk (lines 110-179). */
  function ConsolidateWalk(m: Moved, walk: seq<WalkStep>): Moved
  {
    if walk == [] then m
    else
      var prev := ConsolidateWalk(m, walk[..|walk| - 1]);
      var step := walk[|walk| - 1];
      if IsIgnoredRoot(step.root) then prev else ProcessFiles(prev, IsImportantRoot(step.root), step.files)
  }

  /** `ConsolidateWalk` and `CountedFiles` over one more root of the same walk. */
  lemma ConsolidateSnoc(m: Moved, walk: seq<WalkStep>, i: nat)
    requires i < |walk|
    ensures ConsolidateWalk(m, walk[..i + 1]) ==
              if IsIgnoredRoot(walk[i].root) then ConsolidateWalk(m, walk[..i])
              else ProcessFiles(ConsolidateWalk(m, walk[..i]), IsImportantRoot(walk[i].root), walk[i].files)
    ensures CountedFiles(walk[..i + 1]) ==
              CountedFiles(walk[..i]) + if IsIgnoredRoot(walk[i].root) then 0 else |walk[i].files|
  {
    assert walk[..i + 1][..i] == walk[..i];
  }

  /** `move_files` as a whole, with the early return on an empty tree (lines 106-108). */
  function MoveFilesResult(b: Buckets, walk: seq<WalkStep>): Moved
  {
    if TotalFiles(walk) == 0 then Moved(b, NoMoves) else ConsolidateWalk(Moved(b, NoMoves), walk)
  }

  /**
   * The counter one file increments, read off the file alone: a move needs a
   * route to a bucket and a copy that succeeds, whatever the buckets hold.
   */
  function CounterOf(important: bool, f: SourceFile): Counter
  {
    var route := RouteOf(important, Extension(f.name));
    if route == ToStream && CopySucceeds(f) then StreamCounter
    else if route == ToData && CopySucceeds(f) then DataCounter
    else SkippedCounter
  }

  /** The counter `Process` returns does not depend on the buckets. */
  lemma ProcessCounter(b: Buckets, important: bool, f: SourceFile)
    ensures Process(b, important, f).1 == CounterOf(important, f)
  {
  }

  /** The tally of the inner loop, without the buckets. */
  function FilesTally(t: Tally, important: bool, files: seq<SourceFile>): Tally
  {
    if files == [] then t
    else FilesTally(t, important, files[..|files| - 1]).Bump(CounterOf(important, files[|files| - 1]))
  }

  /** The tally of the outer loop, without the buckets. */
  function WalkTally(t: Tally, walk: seq<WalkStep>): Tally
  {
    if walk == [] then t
    else
      var prev := WalkTally(t, walk[..|walk| - 1]);
      var step := walk[|walk| - 1];
      if IsIgnoredRoot(step.root) then prev else FilesTally(prev, IsImportantRoot(step.root), step.files)
  }

  /** What `move_files` returns, without the buckets. */
  function MoveFilesTally(walk: seq<WalkStep>): Tally
  {
    if TotalFiles(walk) == 0 then NoMoves else WalkTally(NoMoves, walk)
  }

  lemma {:induction false} ProcessFilesTally(m: Moved, important: bool, files: seq<SourceFile>)
    ensures ProcessFiles(m, important, files).tally == FilesTally(m.tally, important, files)
  {
    if files != [] {
      var init := files[..|files| - 1];
      ProcessFilesTally(m, important, init);
      ProcessCounter(ProcessFiles(m, important, init).buckets, important, files[|files| - 1]);
    }
  }

  lemma {:induction false} ConsolidateTally(m: Moved, walk: seq<WalkStep>)
    ensures ConsolidateWalk(m, walk).tally == WalkTally(m.tally, walk)
  {
    if walk != [] {
      var init := walk[..|walk| - 1];
      ConsolidateTally(m, init);
      var step := walk[|walk| - 1];
      if !IsIgnoredRoot(step.root) {
        ProcessFilesTally(ConsolidateWalk(m, init), IsImportantRoot(step.root), step.files);
      }
    }
  }

  /** The tally `move_files` returns depends only on the walk, never on the buckets. */
  lemma MoveFilesTallyOf(b: Buckets, walk: seq<WalkStep>)
    ensures MoveFilesResult(b, walk).tally == MoveFilesTally(walk)
  {
    if TotalFiles(walk) != 0 {
      ConsolidateTally(Moved(b, NoMoves), walk);
    }
  }

  /** The number of files under roots that are not ignored. */
  function CountedFiles(walk: seq<WalkStep>): nat
  {
    if walk == [] then 0
    else
      var step := walk[|walk| - 1];
      CountedFiles(walk[..|walk| - 1]) + if IsIgnoredRoot(step.root) then 0 else |step.files|
  }

  lemma {:induction false} CountedAtMostTotal(walk: seq<WalkStep>)
    ensures CountedFiles(walk) <= TotalFiles(walk)
  {
    if walk != [] {
      CountedAtMostTotal(walk[..|walk| - 1]);
    }
  }

  lemma {:induction false} ProcessFilesCounts(m: Moved, important: bool, files: seq<SourceFile>)
    ensures ProcessFiles(m, important, files).tally.Total() == m.tally.Total() + |files|
  {
    if files != [] {
      ProcessFilesCounts(m, important, files[..|files| - 1]);
    }
  }

  /** Each file under a root that is not ignored increments exactly one counter, once. */
  lemma {:induction false} ConsolidateCounts(m: Moved, walk: seq<WalkStep>)
    ensures ConsolidateWalk(m, walk).tally.Total() == m.tally.Total() + CountedFiles(walk)
  {
    if walk != [] {
      ConsolidateCounts(m, walk[..|walk| - 1]);
      var step := walk[|walk| - 1];
      if !IsIgnoredRoot(step.root) {
        ProcessFilesCounts(ConsolidateWalk(m, walk[..|walk| - 1]), IsImportantRoot(step.root), step.files);
      }
    }
  }

  /** Returning early on an empty tree gives what the loops would have given. */
  lemma {:induction false} EmptyTreeChangesNothing(m: Moved, walk: seq<WalkStep>)
    requires TotalFiles(walk) == 0
    ensures ConsolidateWalk(m, walk) == m
  {
    if walk != [] {
      EmptyTreeChangesNothing(m, walk[..|walk| - 1]);
    }
  }

  /** Every entry of `d` is still in `d'` with the same contents. */
  predicate Keeps(d: Dir, d': Dir)
  {
    forall n :: n in d ==> n in d' && d'[n] == d[n]
  }

  predicate KeepsBoth(b: Buckets, b': Buckets)
  {
    Keeps(b.stream, b'.stream) && Keeps(b.data, b'.data)
  }

  lemma {:induction false} ProcessFilesKeeps(m: Moved, important: bool, files: seq<SourceFile>)
    ensures KeepsBoth(m.buckets, ProcessFiles(m, important, files).buckets)
  {
    if files != [] {
      ProcessFilesKeeps(m, important, files[..|files| - 1]);
    }
  }

  /** The walk never overwrites or removes a file already in a bucket. */
  lemma {:induction false} ConsolidateKeeps(m: Moved, walk: seq<WalkStep>)
    ensures KeepsBoth(m.buckets, ConsolidateWalk(m, walk).buckets)
  {
    if walk != [] {
      ConsolidateKeeps(m, walk[..|walk| - 1]);
      var step := walk[|walk| - 1];
      if !IsIgnoredRoot(step.root) {
        ProcessFilesKeeps(ConsolidateWalk(m, walk[..|walk| - 1]), IsImportantRoot(step.root), step.files);
      }
    }
  }

  predicate AllClean(files: seq<SourceFile>)
  {
    forall i :: 0 <= i < |files| ==> files[i].io == Clean
  }

  /** One file adds at most one entry to each bucket, and one entry when it is counted as moved there. */
  lemma ProcessGrowth(b: Buckets, important: bool, f: SourceFile)
    ensures var (b', c) := Process(b, important, f);
      && |b.stream| + (if c == StreamCounter then 1 else 0) <= |b'.stream| <= |b.stream| + 1
      && |b.data| + (if c == DataCounter then 1 else 0) <= |b'.data| <= |b.data| + 1
      && (f.io == Clean ==> |b'.stream| == |b.stream| + (if c == StreamCounter then 1 else 0))
      && (f.io == Clean ==> |b'.data| == |b.data| + (if c == DataCounter then 1 else 0))
  {
    PlaceGrowth(b, RouteOf(important, Extension(f.name)), f);
  }

  /** `ProcessGrowth` for any route. */
  lemma PlaceGrowth(b: Buckets, route: Route, f: SourceFile)
    ensures var (b', c) := Place(b, route, f);
      && |b.stream| + (if c == StreamCounter then 1 else 0) <= |b'.stream| <= |b.stream| + 1
      && |b.data| + (if c == DataCounter then 1 else 0) <= |b'.data| <= |b.data| + 1
      && (f.io == Clean ==> |b'.stream| == |b.stream| + (if c == StreamCounter then 1 else 0))
      && (f.io == Clean ==> |b'.data| == |b.data| + (if c == DataCounter then 1 else 0))
  {
  }

  /**
   * Bucket growth over one root: each counted move adds a new entry, so a
   * bucket gains at least as many entries as its counter rises; when no I/O
   * fails, exactly as many.
   */
  lemma {:induction false} ProcessFilesGrowth(m: Moved, important: bool, files: seq<SourceFile>)
    ensures var r := ProcessFiles(m, important, files);
      && r.tally.stream >= m.tally.stream && r.tally.data >= m.tally.data
      && |r.buckets.stream| - |m.buckets.stream| >= r.tally.stream - m.tally.stream
      && |r.buckets.data| - |m.buckets.data| >= r.tally.data - m.tally.data
      && (AllClean(files) ==>
            && |r.buckets.stream| - |m.buckets.stream| == r.tally.stream - m.tally.stream
            && |r.buckets.data| - |m.buckets.data| == r.tally.data - m.tally.data)
  {
    if files != [] {
      var init := files[..|files| - 1];
      var last := files[|files| - 1];
      ProcessFilesGrowth(m, important, init);
      assert AllClean(files) ==> AllClean(init) && last.io == Clean;
      var prev := ProcessFiles(m, important, init);
      ProcessGrowth(prev.buckets, important, last);
    }
  }

  predicate WalkClean(walk: seq<WalkStep>)
  {
    forall i :: 0 <= i < |walk| ==> AllClean(walk[i].files)
  }

  /**
   * Over the whole walk, each bucket gains at least one entry per counted move,
   * and exactly one per counted move when no I/O fails.
   */
  lemma {:induction false} ConsolidateGrowth(m: Moved, walk: seq<WalkStep>)
    ensures var r := ConsolidateWalk(m, walk);
      && r.tally.stream >= m.tally.stream && r.tally.data >= m.tally.data
      && |r.buckets.stream| - |m.buckets.stream| >= r.tally.stream - m.tally.stream
      && |r.buckets.data| - |m.buckets.data| >= r.tally.data - m.tally.data
      && (WalkClean(walk) ==>
            && |r.buckets.stream| - |m.buckets.stream| == r.tally.stream - m.tally.stream
            && |r.buckets.data| - |m.buckets.data| == r.tally.data - m.tally.data)
  {
    if walk != [] {
      var init := walk[..|walk| - 1];
      ConsolidateGrowth(m, init);
      assert WalkClean(walk) ==> WalkClean(init);
      var step := walk[|walk| - 1];
      if !IsIgnoredRoot(step.root) {
        ProcessFilesGrowth(ConsolidateWalk(m, init), IsImportantRoot(step.root), step.files);
      }
    }
  }

  /** No entry of `d` has the container extension. */
  predicate NoContainerNames(d: Dir)
  {
    forall n :: n in d ==> Extension(n) != ContainerExtension
  }

  predicate NoContainersInBuckets(b: Buckets)
  {
    NoContainerNames(b.stream) && NoContainerNames(b.data)
  }

  lemma DepositNoContainer(d: Dir, f: SourceFile)
    requires NoContainerNames(d)
    requires Extension(f.name) != ContainerExtension
    ensures NoContainerNames(Deposit(d, f).0)
  {
    var name := ChosenName(d, f.name);
    if f.name in d {
      var k :| k >= 1 && name == Candidate(SplitExt(f.name).0, SplitExt(f.name).1, k);
      CandidateExtension(f.name, k);
    }
    assert Extension(name) != ContainerExtension;
    var d' := Deposit(d, f).0;
    assert d'.Keys <= d.Keys + {name};
    forall n | n in d' ensures Extension(n) != ContainerExtension {
      if n !in d {
        assert n == name;
      }
    }
  }

  lemma ProcessNoContainer(b: Buckets, important: bool, f: SourceFile)
    requires NoContainersInBuckets(b)
    ensures NoContainersInBuckets(Process(b, important, f).0)
  {
    var route := RouteOf(important, Extension(f.name));
    if route == ToStream {
      DepositNoContainer(b.stream, f);
    } else if route == ToData {
      DepositNoContainer(b.data, f);
    }
  }

  lemma {:induction false} ProcessFilesNoContainer(m: Moved, important: bool, files: seq<SourceFile>)
    requires NoContainersInBuckets(m.buckets)
    ensures NoContainersInBuckets(ProcessFiles(m, important, files).buckets)
  {
    if files != [] {
      ProcessFilesNoContainer(m, important, files[..|files| - 1]);
      ProcessNoContainer(ProcessFiles(m, important, files[..|files| - 1]).buckets, important, files[|files| - 1]);
    }
  }

  /**
   * Neither bucket ever receives a name with the container extension: the
   * `ext == 'rpf'` test (line 125) comes before the stream and data tests, and
   * an alternative name keeps the original's extension or ends in a digit.
   */
  lemma {:induction false} MoveFilesNoContainer(b: Buckets, walk: seq<WalkStep>)
    requires NoContainersInBuckets(b)
    ensures NoContainersInBuckets(MoveFilesResult(b, walk).buckets)
  {
    ConsolidateNoContainer(Moved(b, NoMoves), walk);
  }

  lemma {:induction false} ConsolidateNoContainer(m: Moved, walk: seq<WalkStep>)
    requires NoContainersInBuckets(m.buckets)
    ensures NoContainersInBuckets(ConsolidateWalk(m, walk).buckets)
  {
    if walk != [] {
      ConsolidateNoContainer(m, walk[..|walk| - 1]);
      var step := walk[|walk| - 1];
      if !IsIgnoredRoot(step.root) {
        ProcessFilesNoContainer(ConsolidateWalk(m, walk[..|walk| - 1]), IsImportantRoot(step.root), step.files);
      }
    }
  }

  /** One progress report: `progress_callback(processed, total_files, ...)`. */
  datatype Tick = Tick(processed: nat, total: nat)

  /**
   * The `(processed, total)` pairs reported for `n` files when `from` files
   * were processed before them.
   */
  function Ticks(from: nat, n: nat, total: nat): seq<Tick>
  {
    if n == 0 then [] else Ticks(from, n - 1, total) + [Tick(from + n, total)]
  }

  lemma {:induction false} TicksLength(from: nat, n: nat, total: nat)
    ensures |Ticks(from, n, total)| == n
  {
    if n > 0 {
      TicksLength(from, n - 1, total);
    }
  }

  lemma TicksSnoc(from: nat, n: nat, total: nat)
    ensures Ticks(from, n, total) + [Tick(from + n + 1, total)] == Ticks(from, n + 1, total)
  {
  }

  /** Reporting `n` more files after `counted` extends the trace of `counted` files. */
  lemma ProgressStep(progress: seq<Tick>, reported: seq<Tick>, counted: nat, n: nat, after: nat, total: nat)
    requires progress == Ticks(0, counted, total)
    requires reported == Ticks(|progress|, n, total)
    requires after == counted + n
    ensures progress + reported == Ticks(0, after, total)
  {
    TicksLength(0, counted, total);
    TicksAppend(counted, n, total);
  }

  lemma {:induction false} TicksAt(from: nat, n: nat, total: nat)
    ensures |Ticks(from, n, total)| == n
    ensures forall k :: 0 <= k < n ==> Ticks(from, n, total)[k] == Tick(from + k + 1, total)
  {
    if n > 0 {
      TicksAt(from, n - 1, total);
    }
  }

  lemma {:induction false} TicksAppend(a: nat, b: nat, total: nat)
    ensures Ticks(0, a, total) + Ticks(a, b, total) == Ticks(0, a + b, total)
  {
    if b > 0 {
      TicksAppend(a, b - 1, total);
    }
  }

  /** The output directory with its two buckets, `stream/` and `data/`. */
  class Output {
    var stream: Dir
    var data: Dir

    constructor (stream: Dir, data: Dir)
      ensures this.stream == stream && this.data == data
    {
      this.stream := stream;
      this.data := data;
    }

    function Contents(): Buckets
      reads this
    {
      Buckets(stream, data)
    }

    /** `ensure_clean_dirs` (lines 88-98): both buckets exist and are empty. */
    method EnsureCleanDirs()
      modifies this
      ensures stream == map[] && data == map[]
    {
      stream := map[];
      data := map[];
    }

    /**
     * One pass of the inner loop's `try` block (lines 121-179): classify the
     * file, then place it.
     */
    method ProcessFile(important: bool, f: SourceFile) returns (c: Counter)
      modifies this
      ensures (Contents(), c) == Process(old(Contents()), important, f)
    {
      c := PlaceFile(RouteOf(important, Extension(f.name)), f);
    }

    /**
     * The placement part of the `try` block (lines 125-179): a skip, or a
     * copy into the bucket the route names that counts only if it succeeds.
     */
    method PlaceFile(route: Route, f: SourceFile) returns (c: Counter)
      modifies this
      ensures (Contents(), c) == Place(old(Contents()), route, f)
    {
      match route {
        case SkipFile =>
          c := SkippedCounter;
        case ToStream =>
          var ok;
          stream, ok := CopyFile(stream, f);
          c := if ok then StreamCounter else SkippedCounter;
        case ToData =>
          var ok;
          data, ok := CopyFile(data, f);
          c := if ok then DataCounter else SkippedCounter;
      }
    }

    /**
     * One pass of the inner loop of `move_files` (lines 116-179): report the
     * file, then process it.
     */
    method MoveNext(important: bool, files: seq<SourceFile>, j: nat, ghost m0: Moved, t0: Tally,
                    processed: nat, total: nat, reported0: seq<Tick>)
      returns (t: Tally, reported: seq<Tick>)
      requires j < |files|
      requires Moved(Contents(), t0) == ProcessFiles(m0, important, files[..j])
      modifies this
      ensures Moved(Contents(), t) == ProcessFiles(m0, important, files[..j + 1])
      ensures reported == reported0 + [Tick(processed + j + 1, total)]
    {
      ProcessFilesSnoc(m0, important, files, j);
      var c := ProcessFile(important, files[j]);
      t := t0.Bump(c);
      reported := reported0 + [Tick(processed + j + 1, total)];
    }

    /**
     * The inner loop of `move_files` over the files of one root that is not
     * ignored (lines 116-179): the buckets and the tally are those of
     * `ProcessFiles`, and one `(processed, total)` pair is reported per file.
     */
    method MoveRootFiles(important: bool, files: seq<SourceFile>, t0: Tally, processed: nat, total: nat)
      returns (t: Tally, reported: seq<Tick>)
      modifies this
      ensures Moved(Contents(), t) == ProcessFiles(Moved(old(Contents()), t0), important, files)
      ensures reported == Ticks(processed, |files|, total)
    {
      ghost var m0 := Moved(Contents(), t0);
      t, reported := t0, [];
      var j := 0;
      while j < |files|
        invariant 0 <= j <= |files|
        invariant Moved(Contents(), t) == ProcessFiles(m0, important, files[..j])
        invariant reported == Ticks(processed, j, total)
      {
        TicksSnoc(processed, j, total);
        t, reported := MoveNext(important, files, j, m0, t, processed, total, reported);
        j := j + 1;
      }
      assert files[..j] == files;
    }

    /**
     * One pass of the outer loop of `move_files` (lines 110-179): a root that
     * is not ignored has its files processed and reported; an ignored root is
     * passed over.
     */
    method MoveRoot(walk: seq<WalkStep>, i: nat, ghost start: Moved, t0: Tally, progress0: seq<Tick>, total: nat)
      returns (t: Tally, progress: seq<Tick>)
      requires i < |walk|
      requires Moved(Contents(), t0) == ConsolidateWalk(start, walk[..i])
      requires progress0 == Ticks(0, CountedFiles(walk[..i]), total)
      modifies this
      ensures Moved(Contents(), t) == ConsolidateWalk(start, walk[..i + 1])
      ensures progress == Ticks(0, CountedFiles(walk[..i + 1]), total)
    {
      var step := walk[i];
      ConsolidateSnoc(start, walk, i);
      t, progress := t0, progress0;
      if !IsIgnoredRoot(step.root) {
        var reported;
        t, reported := MoveRootFiles(IsImportantRoot(step.root), step.files, t, |progress|, total);
        ProgressStep(progress, reported, CountedFiles(walk[..i]), |step.files|, CountedFiles(walk[..i + 1]), total);
        progress := progress + reported;
      }
    }

    /** The loops of `move_files` over a tree that holds at least one file (lines 110-179). */
    method MoveTree(walk: seq<WalkStep>, total: nat) returns (t: Tally, progress: seq<Tick>)
      modifies this
      ensures Moved(Contents(), t) == ConsolidateWalk(Moved(old(Contents()), NoMoves), walk)
      ensures progress == Ticks(0, CountedFiles(walk), total)
    {
      t, progress := NoMoves, [];
      ghost var start := Moved(Contents(), NoMoves);
      var i := 0;
      assert walk[..i] == [];
      while i < |walk|
        invariant 0 <= i <= |walk|
        invariant Moved(Contents(), t) == ConsolidateWalk(start, walk[..i])
        invariant progress == Ticks(0, CountedFiles(walk[..i]), total)
      {
        t, progress := MoveRoot(walk, i, start, t, progress, total);
        i := i + 1;
      }
      assert walk[..i] == walk;
    }

    /**
     * `move_files`. The buckets and the tally are those of `MoveFilesResult`;
     * the tally's total is the number of files under roots that are not
     * ignored, at most the number of files in the tree; and `progress` is the
     * `(processed, total_files)` pair reported before each file, rising by one
     * per file.
     */
    method MoveFiles(walk: seq<WalkStep>) returns (t: Tally, progress: seq<Tick>)
      modifies this
      ensures Moved(Contents(), t) == MoveFilesResult(old(Contents()), walk)
      ensures t.Total() == CountedFiles(walk) <= TotalFiles(walk)
      ensures |progress| == t.Total()
      ensures forall i :: 0 <= i < |progress| ==> progress[i] == Tick(i + 1, TotalFiles(walk))
    {
      var total := TotalFiles(walk);
      CountedAtMostTotal(walk);
      if total == 0 {
        EmptyTreeChangesNothing(Moved(Contents(), NoMoves), walk);
        ConsolidateCounts(Moved(Contents(), NoMoves), walk);
        return NoMoves, [];
      }
      ghost var start := Moved(Contents(), NoMoves);
      t, progress := MoveTree(walk, total);
      ConsolidateCounts(start, walk);
      TicksAt(0, CountedFiles(walk), total);
    }
  }
}
