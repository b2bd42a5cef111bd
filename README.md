# RPF Extractor file-organising pipeline, in Dafny

This project models the file-organising core of the RPF Extractor (`extract.py`).

The extractor runs an external decoder on a game archive (an `.rpf` container). It then sorts every file the decoder extracted into two flat output buckets:

- `stream/` receives streamable asset formats;
- `data/` receives metadata formats.

Containers nested inside the extracted tree are extracted in turn, into the same buckets.

The filesystem is abstract:

- a bucket is a map from file names to byte sequences;
- a directory walk (`os.walk`) is a given sequence of (root, files) steps;
- the decoder's run on a container is an opaque outcome: timeout, non-zero exit, missing tool, another exception, or success with a listing of the container's directory afterwards;
- how one file's copy behaves (clean, failing before or during the copy, or leaving a short destination) is part of the file.

Because each nested container carries its own decoder outcome, nesting is a finite tree and the recursion has a decreasing measure.

The modules follow the program:

- `Classification`: the per-file rule of `move_files`. Its tables are `STREAM_EXTENSIONS`, `DATA_EXTENSIONS`, `IMPORTANT_FOLDERS` and `IGNORE_FOLDERS`. All matching is case-insensitive substring search on the whole root.
- `Naming`: the collision-free destination name, `base_k.ext`.
- `Copying`: the 8 MiB chunked copy loop.
- `Consolidation`: `move_files` as a whole. The `Output` class holds the two buckets and owns the per-file step, the loops and the progress reports. `ensure_clean_dirs` is a method of `Output` too.
- `Extraction`: `extract_rpf_recursive`. It covers:
  - the decoder error returns;
  - the choice of base directory;
  - discovery of nested containers;
  - the recursive merge of tallies and of the absorbed-container list;
  - the prune loop of `extraction_thread`.

Each imperative method is proved equal to a specification function. The properties are proved about those functions:

- every counted file lands in exactly one counter;
- buckets are never overwritten;
- each counted move adds a bucket entry;
- no bucket ever holds a name with the container extension;
- the top level is independent of earlier bucket contents;
- every absorbed container ends in `.rpf`.

Notable behaviours of the code, which the model keeps:

- **A nested container counts as skipped.** The walk meets the container file itself and counts it in `skipped`, because of the `ext == 'rpf'` rule (`Consolidation.ContainerCountsAsSkipped`). A container holding `a.yft` and `b.meta` next to a nested `c.rpf` therefore tallies one skip.
- **Ignored files count in no counter.** Files under an ignored root are counted in `total_files` but in no counter. So `stream + data + skipped` equals the number of files under roots that are not ignored. That number can be below `total_files`.
- **Ignore matching uses the whole root string.** Ignored and important folder names match anywhere in the root path, not per path segment.
- **Two extension rules disagree.** Nested containers are found with `endswith(".rpf")`, while the skip rule looks at the text after the last dot. A file named `RPF` is therefore skipped but never decoded (`Classification.BareContainerWordIsSkippedButNotDiscovered`).
- **The prune never deletes anything.** It removes absorbed containers' base names from `stream/`, but no name with the container extension ever reaches a bucket. `Extraction.RunExtraction` proves the prune leaves the buckets as extraction left them.

## Model

| member | source | states |
|---|---|---|
| Classification.Lower | extract.py:121 | `lower()` keeps the length; `Classification.LowerAt` gives it character by character |
| Classification.Contains | extract.py:111 | `needle in haystack` holds exactly when the needle occurs at some index of the haystack |
| Classification.LastSegment | extract.py:121 | `split('.')[-1]` is the longest dot-free suffix; when shorter than the string, a dot precedes it |
| Classification.RouteOf | extract.py:125-137 | stream exactly when the extension is not `rpf` and the root is important or the extension is a stream one; data exactly when not important and a data extension; otherwise skip |
| Classification.IsIgnoredRoot | extract.py:111 | a root is ignored when its lower-cased text contains an ignored folder name |
| Classification.IsImportantRoot | extract.py:114 | a root is important when its lower-cased text contains an important folder name |
| Classification.Extension | extract.py:121 | `file.lower().split('.')[-1]`: dot-free, and a suffix of the lower-cased name |
| Classification.IsContainerName | extract.py:267 | `file.lower().endswith(".rpf")` |
| Classification.Classify | extract.py:111-137 | the whole rule for one file: none (not counted) exactly for an ignored root, else the route, each outcome characterised both ways |
| Classification.TablesDisjoint | extract.py:16-34 | the stream and data tables are disjoint and neither holds `rpf` |
| Classification.ClassifyCaseInsensitive | extract.py:111-121 | the decision depends on root and file name only up to letter case |
| Classification.ContainerNameExtension | extract.py:265-268 | a name ending in `.rpf` in any case has extension `rpf` |
| Classification.ContainersNeverMoved | extract.py:125-127 | a nested container is never routed to a bucket |
| Classification.BareContainerWordIsSkippedButNotDiscovered | extract.py:121-127 | a dot-free file `RPF` has extension `rpf` and is skipped under every root, yet is not picked up as a nested container |
| Naming.LastDot | extract.py:140 | the index of the last dot, or no dot at all |
| Naming.SplitExt | extract.py:140 | `splitext`: base and extension concatenate to the name; the extension starts at the last dot and is empty for leading-dot names |
| Naming.Decimal | extract.py:143 | `str(counter)` is a non-empty string of digits with no leading zero |
| Naming.DecimalRoundTrip | extract.py:143 | parsing `str(counter)` gives the counter back |
| Naming.Candidate | extract.py:143 | the alternative name `f"{base}_{counter}{ext}"` |
| Naming.CandidateInjective | extract.py:143 | different counters give different alternative names |
| Naming.CandidateSetSize | extract.py:141-145 | the first k alternative names are k distinct names |
| Naming.CandidatesFit | extract.py:141-145 | a directory holding the first k alternative names has at least k entries, so the search loop ends |
| Naming.FirstFreeFrom | extract.py:141-145 | the smallest free counter from k on, given all below k are taken |
| Naming.ChosenName | extract.py:139-145 | never a taken name; the original name when free; otherwise `base_k.ext` with k the smallest free counter |
| Naming.FreeName | extract.py:139-145 | the naming loop returns exactly the chosen name, with the same three guarantees |
| Naming.CandidateKeepsExtension | extract.py:143 | an alternative name keeps the original extension |
| Naming.CandidateEndsInDigit | extract.py:143 | an alternative name for an extension-less file ends in a digit, so its extension is not `rpf` |
| Naming.CandidateExtension | extract.py:139-145 | renaming never produces the container extension unless the original had it |
| Copying.ReadChunk | extract.py:151-153 | a read returns the next bytes, at most 8 MiB, a full chunk unless at the end, and nothing only at the end |
| Copying.CopyChunked | extract.py:149-157 | the destination equals the source, `copied_bytes` equals its length, and no chunk exceeds 8 MiB with all but the last full |
| Consolidation.Tally.Bump | extract.py:174-178 | one counter rises by one and the total by one |
| Consolidation.Tally.Add | extract.py:286-288 | stream, data and skipped each add; so do the totals |
| Consolidation.AddComm | extract.py:286-288 | merging two results in either order gives the same counts |
| Consolidation.AddAssoc | extract.py:286-288 | merging three results gives the same counts however they are grouped |
| Consolidation.Deposit | extract.py:139-169 | never overwrites; adds at most the chosen name; counts exactly when no exception is raised and the sizes agree, and then holds the source bytes |
| Consolidation.CopyFile | extract.py:139-169 | naming, chunked copy and size check give exactly `Deposit` |
| Consolidation.Place | extract.py:125-179 | a move is counted exactly when the route names a bucket and the copy succeeds; the other bucket is untouched |
| Consolidation.Process | extract.py:121-179 | stream or data is counted exactly when routed there and copied successfully; any failure is a skip |
| FileSystem.TotalFiles | extract.py:106 | `total_files`: the number of files over every root of the walk |
| Consolidation.ProcessFiles | extract.py:116-179 | the inner loop over one root's files, as a function of the buckets and tally before it |
| Consolidation.ConsolidateWalk | extract.py:110-179 | the outer loop over the walk; ignored roots change nothing |
| Consolidation.MoveFilesResult | extract.py:100-181 | `move_files` as a whole, with the early return on an empty tree |
| Consolidation.ProcessCounter | extract.py:125-178 | the counter a file increments depends only on its route and whether its copy succeeds, never on the buckets |
| Consolidation.ProcessFilesTally | extract.py:116-179 | the inner loop's tally is the bucket-free `FilesTally` |
| Consolidation.ConsolidateTally | extract.py:110-179 | the outer loop's tally is the bucket-free `WalkTally` |
| Consolidation.MoveFilesTallyOf | extract.py:100-181 | the tally `move_files` returns depends only on the walk |
| Consolidation.ContainerCountsAsSkipped | extract.py:125-127 | a nested container file is a skip and changes no bucket |
| Consolidation.CountedAtMostTotal | extract.py:106 | files under roots that are not ignored are at most `total_files` |
| Consolidation.ProcessFilesCounts | extract.py:116-179 | each file of a root adds exactly one to the tally's total |
| Consolidation.ConsolidateCounts | extract.py:110-179 | over a walk the total rises by the number of files under roots that are not ignored |
| Consolidation.EmptyTreeChangesNothing | extract.py:106-108 | the early return on an empty tree gives what the loops would |
| Consolidation.ProcessFilesKeeps | extract.py:139-145 | processing a root's files never overwrites or removes a bucket entry |
| Consolidation.ConsolidateKeeps | extract.py:110-179 | the whole walk never overwrites or removes a bucket entry |
| Consolidation.ProcessGrowth | extract.py:121-179 | one file adds at most one entry per bucket, and exactly one where it is counted as moved |
| Consolidation.PlaceGrowth | extract.py:125-179 | the same bound for any route |
| Consolidation.ProcessFilesGrowth | extract.py:116-179 | counters never fall; each bucket grows at least by its counter's rise, and by exactly that when no I/O fails |
| Consolidation.ConsolidateGrowth | extract.py:110-179 | the same over the whole walk |
| Consolidation.DepositNoContainer | extract.py:139-169 | a non-container file never adds a name with the container extension |
| Consolidation.ProcessNoContainer | extract.py:121-179 | one file keeps the buckets free of container names |
| Consolidation.ProcessFilesNoContainer | extract.py:116-179 | one root keeps the buckets free of container names |
| Consolidation.ConsolidateNoContainer | extract.py:110-179 | the walk keeps the buckets free of container names |
| Consolidation.MoveFilesNoContainer | extract.py:100-181 | `move_files` keeps the buckets free of container names |
| Consolidation.Output.EnsureCleanDirs | extract.py:88-98 | both buckets exist and are empty |
| Consolidation.Output.ProcessFile | extract.py:121-179 | one pass of the `try` block leaves the buckets and returns the counter of `Process` |
| Consolidation.Output.PlaceFile | extract.py:125-179 | the copy by route leaves the buckets and counter of `Place` |
| Consolidation.Output.MoveNext | extract.py:116-179 | one more file processed, and one more `(processed, total)` report |
| Consolidation.Output.MoveRootFiles | extract.py:116-179 | the inner loop matches `ProcessFiles` and reports one rising pair per file |
| Consolidation.Output.MoveRoot | extract.py:110-179 | an ignored root is passed over uncounted; otherwise its files are processed and reported |
| Consolidation.Output.MoveTree | extract.py:110-179 | the outer loop matches `ConsolidateWalk`, with one report per counted file |
| Consolidation.Output.MoveFiles | extract.py:100-181 | buckets and tally exactly as `MoveFilesResult` gives; total equals the counted files, at most `total_files`; the i-th report is `(i + 1, total_files)` |
| Extraction.DecoderError | extract.py:218-226 | an error exactly when the decoder did not succeed, with the exact message of each case; a non-zero exit reports the decoded standard error exactly when its raw bytes are non-empty, else `str(e)` |
| Extraction.ExtractionDirName | extract.py:189-192 | `_temp_<name>_extract` for a nested container, `dlc` at the top level |
| Extraction.Candidates | extract.py:229-233 | `possible_dirs` in order: the extraction directory, `dlc`, the container's name without extension |
| Extraction.Lookup | extract.py:235-236 | the first listing item with that name, or none has it |
| Extraction.FirstCandidate | extract.py:235-238 | the first candidate that exists, or none exists |
| Extraction.FirstFallback | extract.py:240-246 | the first subdirectory not named `stream` or `data`, or none |
| Extraction.SelectBase | extract.py:228-252 | the first existing candidate; else the first fallback subdirectory; else nothing, which is the "No extracted content" case |
| Extraction.ContainersAmong | extract.py:266-268 | exactly the `.rpf` files of one root |
| Extraction.NestedContainers | extract.py:264-268 | exactly the `.rpf` files of the whole tree, ignored roots included |
| Extraction.DiscoveredSmaller | extract.py:273-285 | every discovered container's decoder outcome is strictly smaller, so the recursion ends |
| Extraction.Extract | extract.py:183-301 | fails exactly when the decoder fails or no base directory is found, and then leaves the buckets as they were |
| Extraction.MergeOne | extract.py:284-291 | the shared buckets are carried on; a failure adds nothing to tally or absorbed list; a success adds its total, and extends the absorbed list, starting with the container itself, exactly when it moved a stream or data file |
| Extraction.MergeNested | extract.py:273-292 | the loop over `nested_rpfs`, each nested extraction running on the buckets the previous one left |
| Extraction.ExtractOutcome | extract.py:183-301 | the bucket-free return value: tallies add field-wise over the nesting tree, and the absorbed list is its pre-order of containers that moved something, each followed by its own absorbed list |
| Extraction.ExtractOutcomeAgrees | extract.py:183-301 | `Extract` returns exactly `ExtractOutcome`, at every depth |
| Extraction.MergeOutcomesAgree | extract.py:273-292 | the nested loop's tally and absorbed list are exactly the bucket-free ones |
| Extraction.OutcomeIgnoresBuckets | extract.py:183-301 | what an extraction returns, nested or not, does not depend on the buckets it starts from |
| Extraction.TopLevelIgnoresPriorBuckets | extract.py:251-255 | the top-level result, and on success its buckets, do not depend on earlier bucket contents |
| Extraction.MoveFilesGrowth | extract.py:259 | each bucket gains at least one entry per move counted there |
| Extraction.MoveFilesKeeps | extract.py:259 | `move_files` never overwrites or removes a bucket entry |
| Extraction.NestedExtractKeeps | extract.py:183-301 | a nested extraction, recursion included, never overwrites or removes a bucket entry |
| Extraction.MergeKeeps | extract.py:273-292 | the nested loop never overwrites or removes a bucket entry |
| Extraction.AbsorbedAreContainers | extract.py:264-292 | every absorbed path, at every depth, ends in `.rpf` |
| Extraction.MergeAbsorbedAreContainers | extract.py:273-292 | the same for the nested loop |
| Extraction.MergeAbsorbedMeansMoves | extract.py:286-291 | the loop only adds to the counters, and a non-empty absorbed list means stream plus data rose |
| Extraction.AbsorbedMeansMoves | extract.py:286-301 | a success with absorbed containers moved something to a bucket |
| Extraction.ExtractGrowth | extract.py:183-301 | after a success the buckets have gained at least one entry per counted stream and data move, nested ones included |
| Extraction.MergeGrowth | extract.py:273-292 | the same for the nested loop |
| Extraction.ExtractNoContainer | extract.py:183-301 | after a success no bucket holds a name with the container extension |
| Extraction.MergeNoContainer | extract.py:273-292 | the nested loop keeps the buckets free of container names |
| Extraction.LocateOutput | extract.py:228-252 | the candidate loop and fallback scan return exactly `SelectBase` |
| Extraction.FindCandidate | extract.py:235-238 | the candidate loop returns exactly `FirstCandidate` |
| Extraction.ScanFallback | extract.py:240-246 | the fallback loop returns exactly `FirstFallback` |
| Extraction.DiscoverNested | extract.py:264-268 | the discovery loops return exactly `NestedContainers` |
| Extraction.DiscoverInRoot | extract.py:266-268 | the inner discovery loop appends exactly the root's containers |
| Extraction.ExtractRecursive | extract.py:183-301 | the recursive method leaves the buckets and returns exactly what `Extract` gives |
| Extraction.MergeAll | extract.py:273-299 | the loop over nested containers matches `MergeNested` |
| Extraction.MergeNext | extract.py:273-292 | one nested container extracted and merged |
| Extraction.Names | extract.py:497-498 | the base names of the absorbed paths, each path's name included |
| Extraction.Pruned | extract.py:493-507 | the prune is set removal of the absorbed base names; it deletes exactly the present ones, each once |
| Extraction.Prune | extract.py:493-507 | the prune loop matches `Pruned` and leaves `data/` alone |
| Extraction.PruneNext | extract.py:497-507 | one absorbed name removed if present |
| Extraction.PruneFindsNothing | extract.py:493-507 | when no absorbed base name is in `stream/`, the prune changes nothing and deletes nothing |
| Extraction.AbsorbedNamesAbsent | extract.py:497-501 | no absorbed base name is in a stream bucket free of container names |
| Extraction.RunExtraction | extract.py:489-507 | the top-level run leaves exactly the buckets of `Extract`, and the prune deletes nothing |

## Left out

- The Tkinter GUI, the worker thread and the marshalling of results back to the interface (`extract.py:303-598`) are left out: they are user interface and concurrency.
- The decoder subprocess and `validate_rpf_cli` are left out: they run a foreign executable. The decoder's run is an input outcome attached to each container.
- Loading and saving the JSON configuration and `find_rpf_cli` are left out: they are plain file I/O.
- `flush` and `fsync` are treated as no-ops: durability is not expressible here.
- The percentages and megabyte figures in progress messages and log prints are left out: they are floating point and printing.
- The progress calls inside `extract_rpf_recursive` (lines 186-187, 257-258, 270-282) are left out. These are the `(0, 100)` placeholders and the nested-container counter. The per-file `(processed, total_files)` reports of `move_files` are modelled.
- The `rmtree` cleanup of `_temp_*_extract` and `dlc` directories (lines 294-299, 509-524) is left out. It is best-effort deletion with errors swallowed, and it touches only the decoder's scratch directories, not the buckets.
- `ensure_clean_dirs` is modelled only as emptying both buckets. Deleting and recreating them on disk is not modelled.
- Extraction.Extract: the `stream` and `data` buckets are assumed to lie outside the chosen base directory and its tree, and outside the listing the base is chosen from. In the code they can be the same directories, and the model does not capture that aliasing. Two consequences follow. First, with the default output directory (the container's own folder, lines 461-464), a top-level container whose decoder leaves no `dlc` folder but a folder named after the container, such as `stream` for `stream.rpf`, gets that folder as its base (line 232). `ensure_clean_dirs` (line 252) then deletes it before `move_files` walks it (line 260), so the code returns zero moves and the extracted files are lost, while the model counts the moves of the listed tree. Second, when the base directory contains the buckets (for example the fallback at lines 240-246 picks the output folder), `os.walk` can list files that earlier steps copied into a bucket and process them again under a suffixed name. The code's processed count can then exceed `total_files`; the model's walk is fixed in advance, so `Consolidation.Output.MoveFiles` promises at most `total_files`.
- `os.walk` and `os.listdir` order is taken as given. The walk of an extracted directory, and each container's decoder outcome, are inputs.
- Whether `os.walk` descends into ignored folders is not modelled. The walk is a flat sequence of roots, and an ignored root's files are passed over uncounted either way.
- Extraction.Prune: a failing `os.remove` (lines 506-507) is not modelled. `Extraction.RunExtraction` shows the prune never finds a name to remove, so the failure path cannot arise.
- Classification.Lower: Python's `lower()` is modelled for ASCII letters only. Unicode case mapping is not modelled.
- Byte decoding of the decoder's standard error (`decode('utf-8', errors='ignore')`) is left out. A non-zero exit carries both the raw bytes and the text they decode to, and `Extraction.DecoderError` branches on the raw bytes as line 221 does.
- The text of an exception, `str(e)`, is an input string.
- Exceptions raised outside the decoder's `try` block are not modelled. These are `os.listdir` in the fallback scan (line 242) and `rmtree` or `makedirs` in `ensure_clean_dirs` (lines 93-96, called at line 252). In the code such an exception in a nested call escapes the unguarded recursive call (line 281). It aborts the remaining siblings and every enclosing level, and is caught only at line 544; a failing `rmtree` can also leave a bucket partly deleted. The model's failures are all returned values, so its "a failed nested extraction does not stop its siblings" holds only for the returned errors.
- Extraction.Lookup: `os.path.exists` on a candidate directory (line 236) is modelled as an exact name match. On Windows it ignores letter case, so a listing holding `DLC` satisfies the `dlc` candidate there, while the model passes it over and may choose a different base through the fallback scan. The fallback's `item not in ['stream', 'data']` (line 244) is a plain string comparison and is modelled exactly.
- Naming.ChosenName: case-insensitive name collisions are not modelled. On Windows, which the tool targets, `os.path.exists` (lines 139, 142) treats `A.ydr` and `a.ydr` as the same file. Bucket keys in the model compare exactly, so `Naming.ChosenName` gives no suffix to a name that differs from a taken one only in letter case.
