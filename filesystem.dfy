/**
 * The abstract filesystem seen by the extraction pipeline.
 *
 * A bucket directory (`stream/` or `data/`) is flat, so it is a map from file
 * names to contents. A directory walk (`os.walk`) is a given sequence of
 * steps, each a root path with the files directly under it, in the order the
 * walk yields them. The external decoder is an opaque outcome attached to
 * every file it could be run on; when it succeeds it describes the listing of
 * the container's parent directory afterwards.
 */
module FileSystem {

  newtype Byte = b: int | 0 <= b < 256

  type Bytes = seq<Byte>

  /** A flat directory: file name to file contents. */
  type Dir = map<string, Bytes>

  /** How the filesystem behaves when one file is copied into a bucket. */
  datatype IoEvent =
    | Clean                        // every call succeeds
    | FailsBeforeCopy              // getsize or open of the source, or open of the destination, raises
    | FailsMidCopy(written: nat)   // a read, write or fsync raises once `written` bytes reached the destination
    | DestinationHolds(kept: nat)  // the copy loop completes, but the destination then holds only `kept` bytes

  /**
   * A file met by a walk: its name (no directory part), its bytes, how copying
   * it behaves, and what the decoder yields when run on it. The decoder
   * outcome is consulted only for names that end in `.rpf`.
   */
  datatype SourceFile = SourceFile(name: string, bytes: Bytes, io: IoEvent, decoded: Decoding)

  /** One step of `os.walk`: a root path and the files directly under it. */
  datatype WalkStep = WalkStep(root: string, files: seq<SourceFile>)

  /**
   * One item of a directory listing (`os.listdir` order). For a directory,
   * `tree` is what `os.walk` yields for it.
   */
  datatype Entry = Entry(name: string, isDir: bool, tree: seq<WalkStep>)

  /**
   * The outcome of running the external decoder on one container. A non-zero
   * exit carries the raw bytes of the decoder's standard error, the text those
   * bytes decode to (UTF-8 with undecodable bytes dropped, taken as given) and
   * the exception's own text `str(e)`.
   */
  datatype Decoding =
    | TimedOut                  // subprocess.TimeoutExpired
    | ExitFailure(stderr: Bytes, decodedStderr: string, description: string)
                                // subprocess.CalledProcessError
    | ToolMissing               // FileNotFoundError
    | Crashed(reason: string)   // any other exception
    | Ran(parent: seq<Entry>)   // exit code 0; the parent directory lists `parent`

  /** A file path kept as its directory part and its base name. */
  datatype Path = Path(dir: string, name: string)

  /** What `os.walk` yields when started at a listing item: nothing for a plain file. */
  function TreeOf(e: Entry): seq<WalkStep>
  {
    if e.isDir then e.tree else []
  }

  /** `sum(len(files) for _, _, files in os.walk(...))`. */
  function TotalFiles(walk: seq<WalkStep>): nat
  {
    if walk == [] then 0 else TotalFiles(walk[..|walk| - 1]) + |walk[|walk| - 1].files|
  }
}
