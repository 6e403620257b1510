/**
 * Values shared by the model of the archive-writing pipeline of
 * libarchive/adapters/archive_write.py: the constants it compares against,
 * the calls it makes into the C library (as trace events), the entries a
 * disk walk yields, the errors it raises, and the phases of a writer handle.
 */
module ArchiveTypes {

  newtype byte = x: int | 0 <= x < 256

  /** Status codes and format code of libarchive that the pipeline tests for. */
  const ARCHIVE_OK: int := 0
  const ARCHIVE_EOF: int := 1
  const ARCHIVE_FORMAT_ZIP: int := 0x50000

  /** Defaults of `_create`'s keyword arguments. */
  const DEFAULT_BLOCK_SIZE: int := 16384
  const DEFAULT_OPTIONS: string := "zip:encryption=zipcrypt"

  /** The POSIX path separator that `os.path.isabs` looks for. */
  const SEPARATOR: char := '/'

  datatype Option<T> = None | Some(value: T)

  datatype Result<T, E> = Ok(value: T) | Err(error: E)

  /** One call into the C library, as recorded in a writer's trace. */
  datatype Event =
      // configuration of the fresh writer handle
    | SetFormat(format: int)
    | AddFilter(filter: int)
    | SetOptions(options: string)
    | SetPassphrase(passphrase: string)
    | SetBytesInLastBlock(count: int)
    | SetBytesPerBlock(count: int)
      // binding the writer to its sink
    | OpenFilename(path: string)
    | OpenCallbacks
      // the read-side disk walk of one source path
    | DiskNew
    | DiskOpen(path: string)
    | EntryNew
    | ReadNextHeader
    | Descend
    | EntryFree
    | DiskClose
    | DiskFree
      // emitting one entry
    | WriteHeader(pathname: string)
    | WriteData(chunk: seq<byte>)
      // teardown
    | Close
    | Free

  /** Calls that prepare the writer before its sink is bound. */
  predicate IsConfiguration(e: Event) {
    e.SetFormat? || e.AddFilter? || e.SetOptions? || e.SetPassphrase? ||
    e.SetBytesInLastBlock? || e.SetBytesPerBlock?
  }

  /** Calls that bind the writer to its output. */
  predicate IsSinkBinding(e: Event) {
    e.OpenFilename? || e.OpenCallbacks?
  }

  /**
   * Calls made while walking the sources and emitting entries. A data chunk
   * written is never empty and, for a positive read size, never longer
   * than that size.
   */
  predicate IsEntryLevel(e: Event, readSize: int) {
    e.DiskNew? || e.DiskOpen? || e.EntryNew? || e.ReadNextHeader? ||
    e.Descend? || e.EntryFree? || e.DiskClose? || e.DiskFree? ||
    e.WriteHeader? ||
    (e.WriteData? && e.chunk != [] && (readSize > 0 ==> |e.chunk| <= readSize))
  }

  /**
   * Calls whose Python wrapper turns a failure of the C call into an
   * `ArchiveError` carrying the handle's diagnostic string. The other calls'
   * results are ignored by the pipeline.
   */
  predicate IsGuarded(e: Event) {
    e.SetFormat? || e.AddFilter? || e.SetOptions? || e.SetPassphrase? ||
    e.OpenFilename? || e.WriteHeader? || e.Close? || e.Free?
  }

  /**
   * The behaviour of the C library, which is not part of this model, as seen
   * by one run of the pipeline. A run's calls are determined by its inputs
   * and by the library's earlier answers, so the library is described by
   * its answer at each position of the trace: whether `archive_write_new`
   * yields a handle, the positions at which a guarded call fails, the
   * count `archive_write_data` reports at a position (the whole chunk when
   * none is given), and the handle's diagnostic string once a given number
   * of calls have been made (empty when none is given).
   */
  datatype Library = Library(
    canCreate: bool,
    failing: set<nat>,
    reported: map<nat, int>,
    messages: map<nat, string>)
  {
    predicate Accepts(t: seq<Event>) {
      |t| !in failing
    }

    function Written(t: seq<Event>, chunk: seq<byte>): int {
      if |t| in reported then reported[|t|] else |chunk|
    }

    function ErrorString(t: seq<Event>): string {
      if |t| in messages then messages[|t|] else ""
    }
  }

  /**
   * One result of the disk walker: the pathname it reports, the path the
   * payload is read from, whether its type is a symlink, whether
   * `os.path.islink` holds of its source path, what `os.readlink` returns,
   * whether `open(sourcepath, 'rb')` succeeds (it fails for a directory),
   * and the bytes that reading it yields.
   */
  datatype DiskEntry = DiskEntry(
    pathname: string,
    sourcePath: string,
    isSymlink: bool,
    linkOnDisk: bool,
    linkTarget: string,
    readable: bool,
    contents: seq<byte>)

  /** A status code from `archive_read_next_header2` and the entry it filled. */
  datatype WalkStep = WalkStep(code: int, entry: DiskEntry)

  /** One element of `files`: the path and the results its disk walk yields. */
  datatype Source = Source(path: string, walk: seq<WalkStep>)

  /** What `_create` returns for one entry: the adapter object after the run. */
  datatype ArchivedEntry = ArchivedEntry(
    pathname: string,
    sourcePath: string,
    isSymlink: bool,
    symlinkTarget: Option<string>)

  /** How `_create` binds the writer: `create_file`, `create_stream` or `create_generic`. */
  datatype Opener =
    | FileSink(path: string)
    | StreamSink(fd: int)
    | CallbackSink(blockSize: int)

  /** The exceptions a run can end with. */
  datatype Error =
    | CreateFailed                              // ValueError: no handle from archive_write_new
    | CallFailed(call: Event, message: string)  // ArchiveError from a guarded wrapper
    | StreamHasNoFileno                         // AttributeError in create_stream's opener
    | HeaderReadFailed(code: int, message: string)  // ArchiveError from the disk walk
    | SourceUnreadable(path: string)            // OSError from open(sourcepath, 'rb')
    | NoBytesWritten(message: string)           // ValueError from _archive_write_data

  /** The phases a writer handle goes through. */
  datatype Phase = Created | Configured | SinkBound | Writing | Closed | Freed

  predicate IsBound(p: Phase) {
    p == SinkBound || p == Writing
  }

  /**
   * The order the pipeline keeps its calls in, by the writer's phase:
   * configuration before the sink is bound, disk-reader and entry calls
   * and headers while it is bound, data only after a header, free only
   * after close.
   */
  predicate Allowed(p: Phase, e: Event) {
    match e
    case SetFormat(_) => p == Created
    case AddFilter(_) => p == Configured
    case SetOptions(_) => p == Configured
    case SetPassphrase(_) => p == Configured
    case SetBytesInLastBlock(_) => p == Configured
    case SetBytesPerBlock(_) => p == Configured
    case OpenFilename(_) => p == Configured
    case OpenCallbacks => p == Configured
    case WriteData(_) => p == Writing
    case Free => p == Closed
    case _ => IsBound(p)
  }

  /** The phase after a successful call. */
  function Step(p: Phase, e: Event): Phase {
    match e
    case SetFormat(_) => Configured
    case OpenFilename(_) => SinkBound
    case OpenCallbacks => SinkBound
    case WriteHeader(_) => Writing
    case Close => Closed
    case Free => Freed
    case _ => p
  }
}
