/**
 * The specification of `_create`: the calls it makes, in order, when the
 * C library accepts every one of them (a plan), and how a run follows that
 * plan against a given library until the first failure.
 */
module CreatePlan {
  import opened ArchiveTypes

  /** `os.path.isabs` on a POSIX path. */
  predicate IsAbsolute(p: string) {
    |p| > 0 && p[0] == SEPARATOR
  }

  /** An absolute pathname loses exactly its first character; a relative one is kept. */
  function StripLeadingSeparator(p: string): (r: string)
    ensures IsAbsolute(p) ==> [SEPARATOR] + r == p
    ensures !IsAbsolute(p) ==> r == p
  {
    if IsAbsolute(p) then p[1..] else p
  }

  /** Only one separator goes: a name that starts with two of them is still absolute after the strip. */
  lemma StrippedIsAbsoluteIff(p: string)
    ensures IsAbsolute(StripLeadingSeparator(p)) <==> |p| > 1 && p[0] == SEPARATOR && p[1] == SEPARATOR
  {
  }

  /**
   * What `f.read(size)` returns when `rest` is the unread part of the file:
   * everything for a negative size, nothing for size zero, and otherwise
   * at most `size` bytes.
   */
  function ReadChunk(rest: seq<byte>, size: int): (r: seq<byte>)
    ensures r <= rest
    ensures size < 0 ==> r == rest
    ensures size == 0 ==> r == []
    ensures size > 0 ==> |r| == if size < |rest| then size else |rest|
  {
    if size < 0 then rest
    else if size < |rest| then rest[..size]
    else rest
  }

  /** The successive reads of a file's contents until a read returns nothing. */
  function Chunks(contents: seq<byte>, size: int): (cs: seq<seq<byte>>)
    ensures forall i :: 0 <= i < |cs| ==> cs[i] != [] && (size > 0 ==> |cs[i]| <= size)
    decreases |contents|
  {
    var chunk := ReadChunk(contents, size);
    if chunk == [] then [] else [chunk] + Chunks(contents[|chunk|..], size)
  }

  function Flatten(chunks: seq<seq<byte>>): seq<byte> {
    if chunks == [] then [] else chunks[0] + Flatten(chunks[1..])
  }

  /** Whether `encryption` options and a passphrase are set on the writer. */
  predicate UsesEncryption(passphrase: Option<string>, format: int) {
    passphrase.Some? && format == ARCHIVE_FORMAT_ZIP
  }

  /** A symlink whose source path is itself a link is stored with its target and no data. */
  predicate IsLinkCopy(e: DiskEntry) {
    e.isSymlink && e.linkOnDisk
  }

  /** The entry the run hands back for a walked entry. */
  function ToArchived(e: DiskEntry): ArchivedEntry {
    ArchivedEntry(
      StripLeadingSeparator(e.pathname), e.sourcePath, e.isSymlink,
      if IsLinkCopy(e) then Some(e.linkTarget) else None)
  }

  /** A reason the pipeline stops that does not come from a library call. */
  datatype Fault =
    | WalkFault(code: int)
    | NoFileno
    | Unreadable(path: string)

  /** One step of a plan: make a call, or raise. */
  datatype Action = Do(event: Event) | Raise(fault: Fault)

  function FormatFilterPlan(format: int, filter: Option<int>): seq<Action> {
    [Do(SetFormat(format))] + if filter.Some? then [Do(AddFilter(filter.value))] else []
  }

  function EncryptionPlan(format: int, passphrase: Option<string>, options: string): seq<Action> {
    if UsesEncryption(passphrase, format)
    then [Do(SetOptions(options)), Do(SetPassphrase(passphrase.value))]
    else []
  }

  function ConfigPlan(format: int, filter: Option<int>, passphrase: Option<string>, options: string): seq<Action> {
    FormatFilterPlan(format, filter) + EncryptionPlan(format, passphrase, options)
  }

  function OpenerPlan(opener: Opener): seq<Action> {
    match opener
    case FileSink(path) => [Do(OpenFilename(path))]
    case StreamSink(_) => [Raise(NoFileno)]
    case CallbackSink(blockSize) =>
      [Do(SetBytesInLastBlock(1)), Do(SetBytesPerBlock(blockSize)), Do(OpenCallbacks)]
  }

  function DataPlan(chunks: seq<seq<byte>>): seq<Action> {
    if chunks == [] then [] else [Do(WriteData(chunks[0]))] + DataPlan(chunks[1..])
  }

  function PayloadPlan(e: DiskEntry, readSize: int): seq<Action> {
    if IsLinkCopy(e) then []
    else if !e.readable then [Raise(Unreadable(e.sourcePath))]
    else DataPlan(Chunks(e.contents, readSize))
  }

  function EntryPlan(e: DiskEntry, readSize: int): seq<Action> {
    [Do(Descend), Do(WriteHeader(StripLeadingSeparator(e.pathname)))]
    + PayloadPlan(e, readSize) + [Do(EntryFree)]
  }

  /** The walk loop: an exhausted walk behaves as one that reports EOF. */
  function WalkPlan(walk: seq<WalkStep>, readSize: int): seq<Action>
    decreases |walk|
  {
    [Do(EntryNew), Do(ReadNextHeader)] +
    if walk == [] || walk[0].code == ARCHIVE_EOF then []
    else if walk[0].code != ARCHIVE_OK then [Raise(WalkFault(walk[0].code))]
    else EntryPlan(walk[0].entry, readSize) + WalkPlan(walk[1..], readSize)
  }

  function SourcePlan(src: Source, readSize: int): seq<Action> {
    [Do(DiskNew), Do(DiskOpen(src.path))] + WalkPlan(src.walk, readSize)
    + [Do(DiskClose), Do(DiskFree)]
  }

  function SourcesPlan(files: seq<Source>, readSize: int): seq<Action>
    decreases |files|
  {
    if files == [] then [] else SourcePlan(files[0], readSize) + SourcesPlan(files[1..], readSize)
  }

  function FinishPlan(): seq<Action> {
    [Do(Close), Do(Free)]
  }

  function Plan(opener: Opener, format: int, files: seq<Source>, passphrase: Option<string>,
                options: string, filter: Option<int>, readSize: int): seq<Action>
  {
    ConfigPlan(format, filter, passphrase, options) + OpenerPlan(opener)
    + SourcesPlan(files, readSize) + FinishPlan()
  }

  /** The entries a walk hands back: those reported OK before the first other code. */
  function Archived(walk: seq<WalkStep>): seq<ArchivedEntry>
    decreases |walk|
  {
    if walk == [] || walk[0].code != ARCHIVE_OK then []
    else [ToArchived(walk[0].entry)] + Archived(walk[1..])
  }

  function AllArchived(files: seq<Source>): seq<ArchivedEntry>
    decreases |files|
  {
    if files == [] then [] else Archived(files[0].walk) + AllArchived(files[1..])
  }

  /**
   * The calls a plan lists, raises skipped. A run reaches only those
   * before the plan's first raise or first refused call; when it completes
   * it made exactly these.
   */
  function Events(plan: seq<Action>): seq<Event>
    decreases |plan|
  {
    if plan == [] then []
    else (if plan[0].Do? then [plan[0].event] else []) + Events(plan[1..])
  }

  predicate NoRaise(plan: seq<Action>) {
    forall i :: 0 <= i < |plan| ==> plan[i].Do?
  }

  /** A partial run: the calls made so far and the error it stopped with, if any. */
  datatype Run = Run(trace: seq<Event>, failure: Option<Error>)

  /** `_archive_write_data`'s check: only a count of zero is an error. */
  function CheckWritten(n: int, message: string): (r: Option<Error>)
    ensures r.Some? <==> n == 0
    ensures r.Some? ==> r.value == NoBytesWritten(message)
  {
    if n == 0 then Some(NoBytesWritten(message)) else None
  }

  /** Making one call after the calls in `t`. */
  function Perform(lib: Library, t: seq<Event>, e: Event): (r: Run)
    ensures r.trace == t + [e]
    ensures !IsGuarded(e) && !e.WriteData? ==> r.failure.None?
    ensures e.WriteData? ==> (r.failure.Some? <==> lib.Written(t, e.chunk) == 0)
    ensures IsGuarded(e) ==> (r.failure.Some? <==> !lib.Accepts(t))
    ensures IsGuarded(e) && r.failure.Some? ==> r.failure.value == CallFailed(e, lib.ErrorString(t + [e]))
  {
    var t' := t + [e];
    if e.WriteData? then Run(t', CheckWritten(lib.Written(t, e.chunk), lib.ErrorString(t')))
    else if IsGuarded(e) && !lib.Accepts(t) then Run(t', Some(CallFailed(e, lib.ErrorString(t'))))
    else Run(t', None)
  }

  function FaultError(lib: Library, t: seq<Event>, f: Fault): Error {
    match f
    case WalkFault(code) => HeaderReadFailed(code, lib.ErrorString(t))
    case NoFileno => StreamHasNoFileno
    case Unreadable(path) => SourceUnreadable(path)
  }

  /** Following a plan after the calls in `t` until it ends or something fails. */
  function Execute(lib: Library, t: seq<Event>, plan: seq<Action>): (r: Run)
    ensures t <= r.trace
    decreases |plan|
  {
    if plan == [] then Run(t, None)
    else match plan[0]
      case Raise(f) => Run(t, Some(FaultError(lib, t, f)))
      case Do(e) =>
        var r := Perform(lib, t, e);
        if r.failure.Some? then r else Execute(lib, r.trace, plan[1..])
  }

  /** What a whole run of `_create` leaves in the writer's trace and returns. */
  datatype Outcome = Outcome(trace: seq<Event>, result: Result<seq<ArchivedEntry>, Error>)

  function CreateSpec(lib: Library, opener: Opener, format: int, files: seq<Source>,
                      passphrase: Option<string>, options: string, filter: Option<int>,
                      readSize: int): Outcome
  {
    if !lib.canCreate then Outcome([], Err(CreateFailed))
    else
      var r := Execute(lib, [], Plan(opener, format, files, passphrase, options, filter, readSize));
      Outcome(r.trace, if r.failure.None? then Ok(AllArchived(files)) else Err(r.failure.value))
  }
}
