# A verified model of PyEasyArchive's archive-creation pipeline

This project models `_create` in `libarchive/adapters/archive_write.py` together
with its three entry points `create_file`, `create_stream` and `create_generic`.
`_create` builds an archive from a list of source paths in five stages:

1. it creates a writer handle;
2. it configures the handle: the format, an optional filter, and the encryption
   options and passphrase for ZIP;
3. it binds the handle to a sink through the entry point's opener;
4. it walks every source path on disk, writing a header and the payload of each
   entry;
5. it closes and frees the handle.

The calls that act on the writer handle, the disk reader or an entry are each
an `Event` appended to the writer's trace: configuration, sink binding, the disk
walk, descending, headers, data, and the releases. Three kinds of call are not
events. `archive_write_new` is the library's `canCreate` answer. A read of
`archive_error_string` is one of the library's messages. The `ArchiveEntry`
accessors and setters become fields of the walked entry. The C library itself
is a `Library` value. It records four things:

- whether `archive_write_new` yields a handle;
- at which positions of the trace a guarded call fails;
- what count `archive_write_data` reports at each position;
- the diagnostic string that can be read after a given number of calls.

A run's calls depend only on its inputs and on the library's earlier answers.
So an answer per position describes every possible library.

The model has two layers:

- **`CreatePlan`** (`create_plan.dfy`) gives the specification. A *plan* lists
  the calls `_create` makes and the exceptions it raises by itself. `Execute`
  follows a plan against a library and stops at the first failure. `CreateSpec`
  gives the trace and result of a whole run.
- **`ArchiveWrite`** (`archive_write.dfy`) is the imperative model. The
  `ArchiveWriter` class holds the handle's phase and its trace. The loops of
  `_create` become `while` loops. Each method ensures that its effect on the
  trace and the error it returns are exactly what following its part of the plan
  gives. `Create` therefore returns exactly `CreateSpec`'s result.

The properties of the plan are proved in four modules:

- `ExecuteLemmas` shows how runs compose.
- `PayloadProperties` covers entries and walks.
- `RunProperties` covers sources and whole runs that return normally.
- `RunFailures` covers runs that fail.

`Callbacks` models the adapters `create_generic` hands to `archive_write_open`.

## Model

| member | source | states |
|---|---|---|
| CreatePlan.StripLeadingSeparator | libarchive/adapters/archive_write.py:266-268 | an absolute pathname loses exactly its first character (`/` followed by the result gives back the input); a relative one is unchanged |
| CreatePlan.StrippedIsAbsoluteIff | libarchive/adapters/archive_write.py:266-268 | the stored name is still absolute exactly when the pathname starts with two separators |
| CreatePlan.ReadChunk | libarchive/adapters/archive_write.py:287 | `f.read(block_size)` returns a prefix of the unread bytes: all of them for a negative size, none for size 0, otherwise the smaller of the size and what is left |
| CreatePlan.CheckWritten | libarchive/adapters/archive_write.py:72-83 | a write reporting a count of 0 raises `ValueError` carrying the handle's diagnostic string; any other count raises nothing |
| CreatePlan.IsAbsolute | libarchive/adapters/archive_write.py:267 | `os.path.isabs` on a POSIX path: the name is non-empty and starts with `/` |
| CreatePlan.Chunks | libarchive/adapters/archive_write.py:286-291 | the successive reads of a file until one returns nothing; every chunk is non-empty and at most a positive read size (that they reassemble the file is `PayloadProperties.ChunksReassemble`) |
| CreatePlan.UsesEncryption | libarchive/adapters/archive_write.py:220-221 | options and passphrase are set exactly when a passphrase is given and the format is ZIP |
| CreatePlan.IsLinkCopy | libarchive/adapters/archive_write.py:281 | an entry is stored as a link, with its target and no data, exactly when its type is a symlink and its source path is a link on disk |
| CreatePlan.ToArchived | libarchive/adapters/archive_write.py:260-283 | the adapter handed back for a walked entry: its stripped pathname, its source path, whether it is a symlink, and its link target for a link copy |
| CreatePlan.FormatFilterPlan | libarchive/adapters/archive_write.py:199-207 | the planned calls of `_set_write_context`: the format, then the filter when one is given (proved ordered in `RunProperties.OkRunConfiguration`) |
| CreatePlan.EncryptionPlan | libarchive/adapters/archive_write.py:220-223 | the planned options then passphrase, for ZIP with a passphrase only |
| CreatePlan.ConfigPlan | libarchive/adapters/archive_write.py:219-223 | the configuration stage: the format and filter, then the encryption step (its calls are `RunProperties.ConfigEvents`) |
| CreatePlan.OpenerPlan | libarchive/adapters/archive_write.py:305-349 | each entry point's opener: `open_filename`, a raise for the stream opener, or the block framing then open (its calls are `RunProperties.OpenerEvents`) |
| CreatePlan.DataPlan | libarchive/adapters/archive_write.py:286-291 | one data write per chunk, in order (its calls are `PayloadProperties.DataEvents`) |
| CreatePlan.PayloadPlan | libarchive/adapters/archive_write.py:281-291 | nothing for a link copy, `OSError` for a file that cannot be opened, otherwise the data writes of its chunks (proved in `PayloadProperties.PayloadEvents`) |
| CreatePlan.EntryPlan | libarchive/adapters/archive_write.py:272-293 | descend, the header with the stripped name, the payload, then the release of the entry (proved in `PayloadProperties.EntryEvents`) |
| CreatePlan.WalkPlan | libarchive/adapters/archive_write.py:245-293 | each turn creates an entry and reads a header; EOF or exhaustion ends the walk, another non-OK code raises, OK emits the entry and goes on (proved in `PayloadProperties.WalkRaises` and `WalkFaultIsStopCode`) |
| CreatePlan.SourcePlan | libarchive/adapters/archive_write.py:240-296 | the disk reader is created and opened on the path, walked, then closed and freed |
| CreatePlan.SourcesPlan | libarchive/adapters/archive_write.py:237-296 | the sources in order (proved in `RunProperties.SourcesRaises` and `SourcesHeaders`) |
| CreatePlan.FinishPlan | libarchive/adapters/archive_write.py:300-301 | close, then free |
| CreatePlan.Plan | libarchive/adapters/archive_write.py:209-303 | the four stages of `_create` in order (proved in `RunProperties.PlanEvents`) |
| CreatePlan.Archived | libarchive/adapters/archive_write.py:245-270 | the entries one walk appends to `added`: one per OK result before the first other code (proved in `PayloadProperties.ArchivedUpToStop`) |
| CreatePlan.AllArchived | libarchive/adapters/archive_write.py:235-303 | `added`: every walk's entries, source by source (proved in `RunProperties.OkRunTrace`) |
| CreatePlan.Perform | libarchive/adapters/archive_write.py:51-151 | one call: it is always recorded; a data write fails exactly on a count of 0; a guarded call fails with the diagnostic string exactly when the library refuses it; any other call never fails |
| CreatePlan.FaultError | libarchive/adapters/archive_write.py:253-258 | the exception the pipeline raises by itself: `ArchiveError` with the status code and message for a bad header, `AttributeError` in the stream opener, `OSError` for a file that cannot be opened |
| CreatePlan.Execute | libarchive/adapters/archive_write.py:209-303 | a run follows a plan until it ends or the first failure, only ever extending the trace it started with (see `ExecuteLemmas.ExecuteCompletes` and `ExecuteMakesPrefix`) |
| CreatePlan.CreateSpec | libarchive/adapters/archive_write.py:209-303 | the whole of `_create`: `ValueError` without a handle, otherwise the run of the plan, returning `added` on normal return (tied to the imperative model by `ArchiveWrite.Create`; proved in the `OkRun` lemmas and `RunFailures`) |
| RunProperties.ConfigCalls | libarchive/adapters/archive_write.py:199-223 | the configuration calls, written out as a reference for `RunProperties.ConfigEvents` |
| RunProperties.OpenerCalls | libarchive/adapters/archive_write.py:305-349 | each opener's calls, written out as a reference for `RunProperties.OpenerEvents` |
| ArchiveWrite.ArchiveWriter.constructor | libarchive/adapters/archive_write.py:218 | a fresh handle is in the created phase with no calls made on it |
| ArchiveWrite.ArchiveWriter.Invoke | libarchive/adapters/archive_write.py:51-56 | a wrapped call is appended to the trace; a guarded call (close, free, options, passphrase, open_filename, header, format, filter) the library refuses raises `ArchiveError` with the diagnostic string, and the phase advances only on success |
| ArchiveWrite.ArchiveWriter.NextHeader | libarchive/adapters/archive_write.py:246-249 | a fresh entry is created, then the next header is read from the disk reader |
| ArchiveWrite.ArchiveWriter.WriteData | libarchive/adapters/archive_write.py:72-83 | a non-empty chunk is written and the count check is applied to the count the library reports |
| ArchiveWrite.SetWriteContext | libarchive/adapters/archive_write.py:199-207 | the format is set first, then the filter exactly when one is given; the run stops at the first refused call |
| ArchiveWrite.SetEncryption | libarchive/adapters/archive_write.py:220-223 | options then passphrase exactly when a passphrase is given and the format is ZIP; otherwise no call |
| ArchiveWrite.Configure | libarchive/adapters/archive_write.py:218-223 | the configuration calls of the plan, leaving the handle configured when none fails |
| ArchiveWrite.FileOpener | libarchive/adapters/archive_write.py:305-309 | `create_file` binds the handle with `open_filename` on the given path |
| ArchiveWrite.StreamOpener | libarchive/adapters/archive_write.py:311-315 | `create_stream`'s opener raises `AttributeError` before any call, because the descriptor it passes on is asked for its own `fileno()` |
| ArchiveWrite.GenericOpener | libarchive/adapters/archive_write.py:339-347 | bytes-in-last-block 1, then bytes-per-block `block_size`, then open with the callbacks, in that order |
| ArchiveWrite.Open | libarchive/adapters/archive_write.py:226 | the opener's calls, leaving the handle bound to its sink when none fails |
| ArchiveWrite.WritePayload | libarchive/adapters/archive_write.py:285-291 | the read loop writes each chunk read until a read returns nothing, stopping at the first zero count |
| ArchiveWrite.EmitEntry | libarchive/adapters/archive_write.py:260-293 | descend, a header with the stripped name, then the link target (no data) or the file's chunks, then the entry is freed |
| ArchiveWrite.WalkEntries | libarchive/adapters/archive_write.py:245-293 | the walk stops at the first EOF (or exhaustion); a code other than OK raises `ArchiveError` with that code; otherwise the entries collected are those reported OK |
| ArchiveWrite.ArchiveSource | libarchive/adapters/archive_write.py:237-296 | a disk reader is opened on the path, walked, then closed and freed |
| ArchiveWrite.ArchiveSources | libarchive/adapters/archive_write.py:235-296 | the sources are walked in order; `added` is the concatenation of every walk's OK entries |
| ArchiveWrite.Finish | libarchive/adapters/archive_write.py:298-301 | close, then free, leaving the handle freed |
| ArchiveWrite.Create | libarchive/adapters/archive_write.py:209-303 | the run makes exactly the calls and returns exactly the result of the plan; there is no handle only when creation failed; a normal return leaves the handle freed |
| ArchiveWrite.CreateFile | libarchive/adapters/archive_write.py:305-309 | `_create` with the file opener; the keyword defaults are those of `_create` |
| ArchiveWrite.CreateStream | libarchive/adapters/archive_write.py:311-315 | `_create` with the stream opener |
| ArchiveWrite.CreateGeneric | libarchive/adapters/archive_write.py:317-349 | `_create` with the callback opener; `block_size` frames the sink only, while chunks are read in `_create`'s own `block_size` (16384 unless passed positionally through `*args`), so no chunk written exceeds that read size |
| ExecuteLemmas.ExecuteCompletes | libarchive/adapters/archive_write.py:209-303 | a run that completes raised nothing and made exactly the planned calls |
| ExecuteLemmas.ExecuteMakesPrefix | libarchive/adapters/archive_write.py:209-303 | whatever happens, a run has made a prefix of the planned calls |
| ExecuteLemmas.WalkTurn | libarchive/adapters/archive_write.py:245-258 | one turn of the walk loop: EOF or exhaustion stops it, a non-OK code raises with that code and the message, OK emits the entry and goes on |
| ExecuteLemmas.PayloadTurn | libarchive/adapters/archive_write.py:286-291 | one turn of the read loop: an empty read stops it, otherwise the chunk is written and the loop goes on unless the write fails |
| PayloadProperties.ChunksReassemble | libarchive/adapters/archive_write.py:285-291 | the chunks read concatenate to the file's contents (to nothing when the read size is 0) |
| PayloadProperties.ChunksShape | libarchive/adapters/archive_write.py:286-289 | no chunks exactly when the file is empty or the size is 0; every chunk is non-empty and at most the size; all but the last are exactly the size; a negative size reads everything at once |
| PayloadProperties.PayloadEvents | libarchive/adapters/archive_write.py:281-291 | an entry's payload stage raises exactly when it is neither a link copy nor readable; it only writes data, and the bytes written are the entry's payload (none for a link copy) |
| PayloadProperties.EntryEvents | libarchive/adapters/archive_write.py:272-293 | an entry's planned calls are descend, one header with the stripped name, data writes only, then the entry's release; its plan raises exactly when the entry cannot be emitted |
| PayloadProperties.EntryWrites | libarchive/adapters/archive_write.py:279-291 | each entry's planned calls write one header, its stripped pathname, and its payload as data |
| PayloadProperties.EntryCounts | libarchive/adapters/archive_write.py:272-293 | an entry's planned calls free it once and create no entry |
| PayloadProperties.StopIndex | libarchive/adapters/archive_write.py:251-253 | the walk's stop position: every result before it is OK and the one at it, if any, is not |
| PayloadProperties.ArchivedUpToStop | libarchive/adapters/archive_write.py:245-270 | a walk hands back one entry per OK result before the stop, each the walked entry with its stripped name and, for a link copy, its target |
| PayloadProperties.WalkRaises | libarchive/adapters/archive_write.py:245-293 | a walk raises nothing exactly when it ends at EOF or runs out and every entry before that can be emitted |
| PayloadProperties.WalkFaultIsStopCode | libarchive/adapters/archive_write.py:251-258 | the only status code a walk raises with is the one at its stop, and it is neither OK nor EOF |
| PayloadProperties.WalkEventsAreEntryLevel | libarchive/adapters/archive_write.py:245-293 | a walk's planned calls are all entry-level, and every chunk among them is non-empty and within the read size |
| PayloadProperties.WalkHeaders | libarchive/adapters/archive_write.py:270-279 | the headers among a walk's planned calls name the entries it hands back, in order (for a run that returns normally, `RunProperties.OkRunHeaders`) |
| PayloadProperties.WalkLeaksOneEntry | libarchive/adapters/archive_write.py:246-252 | a walk's planned calls create one more entry than they free: the one whose read reported the stop is never freed |
| PayloadProperties.WalkData | libarchive/adapters/archive_write.py:285-291 | the data among a walk's planned calls is the payloads of its entries, in order |
| RunProperties.SourcesEventsAreEntryLevel | libarchive/adapters/archive_write.py:237-296 | the sources loop's planned calls are all entry-level |
| RunProperties.SourcesHeaders | libarchive/adapters/archive_write.py:237-279 | the headers among the sources loop's planned calls name the entries in `added`, in order |
| RunProperties.SourcesLeakOneEntryEach | libarchive/adapters/archive_write.py:237-296 | the sources loop's planned calls leave one entry unreleased per source |
| RunProperties.SourcesRaises | libarchive/adapters/archive_write.py:237-296 | the sources loop raises nothing exactly when every walk ends cleanly |
| RunProperties.SourcesWalkFault | libarchive/adapters/archive_write.py:251-258 | a status-code raise in the sources loop is the stop code of some source's walk |
| RunProperties.SourcesData | libarchive/adapters/archive_write.py:237-291 | the data among the sources loop's planned calls is every entry's payload, in order (for a run that returns normally, `RunProperties.OkRunData`) |
| RunProperties.ConfigEvents | libarchive/adapters/archive_write.py:218-223 | configuration raises nothing and makes the format call, the filter call when given, and options then passphrase for ZIP with a passphrase, all configuration calls |
| RunProperties.OpenerEvents | libarchive/adapters/archive_write.py:305-349 | an opener raises exactly when it is the stream opener; the file opener calls `open_filename`, the callback opener the block framing then open |
| RunProperties.FinishEvents | libarchive/adapters/archive_write.py:300-301 | close then free |
| RunProperties.PlanEvents | libarchive/adapters/archive_write.py:209-303 | the planned calls are the four stages' calls in order, and the plan raises nothing exactly when the opener is not a stream and every walk ends cleanly |
| RunProperties.OkRunTrace | libarchive/adapters/archive_write.py:209-303 | on normal return the opener was not a stream, every walk ended cleanly, the trace is every stage's calls, and the result is every walk's OK entries |
| RunProperties.OkRunConfiguration | libarchive/adapters/archive_write.py:199-223 | on normal return the format was set first; a filter call appears exactly when a filter was given, right after the format; options and passphrase appear exactly when a passphrase was given for ZIP, options right before the passphrase |
| RunProperties.OkRunOrder | libarchive/adapters/archive_write.py:226 | on normal return the sink was bound once, as the given opener does it, after every configuration call and before every entry-level call; close and free each ran once, at the end, in that order |
| RunProperties.OkRunHeaders | libarchive/adapters/archive_write.py:279 | on normal return the headers written name the returned entries, in order |
| RunProperties.OkRunData | libarchive/adapters/archive_write.py:285-291 | on normal return the data written is the payload of every returned entry, in order |
| RunProperties.OkRunLeaks | libarchive/adapters/archive_write.py:246-293 | on normal return one entry per source path was created and never freed |
| RunFailures.CooperativeRunSucceeds | libarchive/adapters/archive_write.py:209-303 | against a library that accepts every call, a run returns normally exactly when the opener is not a stream and every walk ends cleanly, and then it makes every planned call |
| RunFailures.RunIsPrefixOfPlan | libarchive/adapters/archive_write.py:209-303 | whatever the library does, the calls made are a prefix of the planned calls and the first is the format |
| RunFailures.WrittenChunksBounded | libarchive/adapters/archive_write.py:285-291 | whatever the library does, every chunk handed to `archive_write_data` is non-empty and at most a positive read size |
| RunFailures.ExecuteHeaderFailure | libarchive/adapters/archive_write.py:253-258 | a header-read error comes only from a planned raise with that status code |
| RunFailures.HeaderFailureCarriesStopCode | libarchive/adapters/archive_write.py:251-258 | a run raising a header-read error raises it with the code some source's walk stopped at, neither OK nor EOF |
| RunFailures.StreamCreateAlwaysFails | libarchive/adapters/archive_write.py:172-173 | `create_stream` never returns normally; when the handle exists and configuration succeeds it raises `AttributeError` after exactly the configuration calls, before binding any sink |
| Callbacks.HookAdapter | libarchive/adapters/archive_write.py:327-337 | the open and close adapters call the hook once exactly when one is given, and return ARCHIVE_OK either way |
| Callbacks.WriteAdapter | libarchive/adapters/archive_write.py:323-325 | the write adapter forwards exactly `length` bytes from the start of the buffer, with `length`, and returns the user callback's answer |
| Callbacks.WriteAdapterIgnoresTail | libarchive/adapters/archive_write.py:323-325 | the write adapter depends only on the first `length` bytes of the buffer |

## Where the code differs from its documented behaviour

The model follows the code in each of these cases.

- **Absolute names.** The stored name is meant to be never absolute. The code
  strips a single leading character, so `//a` is stored as `/a`
  (`CreatePlan.StrippedIsAbsoluteIff`).
- **`create_stream`.** It is meant to bind the archive to a stream's descriptor.
  It passes `s.fileno()`, an integer, to `_archive_write_open_fd`, which then
  calls `fileno()` on that integer. So for a stream that has a descriptor it
  always raises `AttributeError` (`RunFailures.StreamCreateAlwaysFails`). A
  stream without one, such as `io.BytesIO`, raises `io.UnsupportedOperation`
  from its own `fileno()` instead (line 313).
- **`create_generic`'s `block_size`.** It is not passed on to `_create`.
  `create_generic` uses it only for bytes-per-block. Payloads are read in
  chunks of `_create`'s own `block_size`. A caller can reach that one only
  positionally, through `create_generic`'s `*args`, so a keyword call reads in
  chunks of 16384 bytes whatever `block_size` it passes
  (`ArchiveWrite.CreateGeneric`).
- **Directories.** An entry that is not a symlink with a link on disk is opened
  with `open(sourcepath, 'rb')`. That raises `OSError` for a directory, so a run
  over a directory does not return normally. The model has an entry's
  `readable` flag and the `SourceUnreadable` error for this.
- **Cleanup on error.** Nothing is released on the error path. A raise leaves
  the writer handle and the disk reader open. The model's trace shows this:
  after a failure no close or free is made.
- **One entry leaked per source.** The entry created for the read that reports
  EOF is never freed (`PayloadProperties.WalkLeaksOneEntry`,
  `RunProperties.OkRunLeaks`).
- **Write counts.** Only a count of exactly 0 is an error. A negative count from
  `archive_write_data` passes silently.
- **`block_size` of 0.** `f.read(0)` returns nothing, so no data is written for
  any entry.

## Left out

- The operating system and filesystem are inputs, not modelled code. A source's
  disk walk is its sequence of `WalkStep`s. An entry records three things:
  whether `os.path.islink` holds, what `os.readlink` returns, and whether its
  file can be opened. Its contents are the bytes the reads return.
- The C library is not part of this model. It appears only through the
  `Library` answers.
- Calls whose results the code ignores never fail in the model. These are
  `archive_write_open`, the two block-size calls, and every disk-reader and
  entry call.
- The disk reader's diagnostic string and the writer's share one positional
  source of messages.
- The format and filter adapters (`archive_write_set_format.py` and
  `archive_write_add_filter.py`) are not part of this model. The format call
  and the filter call are each one guarded call. The encoders and filters
  behind them are left out.
- The passphrase binding (`archive_write_set_passphrase.py`) is not part of
  this model. The passphrase is passed to the guarded call as given.
- The `ArchiveEntry` adapter (`archive_entry.py`) is not part of this model.
  Its pathname, source path, file type and symlink target are fields of
  `DiskEntry` and `ArchivedEntry`.
- The wrappers `_create` does not use are left out:
  - lines 28-49: disk writer, disk options, finish entry;
  - lines 103-131: the named filter calls;
  - lines 153-170: standard lookup, memory sink.
- Logging (lines 225 and 298) is left out. So is the ctypes marshalling: the
  pointer casts and the `ARCHIVE_*_CALLBACK` wrappers.
- UTF-8 encoding of paths, options and passphrase is left out. Strings stay
  sequences of characters.
- The write adapter is not connected to the bytes libarchive assembles into
  blocks. The archive's on-disk encoding is not modelled.
- The `ArchiveEntry` objects in `added` wrap entries that line 293 frees, and
  they refer to the disk reader that line 296 frees. So the returned adapters
  refer to freed handles. This aliasing is not modelled: an `ArchivedEntry` is
  a value.
- A stream whose own `fileno()` fails is left out. The stream opener models a
  stream that has a descriptor. For a stream without one, such as
  `io.BytesIO`, line 313 raises `io.UnsupportedOperation` rather than
  `AttributeError`.
- Paths follow POSIX. `os.path.isabs` and the strip at line 268 are modelled
  for `/`-separated names. On Windows, `C:\a` is absolute and the strip would
  remove the `C`.
- ArchiveWrite.ArchiveWriter.Invoke: a guarded call fails only according to the
  library's answer. Exceptions raised inside the Python wrapper itself, such as
  an encoding error, are not modelled.
