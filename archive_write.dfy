/**
 * The archive-creation pipeline of libarchive/adapters/archive_write.py:
 * `_create` and the three openers, over a writer handle that keeps its
 * phase and the trace of the calls made on it. Each method is proved to
 * make exactly the calls, and raise exactly the errors, that following its
 * part of the plan in CreatePlan against the same library does.
 */
module ArchiveWrite {
  import opened ArchiveTypes
  import opened CreatePlan
  import opened ExecuteLemmas
  import RunFailures

  /** The handle `archive_write_new` returns, with the calls made on it. */
  class ArchiveWriter {
    const lib: Library
    var phase: Phase
    var trace: seq<Event>

    constructor (lib: Library)
      ensures this.lib == lib && phase == Created && trace == []
    {
      this.lib := lib;
      phase := Created;
      trace := [];
    }

    /** A wrapped library call other than a data write. */
    method Invoke(e: Event) returns (failure: Option<Error>)
      requires Allowed(phase, e) && !e.WriteData?
      modifies this
      ensures trace == old(trace) + [e]
      ensures Run(trace, failure) == Perform(lib, old(trace), e)
      ensures phase == if failure.None? then Step(old(phase), e) else old(phase)
    {
      var before := trace;
      trace := trace + [e];
      if IsGuarded(e) && !lib.Accepts(before) {
        failure := Some(CallFailed(e, lib.ErrorString(trace)));
      } else {
        failure := None;
        phase := Step(phase, e);
      }
    }

    /** A fresh entry, then `archive_read_next_header2` on the disk reader; neither can fail here. */
    method NextHeader()
      requires IsBound(phase)
      modifies this`trace
      ensures trace == old(trace) + [EntryNew, ReadNextHeader]
    {
      trace := trace + [EntryNew, ReadNextHeader];
    }

    /** `_archive_write_data`: only ever given a non-empty chunk; a count of zero raises. */
    method WriteData(data: seq<byte>) returns (failure: Option<Error>)
      requires phase == Writing && data != []
      modifies this`trace
      ensures Run(trace, failure) == Perform(lib, old(trace), Event.WriteData(data))
    {
      var n := lib.Written(trace, data);
      trace := trace + [Event.WriteData(data)];
      failure := CheckWritten(n, lib.ErrorString(trace));
    }
  }

  /** `_set_write_context`: the format, then the filter if one is given. */
  method SetWriteContext(w: ArchiveWriter, format: int, filter: Option<int>)
    returns (failure: Option<Error>)
    requires w.phase == Created
    modifies w
    ensures Run(w.trace, failure) == Execute(w.lib, old(w.trace), FormatFilterPlan(format, filter))
    ensures failure.None? ==> w.phase == Configured
  {
    ghost var t0 := w.trace;
    failure := w.Invoke(SetFormat(format));
    if failure.Some? || filter.None? {
      return;
    }
    ghost var t1 := w.trace;
    failure := w.Invoke(AddFilter(filter.value));
    assert Execute(w.lib, t1, [Do(AddFilter(filter.value))]) == Run(w.trace, failure);
  }

  /** The encryption step of `_create`: options, then the passphrase, for ZIP only. */
  method SetEncryption(w: ArchiveWriter, format: int, passphrase: Option<string>, options: string)
    returns (failure: Option<Error>)
    requires w.phase == Configured
    modifies w
    ensures Run(w.trace, failure) == Execute(w.lib, old(w.trace), EncryptionPlan(format, passphrase, options))
    ensures failure.None? ==> w.phase == Configured
  {
    if !UsesEncryption(passphrase, format) {
      return None;
    }
    ghost var t0 := w.trace;
    failure := w.Invoke(SetOptions(options));
    if failure.Some? {
      return;
    }
    ghost var t1 := w.trace;
    failure := w.Invoke(SetPassphrase(passphrase.value));
    assert Execute(w.lib, t1, [Do(SetPassphrase(passphrase.value))]) == Run(w.trace, failure);
  }

  /** `create_file`'s opener. */
  method FileOpener(w: ArchiveWriter, path: string) returns (failure: Option<Error>)
    requires w.phase == Configured
    modifies w
    ensures Run(w.trace, failure) == Execute(w.lib, old(w.trace), OpenerPlan(FileSink(path)))
    ensures failure.None? ==> w.phase == SinkBound
  {
    failure := w.Invoke(OpenFilename(path));
  }

  /**
   * `create_stream`'s opener hands `s.fileno()`, an integer, to
   * `_archive_write_open_fd`, which asks that integer for its `fileno()`:
   * the opener raises before any call reaches the library.
   */
  method StreamOpener(w: ArchiveWriter, fd: int) returns (failure: Option<Error>)
    requires w.phase == Configured
    ensures Run(w.trace, failure) == Execute(w.lib, w.trace, OpenerPlan(StreamSink(fd)))
  {
    failure := Some(StreamHasNoFileno);
  }

  /** `create_generic`'s opener: block framing, then the callbacks. */
  method GenericOpener(w: ArchiveWriter, blockSize: int) returns (failure: Option<Error>)
    requires w.phase == Configured
    modifies w
    ensures Run(w.trace, failure) == Execute(w.lib, old(w.trace), OpenerPlan(CallbackSink(blockSize)))
    ensures failure.None? ==> w.phase == SinkBound
  {
    ghost var t0 := w.trace;
    failure := w.Invoke(SetBytesInLastBlock(1));
    ghost var t1 := w.trace;
    failure := w.Invoke(SetBytesPerBlock(blockSize));
    ghost var t2 := w.trace;
    failure := w.Invoke(OpenCallbacks);
    assert Execute(w.lib, t2, [Do(OpenCallbacks)]) == Run(w.trace, None);
    assert Execute(w.lib, t1, [Do(SetBytesPerBlock(blockSize)), Do(OpenCallbacks)]) == Run(w.trace, None);
  }

  /** The read loop of one regular entry: write each chunk `f.read` returns until it returns nothing. */
  method WritePayload(w: ArchiveWriter, contents: seq<byte>, readSize: int)
    returns (failure: Option<Error>)
    requires w.phase == Writing
    modifies w`trace
    ensures Run(w.trace, failure) == Execute(w.lib, old(w.trace), DataPlan(Chunks(contents, readSize)))
  {
    ghost var goal := Execute(w.lib, w.trace, DataPlan(Chunks(contents, readSize)));
    var unread := contents;
    while true
      invariant goal == Execute(w.lib, w.trace, DataPlan(Chunks(unread, readSize)))
      decreases |unread|
    {
      PayloadTurn(w.lib, w.trace, unread, readSize);
      var data := ReadChunk(unread, readSize);
      if data == [] {
        return None;
      }
      failure := w.WriteData(data);
      if failure.Some? {
        return;
      }
      unread := unread[|data|..];
    }
  }

  /** One walked entry after it was recorded: descend, header, then link target or data. */
  method EmitEntry(w: ArchiveWriter, e: DiskEntry, readSize: int) returns (failure: Option<Error>)
    requires IsBound(w.phase)
    modifies w
    ensures Run(w.trace, failure) == Execute(w.lib, old(w.trace), EntryPlan(e, readSize))
    ensures IsBound(w.phase)
    ensures failure.None? ==> w.phase == Writing
  {
    EntryStages(w.lib, w.trace, e, readSize);
    failure := w.Invoke(Descend);
    failure := w.Invoke(WriteHeader(StripLeadingSeparator(e.pathname)));
    if failure.Some? {
      return;
    }
    if IsLinkCopy(e) {
      // the link target is recorded on the returned entry; no data is written
    } else if !e.readable {
      return Some(SourceUnreadable(e.sourcePath));
    } else {
      failure := WritePayload(w, e.contents, readSize);
      if failure.Some? {
        return;
      }
    }
    failure := w.Invoke(EntryFree);
  }

  /** The `while 1` loop over the disk walker's results for one source. */
  method WalkEntries(w: ArchiveWriter, walk: seq<WalkStep>, readSize: int)
    returns (entries: seq<ArchivedEntry>, failure: Option<Error>)
    requires IsBound(w.phase)
    modifies w
    ensures Run(w.trace, failure) == Execute(w.lib, old(w.trace), WalkPlan(walk, readSize))
    ensures IsBound(w.phase)
    ensures failure.None? ==> entries == Archived(walk)
  {
    ghost var goal := Execute(w.lib, w.trace, WalkPlan(walk, readSize));
    entries := [];
    var rest := walk;
    while true
      invariant IsBound(w.phase)
      invariant goal == Execute(w.lib, w.trace, WalkPlan(rest, readSize))
      invariant Archived(walk) == entries + Archived(rest)
      decreases |rest|
    {
      WalkTurn(w.lib, w.trace, rest, readSize);
      w.NextHeader();
      if rest == [] || rest[0].code == ARCHIVE_EOF {
        return entries, None;
      }
      var step := rest[0];
      if step.code != ARCHIVE_OK {
        return entries, Some(HeaderReadFailed(step.code, w.lib.ErrorString(w.trace)));
      }
      ArchivedTurn(entries, rest);
      entries := entries + [ToArchived(step.entry)];
      failure := EmitEntry(w, step.entry, readSize);
      if failure.Some? {
        return;
      }
      rest := rest[1..];
    }
  }

  /** One element of `files`: open a disk reader on its path, walk it, close and free the reader. */
  method ArchiveSource(w: ArchiveWriter, src: Source, readSize: int)
    returns (entries: seq<ArchivedEntry>, failure: Option<Error>)
    requires IsBound(w.phase)
    modifies w
    ensures Run(w.trace, failure) == Execute(w.lib, old(w.trace), SourcePlan(src, readSize))
    ensures IsBound(w.phase)
    ensures failure.None? ==> entries == Archived(src.walk)
  {
    SourceStages(w.lib, w.trace, src, readSize);
    failure := w.Invoke(DiskNew);
    failure := w.Invoke(DiskOpen(src.path));
    assert w.trace == old(w.trace) + [DiskNew, DiskOpen(src.path)];
    entries, failure := WalkEntries(w, src.walk, readSize);
    if failure.Some? {
      return;
    }
    ExecuteTwo(w.lib, w.trace, DiskClose, DiskFree);
    failure := w.Invoke(DiskClose);
    failure := w.Invoke(DiskFree);
  }

  /** Lines 219-223 of `_create`: the write context, then encryption for ZIP. */
  method Configure(w: ArchiveWriter, format: int, filter: Option<int>,
                   passphrase: Option<string>, options: string)
    returns (failure: Option<Error>)
    requires w.phase == Created
    modifies w
    ensures Run(w.trace, failure) == Execute(w.lib, old(w.trace), ConfigPlan(format, filter, passphrase, options))
    ensures failure.None? ==> w.phase == Configured
  {
    ConfigStages(w.lib, w.trace, format, filter, passphrase, options);
    failure := SetWriteContext(w, format, filter);
    if failure.Some? {
      return;
    }
    failure := SetEncryption(w, format, passphrase, options);
  }

  /** `opener(a)`: the opener of whichever façade was called. */
  method Open(w: ArchiveWriter, opener: Opener) returns (failure: Option<Error>)
    requires w.phase == Configured
    modifies w
    ensures Run(w.trace, failure) == Execute(w.lib, old(w.trace), OpenerPlan(opener))
    ensures failure.None? ==> w.phase == SinkBound
  {
    match opener {
      case FileSink(path) =>
        failure := FileOpener(w, path);
      case StreamSink(fd) =>
        failure := StreamOpener(w, fd);
      case CallbackSink(blockSize) =>
        failure := GenericOpener(w, blockSize);
    }
  }

  /** The `for filepath in files` loop, accumulating `added`. */
  method ArchiveSources(w: ArchiveWriter, files: seq<Source>, readSize: int)
    returns (added: seq<ArchivedEntry>, failure: Option<Error>)
    requires IsBound(w.phase)
    modifies w
    ensures Run(w.trace, failure) == Execute(w.lib, old(w.trace), SourcesPlan(files, readSize))
    ensures IsBound(w.phase)
    ensures failure.None? ==> added == AllArchived(files)
  {
    ghost var goal := Execute(w.lib, w.trace, SourcesPlan(files, readSize));
    added := [];
    var rest := files;
    while rest != []
      invariant IsBound(w.phase)
      invariant goal == Execute(w.lib, w.trace, SourcesPlan(rest, readSize))
      invariant AllArchived(files) == added + AllArchived(rest)
      decreases |rest|
    {
      SourcesTurn(w.lib, w.trace, rest, readSize);
      AllArchivedTurn(added, rest);
      var entries;
      entries, failure := ArchiveSource(w, rest[0], readSize);
      if failure.Some? {
        return;
      }
      added := added + entries;
      rest := rest[1..];
    }
    failure := None;
  }

  /** Lines 300-301 of `_create`: close, then free. */
  method Finish(w: ArchiveWriter) returns (failure: Option<Error>)
    requires IsBound(w.phase)
    modifies w
    ensures Run(w.trace, failure) == Execute(w.lib, old(w.trace), FinishPlan())
    ensures failure.None? ==> w.phase == Freed
  {
    failure := w.Invoke(Close);
    if failure.Some? {
      return;
    }
    ghost var t1 := w.trace;
    failure := w.Invoke(Free);
    assert Execute(w.lib, t1, [Do(Free)]) == Run(w.trace, failure);
  }

  /** `_create`: configure, bind the sink, walk every source, then close and free. */
  method Create(lib: Library, opener: Opener, format: int, files: seq<Source>,
                passphrase: Option<string> := None, options: string := DEFAULT_OPTIONS,
                filter: Option<int> := None, readSize: int := DEFAULT_BLOCK_SIZE)
    returns (w: ArchiveWriter?, result: Result<seq<ArchivedEntry>, Error>)
    ensures result == CreateSpec(lib, opener, format, files, passphrase, options, filter, readSize).result
    ensures w == null <==> !lib.canCreate
    ensures w != null ==> (fresh(w) && w.lib == lib &&
              w.trace == CreateSpec(lib, opener, format, files, passphrase, options, filter, readSize).trace)
    ensures result.Ok? ==> w != null && w.phase == Freed
  {
    if !lib.canCreate {
      return null, Err(CreateFailed);
    }
    w := new ArchiveWriter(lib);
    PlanStages(lib, opener, format, files, passphrase, options, filter, readSize);
    var failure := Configure(w, format, filter, passphrase, options);
    if failure.Some? {
      return w, Err(failure.value);
    }
    failure := Open(w, opener);
    if failure.Some? {
      return w, Err(failure.value);
    }
    var added;
    added, failure := ArchiveSources(w, files, readSize);
    if failure.Some? {
      return w, Err(failure.value);
    }
    failure := Finish(w);
    if failure.Some? {
      return w, Err(failure.value);
    }
    return w, Ok(added);
  }

  /** `create_file`: bind the archive to a named file. */
  method CreateFile(lib: Library, filepath: string, format: int, files: seq<Source>,
                    passphrase: Option<string> := None, options: string := DEFAULT_OPTIONS,
                    filter: Option<int> := None, blockSize: int := DEFAULT_BLOCK_SIZE)
    returns (w: ArchiveWriter?, result: Result<seq<ArchivedEntry>, Error>)
    ensures result == CreateSpec(lib, FileSink(filepath), format, files, passphrase, options, filter, blockSize).result
    ensures w != null ==> (fresh(w) &&
              w.trace == CreateSpec(lib, FileSink(filepath), format, files, passphrase, options, filter, blockSize).trace)
  {
    w, result := Create(lib, FileSink(filepath), format, files, passphrase, options, filter, blockSize);
  }

  /** `create_stream`: bind the archive to an open stream's descriptor. */
  method CreateStream(lib: Library, fd: int, format: int, files: seq<Source>,
                      passphrase: Option<string> := None, options: string := DEFAULT_OPTIONS,
                      filter: Option<int> := None, blockSize: int := DEFAULT_BLOCK_SIZE)
    returns (w: ArchiveWriter?, result: Result<seq<ArchivedEntry>, Error>)
    ensures result == CreateSpec(lib, StreamSink(fd), format, files, passphrase, options, filter, blockSize).result
    ensures w != null ==> (fresh(w) &&
              w.trace == CreateSpec(lib, StreamSink(fd), format, files, passphrase, options, filter, blockSize).trace)
  {
    w, result := Create(lib, StreamSink(fd), format, files, passphrase, options, filter, blockSize);
  }

  /**
   * `create_generic`: its own `block_size` frames the callback sink only.
   * The size payloads are read in is `_create`'s `block_size`, which a
   * caller can reach only positionally, through `create_generic`'s `*args`;
   * otherwise it keeps its default of 16384, whatever the framing.
   */
  method CreateGeneric(lib: Library, format: int, files: seq<Source>, blockSize: int := DEFAULT_BLOCK_SIZE,
                       passphrase: Option<string> := None, options: string := DEFAULT_OPTIONS,
                       filter: Option<int> := None, readSize: int := DEFAULT_BLOCK_SIZE)
    returns (w: ArchiveWriter?, result: Result<seq<ArchivedEntry>, Error>)
    ensures result == CreateSpec(lib, CallbackSink(blockSize), format, files, passphrase, options, filter, readSize).result
    ensures w != null ==> (fresh(w) &&
              w.trace == CreateSpec(lib, CallbackSink(blockSize), format, files, passphrase, options, filter, readSize).trace)
    ensures w != null ==> forall i :: 0 <= i < |w.trace| && w.trace[i].WriteData? ==>
              w.trace[i].chunk != [] && (readSize > 0 ==> |w.trace[i].chunk| <= readSize)
  {
    w, result := Create(lib, CallbackSink(blockSize), format, files, passphrase, options, filter, readSize);
    RunFailures.WrittenChunksBounded(lib, CallbackSink(blockSize), format, files, passphrase, options, filter, readSize);
  }
}
