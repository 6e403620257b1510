/**
 * What a whole run of `_create` guarantees: the order of its calls, the
 * configuration it applies, the entries it hands back and the headers and
 * data it writes when it returns normally, and the errors it raises.
 */
module RunProperties {
  import opened ArchiveTypes
  import opened CreatePlan
  import opened ExecuteLemmas
  import opened PayloadProperties

  // ---- the sources loop ----

  /** One source: open the disk reader, its walk, close and free the reader. */
  lemma SourceFrame(src: Source, readSize: int)
    ensures Events(SourcePlan(src, readSize))
         == [DiskNew, DiskOpen(src.path)] + Events(WalkPlan(src.walk, readSize)) + [DiskClose, DiskFree]
    ensures NoRaise(SourcePlan(src, readSize)) <==> NoRaise(WalkPlan(src.walk, readSize))
  {
    var opening := [Do(DiskNew), Do(DiskOpen(src.path))];
    var closing := [Do(DiskClose), Do(DiskFree)];
    var walk := WalkPlan(src.walk, readSize);
    assert SourcePlan(src, readSize) == opening + walk + closing;
    EventsAppend(opening + walk, closing);
    EventsAppend(opening, walk);
    NoRaiseAppend(opening + walk, closing);
    NoRaiseAppend(opening, walk);
    assert Events(opening) == [DiskNew, DiskOpen(src.path)] by {
      assert opening[1..][1..] == [];
    }
    assert Events(closing) == [DiskClose, DiskFree] by {
      assert closing[1..][1..] == [];
    }
  }

  /** The sources loop, one source at a time. */
  lemma SourcesFrame(files: seq<Source>, readSize: int)
    requires files != []
    ensures Events(SourcesPlan(files, readSize))
         == Events(SourcePlan(files[0], readSize)) + Events(SourcesPlan(files[1..], readSize))
    ensures NoRaise(SourcesPlan(files, readSize))
        <==> NoRaise(SourcePlan(files[0], readSize)) && NoRaise(SourcesPlan(files[1..], readSize))
  {
    EventsAppend(SourcePlan(files[0], readSize), SourcesPlan(files[1..], readSize));
    NoRaiseAppend(SourcePlan(files[0], readSize), SourcesPlan(files[1..], readSize));
  }

  /** Every planned call of the sources loop is an entry-level call. */
  lemma {:induction false} SourcesEventsAreEntryLevel(files: seq<Source>, readSize: int)
    ensures forall e :: e in Events(SourcesPlan(files, readSize)) ==> IsEntryLevel(e, readSize)
    decreases |files|
  {
    if files != [] {
      SourcesFrame(files, readSize);
      SourceFrame(files[0], readSize);
      WalkEventsAreEntryLevel(files[0].walk, readSize);
      SourcesEventsAreEntryLevel(files[1..], readSize);
    }
  }

  /** One source's planned calls write a header per entry of its walk it hands back, and those entries' payloads. */
  lemma SourceWrites(src: Source, readSize: int)
    ensures Headers(Events(SourcePlan(src, readSize))) == Pathnames(Archived(src.walk))
    ensures Data(Events(SourcePlan(src, readSize))) == WalkPayload(src.walk, readSize)
  {
    var opening := [DiskNew, DiskOpen(src.path)];
    var closed := [DiskClose, DiskFree];
    var wev := Events(WalkPlan(src.walk, readSize));
    SourceFrame(src, readSize);
    WalkHeaders(src.walk, readSize);
    WalkData(src.walk, readSize);
    HeadersAppend(opening + wev, closed);
    HeadersAppend(opening, wev);
    DataAppend(opening + wev, closed);
    DataAppend(opening, wev);
    NoHeaders(opening);
    NoHeaders(closed);
    NoData(opening);
    NoData(closed);
  }

  /** The sources loop's planned calls write one header per entry it hands back, in order. */
  lemma {:induction false} SourcesHeaders(files: seq<Source>, readSize: int)
    ensures Headers(Events(SourcesPlan(files, readSize))) == Pathnames(AllArchived(files))
    decreases |files|
  {
    if files != [] {
      SourcesFrame(files, readSize);
      SourceWrites(files[0], readSize);
      SourcesHeaders(files[1..], readSize);
      HeadersAppend(Events(SourcePlan(files[0], readSize)), Events(SourcesPlan(files[1..], readSize)));
      PathnamesAppend(Archived(files[0].walk), AllArchived(files[1..]));
    }
  }

  /** The disk reader's own calls neither create nor release an entry. */
  lemma SourceLeaksOneEntry(src: Source, readSize: int)
    ensures Count(EntryNew, Events(SourcePlan(src, readSize)))
         == Count(EntryFree, Events(SourcePlan(src, readSize))) + 1
  {
    var opening := [DiskNew, DiskOpen(src.path)];
    var closed := [DiskClose, DiskFree];
    var wev := Events(WalkPlan(src.walk, readSize));
    SourceFrame(src, readSize);
    WalkLeaksOneEntry(src.walk, readSize);
    CountPair(EntryNew, DiskNew, DiskOpen(src.path));
    CountPair(EntryFree, DiskNew, DiskOpen(src.path));
    CountPair(EntryNew, DiskClose, DiskFree);
    CountPair(EntryFree, DiskClose, DiskFree);
    CountAppend(EntryNew, opening + wev, closed);
    CountAppend(EntryNew, opening, wev);
    CountAppend(EntryFree, opening + wev, closed);
    CountAppend(EntryFree, opening, wev);
  }

  /** The sources loop's planned calls leave one entry unreleased per source. */
  lemma {:induction false} SourcesLeakOneEntryEach(files: seq<Source>, readSize: int)
    ensures Count(EntryNew, Events(SourcesPlan(files, readSize)))
         == Count(EntryFree, Events(SourcesPlan(files, readSize))) + |files|
    decreases |files|
  {
    if files != [] {
      var sev := Events(SourcePlan(files[0], readSize));
      var rest := Events(SourcesPlan(files[1..], readSize));
      SourcesFrame(files, readSize);
      SourceLeaksOneEntry(files[0], readSize);
      SourcesLeakOneEntryEach(files[1..], readSize);
      CountAppend(EntryNew, sev, rest);
      CountAppend(EntryFree, sev, rest);
    }
  }

  /** A source list whose every walk ends at ARCHIVE_EOF, or runs out, with emittable entries. */
  predicate AllWalksEndCleanly(files: seq<Source>) {
    forall j :: 0 <= j < |files| ==> WalkEndsCleanly(files[j].walk)
  }

  /** The sources loop raises nothing exactly when every walk ends cleanly. */
  lemma {:induction false} SourcesRaises(files: seq<Source>, readSize: int)
    ensures NoRaise(SourcesPlan(files, readSize)) <==> AllWalksEndCleanly(files)
    decreases |files|
  {
    if files != [] {
      SourcesFrame(files, readSize);
      SourceFrame(files[0], readSize);
      WalkRaises(files[0].walk, readSize);
      SourcesRaises(files[1..], readSize);
      if AllWalksEndCleanly(files) {
        forall j | 0 <= j < |files| - 1 ensures WalkEndsCleanly(files[1..][j].walk) {
          assert files[1..][j] == files[j + 1];
        }
      }
      if AllWalksEndCleanly(files[1..]) && WalkEndsCleanly(files[0].walk) {
        forall j | 1 <= j < |files| ensures WalkEndsCleanly(files[j].walk) {
          assert files[j] == files[1..][j - 1];
        }
      }
    }
  }

  /** A walk of `src` stopped by a status code other than ARCHIVE_OK and ARCHIVE_EOF. */
  predicate StopsWithCode(walk: seq<WalkStep>, c: int) {
    var n := StopIndex(walk);
    n < |walk| && walk[n].code == c && c != ARCHIVE_OK && c != ARCHIVE_EOF
  }

  /** A raise for a status code in the sources loop comes from some source's stop. */
  lemma {:induction false} SourcesWalkFault(files: seq<Source>, readSize: int, c: int)
    requires Raise(WalkFault(c)) in SourcesPlan(files, readSize)
    ensures exists j :: 0 <= j < |files| && StopsWithCode(files[j].walk, c)
    decreases |files|
  {
    var src := files[0];
    var walk := WalkPlan(src.walk, readSize);
    var opening := [Do(DiskNew), Do(DiskOpen(src.path))];
    var closing := [Do(DiskClose), Do(DiskFree)];
    assert SourcesPlan(files, readSize) == opening + walk + closing + SourcesPlan(files[1..], readSize);
    if Raise(WalkFault(c)) in walk {
      WalkFaultIsStopCode(src.walk, readSize, c);
      assert StopsWithCode(files[0].walk, c);
    } else {
      SourcesWalkFault(files[1..], readSize, c);
      var j :| 0 <= j < |files[1..]| && StopsWithCode(files[1..][j].walk, c);
      assert files[1..][j] == files[j + 1];
    }
  }

  /** The bytes every source's entries carry, in order. */
  function SourcesPayload(files: seq<Source>, readSize: int): seq<byte>
    decreases |files|
  {
    if files == [] then [] else WalkPayload(files[0].walk, readSize) + SourcesPayload(files[1..], readSize)
  }

  /** The sources loop's planned calls write the payloads of the entries it hands back, in order. */
  lemma {:induction false} SourcesData(files: seq<Source>, readSize: int)
    ensures Data(Events(SourcesPlan(files, readSize))) == SourcesPayload(files, readSize)
    decreases |files|
  {
    if files != [] {
      SourcesFrame(files, readSize);
      SourceWrites(files[0], readSize);
      SourcesData(files[1..], readSize);
      DataAppend(Events(SourcePlan(files[0], readSize)), Events(SourcesPlan(files[1..], readSize)));
    }
  }

  // ---- the stages of a run ----

  /** The configuration calls: the format, the filter if one is given, then options and passphrase for ZIP. */
  function ConfigCalls(format: int, filter: Option<int>, passphrase: Option<string>, options: string): seq<Event> {
    [SetFormat(format)]
    + (if filter.Some? then [AddFilter(filter.value)] else [])
    + (if UsesEncryption(passphrase, format) then [SetOptions(options), SetPassphrase(passphrase.value)] else [])
  }

  /** The configuration stage raises nothing and makes the configuration calls. */
  lemma ConfigEvents(format: int, filter: Option<int>, passphrase: Option<string>, options: string)
    ensures NoRaise(ConfigPlan(format, filter, passphrase, options))
    ensures Events(ConfigPlan(format, filter, passphrase, options)) == ConfigCalls(format, filter, passphrase, options)
    ensures forall e :: e in ConfigCalls(format, filter, passphrase, options) ==> IsConfiguration(e)
  {
    var ff := FormatFilterPlan(format, filter);
    var enc := EncryptionPlan(format, passphrase, options);
    EventsAppend(ff, enc);
    NoRaiseAppend(ff, enc);
    if filter.Some? {
      assert ff[1..][1..] == [];
    } else {
      assert ff[1..] == [];
    }
    if UsesEncryption(passphrase, format) {
      assert enc[1..][1..] == [];
    }
  }

  /** The calls an opener makes: block framing, then the binding of the sink. */
  predicate IsOpenerCall(e: Event) {
    e.SetBytesInLastBlock? || e.SetBytesPerBlock? || IsSinkBinding(e)
  }

  /** The calls each opener makes: `open_filename`, none for a stream, or the block framing then `open`. */
  function OpenerCalls(opener: Opener): seq<Event> {
    match opener
    case FileSink(path) => [OpenFilename(path)]
    case StreamSink(_) => []
    case CallbackSink(blockSize) => [SetBytesInLastBlock(1), SetBytesPerBlock(blockSize), OpenCallbacks]
  }

  /** The opener stage: a stream opener raises before calling anything. */
  lemma OpenerEvents(opener: Opener)
    ensures NoRaise(OpenerPlan(opener)) <==> !opener.StreamSink?
    ensures forall e :: e in Events(OpenerPlan(opener)) ==> IsOpenerCall(e)
    ensures Events(OpenerPlan(opener)) == OpenerCalls(opener)
  {
    var plan := OpenerPlan(opener);
    match opener
    case FileSink(_) =>
      assert plan[1..] == [];
    case StreamSink(_) =>
      assert plan[1..] == [];
      assert !plan[0].Do?;
    case CallbackSink(blockSize) =>
      var last := [Do(OpenCallbacks)];
      assert last[1..] == [];
      assert Events(last) == [OpenCallbacks];
      assert plan[1..][1..] == last;
      assert Events(plan[1..]) == [SetBytesPerBlock(blockSize), OpenCallbacks];
  }

  lemma FinishEvents()
    ensures NoRaise(FinishPlan())
    ensures Events(FinishPlan()) == [Close, Free]
  {
    assert FinishPlan()[1..][1..] == [];
  }

  /** A run's planned calls are those of its four stages, and it raises nothing exactly when it can finish. */
  lemma PlanEvents(opener: Opener, format: int, files: seq<Source>, passphrase: Option<string>,
                   options: string, filter: Option<int>, readSize: int)
    ensures Events(Plan(opener, format, files, passphrase, options, filter, readSize))
         == Events(ConfigPlan(format, filter, passphrase, options)) + Events(OpenerPlan(opener))
            + Events(SourcesPlan(files, readSize)) + [Close, Free]
    ensures NoRaise(Plan(opener, format, files, passphrase, options, filter, readSize))
        <==> !opener.StreamSink? && AllWalksEndCleanly(files)
  {
    var c := ConfigPlan(format, filter, passphrase, options);
    var o := OpenerPlan(opener);
    var s := SourcesPlan(files, readSize);
    var f := FinishPlan();
    assert Plan(opener, format, files, passphrase, options, filter, readSize) == c + o + s + f;
    EventsAppend(c + o + s, f);
    EventsAppend(c + o, s);
    EventsAppend(c, o);
    NoRaiseAppend(c + o + s, f);
    NoRaiseAppend(c + o, s);
    NoRaiseAppend(c, o);
    ConfigEvents(format, filter, passphrase, options);
    OpenerEvents(opener);
    FinishEvents();
    SourcesRaises(files, readSize);
  }

  // ---- a run that returns normally ----

  /**
   * On normal return the opener was not a stream, every walk ended
   * cleanly, the trace holds exactly the planned calls, and `added` is the
   * entries of every walk, in order.
   */
  lemma OkRunTrace(lib: Library, opener: Opener, format: int, files: seq<Source>,
                   passphrase: Option<string>, options: string, filter: Option<int>, readSize: int)
    requires CreateSpec(lib, opener, format, files, passphrase, options, filter, readSize).result.Ok?
    ensures !opener.StreamSink? && AllWalksEndCleanly(files)
    ensures CreateSpec(lib, opener, format, files, passphrase, options, filter, readSize).trace
         == Events(ConfigPlan(format, filter, passphrase, options)) + Events(OpenerPlan(opener))
            + Events(SourcesPlan(files, readSize)) + [Close, Free]
    ensures CreateSpec(lib, opener, format, files, passphrase, options, filter, readSize).result.value
         == AllArchived(files)
  {
    var plan := Plan(opener, format, files, passphrase, options, filter, readSize);
    ExecuteCompletes(lib, [], plan);
    PlanEvents(opener, format, files, passphrase, options, filter, readSize);
    assert [] + Events(plan) == Events(plan);
  }

  /**
   * In a sequence of calls made of the configuration calls, opener calls,
   * entry-level calls and the close and free, the format comes first, the
   * filter right after it exactly when one is given, and the options then
   * the passphrase, adjacent, exactly when a passphrase is given for ZIP.
   */
  lemma ConfigurationOrder(t: seq<Event>, o: seq<Event>, s: seq<Event>, format: int, filter: Option<int>,
                           passphrase: Option<string>, options: string, readSize: int)
    requires t == ConfigCalls(format, filter, passphrase, options) + o + s + [Close, Free]
    requires forall e :: e in o ==> IsOpenerCall(e)
    requires forall e :: e in s ==> IsEntryLevel(e, readSize)
    ensures |t| > 1 && t[0] == SetFormat(format)
    ensures filter.Some? <==> exists i :: 0 <= i < |t| && t[i].AddFilter?
    ensures filter.Some? ==> t[1] == AddFilter(filter.value)
    ensures UsesEncryption(passphrase, format) <==> exists i :: 0 <= i < |t| && t[i].SetOptions?
    ensures UsesEncryption(passphrase, format) <==> exists i :: 0 <= i < |t| && t[i].SetPassphrase?
    ensures UsesEncryption(passphrase, format) ==>
      exists i :: 0 <= i < |t| - 1 && t[i] == SetOptions(options) && t[i + 1] == SetPassphrase(passphrase.value)
  {
    var c := ConfigCalls(format, filter, passphrase, options);
    var fpart := if filter.Some? then [AddFilter(filter.value)] else [];
    assert t[0] == c[0];
    if filter.Some? {
      assert t[1] == c[1];
      assert t[1].AddFilter?;
    }
    forall i | 0 <= i < |t| && (t[i].AddFilter? || t[i].SetOptions? || t[i].SetPassphrase?)
      ensures t[i] in c
    {
      assert t[i] in t;
    }
    if UsesEncryption(passphrase, format) {
      var i := 1 + |fpart|;
      assert t[i] == c[i] && t[i + 1] == c[i + 1];
      assert t[i].SetOptions? && t[i + 1].SetPassphrase?;
    }
  }

  /**
   * On normal return the format was set first, the filter right after it
   * exactly when one was given, and the options then the passphrase,
   * adjacent, exactly when a passphrase was given for ZIP.
   */
  lemma OkRunConfiguration(lib: Library, opener: Opener, format: int, files: seq<Source>,
                           passphrase: Option<string>, options: string, filter: Option<int>, readSize: int)
    requires CreateSpec(lib, opener, format, files, passphrase, options, filter, readSize).result.Ok?
    ensures var t := CreateSpec(lib, opener, format, files, passphrase, options, filter, readSize).trace;
      |t| > 1 && t[0] == SetFormat(format) &&
      (filter.Some? <==> exists i :: 0 <= i < |t| && t[i].AddFilter?) &&
      (filter.Some? ==> t[1] == AddFilter(filter.value)) &&
      (UsesEncryption(passphrase, format) <==> exists i :: 0 <= i < |t| && t[i].SetOptions?) &&
      (UsesEncryption(passphrase, format) <==> exists i :: 0 <= i < |t| && t[i].SetPassphrase?) &&
      (UsesEncryption(passphrase, format) ==>
         exists i :: 0 <= i < |t| - 1 && t[i] == SetOptions(options) && t[i + 1] == SetPassphrase(passphrase.value))
  {
    OkRunTrace(lib, opener, format, files, passphrase, options, filter, readSize);
    ConfigEvents(format, filter, passphrase, options);
    OpenerEvents(opener);
    SourcesEventsAreEntryLevel(files, readSize);
    ConfigurationOrder(CreateSpec(lib, opener, format, files, passphrase, options, filter, readSize).trace,
                       Events(OpenerPlan(opener)), Events(SourcesPlan(files, readSize)),
                       format, filter, passphrase, options, readSize);
  }

  /**
   * The shape of a finished run's calls around the binding at `k`: only
   * configuration before it, only entry-level calls after it, then the
   * close and the free.
   */
  predicate OrderedAround(t: seq<Event>, k: int, readSize: int) {
    0 <= k < |t| - 2 &&
    IsSinkBinding(t[k]) &&
    (forall i :: 0 <= i < k ==> IsConfiguration(t[i])) &&
    (forall i :: k < i < |t| - 2 ==> IsEntryLevel(t[i], readSize)) &&
    t[|t| - 2] == Close && t[|t| - 1] == Free
  }

  /** How the opener bound the writer at `k`: its file name, or the block framing just before `open`. */
  predicate BindsAs(t: seq<Event>, k: int, opener: Opener)
    requires 0 <= k < |t|
  {
    match opener
    case FileSink(path) => t[k] == OpenFilename(path)
    case StreamSink(_) => false
    case CallbackSink(blockSize) =>
      k >= 2 && t[k - 2] == SetBytesInLastBlock(1) && t[k - 1] == SetBytesPerBlock(blockSize) && t[k] == OpenCallbacks
  }

  /**
   * Configuration calls, then a non-stream opener's calls, then entry-level
   * calls, then close and free: the sink is bound once, after all the
   * configuration and before every entry-level call.
   */
  lemma StageOrder(t: seq<Event>, c: seq<Event>, s: seq<Event>, opener: Opener, readSize: int)
    requires !opener.StreamSink?
    requires t == c + OpenerCalls(opener) + s + [Close, Free]
    requires forall e :: e in c ==> IsConfiguration(e)
    requires forall e :: e in s ==> IsEntryLevel(e, readSize)
    ensures exists k :: OrderedAround(t, k, readSize) && BindsAs(t, k, opener) &&
                        forall i :: 0 <= i < |t| && IsSinkBinding(t[i]) ==> i == k
  {
    var o := OpenerCalls(opener);
    var k := |c| + |o| - 1;
    forall i | 0 <= i < k ensures IsConfiguration(t[i]) {
      if i < |c| {
        assert t[i] == c[i] && c[i] in c;
      } else {
        assert t[i] == o[i - |c|];
      }
    }
    forall i | k < i < |t| - 2 ensures IsEntryLevel(t[i], readSize) {
      assert t[i] == s[i - |c| - |o|] && s[i - |c| - |o|] in s;
    }
    assert t[k] == o[|o| - 1];
    if opener.CallbackSink? {
      assert t[k - 2] == o[0] && t[k - 1] == o[1];
    }
    assert OrderedAround(t, k, readSize);
    assert BindsAs(t, k, opener);
  }

  /** Close and free each occur once when the calls before them are configuration, opener and entry-level calls. */
  lemma StageCounts(t: seq<Event>, c: seq<Event>, o: seq<Event>, s: seq<Event>, readSize: int)
    requires t == c + o + s + [Close, Free]
    requires forall e :: e in c ==> IsConfiguration(e)
    requires forall e :: e in o ==> IsOpenerCall(e)
    requires forall e :: e in s ==> IsEntryLevel(e, readSize)
    ensures Count(Close, t) == 1 && Count(Free, t) == 1
  {
    var cos := c + o + s;
    forall e | e in cos ensures e != Close && e != Free {
      assert e in c || e in o || e in s;
    }
    CountAbsent(Close, cos);
    CountAbsent(Free, cos);
    CountAppend(Close, cos, [Close, Free]);
    CountAppend(Free, cos, [Close, Free]);
    CountPair(Close, Close, Free);
    CountPair(Free, Close, Free);
  }

  /**
   * On normal return the opener ran once: after every configuration call,
   * before any entry-level call, as `open_filename` with the given path or
   * as the block framing followed by `open`; close and free each ran once,
   * in that order, at the end.
   */
  lemma OkRunOrder(lib: Library, opener: Opener, format: int, files: seq<Source>,
                   passphrase: Option<string>, options: string, filter: Option<int>, readSize: int)
    requires CreateSpec(lib, opener, format, files, passphrase, options, filter, readSize).result.Ok?
    ensures var t := CreateSpec(lib, opener, format, files, passphrase, options, filter, readSize).trace;
      (exists k :: OrderedAround(t, k, readSize) && BindsAs(t, k, opener) &&
                   forall i :: 0 <= i < |t| && IsSinkBinding(t[i]) ==> i == k) &&
      Count(Close, t) == 1 && Count(Free, t) == 1
  {
    OkRunTrace(lib, opener, format, files, passphrase, options, filter, readSize);
    ConfigEvents(format, filter, passphrase, options);
    OpenerEvents(opener);
    SourcesEventsAreEntryLevel(files, readSize);
    var t := CreateSpec(lib, opener, format, files, passphrase, options, filter, readSize).trace;
    var c := ConfigCalls(format, filter, passphrase, options);
    var s := Events(SourcesPlan(files, readSize));
    StageOrder(t, c, s, opener, readSize);
    StageCounts(t, c, OpenerCalls(opener), s, readSize);
  }

  /** On normal return the headers written name the returned entries, in order. */
  lemma OkRunHeaders(lib: Library, opener: Opener, format: int, files: seq<Source>,
                     passphrase: Option<string>, options: string, filter: Option<int>, readSize: int)
    requires CreateSpec(lib, opener, format, files, passphrase, options, filter, readSize).result.Ok?
    ensures Headers(CreateSpec(lib, opener, format, files, passphrase, options, filter, readSize).trace)
         == Pathnames(CreateSpec(lib, opener, format, files, passphrase, options, filter, readSize).result.value)
  {
    OkRunTrace(lib, opener, format, files, passphrase, options, filter, readSize);
    var c := Events(ConfigPlan(format, filter, passphrase, options));
    var o := Events(OpenerPlan(opener));
    var s := Events(SourcesPlan(files, readSize));
    ConfigEvents(format, filter, passphrase, options);
    OpenerEvents(opener);
    StageHeadersAndData(c, o, s);
    SourcesHeaders(files, readSize);
  }

  /** On normal return the data written is the payload of every archived entry, in order. */
  lemma OkRunData(lib: Library, opener: Opener, format: int, files: seq<Source>,
                  passphrase: Option<string>, options: string, filter: Option<int>, readSize: int)
    requires CreateSpec(lib, opener, format, files, passphrase, options, filter, readSize).result.Ok?
    ensures Data(CreateSpec(lib, opener, format, files, passphrase, options, filter, readSize).trace)
         == SourcesPayload(files, readSize)
  {
    OkRunTrace(lib, opener, format, files, passphrase, options, filter, readSize);
    var c := Events(ConfigPlan(format, filter, passphrase, options));
    var o := Events(OpenerPlan(opener));
    var s := Events(SourcesPlan(files, readSize));
    ConfigEvents(format, filter, passphrase, options);
    OpenerEvents(opener);
    StageHeadersAndData(c, o, s);
    SourcesData(files, readSize);
  }

  /** Configuration and opener calls write neither headers nor data. */
  lemma StageHeadersAndData(c: seq<Event>, o: seq<Event>, s: seq<Event>)
    requires forall e :: e in c ==> IsConfiguration(e)
    requires forall e :: e in o ==> IsOpenerCall(e)
    ensures Headers(c + o + s + [Close, Free]) == Headers(s)
    ensures Data(c + o + s + [Close, Free]) == Data(s)
  {
    var co := c + o;
    forall i | 0 <= i < |co| ensures !co[i].WriteHeader? && !co[i].WriteData? {
      assert co[i] in co;
      assert co[i] in c || co[i] in o;
    }
    NoHeaders(co);
    NoData(co);
    var f := [Close, Free];
    assert f[1..][1..] == [];
    NoHeaders(f);
    NoData(f);
    HeadersAppend(co + s, f);
    HeadersAppend(co, s);
    DataAppend(co + s, f);
    DataAppend(co, s);
  }

  /** Configuration, opener and finishing calls neither create nor release an entry. */
  lemma StageEntryCount(x: Event, c: seq<Event>, o: seq<Event>, s: seq<Event>)
    requires x == EntryNew || x == EntryFree
    requires forall e :: e in c ==> IsConfiguration(e)
    requires forall e :: e in o ==> IsOpenerCall(e)
    ensures Count(x, c + o + s + [Close, Free]) == Count(x, s)
  {
    var co := c + o;
    assert x !in co by {
      assert x !in c && x !in o;
    }
    CountAbsent(x, co);
    CountAppend(x, co + s, [Close, Free]);
    CountAppend(x, co, s);
    CountPair(x, Close, Free);
  }

  /**
   * On normal return one entry per source was created and never released:
   * the one whose header read reported the end of the walk.
   */
  lemma OkRunLeaks(lib: Library, opener: Opener, format: int, files: seq<Source>,
                   passphrase: Option<string>, options: string, filter: Option<int>, readSize: int)
    requires CreateSpec(lib, opener, format, files, passphrase, options, filter, readSize).result.Ok?
    ensures var t := CreateSpec(lib, opener, format, files, passphrase, options, filter, readSize).trace;
      Count(EntryNew, t) == Count(EntryFree, t) + |files|
  {
    OkRunTrace(lib, opener, format, files, passphrase, options, filter, readSize);
    ConfigEvents(format, filter, passphrase, options);
    OpenerEvents(opener);
    var c := Events(ConfigPlan(format, filter, passphrase, options));
    var o := Events(OpenerPlan(opener));
    var s := Events(SourcesPlan(files, readSize));
    StageEntryCount(EntryNew, c, o, s);
    StageEntryCount(EntryFree, c, o, s);
    SourcesLeakOneEntryEach(files, readSize);
  }
}
