/**
 * What any run of `_create` does, whether or not it returns normally: it
 * makes a prefix of the planned calls, never writes an empty or oversized
 * chunk, raises a header-read error only with the code a walk stopped
 * with, and, against a library that accepts every call, returns normally
 * exactly when nothing in the pipeline itself raises.
 */
module RunFailures {
  import opened ArchiveTypes
  import opened CreatePlan
  import opened ExecuteLemmas
  import opened PayloadProperties
  import opened RunProperties

  /**
   * A library that yields a handle, accepts every guarded call and never
   * reports writing zero bytes.
   */
  predicate Cooperative(lib: Library) {
    lib.canCreate && lib.failing == {} &&
    forall n :: n in lib.reported ==> lib.reported[n] != 0
  }

  /** Against a cooperative library a plan that raises nothing and writes no empty chunk completes. */
  lemma {:induction false} CooperativeExecute(lib: Library, t: seq<Event>, plan: seq<Action>)
    requires Cooperative(lib) && NoRaise(plan)
    requires forall e :: e in Events(plan) && e.WriteData? ==> e.chunk != []
    ensures Execute(lib, t, plan) == Run(t + Events(plan), None)
    decreases |plan|
  {
    if plan != [] {
      var e := plan[0].event;
      assert Events(plan) == [e] + Events(plan[1..]);
      assert Perform(lib, t, e).failure.None?;
      assert NoRaise(plan[1..]) by {
        forall i | 0 <= i < |plan[1..]| ensures plan[1..][i].Do? {
          assert plan[1..][i] == plan[i + 1];
        }
      }
      CooperativeExecute(lib, t + [e], plan[1..]);
      assert t + [e] + Events(plan[1..]) == t + Events(plan);
    }
  }

  /** Configuration, opener and entry-level calls followed by close and free write only bounded, non-empty chunks. */
  lemma StageChunks(c: seq<Event>, o: seq<Event>, s: seq<Event>, readSize: int)
    requires forall e :: e in c ==> IsConfiguration(e)
    requires forall e :: e in o ==> IsOpenerCall(e)
    requires forall e :: e in s ==> IsEntryLevel(e, readSize)
    ensures forall e :: e in c + o + s + [Close, Free] && e.WriteData? ==>
              e.chunk != [] && (readSize > 0 ==> |e.chunk| <= readSize)
  {
  }

  /** The planned calls never include an empty chunk, nor one over a positive read size. */
  lemma PlannedChunks(opener: Opener, format: int, files: seq<Source>, passphrase: Option<string>,
                      options: string, filter: Option<int>, readSize: int)
    ensures forall e :: e in Events(Plan(opener, format, files, passphrase, options, filter, readSize)) && e.WriteData? ==>
              e.chunk != [] && (readSize > 0 ==> |e.chunk| <= readSize)
  {
    PlanEvents(opener, format, files, passphrase, options, filter, readSize);
    ConfigEvents(format, filter, passphrase, options);
    OpenerEvents(opener);
    SourcesEventsAreEntryLevel(files, readSize);
    StageChunks(Events(ConfigPlan(format, filter, passphrase, options)), Events(OpenerPlan(opener)),
                Events(SourcesPlan(files, readSize)), readSize);
  }

  /**
   * Against a cooperative library a run returns normally exactly when the
   * opener is not a stream and every walk ends cleanly; it then makes every
   * planned call and returns the entries of every walk.
   */
  lemma CooperativeRunSucceeds(lib: Library, opener: Opener, format: int, files: seq<Source>,
                               passphrase: Option<string>, options: string, filter: Option<int>, readSize: int)
    requires Cooperative(lib)
    ensures CreateSpec(lib, opener, format, files, passphrase, options, filter, readSize).result.Ok?
        <==> !opener.StreamSink? && AllWalksEndCleanly(files)
    ensures !opener.StreamSink? && AllWalksEndCleanly(files) ==>
      CreateSpec(lib, opener, format, files, passphrase, options, filter, readSize)
      == Outcome(Events(Plan(opener, format, files, passphrase, options, filter, readSize)), Ok(AllArchived(files)))
  {
    if CreateSpec(lib, opener, format, files, passphrase, options, filter, readSize).result.Ok? {
      OkRunTrace(lib, opener, format, files, passphrase, options, filter, readSize);
    }
    if !opener.StreamSink? && AllWalksEndCleanly(files) {
      var plan := Plan(opener, format, files, passphrase, options, filter, readSize);
      PlanEvents(opener, format, files, passphrase, options, filter, readSize);
      PlannedChunks(opener, format, files, passphrase, options, filter, readSize);
      CooperativeExecute(lib, [], plan);
      assert [] + Events(plan) == Events(plan);
    }
  }

  /** Whatever the library does, a run's calls are a prefix of the planned calls, starting with the format. */
  lemma RunIsPrefixOfPlan(lib: Library, opener: Opener, format: int, files: seq<Source>,
                          passphrase: Option<string>, options: string, filter: Option<int>, readSize: int)
    ensures CreateSpec(lib, opener, format, files, passphrase, options, filter, readSize).trace
         <= Events(Plan(opener, format, files, passphrase, options, filter, readSize))
    ensures var t := CreateSpec(lib, opener, format, files, passphrase, options, filter, readSize).trace;
      t != [] ==> t[0] == SetFormat(format)
  {
    var plan := Plan(opener, format, files, passphrase, options, filter, readSize);
    if lib.canCreate {
      ExecuteMakesPrefix(lib, [], plan);
      var k :| 0 <= k <= |Events(plan)| && Execute(lib, [], plan).trace == [] + Events(plan)[..k];
      assert [] + Events(plan)[..k] == Events(plan)[..k];
    }
    PlanEvents(opener, format, files, passphrase, options, filter, readSize);
    ConfigEvents(format, filter, passphrase, options);
    var c := ConfigCalls(format, filter, passphrase, options);
    assert Events(plan)[0] == c[0];
  }

  /**
   * Whatever the library does, every chunk a run hands to
   * `archive_write_data` is non-empty and, for a positive read size, at most
   * that many bytes.
   */
  lemma WrittenChunksBounded(lib: Library, opener: Opener, format: int, files: seq<Source>,
                             passphrase: Option<string>, options: string, filter: Option<int>, readSize: int)
    ensures var t := CreateSpec(lib, opener, format, files, passphrase, options, filter, readSize).trace;
      forall i :: 0 <= i < |t| && t[i].WriteData? ==>
        t[i].chunk != [] && (readSize > 0 ==> |t[i].chunk| <= readSize)
  {
    var t := CreateSpec(lib, opener, format, files, passphrase, options, filter, readSize).trace;
    var planned := Events(Plan(opener, format, files, passphrase, options, filter, readSize));
    RunIsPrefixOfPlan(lib, opener, format, files, passphrase, options, filter, readSize);
    PlannedChunks(opener, format, files, passphrase, options, filter, readSize);
    forall i | 0 <= i < |t| && t[i].WriteData?
      ensures t[i].chunk != [] && (readSize > 0 ==> |t[i].chunk| <= readSize)
    {
      assert t[i] == planned[i] && planned[i] in planned;
    }
  }

  /** A header-read error is raised only by a planned raise for that status code. */
  lemma {:induction false} ExecuteHeaderFailure(lib: Library, t: seq<Event>, plan: seq<Action>, c: int, m: string)
    requires Execute(lib, t, plan).failure == Some(HeaderReadFailed(c, m))
    ensures Raise(WalkFault(c)) in plan
    decreases |plan|
  {
    match plan[0]
    case Raise(f) =>
    case Do(e) =>
      var r := Perform(lib, t, e);
      if r.failure.None? {
        ExecuteHeaderFailure(lib, r.trace, plan[1..], c, m);
        var i :| 0 <= i < |plan[1..]| && plan[1..][i] == Raise(WalkFault(c));
        assert plan[i + 1] == Raise(WalkFault(c));
      }
  }

  /** The planned raises for a status code all lie in the sources loop. */
  lemma WalkFaultInSources(opener: Opener, format: int, files: seq<Source>, passphrase: Option<string>,
                           options: string, filter: Option<int>, readSize: int, c: int)
    requires Raise(WalkFault(c)) in Plan(opener, format, files, passphrase, options, filter, readSize)
    ensures Raise(WalkFault(c)) in SourcesPlan(files, readSize)
  {
    var x := Raise(WalkFault(c));
    var cp := ConfigPlan(format, filter, passphrase, options);
    ConfigEvents(format, filter, passphrase, options);
    assert x !in cp by {
      forall i | 0 <= i < |cp| ensures cp[i] != x {
        assert cp[i].Do?;
      }
    }
    assert x !in OpenerPlan(opener);
    assert x !in FinishPlan();
  }

  /**
   * A run that raises a header-read error raises it with the status code at
   * which some source's walk stopped, a code that is neither ARCHIVE_OK nor
   * ARCHIVE_EOF.
   */
  lemma HeaderFailureCarriesStopCode(lib: Library, opener: Opener, format: int, files: seq<Source>,
                                     passphrase: Option<string>, options: string, filter: Option<int>, readSize: int)
    requires CreateSpec(lib, opener, format, files, passphrase, options, filter, readSize).result.Err?
    requires CreateSpec(lib, opener, format, files, passphrase, options, filter, readSize).result.error.HeaderReadFailed?
    ensures var c := CreateSpec(lib, opener, format, files, passphrase, options, filter, readSize).result.error.code;
      exists j :: 0 <= j < |files| && StopsWithCode(files[j].walk, c)
  {
    var err := CreateSpec(lib, opener, format, files, passphrase, options, filter, readSize).result.error;
    var plan := Plan(opener, format, files, passphrase, options, filter, readSize);
    ExecuteHeaderFailure(lib, [], plan, err.code, err.message);
    WalkFaultInSources(opener, format, files, passphrase, options, filter, readSize, err.code);
    SourcesWalkFault(files, readSize, err.code);
  }

  /**
   * `create_stream` never returns normally: without a handle it raises
   * ValueError, a failed configuration call raises ArchiveError, and
   * otherwise the opener raises AttributeError before binding any sink,
   * after exactly the configuration calls.
   */
  lemma StreamCreateAlwaysFails(lib: Library, fd: int, format: int, files: seq<Source>,
                                passphrase: Option<string>, options: string, filter: Option<int>, readSize: int)
    ensures CreateSpec(lib, StreamSink(fd), format, files, passphrase, options, filter, readSize).result.Err?
    ensures lib.canCreate && Execute(lib, [], ConfigPlan(format, filter, passphrase, options)).failure.None? ==>
      CreateSpec(lib, StreamSink(fd), format, files, passphrase, options, filter, readSize)
      == Outcome(ConfigCalls(format, filter, passphrase, options), Err(StreamHasNoFileno))
  {
    if lib.canCreate {
      PlanStages(lib, StreamSink(fd), format, files, passphrase, options, filter, readSize);
      var r1 := Execute(lib, [], ConfigPlan(format, filter, passphrase, options));
      if r1.failure.None? {
        ExecuteCompletes(lib, [], ConfigPlan(format, filter, passphrase, options));
        ConfigEvents(format, filter, passphrase, options);
        assert [] + ConfigCalls(format, filter, passphrase, options) == ConfigCalls(format, filter, passphrase, options);
        assert Execute(lib, r1.trace, OpenerPlan(StreamSink(fd))) == Run(r1.trace, Some(StreamHasNoFileno));
      }
    }
  }
}
