/**
 * How following a plan composes: a run of `a + b` is a run of `a` followed,
 * unless it failed, by a run of `b`; a run that completes makes exactly the
 * planned calls, and one that fails has made a prefix of them.
 */
module ExecuteLemmas {
  import opened ArchiveTypes
  import opened CreatePlan

  /** Continue a partial run with `rest`, unless it already failed. */
  function Then(lib: Library, r: Run, rest: seq<Action>): Run {
    if r.failure.Some? then r else Execute(lib, r.trace, rest)
  }

  lemma {:induction false} ExecuteAppend(lib: Library, t: seq<Event>, a: seq<Action>, b: seq<Action>)
    ensures Execute(lib, t, a + b) == Then(lib, Execute(lib, t, a), b)
    decreases |a|
  {
    if a == [] {
      assert a + b == b;
    } else {
      assert (a + b)[0] == a[0];
      assert (a + b)[1..] == a[1..] + b;
      match a[0]
      case Raise(_) =>
      case Do(e) =>
        var r := Perform(lib, t, e);
        if r.failure.None? {
          ExecuteAppend(lib, r.trace, a[1..], b);
        }
    }
  }

  lemma {:induction false} EventsAppend(a: seq<Action>, b: seq<Action>)
    ensures Events(a + b) == Events(a) + Events(b)
    decreases |a|
  {
    if a == [] {
      assert a + b == b;
    } else {
      assert (a + b)[0] == a[0];
      assert (a + b)[1..] == a[1..] + b;
      EventsAppend(a[1..], b);
    }
  }

  lemma NoRaiseAppend(a: seq<Action>, b: seq<Action>)
    ensures NoRaise(a + b) <==> NoRaise(a) && NoRaise(b)
  {
    if NoRaise(a) && NoRaise(b) {
      forall i | 0 <= i < |a + b| ensures (a + b)[i].Do? {
        if i >= |a| { assert (a + b)[i] == b[i - |a|]; }
      }
    }
    if NoRaise(a + b) {
      forall i | 0 <= i < |a| ensures a[i].Do? {
        assert (a + b)[i] == a[i];
      }
      forall i | 0 <= i < |b| ensures b[i].Do? {
        assert (a + b)[|a| + i] == b[i];
      }
    }
  }

  /** A run that completes raised nothing and made exactly the planned calls. */
  lemma {:induction false} ExecuteCompletes(lib: Library, t: seq<Event>, plan: seq<Action>)
    requires Execute(lib, t, plan).failure.None?
    ensures NoRaise(plan)
    ensures Execute(lib, t, plan).trace == t + Events(plan)
    decreases |plan|
  {
    if plan == [] {
    } else {
      var e := plan[0].event;
      ExecuteCompletes(lib, t + [e], plan[1..]);
      assert plan == [plan[0]] + plan[1..];
      NoRaiseAppend([plan[0]], plan[1..]);
    }
  }

  /** Whatever happens, a run has made a prefix of the planned calls. */
  lemma {:induction false} ExecuteMakesPrefix(lib: Library, t: seq<Event>, plan: seq<Action>)
    ensures exists k :: 0 <= k <= |Events(plan)| &&
              Execute(lib, t, plan).trace == t + Events(plan)[..k]
    decreases |plan|
  {
    var r := Execute(lib, t, plan);
    if plan == [] {
      assert r.trace == t + Events(plan)[..0];
    } else {
      match plan[0]
      case Raise(_) =>
        assert r.trace == t + Events(plan)[..0];
      case Do(e) =>
        assert Events(plan) == [e] + Events(plan[1..]);
        if Perform(lib, t, e).failure.Some? {
          assert r.trace == t + Events(plan)[..1];
        } else {
          ExecuteMakesPrefix(lib, t + [e], plan[1..]);
          var k :| 0 <= k <= |Events(plan[1..])| &&
                   Execute(lib, t + [e], plan[1..]).trace == t + [e] + Events(plan[1..])[..k];
          assert Events(plan)[..k + 1] == [e] + Events(plan[1..])[..k];
          assert r.trace == t + Events(plan)[..k + 1];
        }
    }
  }

  /** One turn of the walk loop: fetch a header, then stop, raise, or emit the entry and go on. */
  lemma WalkTurn(lib: Library, t: seq<Event>, walk: seq<WalkStep>, readSize: int)
    ensures var t' := t + [EntryNew, ReadNextHeader];
      Execute(lib, t, WalkPlan(walk, readSize))
      == if walk == [] || walk[0].code == ARCHIVE_EOF then Run(t', None)
         else if walk[0].code != ARCHIVE_OK then Run(t', Some(HeaderReadFailed(walk[0].code, lib.ErrorString(t'))))
         else Then(lib, Execute(lib, t', EntryPlan(walk[0].entry, readSize)), WalkPlan(walk[1..], readSize))
  {
    var fetch := [Do(EntryNew), Do(ReadNextHeader)];
    var after := WalkPlan(walk, readSize)[2..];
    assert WalkPlan(walk, readSize) == fetch + after;
    ExecuteAppend(lib, t, fetch, after);
    assert Execute(lib, t + [EntryNew], fetch[1..]) == Run(t + [EntryNew, ReadNextHeader], None);
    if !(walk == [] || walk[0].code == ARCHIVE_EOF) && walk[0].code == ARCHIVE_OK {
      ExecuteAppend(lib, t + [EntryNew, ReadNextHeader], EntryPlan(walk[0].entry, readSize), WalkPlan(walk[1..], readSize));
    }
  }

  /** A run of one source followed by the others. */
  lemma SourcesTurn(lib: Library, t: seq<Event>, files: seq<Source>, readSize: int)
    requires files != []
    ensures Execute(lib, t, SourcesPlan(files, readSize))
         == Then(lib, Execute(lib, t, SourcePlan(files[0], readSize)), SourcesPlan(files[1..], readSize))
  {
    ExecuteAppend(lib, t, SourcePlan(files[0], readSize), SourcesPlan(files[1..], readSize));
  }

  /** The entries of a walk after those already collected, one OK result at a time. */
  lemma ArchivedTurn(entries: seq<ArchivedEntry>, walk: seq<WalkStep>)
    requires walk != [] && walk[0].code == ARCHIVE_OK
    ensures entries + Archived(walk) == (entries + [ToArchived(walk[0].entry)]) + Archived(walk[1..])
  {
  }

  /** The entries of all sources after those already collected, one source at a time. */
  lemma AllArchivedTurn(added: seq<ArchivedEntry>, files: seq<Source>)
    requires files != []
    ensures added + AllArchived(files) == (added + Archived(files[0].walk)) + AllArchived(files[1..])
  {
  }

  /** One source: open the disk reader, walk it, then close and free the reader. */
  lemma SourceStages(lib: Library, t: seq<Event>, src: Source, readSize: int)
    ensures Execute(lib, t, SourcePlan(src, readSize))
         == Then(lib, Execute(lib, t + [DiskNew, DiskOpen(src.path)], WalkPlan(src.walk, readSize)),
                 [Do(DiskClose), Do(DiskFree)])
  {
    var opening := [Do(DiskNew), Do(DiskOpen(src.path))];
    var closing := [Do(DiskClose), Do(DiskFree)];
    assert SourcePlan(src, readSize) == opening + (WalkPlan(src.walk, readSize) + closing);
    ExecuteAppend(lib, t, opening, WalkPlan(src.walk, readSize) + closing);
    ExecuteTwo(lib, t, DiskNew, DiskOpen(src.path));
    ExecuteAppend(lib, t + [DiskNew, DiskOpen(src.path)], WalkPlan(src.walk, readSize), closing);
  }

  /** One turn of the read loop: read a chunk and, unless it is empty, write it and go on. */
  lemma PayloadTurn(lib: Library, t: seq<Event>, unread: seq<byte>, readSize: int)
    ensures var data := ReadChunk(unread, readSize);
      Execute(lib, t, DataPlan(Chunks(unread, readSize)))
      == if data == [] then Run(t, None)
         else var r := Perform(lib, t, WriteData(data));
           if r.failure.Some? then r
           else Execute(lib, r.trace, DataPlan(Chunks(unread[|data|..], readSize)))
  {
    var data := ReadChunk(unread, readSize);
    if data != [] {
      var plan := DataPlan(Chunks(unread, readSize));
      assert plan[0] == Do(WriteData(data));
      assert plan[1..] == DataPlan(Chunks(unread[|data|..], readSize));
    }
  }

  /** One entry: descend, write its header, then its payload and the entry's release. */
  lemma EntryStages(lib: Library, t: seq<Event>, e: DiskEntry, readSize: int)
    ensures var r := Perform(lib, t + [Descend], WriteHeader(StripLeadingSeparator(e.pathname)));
      Execute(lib, t, EntryPlan(e, readSize))
      == if r.failure.Some? then r else Then(lib, Execute(lib, r.trace, PayloadPlan(e, readSize)), [Do(EntryFree)])
  {
    var header := [Do(Descend), Do(WriteHeader(StripLeadingSeparator(e.pathname)))];
    var rest := PayloadPlan(e, readSize) + [Do(EntryFree)];
    assert EntryPlan(e, readSize) == header + rest;
    ExecuteAppend(lib, t, header, rest);
    assert header[1..] == [Do(WriteHeader(StripLeadingSeparator(e.pathname)))];
    var r := Perform(lib, t + [Descend], WriteHeader(StripLeadingSeparator(e.pathname)));
    if r.failure.None? {
      ExecuteAppend(lib, r.trace, PayloadPlan(e, readSize), [Do(EntryFree)]);
    }
  }

  /** Two calls that cannot fail. */
  lemma ExecuteTwo(lib: Library, t: seq<Event>, e1: Event, e2: Event)
    requires !IsGuarded(e1) && !e1.WriteData? && !IsGuarded(e2) && !e2.WriteData?
    ensures Execute(lib, t, [Do(e1), Do(e2)]) == Run(t + [e1, e2], None)
  {
    assert [Do(e1), Do(e2)][1..] == [Do(e2)];
    assert Execute(lib, t + [e1], [Do(e2)]) == Run(t + [e1] + [e2], None);
    assert t + [e1] + [e2] == t + [e1, e2];
  }

  /** A whole run of `_create` is its four stages, each started only if the one before completed. */
  lemma PlanStages(lib: Library, opener: Opener, format: int, files: seq<Source>,
                   passphrase: Option<string>, options: string, filter: Option<int>, readSize: int)
    ensures Execute(lib, [], Plan(opener, format, files, passphrase, options, filter, readSize))
         == Then(lib, Then(lib, Then(lib,
              Execute(lib, [], ConfigPlan(format, filter, passphrase, options)),
              OpenerPlan(opener)), SourcesPlan(files, readSize)), FinishPlan())
  {
    var c := ConfigPlan(format, filter, passphrase, options);
    var o := OpenerPlan(opener);
    var s := SourcesPlan(files, readSize);
    var f := FinishPlan();
    assert Plan(opener, format, files, passphrase, options, filter, readSize) == c + (o + (s + f));
    ExecuteAppend(lib, [], c, o + (s + f));
    var r1 := Execute(lib, [], c);
    if r1.failure.None? {
      ExecuteAppend(lib, r1.trace, o, s + f);
      var r2 := Execute(lib, r1.trace, o);
      if r2.failure.None? {
        ExecuteAppend(lib, r2.trace, s, f);
      }
    }
  }

  /** The configuration stage is `_set_write_context` followed by the encryption step. */
  lemma ConfigStages(lib: Library, t: seq<Event>, format: int, filter: Option<int>,
                     passphrase: Option<string>, options: string)
    ensures Execute(lib, t, ConfigPlan(format, filter, passphrase, options))
         == Then(lib, Execute(lib, t, FormatFilterPlan(format, filter)), EncryptionPlan(format, passphrase, options))
  {
    ExecuteAppend(lib, t, FormatFilterPlan(format, filter), EncryptionPlan(format, passphrase, options));
  }
}
