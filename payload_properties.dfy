/**
 * What the plan of `_create` lists for one file and one disk walk: the
 * chunks a read loop writes reassemble the file, each entry's planned
 * calls put exactly one header before its data, and a walk stops at the
 * first result that is not ARCHIVE_OK, raising unless that result is
 * ARCHIVE_EOF. A run makes these calls up to the plan's first raise.
 */
module PayloadProperties {
  import opened ArchiveTypes
  import opened CreatePlan
  import opened ExecuteLemmas

  /** The bytes a sequence of calls writes, in order. */
  function Data(trace: seq<Event>): seq<byte>
    decreases |trace|
  {
    if trace == [] then []
    else (if trace[0].WriteData? then trace[0].chunk else []) + Data(trace[1..])
  }

  /** The pathnames a sequence of calls writes headers for, in order. */
  function Headers(trace: seq<Event>): seq<string>
    decreases |trace|
  {
    if trace == [] then []
    else (if trace[0].WriteHeader? then [trace[0].pathname] else []) + Headers(trace[1..])
  }

  function Pathnames(entries: seq<ArchivedEntry>): seq<string>
    decreases |entries|
  {
    if entries == [] then [] else [entries[0].pathname] + Pathnames(entries[1..])
  }

  lemma {:induction false} DataAppend(a: seq<Event>, b: seq<Event>)
    ensures Data(a + b) == Data(a) + Data(b)
    decreases |a|
  {
    if a == [] {
      assert a + b == b;
    } else {
      assert (a + b)[1..] == a[1..] + b;
      DataAppend(a[1..], b);
    }
  }

  lemma {:induction false} HeadersAppend(a: seq<Event>, b: seq<Event>)
    ensures Headers(a + b) == Headers(a) + Headers(b)
    decreases |a|
  {
    if a == [] {
      assert a + b == b;
    } else {
      assert (a + b)[1..] == a[1..] + b;
      HeadersAppend(a[1..], b);
    }
  }

  lemma {:induction false} PathnamesAppend(a: seq<ArchivedEntry>, b: seq<ArchivedEntry>)
    ensures Pathnames(a + b) == Pathnames(a) + Pathnames(b)
    decreases |a|
  {
    if a == [] {
      assert a + b == b;
    } else {
      assert (a + b)[1..] == a[1..] + b;
      PathnamesAppend(a[1..], b);
    }
  }

  /**
   * Reading a file `size` bytes at a time until a read returns nothing
   * yields its contents back, except that a read size of zero reads nothing.
   */
  lemma {:induction false} ChunksReassemble(contents: seq<byte>, size: int)
    ensures Flatten(Chunks(contents, size)) == if size == 0 then [] else contents
    decreases |contents|
  {
    var chunk := ReadChunk(contents, size);
    if chunk != [] {
      ChunksReassemble(contents[|chunk|..], size);
      assert Chunks(contents, size)[1..] == Chunks(contents[|chunk|..], size);
      assert chunk + contents[|chunk|..] == contents;
    }
  }

  /**
   * Every chunk written is non-empty and at most `size` bytes, every chunk
   * but the last is exactly `size` bytes, a negative size reads the file in
   * one go, and nothing is written for an empty file or a zero size.
   */
  lemma {:induction false} ChunksShape(contents: seq<byte>, size: int)
    ensures var cs := Chunks(contents, size);
      (cs == [] <==> contents == [] || size == 0) &&
      (forall i :: 0 <= i < |cs| ==> cs[i] != [] && (size > 0 ==> |cs[i]| <= size)) &&
      (size > 0 ==> forall i :: 0 <= i < |cs| - 1 ==> |cs[i]| == size) &&
      (size < 0 ==> |cs| <= 1)
    decreases |contents|
  {
    var chunk := ReadChunk(contents, size);
    if chunk != [] {
      var rest := contents[|chunk|..];
      ChunksShape(rest, size);
      var cs := Chunks(contents, size);
      assert cs == [chunk] + Chunks(rest, size);
      if size > 0 && |cs| > 1 {
        assert rest != [];
        assert |chunk| == size;
      }
    }
  }

  /** The calls of a data plan are the writes of its chunks, one each, in order. */
  lemma {:induction false} DataEvents(cs: seq<seq<byte>>)
    ensures NoRaise(DataPlan(cs))
    ensures |Events(DataPlan(cs))| == |cs|
    ensures forall i :: 0 <= i < |cs| ==> Events(DataPlan(cs))[i] == WriteData(cs[i])
    ensures Data(Events(DataPlan(cs))) == Flatten(cs)
    decreases |cs|
  {
    if cs != [] {
      DataEvents(cs[1..]);
      var plan := DataPlan(cs);
      assert plan[0] == Do(WriteData(cs[0]));
      assert plan[1..] == DataPlan(cs[1..]);
      NoRaiseAppend([plan[0]], plan[1..]);
      assert plan == [plan[0]] + plan[1..];
      var ev := Events(plan);
      assert ev == [WriteData(cs[0])] + Events(DataPlan(cs[1..]));
      assert ev[1..] == Events(DataPlan(cs[1..]));
    }
  }

  /** Whether the payload step of an entry raises: only an unreadable regular entry does. */
  predicate Emittable(e: DiskEntry) {
    IsLinkCopy(e) || e.readable
  }

  /** The bytes an entry's payload step writes. */
  function Payload(e: DiskEntry, readSize: int): seq<byte> {
    if IsLinkCopy(e) || !e.readable || readSize == 0 then [] else e.contents
  }

  /** The payload step: data writes only, whose bytes are the entry's payload. */
  lemma PayloadEvents(e: DiskEntry, readSize: int)
    ensures NoRaise(PayloadPlan(e, readSize)) <==> Emittable(e)
    ensures var pev := Events(PayloadPlan(e, readSize));
      (forall i :: 0 <= i < |pev| ==> pev[i].WriteData? && IsEntryLevel(pev[i], readSize)) &&
      Headers(pev) == [] && Data(pev) == Payload(e, readSize)
  {
    var payload := PayloadPlan(e, readSize);
    var pev := Events(payload);
    if IsLinkCopy(e) {
      assert pev == [];
    } else if !e.readable {
      assert payload == [Raise(Unreadable(e.sourcePath))];
      assert Events(payload[1..]) == [];
    } else {
      var cs := Chunks(e.contents, readSize);
      DataEvents(cs);
      ChunksShape(e.contents, readSize);
      ChunksReassemble(e.contents, readSize);
      assert forall i :: 0 <= i < |pev| ==> pev[i] == WriteData(cs[i]);
      NoHeaders(pev);
    }
  }

  /** The calls of an entry's plan around those of its payload. */
  lemma EntryFrame(e: DiskEntry, readSize: int)
    ensures NoRaise(EntryPlan(e, readSize)) <==> NoRaise(PayloadPlan(e, readSize))
    ensures Events(EntryPlan(e, readSize))
         == [Descend, WriteHeader(StripLeadingSeparator(e.pathname))] + Events(PayloadPlan(e, readSize)) + [EntryFree]
  {
    var header := [Do(Descend), Do(WriteHeader(StripLeadingSeparator(e.pathname)))];
    var payload := PayloadPlan(e, readSize);
    var free := [Do(EntryFree)];
    assert EntryPlan(e, readSize) == header + payload + free;
    EventsAppend(header + payload, free);
    EventsAppend(header, payload);
    NoRaiseAppend(header + payload, free);
    NoRaiseAppend(header, payload);
    assert Events(header) == [Descend, WriteHeader(StripLeadingSeparator(e.pathname))] by {
      assert header[1..][1..] == [];
    }
    assert Events(free) == [EntryFree] by {
      assert free[1..] == [];
    }
  }

  /**
   * One entry's planned calls: a descend, its header with the stripped
   * pathname, then its data writes, then the release of the entry.
   */
  lemma EntryEvents(e: DiskEntry, readSize: int)
    ensures NoRaise(EntryPlan(e, readSize)) <==> Emittable(e)
    ensures var ev := Events(EntryPlan(e, readSize));
      |ev| >= 3 && ev[0] == Descend && ev[1] == WriteHeader(StripLeadingSeparator(e.pathname)) &&
      ev[|ev| - 1] == EntryFree &&
      forall i :: 2 <= i < |ev| - 1 ==> ev[i].WriteData? && IsEntryLevel(ev[i], readSize)
  {
    EntryFrame(e, readSize);
    PayloadEvents(e, readSize);
    var pev := Events(PayloadPlan(e, readSize));
    var ev := [Descend, WriteHeader(StripLeadingSeparator(e.pathname))] + pev + [EntryFree];
    forall i | 2 <= i < |ev| - 1
      ensures ev[i].WriteData? && IsEntryLevel(ev[i], readSize)
    {
      assert ev[i] == pev[i - 2];
    }
  }

  /**
   * An entry's planned calls write one header, with its stripped pathname,
   * and the bytes of its payload: a link copy none, a regular entry its
   * contents.
   */
  lemma EntryWrites(e: DiskEntry, readSize: int)
    ensures Headers(Events(EntryPlan(e, readSize))) == [StripLeadingSeparator(e.pathname)]
    ensures Data(Events(EntryPlan(e, readSize))) == Payload(e, readSize)
  {
    var head := [Descend, WriteHeader(StripLeadingSeparator(e.pathname))];
    EntryFrame(e, readSize);
    PayloadEvents(e, readSize);
    var pev := Events(PayloadPlan(e, readSize));
    HeadersAppend(head + pev, [EntryFree]);
    HeadersAppend(head, pev);
    DataAppend(head + pev, [EntryFree]);
    DataAppend(head, pev);
  }

  /** Calls that write no header name no pathname. */
  lemma {:induction false} NoHeaders(ev: seq<Event>)
    requires forall i :: 0 <= i < |ev| ==> !ev[i].WriteHeader?
    ensures Headers(ev) == []
    decreases |ev|
  {
    if ev != [] {
      NoHeaders(ev[1..]);
    }
  }

  /** Calls that write no data write no bytes. */
  lemma {:induction false} NoData(ev: seq<Event>)
    requires forall i :: 0 <= i < |ev| ==> !ev[i].WriteData?
    ensures Data(ev) == []
    decreases |ev|
  {
    if ev != [] {
      NoData(ev[1..]);
    }
  }

  /** How many times a call occurs in a sequence of calls. */
  function Count(x: Event, trace: seq<Event>): nat
    decreases |trace|
  {
    if trace == [] then 0 else (if trace[0] == x then 1 else 0) + Count(x, trace[1..])
  }

  lemma {:induction false} CountAppend(x: Event, a: seq<Event>, b: seq<Event>)
    ensures Count(x, a + b) == Count(x, a) + Count(x, b)
    decreases |a|
  {
    if a == [] {
      assert a + b == b;
    } else {
      assert (a + b)[1..] == a[1..] + b;
      CountAppend(x, a[1..], b);
    }
  }

  lemma CountPair(x: Event, a: Event, b: Event)
    ensures Count(x, [a, b]) == (if a == x then 1 else 0) + (if b == x then 1 else 0)
  {
    assert [a, b][1..] == [b];
    assert [b][1..] == [];
    assert Count(x, [b]) == (if b == x then 1 else 0) + Count(x, []);
  }

  /** A call that does not occur is counted zero times. */
  lemma {:induction false} CountAbsent(x: Event, ev: seq<Event>)
    requires x !in ev
    ensures Count(x, ev) == 0
    decreases |ev|
  {
    if ev != [] {
      assert ev[0] in ev;
      assert forall y :: y in ev[1..] ==> y in ev;
      CountAbsent(x, ev[1..]);
    }
  }

  /** Data writes are neither the creation nor the release of an entry. */
  lemma {:induction false} WritesCountNoEntries(ev: seq<Event>)
    requires forall i :: 0 <= i < |ev| ==> ev[i].WriteData?
    ensures Count(EntryNew, ev) == 0 && Count(EntryFree, ev) == 0
    decreases |ev|
  {
    if ev != [] {
      WritesCountNoEntries(ev[1..]);
    }
  }

  /** An entry's planned calls release the entry once and create none. */
  lemma EntryCounts(e: DiskEntry, readSize: int)
    ensures Count(EntryNew, Events(EntryPlan(e, readSize))) == 0
    ensures Count(EntryFree, Events(EntryPlan(e, readSize))) == 1
  {
    var head := [Descend, WriteHeader(StripLeadingSeparator(e.pathname))];
    EntryFrame(e, readSize);
    PayloadEvents(e, readSize);
    var pev := Events(PayloadPlan(e, readSize));
    WritesCountNoEntries(pev);
    CountAppend(EntryNew, head + pev, [EntryFree]);
    CountAppend(EntryNew, head, pev);
    CountAppend(EntryFree, head + pev, [EntryFree]);
    CountAppend(EntryFree, head, pev);
    assert head[1..][1..] == [];
    assert Count(EntryNew, head) == 0 && Count(EntryFree, head) == 0;
    assert [EntryFree][1..] == [];
    assert Count(EntryNew, [EntryFree]) == 0 && Count(EntryFree, [EntryFree]) == 1;
  }

  /** The number of leading OK results: where a walk stops. */
  function StopIndex(walk: seq<WalkStep>): (n: nat)
    ensures n <= |walk|
    ensures forall i :: 0 <= i < n ==> walk[i].code == ARCHIVE_OK
    ensures n < |walk| ==> walk[n].code != ARCHIVE_OK
    decreases |walk|
  {
    if walk == [] || walk[0].code != ARCHIVE_OK then 0 else 1 + StopIndex(walk[1..])
  }

  /** The entries a walk hands back are those before its stop, in walk order. */
  lemma {:induction false} ArchivedUpToStop(walk: seq<WalkStep>)
    ensures |Archived(walk)| == StopIndex(walk)
    ensures forall i :: 0 <= i < StopIndex(walk) ==> Archived(walk)[i] == ToArchived(walk[i].entry)
    decreases |walk|
  {
    if walk != [] && walk[0].code == ARCHIVE_OK {
      ArchivedUpToStop(walk[1..]);
      var a := Archived(walk);
      assert a == [ToArchived(walk[0].entry)] + Archived(walk[1..]);
      forall i | 1 <= i < StopIndex(walk) ensures a[i] == ToArchived(walk[i].entry) {
        assert a[i] == Archived(walk[1..])[i - 1];
        assert walk[1..][i - 1] == walk[i];
      }
    }
  }

  /** A walk that ends at ARCHIVE_EOF, or runs out, with every entry before the stop emittable. */
  predicate WalkEndsCleanly(walk: seq<WalkStep>) {
    var n := StopIndex(walk);
    (n == |walk| || walk[n].code == ARCHIVE_EOF) &&
    forall i :: 0 <= i < n ==> Emittable(walk[i].entry)
  }

  /** One turn of a walk's plan, as calls and as raises. */
  lemma WalkFrame(walk: seq<WalkStep>, readSize: int)
    ensures var stops := walk == [] || walk[0].code != ARCHIVE_OK;
      Events(WalkPlan(walk, readSize))
      == [EntryNew, ReadNextHeader] +
         if stops then [] else Events(EntryPlan(walk[0].entry, readSize)) + Events(WalkPlan(walk[1..], readSize))
    ensures NoRaise(WalkPlan(walk, readSize))
        <==> if walk == [] || walk[0].code == ARCHIVE_EOF then true
             else if walk[0].code != ARCHIVE_OK then false
             else NoRaise(EntryPlan(walk[0].entry, readSize)) && NoRaise(WalkPlan(walk[1..], readSize))
  {
    var fetch := [Do(EntryNew), Do(ReadNextHeader)];
    var plan := WalkPlan(walk, readSize);
    var tail := plan[2..];
    assert plan == fetch + tail;
    EventsAppend(fetch, tail);
    NoRaiseAppend(fetch, tail);
    assert Events(fetch) == [EntryNew, ReadNextHeader] by {
      assert fetch[1..][1..] == [];
    }
    if walk == [] || walk[0].code == ARCHIVE_EOF {
    } else if walk[0].code != ARCHIVE_OK {
      assert tail == [Raise(WalkFault(walk[0].code))];
      assert Events(tail[1..]) == [];
      assert !tail[0].Do?;
    } else {
      EventsAppend(EntryPlan(walk[0].entry, readSize), WalkPlan(walk[1..], readSize));
      NoRaiseAppend(EntryPlan(walk[0].entry, readSize), WalkPlan(walk[1..], readSize));
    }
  }

  /** Where a walk stops, one turn at a time. */
  lemma StopTurn(walk: seq<WalkStep>)
    requires walk != [] && walk[0].code == ARCHIVE_OK
    ensures WalkEndsCleanly(walk) <==> Emittable(walk[0].entry) && WalkEndsCleanly(walk[1..])
  {
    var n := StopIndex(walk);
    var rest := walk[1..];
    assert n == 1 + StopIndex(rest);
    assert n < |walk| ==> walk[n] == rest[n - 1];
    if Emittable(walk[0].entry) && WalkEndsCleanly(rest) {
      forall i | 0 <= i < n ensures Emittable(walk[i].entry) {
        if i > 0 { assert walk[i] == rest[i - 1]; }
      }
    }
    if WalkEndsCleanly(walk) {
      forall i | 0 <= i < n - 1 ensures Emittable(rest[i].entry) {
        assert rest[i] == walk[i + 1];
      }
    }
  }

  /**
   * A walk's plan raises nothing exactly when the walk ends at ARCHIVE_EOF
   * or runs out, and every entry before that can be emitted.
   */
  lemma {:induction false} WalkRaises(walk: seq<WalkStep>, readSize: int)
    ensures NoRaise(WalkPlan(walk, readSize)) <==> WalkEndsCleanly(walk)
    decreases |walk|
  {
    WalkFrame(walk, readSize);
    if walk != [] && walk[0].code == ARCHIVE_OK {
      WalkRaises(walk[1..], readSize);
      EntryEvents(walk[0].entry, readSize);
      StopTurn(walk);
    }
  }

  /** The only raise in an entry's plan is that of an unreadable file. */
  lemma EntryRaises(e: DiskEntry, readSize: int, a: Action)
    requires a in EntryPlan(e, readSize) && a.Raise?
    ensures a == Raise(Unreadable(e.sourcePath))
  {
    var header := [Do(Descend), Do(WriteHeader(StripLeadingSeparator(e.pathname)))];
    assert EntryPlan(e, readSize) == header + PayloadPlan(e, readSize) + [Do(EntryFree)];
    if IsLinkCopy(e) || !e.readable {
    } else {
      DataEvents(Chunks(e.contents, readSize));
    }
  }

  /**
   * A walk raises `ArchiveError` for a status code only at its stop, and
   * only when that code is neither ARCHIVE_OK nor ARCHIVE_EOF.
   */
  lemma {:induction false} WalkFaultIsStopCode(walk: seq<WalkStep>, readSize: int, c: int)
    requires Raise(WalkFault(c)) in WalkPlan(walk, readSize)
    ensures var n := StopIndex(walk);
      n < |walk| && walk[n].code == c && c != ARCHIVE_OK && c != ARCHIVE_EOF
    decreases |walk|
  {
    var fetch := [Do(EntryNew), Do(ReadNextHeader)];
    var plan := WalkPlan(walk, readSize);
    assert plan == fetch + plan[2..];
    if walk == [] || walk[0].code == ARCHIVE_EOF {
      assert false;
    } else if walk[0].code != ARCHIVE_OK {
      assert plan[2..] == [Raise(WalkFault(walk[0].code))];
    } else {
      var e := walk[0].entry;
      assert plan[2..] == EntryPlan(e, readSize) + WalkPlan(walk[1..], readSize);
      if Raise(WalkFault(c)) in EntryPlan(e, readSize) {
        EntryRaises(e, readSize, Raise(WalkFault(c)));
      }
      WalkFaultIsStopCode(walk[1..], readSize, c);
      assert StopIndex(walk) == 1 + StopIndex(walk[1..]);
      assert walk[StopIndex(walk)] == walk[1..][StopIndex(walk[1..])];
    }
  }

  /** The planned calls of a walk are all entry-level calls. */
  lemma {:induction false} WalkEventsAreEntryLevel(walk: seq<WalkStep>, readSize: int)
    ensures forall e :: e in Events(WalkPlan(walk, readSize)) ==> IsEntryLevel(e, readSize)
    decreases |walk|
  {
    WalkFrame(walk, readSize);
    if walk != [] && walk[0].code == ARCHIVE_OK {
      var eev := Events(EntryPlan(walk[0].entry, readSize));
      WalkEventsAreEntryLevel(walk[1..], readSize);
      EntryEvents(walk[0].entry, readSize);
      forall x | x in eev ensures IsEntryLevel(x, readSize) {
        var i :| 0 <= i < |eev| && eev[i] == x;
      }
    }
  }

  /** A walk's planned calls write one header per entry it hands back, with that entry's stripped pathname. */
  lemma {:induction false} WalkHeaders(walk: seq<WalkStep>, readSize: int)
    ensures Headers(Events(WalkPlan(walk, readSize))) == Pathnames(Archived(walk))
    decreases |walk|
  {
    WalkFrame(walk, readSize);
    var fetched := [EntryNew, ReadNextHeader];
    assert Headers(fetched) == [] by {
      assert fetched[1..][1..] == [];
    }
    if walk != [] && walk[0].code == ARCHIVE_OK {
      var e := walk[0].entry;
      var eev := Events(EntryPlan(e, readSize));
      var rev := Events(WalkPlan(walk[1..], readSize));
      WalkHeaders(walk[1..], readSize);
      EntryWrites(e, readSize);
      HeadersAppend(fetched, eev + rev);
      HeadersAppend(eev, rev);
      assert Archived(walk) == [ToArchived(e)] + Archived(walk[1..]);
      PathnamesAppend([ToArchived(e)], Archived(walk[1..]));
    }
  }

  /**
   * A walk's planned calls create one more entry than they release: the
   * entry of its last read, which reports the end or an error, is never
   * freed.
   */
  lemma {:induction false} WalkLeaksOneEntry(walk: seq<WalkStep>, readSize: int)
    ensures Count(EntryNew, Events(WalkPlan(walk, readSize)))
         == Count(EntryFree, Events(WalkPlan(walk, readSize))) + 1
    decreases |walk|
  {
    WalkFrame(walk, readSize);
    var fetched := [EntryNew, ReadNextHeader];
    assert fetched[1..][1..] == [];
    if walk == [] || walk[0].code != ARCHIVE_OK {
      assert Events(WalkPlan(walk, readSize)) == fetched;
    } else {
      var e := walk[0].entry;
      var eev := Events(EntryPlan(e, readSize));
      var rev := Events(WalkPlan(walk[1..], readSize));
      WalkLeaksOneEntry(walk[1..], readSize);
      EntryCounts(e, readSize);
      CountAppend(EntryNew, fetched, eev + rev);
      CountAppend(EntryNew, eev, rev);
      CountAppend(EntryFree, fetched, eev + rev);
      CountAppend(EntryFree, eev, rev);
    }
  }

  /** The bytes a walk's entries carry, in walk order, up to its stop. */
  function WalkPayload(walk: seq<WalkStep>, readSize: int): seq<byte>
    decreases |walk|
  {
    if walk == [] || walk[0].code != ARCHIVE_OK then []
    else Payload(walk[0].entry, readSize) + WalkPayload(walk[1..], readSize)
  }

  /** A walk's planned calls write the payloads of the entries it hands back, in order, and nothing else. */
  lemma {:induction false} WalkData(walk: seq<WalkStep>, readSize: int)
    ensures Data(Events(WalkPlan(walk, readSize))) == WalkPayload(walk, readSize)
    decreases |walk|
  {
    WalkFrame(walk, readSize);
    var fetched := [EntryNew, ReadNextHeader];
    NoData(fetched);
    if walk != [] && walk[0].code == ARCHIVE_OK {
      var e := walk[0].entry;
      var eev := Events(EntryPlan(e, readSize));
      var rev := Events(WalkPlan(walk[1..], readSize));
      WalkData(walk[1..], readSize);
      EntryWrites(e, readSize);
      DataAppend(fetched, eev + rev);
      DataAppend(eev, rev);
    }
  }
}
