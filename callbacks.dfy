/**
 * The adapters `create_generic` hands to `archive_write_open`: the open
 * and close adapters call the user's hook when one was given and always
 * report ARCHIVE_OK; the write adapter hands the user's write callback
 * exactly the `length` bytes libarchive passed and returns its answer.
 */
module Callbacks {
  import opened ArchiveTypes

  /** What one invocation of the open or close adapter did: the hooks it called and the status it returned. */
  datatype HookRun<H> = HookRun(called: seq<H>, status: int)

  /**
   * `open_cb_internal` and `close_cb_internal`: the hook, when one was
   * given, is called once; nothing is called otherwise; ARCHIVE_OK is
   * returned either way.
   */
  function HookAdapter<H>(hook: Option<H>): (r: HookRun<H>)
    ensures r.status == ARCHIVE_OK
    ensures r.called != [] <==> hook.Some?
    ensures hook.Some? ==> r.called == [hook.value]
  {
    if hook.Some? then HookRun([hook.value], ARCHIVE_OK) else HookRun([], ARCHIVE_OK)
  }

  /** What one invocation of the write adapter did: the bytes and count it forwarded and the status it returned. */
  datatype WriteRun = WriteRun(forwarded: seq<byte>, length: int, status: int)

  /**
   * `write_cb_internal`: the `length` bytes at `buffer` go to the user's
   * write callback together with `length`, and its answer is the adapter's.
   * libarchive hands over a buffer holding at least `length` bytes.
   */
  function WriteAdapter(writeCb: (seq<byte>, int) -> int, buffer: seq<byte>, length: nat): (r: WriteRun)
    requires length <= |buffer|
    ensures |r.forwarded| == length && r.length == length
    ensures r.forwarded <= buffer
    ensures r.status == writeCb(r.forwarded, length)
  {
    var data := buffer[..length];
    WriteRun(data, length, writeCb(data, length))
  }

  /**
   * The write adapter depends only on the first `length` bytes of the
   * buffer: whatever follows them is neither forwarded nor read.
   */
  lemma WriteAdapterIgnoresTail(writeCb: (seq<byte>, int) -> int, a: seq<byte>, b: seq<byte>, length: nat)
    requires length <= |a| && length <= |b|
    requires forall i :: 0 <= i < length ==> a[i] == b[i]
    ensures WriteAdapter(writeCb, a, length) == WriteAdapter(writeCb, b, length)
  {
    assert a[..length] == b[..length];
  }
}
