/**
 Writing the append only file: the buffer filled by feedAppendOnlyFile and emptied by flushAppendOnlyFile,
 in the face of short writes, interrupted and failed writes, and an ftruncate that may fail as well.
 */
module AofFlush {
  import opened Prelude

  datatype Policy = No | EverySec | Always

  /** What the kernel answers to one write(2). */
  datatype WriteReply = Wrote(n: nat) | Interrupted | Failed

  /** What flushAppendOnlyFile depends on besides the server fields. */
  datatype FlushEnv = FlushEnv(
    policy: Policy,
    force: bool,
    syncInProgress: bool,     // a background fsync is pending
    noFsyncNow: bool,         // no-appendfsync-on-rewrite and a child is active
    now: int,                 // server.unixtime
    replies: seq<WriteReply>,
    truncateOk: bool)

  datatype Aof = Aof(
    file: seq<byte>,          // what is in the append only file
    buf: seq<byte>,           // server.aof_buf
    currentSize: nat,
    fsyncOffset: nat,
    lastFsync: int,
    postponedStart: int,
    writeOk: bool)            // aof_last_write_status

  datatype Flushed = Returned(aof: Aof) | Exited(aof: Aof)

  // ---------------------------------------------------------------------------
  // aofWrite
  // ---------------------------------------------------------------------------

  /** How many of len bytes end up in the file: writes are retried when short or interrupted. A write that
      is never answered with an error or completion has no last reply; only returning calls are modelled. */
  function BytesWritten(len: nat, replies: seq<WriteReply>): (n: nat)
    ensures n <= len
    decreases |replies|
  {
    if len == 0 || replies == [] then 0 else
    match replies[0]
    case Failed => 0
    case Interrupted => BytesWritten(len, replies[1..])
    case Wrote(k) => Min(k, len) + BytesWritten(len - Min(k, len), replies[1..])
  }

  /** What the kernel takes in all until it reports an error. */
  function Offered(replies: seq<WriteReply>): nat {
    if replies == [] || replies[0].Failed? then 0
    else (if replies[0].Wrote? then replies[0].n else 0) + Offered(replies[1..])
  }

  /** Short and interrupted writes are retried until everything is written or the kernel takes no more. */
  lemma {:induction false} WritesWhatIsOffered(len: nat, replies: seq<WriteReply>)
    ensures BytesWritten(len, replies) == Min(len, Offered(replies))
    decreases |replies|
  {
    if replies != [] && len > 0 {
      match replies[0]
      case Failed =>
      case Interrupted => WritesWhatIsOffered(len, replies[1..]);
      case Wrote(k) => WritesWhatIsOffered(len - Min(k, len), replies[1..]);
    }
  }

  /** The return value of aofWrite. */
  function WriteResult(len: nat, replies: seq<WriteReply>): int {
    var n := BytesWritten(len, replies);
    if n == 0 && len > 0 then -1 else n
  }

  method AofWrite(file: seq<byte>, buf: seq<byte>, replies: seq<WriteReply>) returns (file': seq<byte>, result: int)
    ensures result == WriteResult(|buf|, replies)
    ensures file' == file + buf[..BytesWritten(|buf|, replies)]
  {
    file' := file;
    var total, i := 0, 0;
    while total < |buf|
      invariant 0 <= total <= |buf| && i <= |replies|
      invariant file' == file + buf[..total]
      invariant total + BytesWritten(|buf| - total, replies[i..]) == BytesWritten(|buf|, replies)
      decreases |replies| - i
    {
      assert i < |replies| ==> replies[i..][1..] == replies[i + 1..];
      if i == |replies| || replies[i].Failed? {
        result := if total > 0 then total else -1;
        return;
      }
      if replies[i].Wrote? {
        var n := Min(replies[i].n, |buf| - total);
        file' := file' + buf[total..total + n];
        assert buf[..total] + buf[total..total + n] == buf[..total + n];
        total := total + n;
      }
      i := i + 1;
    }
    result := total;
  }

  // ---------------------------------------------------------------------------
  // flushAppendOnlyFile
  // ---------------------------------------------------------------------------

  /** Whether the flush waits for the background fsync instead of writing. */
  predicate Postpones(a: Aof, e: FlushEnv) {
    && e.policy == EverySec && !e.force && e.syncInProgress
    && (a.postponedStart == 0 || e.now - a.postponedStart < 2)
  }

  function TryFsync(a: Aof, e: FlushEnv): Aof {
    if e.noFsyncNow then a
    else if e.policy == Always then a.(fsyncOffset := a.currentSize, lastFsync := e.now)
    else if e.policy == EverySec && e.now > a.lastFsync then
      a.(fsyncOffset := if e.syncInProgress then a.fsyncOffset else a.currentSize, lastFsync := e.now)
    else a
  }

  /** After a write that did not take the whole buffer. */
  function AfterShortWrite(a: Aof, n: nat, e: FlushEnv): Flushed
    requires n < |a.buf|
  {
    var written := a.(file := a.file + a.buf[..n], postponedStart := 0);
    // a short write is undone with ftruncate; if that fails the buffer is trimmed instead
    var undone :=
      if n > 0 && e.truncateOk && a.currentSize <= |written.file|
      then written.(file := written.file[..a.currentSize]) else written;
    if e.policy == Always then Exited(undone)
    else if n > 0 && !e.truncateOk then
      Returned(undone.(writeOk := false, currentSize := a.currentSize + n, buf := a.buf[n..]))
    else Returned(undone.(writeOk := false))
  }

  function FlushSpec(a: Aof, e: FlushEnv): Flushed {
    if a.buf == [] then
      if e.policy == EverySec && a.fsyncOffset != a.currentSize && e.now > a.lastFsync && !e.syncInProgress
      then Returned(TryFsync(a, e))
      else Returned(a)
    else if Postpones(a, e) then
      Returned(if a.postponedStart == 0 then a.(postponedStart := e.now) else a)
    else
      var n := BytesWritten(|a.buf|, e.replies);
      if n != |a.buf| then AfterShortWrite(a, n, e)
      else Returned(TryFsync(a.(file := a.file + a.buf, buf := [], currentSize := a.currentSize + n,
                                postponedStart := 0, writeOk := true), e))
  }

  /** A flush has something to write and no reason to wait for a pending fsync. */
  predicate MustWrite(a: Aof, e: FlushEnv) {
    && a.buf != []
    && (|| e.policy != EverySec || e.force || !e.syncInProgress
        || (a.postponedStart != 0 && e.now - a.postponedStart >= 2))
  }

  /** With the everysec policy, the last fsync was in an earlier second and none is pending or forbidden. */
  predicate SyncIsDue(a: Aof, e: FlushEnv) {
    e.policy == EverySec && !e.noFsyncNow && !e.syncInProgress && e.now > a.lastFsync
  }

  /** What a flush promises, by what the kernel answers. */
  ghost predicate FlushedAs(a: Aof, e: FlushEnv, exited: bool, r: Aof) {
    var n := Min(|a.buf|, Offered(e.replies));
    // all is written
    && (MustWrite(a, e) && n == |a.buf| ==>
          && !exited && r.file == a.file + a.buf && r.buf == [] && r.writeOk && r.postponedStart == 0
          && r.currentSize == a.currentSize + |a.buf|
          && (e.policy == Always && !e.noFsyncNow ==> r.fsyncOffset == r.currentSize && r.lastFsync == e.now)
          && (SyncIsDue(a, e) ==> r.fsyncOffset == r.currentSize && r.lastFsync == e.now)
          && (e.policy == No || e.noFsyncNow ==> r.fsyncOffset == a.fsyncOffset && r.lastFsync == a.lastFsync))
    // a part is written
    && (MustWrite(a, e) && n < |a.buf| ==> exited == (e.policy == Always))
    && (MustWrite(a, e) && n < |a.buf| && e.policy != Always ==> !r.writeOk && r.postponedStart == 0)
    && (MustWrite(a, e) && n < |a.buf| && (n == 0 || e.truncateOk) && a.currentSize == |a.file| ==>
          r.file == a.file && r.buf == a.buf && r.currentSize == a.currentSize)
    && (MustWrite(a, e) && n < |a.buf| && !e.truncateOk ==> r.file == a.file + a.buf[..n])
    && (MustWrite(a, e) && n < |a.buf| && !e.truncateOk && e.policy != Always ==>
          r.buf == a.buf[n..] && r.currentSize == a.currentSize + n)
    // nothing is written
    && (!MustWrite(a, e) ==>
          !exited && r.file == a.file && r.buf == a.buf && r.currentSize == a.currentSize && r.writeOk == a.writeOk)
    && (!MustWrite(a, e) && a.buf != [] ==>
          r.postponedStart == if a.postponedStart == 0 then e.now else a.postponedStart)
    && (a.buf == [] && a.fsyncOffset != a.currentSize && SyncIsDue(a, e) ==>
          r.fsyncOffset == a.currentSize && r.lastFsync == e.now)
  }

  /** A flush writes: everything, if the kernel takes it, with the fsync its policy asks for; and what becomes of a
      write that was cut short. */
  lemma FlushWrites(a: Aof, e: FlushEnv)
    ensures FlushedAs(a, e, FlushSpec(a, e).Exited?, FlushSpec(a, e).aof)
  {
    WritesWhatIsOffered(|a.buf|, e.replies);
    hide BytesWritten, Offered;
    var n := Min(|a.buf|, Offered(e.replies));
    if MustWrite(a, e) && n < |a.buf| {
      assert (a.file + a.buf[..n])[..|a.file|] == a.file;
      assert n == 0 ==> a.file + a.buf[..n] == a.file && a.buf[n..] == a.buf;
    }
  }

  class AppendOnlyFile {
    var aof: Aof

    constructor (file: seq<byte>)
      ensures aof == Aof(file, [], |file|, |file|, 0, 0, true)
    {
      aof := Aof(file, [], |file|, |file|, 0, 0, true);
    }

    /** The end of feedAppendOnlyFile while the file is on. */
    method Feed(bytes: seq<byte>)
      modifies this
      ensures aof == old(aof).(buf := old(aof).buf + bytes)
    {
      aof := aof.(buf := aof.buf + bytes);
    }

    method Flush(e: FlushEnv) returns (exited: bool)
      modifies this
      ensures (if exited then Exited(aof) else Returned(aof)) == FlushSpec(old(aof), e)
      ensures FlushedAs(old(aof), e, exited, aof)
    {
      hide TryFsync, BytesWritten, FlushedAs;
      FlushWrites(aof, e);
      exited := false;
      if aof.buf == [] {
        if e.policy == EverySec && aof.fsyncOffset != aof.currentSize && e.now > aof.lastFsync && !e.syncInProgress {
          aof := TryFsync(aof, e);
        }
        return;
      }
      if e.policy == EverySec && !e.force {
        if e.syncInProgress {
          if aof.postponedStart == 0 {
            aof := aof.(postponedStart := e.now);
            return;
          } else if e.now - aof.postponedStart < 2 {
            return;
          }
        }
      }
      var file, nwritten := AofWrite(aof.file, aof.buf, e.replies);
      aof := aof.(file := file, postponedStart := 0);
      if nwritten != |aof.buf| {
        if nwritten != -1 {
          if e.truncateOk {
            if aof.currentSize <= |aof.file| {
              aof := aof.(file := aof.file[..aof.currentSize]);
            }
            nwritten := -1;
          }
        }
        if e.policy == Always {
          exited := true;
          return;
        }
        aof := aof.(writeOk := false);
        if nwritten > 0 {
          aof := aof.(currentSize := aof.currentSize + nwritten, buf := aof.buf[nwritten..]);
        }
        return;
      }
      assert old(aof).buf[..|old(aof).buf|] == old(aof).buf;
      aof := aof.(writeOk := true, currentSize := aof.currentSize + nwritten, buf := []);
      aof := TryFsync(aof, e);
    }
  }

  // ---------------------------------------------------------------------------
  // Conservation over runs
  // ---------------------------------------------------------------------------

  /** File and buffer together are everything fed so far, and the recorded size is the file's length. */
  ghost predicate Consistent(a: Aof, fed: seq<byte>) {
    && a.file + a.buf == fed
    && a.currentSize == |a.file|
    && a.fsyncOffset <= a.currentSize
  }

  /** A flush that returns keeps the invariant; one that exits leaves a prefix of the log in the file. */
  lemma FlushConserves(a: Aof, e: FlushEnv, fed: seq<byte>)
    requires Consistent(a, fed)
    ensures FlushSpec(a, e).Returned? ==> Consistent(FlushSpec(a, e).aof, fed)
    ensures FlushSpec(a, e).Exited? ==> a.file <= FlushSpec(a, e).aof.file <= fed
  {
    if a.buf != [] && !Postpones(a, e) {
      var n := BytesWritten(|a.buf|, e.replies);
      if n != |a.buf| {
        ShortWriteConserves(a, n, e, fed);
      } else {
        assert a.file + a.buf + [] == fed;
      }
    }
  }

  lemma ShortWriteConserves(a: Aof, n: nat, e: FlushEnv, fed: seq<byte>)
    requires Consistent(a, fed) && n < |a.buf|
    ensures AfterShortWrite(a, n, e).Returned? ==> Consistent(AfterShortWrite(a, n, e).aof, fed)
    ensures AfterShortWrite(a, n, e).Exited? ==> a.file <= AfterShortWrite(a, n, e).aof.file <= fed
  {
    assert (a.file + a.buf[..n])[..|a.file|] == a.file;
    assert a.file + a.buf[..n] + a.buf[n..] == fed;
    if n == 0 {
      assert a.file + a.buf[..n] == a.file;
    }
  }

  /** A flush with something to write that does not write was asked less than two seconds ago to wait. */
  lemma WaitsLessThanTwoSeconds(a: Aof, e: FlushEnv)
    requires a.buf != [] && e.now != 0
    requires FlushSpec(a, e).Returned? && FlushSpec(a, e).aof.postponedStart != 0
    ensures e.now - FlushSpec(a, e).aof.postponedStart < 2
    ensures FlushSpec(a, e).aof.file == a.file && FlushSpec(a, e).aof.buf == a.buf
  {
  }

  datatype Event = FeedEvent(bytes: seq<byte>) | FlushEvent(env: FlushEnv)

  /** What a run of events has fed, and where it leaves the file; None when the process exits. */
  function RunEvents(a: Aof, events: seq<Event>): Option<Aof>
    decreases |events|
  {
    if events == [] then Some(a) else
    match events[0]
    case FeedEvent(bytes) => RunEvents(a.(buf := a.buf + bytes), events[1..])
    case FlushEvent(e) =>
      var f := FlushSpec(a, e);
      if f.Exited? then None else RunEvents(f.aof, events[1..])
  }

  function FedBy(events: seq<Event>): seq<byte>
    decreases |events|
  {
    if events == [] then []
    else (if events[0].FeedEvent? then events[0].bytes else []) + FedBy(events[1..])
  }

  /** Over every run: the file followed by the buffer is the old file followed by everything fed. */
  lemma {:induction false} RunConserves(a: Aof, events: seq<Event>, fed: seq<byte>)
    requires Consistent(a, fed)
    ensures RunEvents(a, events).Some? ==> Consistent(RunEvents(a, events).value, fed + FedBy(events))
    decreases |events|
  {
    if events == [] {
      assert fed + [] == fed;
    } else {
      match events[0]
      case FeedEvent(bytes) =>
        assert a.file + (a.buf + bytes) == fed + bytes;
        RunConserves(a.(buf := a.buf + bytes), events[1..], fed + bytes);
        assert fed + bytes + FedBy(events[1..]) == fed + (bytes + FedBy(events[1..]));
      case FlushEvent(e) =>
        FlushConserves(a, e, fed);
        if FlushSpec(a, e).Returned? {
          RunConserves(FlushSpec(a, e).aof, events[1..], fed);
        }
        assert [] + FedBy(events[1..]) == FedBy(events[1..]);
    }
  }

  /** Every flush of the run waits instead of writing. */
  ghost predicate AllPostponed(a: Aof, events: seq<Event>)
    decreases |events|
  {
    events == [] ||
    match events[0]
    case FeedEvent(bytes) => AllPostponed(a.(buf := a.buf + bytes), events[1..])
    case FlushEvent(e) => a.buf != [] && e.now > 0 && Postpones(a, e) && AllPostponed(FlushSpec(a, e).aof, events[1..])
  }

  lemma {:induction false} PostponedSince(a: Aof, events: seq<Event>, i: nat)
    requires AllPostponed(a, events) && a.postponedStart != 0 && i < |events| && events[i].FlushEvent?
    ensures events[i].env.now - a.postponedStart < 2
    decreases |events|
  {
    if i > 0 {
      match events[0]
      case FeedEvent(bytes) => PostponedSince(a.(buf := a.buf + bytes), events[1..], i - 1);
      case FlushEvent(e) =>
        WaitsLessThanTwoSeconds(a, e);
        PostponedSince(FlushSpec(a, e).aof, events[1..], i - 1);
    }
  }

  /** However many flushes wait in a row, and whatever is fed meanwhile, they span less than two seconds. */
  lemma PostponingEnds(a: Aof, events: seq<Event>, i: nat)
    requires a.postponedStart == 0 && AllPostponed(a, events) && i < |events|
    requires events[0].FlushEvent? && events[i].FlushEvent?
    ensures events[i].env.now - events[0].env.now < 2
  {
    var e := events[0].env;
    if i > 0 {
      PostponedSince(FlushSpec(a, e).aof, events[1..], i - 1);
    }
  }
}
