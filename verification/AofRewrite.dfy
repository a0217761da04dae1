/**
 The background rewrite of the append only file.

 The child writes its snapshot and then the differences it reads from a pipe; the parent keeps what is
 fed since the fork in the rewrite buffer, sends some of it down the pipe, and appends what is left when
 the child is done. The two sides stop with a handshake: '!' from the child, '!' back from the parent.
 Parent handlers and child system calls interleave in any way; a run is any list of such steps.
 */
module AofRewrite {
  import opened Prelude

  datatype AofState = Off | On | WaitRewrite

  datatype Phase =
    | Writing                     // snapshot, polling the pipe from time to time
    | Asked                       // sent '!', waiting for the answer
    | Acked                       // reading the final difference
    | Finished(file: seq<byte>)   // exited with status 0, leaving this file
    | Died                        // any other end

  datatype Outcome = Running | Succeeded | Abandoned

  datatype State = State(
    // the server's own file
    aof: AofState,
    log: seq<byte>,        // bytes in the current append only file
    aofBuf: seq<byte>,     // not written to it yet
    // the parent's side of the rewrite
    pending: seq<byte>,    // contents of the rewrite buffer
    stop: bool,            // aof_stop_sending_diff
    outcome: Outcome,
    // pipes
    data: seq<byte>,
    asks: nat,             // '!' bytes from child to parent
    acks: nat,             // '!' bytes from parent to child
    // the child
    phase: Phase,
    snapshot: seq<byte>,
    diff: seq<byte>,
    // history: everything fed since the fork, and what the log stood for at the fork
    fed: seq<byte>,
    oldLog: seq<byte>)

  datatype Step =
    | Feed(s: seq<byte>)
    | Flush(n: nat)
    | SendDiff(n: nat)
    | HandleAsk(answered: bool)
    | ChildRead(n: nat)
    | ChildAsk(ok: bool)
    | ChildAwait(answered: bool)
    | ChildFinish(ok: bool)
    | ChildDie
    | Done(written: nat, renamed: bool)

  ghost predicate Forked(s: State) {
    && s.pending == [] && !s.stop && s.outcome == Running
    && s.data == [] && s.asks == 0 && s.acks == 0
    && s.phase == Writing && s.diff == []
    && s.fed == [] && s.oldLog == s.log + s.aofBuf
  }

  /** feedAppendOnlyFile: to the buffer of the file, and to the rewrite buffer while a child runs. */
  function FeedStep(s: State, bytes: seq<byte>): State {
    s.(aofBuf := if s.aof == On then s.aofBuf + bytes else s.aofBuf,
       pending := if s.outcome == Running then s.pending + bytes else s.pending,
       fed := s.fed + bytes)
  }

  /** Bytes move from the front of one stream to the end of another. */
  function Take(from: seq<byte>, n: nat): seq<byte> {
    from[..Min(n, |from|)]
  }

  function Rest(from: seq<byte>, n: nat): seq<byte> {
    from[Min(n, |from|)..]
  }

  /** backgroundRewriteDoneHandler. */
  function DoneStep(s: State, written: nat, renamed: bool): State {
    if s.phase.Finished? && written >= |s.pending| && renamed then
      s.(log := if s.aof == Off then s.log else s.phase.file + s.pending,
         aofBuf := if s.aof == Off then s.aofBuf else [],
         aof := if s.aof == WaitRewrite then On else s.aof,
         outcome := Succeeded, pending := [])
    else s.(outcome := Abandoned, pending := [])
  }

  function Apply(s: State, step: Step): State {
    match step
    case Feed(bytes) => FeedStep(s, bytes)
    case Flush(n) => s.(log := s.log + Take(s.aofBuf, n), aofBuf := Rest(s.aofBuf, n))
    case SendDiff(n) =>
      if s.outcome == Running && !s.stop
      then s.(data := s.data + Take(s.pending, n), pending := Rest(s.pending, n))
      else s
    case HandleAsk(answered) =>
      if s.outcome == Running && s.asks > 0
      then s.(asks := s.asks - 1, stop := true, acks := if answered then s.acks + 1 else s.acks)
      else s
    case ChildRead(n) =>
      if s.phase == Writing || s.phase == Acked
      then s.(diff := s.diff + Take(s.data, n), data := Rest(s.data, n))
      else s
    case ChildAsk(ok) =>
      if s.phase != Writing then s
      else if ok then s.(phase := Asked, asks := s.asks + 1)
      else s.(phase := Died)
    case ChildAwait(answered) =>
      if s.phase != Asked then s
      else if answered && s.acks > 0 then s.(phase := Acked, acks := s.acks - 1)
      else if answered then s
      else s.(phase := Died)
    case ChildFinish(ok) =>
      // the reading loop ends with any read that returns nothing, also one that failed
      if s.phase != Acked then s
      else if ok then s.(phase := Finished(s.snapshot + s.diff))
      else s.(phase := Died)
    case ChildDie => if s.phase.Finished? then s else s.(phase := Died)
    case Done(written, renamed) =>
      if s.outcome == Running && (s.phase.Finished? || s.phase == Died) then DoneStep(s, written, renamed) else s
  }

  function Run(s: State, steps: seq<Step>): State
    decreases |steps|
  {
    if steps == [] then s else Run(Apply(s, steps[0]), steps[1..])
  }

  // ---------------------------------------------------------------------------
  // Conservation
  // ---------------------------------------------------------------------------

  /** Every byte fed since the fork is in exactly one place: read by the child, in the pipe, or buffered. */
  ghost predicate Conserved(s: State) {
    && (s.outcome == Running ==> s.diff + s.data + s.pending == s.fed)
    && (s.outcome == Succeeded ==> s.diff + s.data <= s.fed)
  }

  /** Once the child has its answer the parent sends nothing more, so what a finished child did not read stays in the
      pipe. */
  ghost predicate Handshake(s: State) {
    && (s.acks > 0 || s.phase == Acked || s.phase.Finished? ==> s.stop)
    && (s.phase.Finished? ==> s.phase.file == s.snapshot + s.diff)
    && (s.outcome == Succeeded ==> s.phase.Finished?)
  }

  /** What was fed, without what a finished child left in the pipe. */
  function Arrived(s: State): seq<byte>
    requires s.diff + s.data <= s.fed
  {
    s.diff + s.fed[|s.diff| + |s.data|..]
  }

  /** The server's own log: the rewritten file and what followed, or the old file and what followed. */
  ghost predicate LogOk(s: State)
    requires Conserved(s)
  {
    s.aof == On ==> s.log + s.aofBuf == if s.outcome == Succeeded then s.snapshot + Arrived(s) else s.oldLog + s.fed
  }

  ghost predicate Inv(s: State) {
    Conserved(s) && Handshake(s) && LogOk(s)
  }

  lemma TakeRest(from: seq<byte>, n: nat)
    ensures Take(from, n) + Rest(from, n) == from
  {
  }

  lemma FeedKeepsConserved(s: State, bytes: seq<byte>)
    requires Conserved(s)
    ensures Conserved(FeedStep(s, bytes))
    ensures s.outcome == Succeeded ==> Arrived(FeedStep(s, bytes)) == Arrived(s) + bytes
  {
    var s' := FeedStep(s, bytes);
    if s.outcome == Running {
      assert s'.diff + s'.data + s'.pending == (s.diff + s.data + s.pending) + bytes;
    }
    if s.outcome == Succeeded {
      var k := |s.diff| + |s.data|;
      assert (s.fed + bytes)[k..] == s.fed[k..] + bytes;
    }
  }

  lemma FeedKeepsInv(s: State, bytes: seq<byte>)
    requires Inv(s)
    ensures Inv(FeedStep(s, bytes))
  {
    hide Conserved, Arrived;
    FeedKeepsConserved(s, bytes);
    if s.aof == On {
      Associative(s.log, s.aofBuf, bytes);
      if s.outcome == Succeeded {
        SucceededArrived(s);
        Associative(s.snapshot, Arrived(s), bytes);
      } else {
        Associative(s.oldLog, s.fed, bytes);
      }
    }
  }

  lemma SucceededArrived(s: State)
    requires Conserved(s) && s.outcome == Succeeded
    ensures s.diff + s.data <= s.fed
  {
  }

  lemma Associative(a: seq<byte>, b: seq<byte>, c: seq<byte>)
    ensures a + (b + c) == a + b + c
  {
  }

  lemma FlushKeepsInv(s: State, n: nat)
    requires Inv(s)
    ensures Inv(Apply(s, Flush(n)))
  {
    hide Conserved, Arrived;
    TakeRest(s.aofBuf, n);
    Associative(s.log, Take(s.aofBuf, n), Rest(s.aofBuf, n));
    SameStreams(s, Apply(s, Flush(n)));
  }

  lemma SameStreams(s: State, s': State)
    requires Conserved(s) && s'.outcome == s.outcome && s'.diff == s.diff && s'.data == s.data
    requires s'.pending == s.pending && s'.fed == s.fed
    ensures Conserved(s') && (s.outcome == Succeeded ==> Arrived(s') == Arrived(s))
  {
  }

  lemma MoveKeepsInv(s: State, step: Step)
    requires Inv(s) && (step.SendDiff? || step.ChildRead?)
    ensures Inv(Apply(s, step))
  {
    hide Arrived;
    if step.SendDiff? {
      var n := step.n;
      TakeRest(s.pending, n);
      assert s.diff + (s.data + Take(s.pending, n)) + Rest(s.pending, n) == s.diff + s.data + s.pending;
    } else {
      var n := step.n;
      TakeRest(s.data, n);
      assert s.diff + Take(s.data, n) + Rest(s.data, n) + s.pending == s.diff + s.data + s.pending;
    }
  }

  lemma DoneKeepsInv(s: State, written: nat, renamed: bool)
    requires Inv(s) && s.outcome == Running
    ensures Inv(DoneStep(s, written, renamed))
  {
    var k := |s.diff| + |s.data|;
    assert s.fed[k..] == s.pending && s.diff + s.data <= s.fed;
    if s.phase.Finished? {
      assert s.phase.file + s.pending + [] == s.snapshot + (s.diff + s.pending);
    }
  }

  lemma ApplyKeepsInv(s: State, step: Step)
    requires Inv(s)
    ensures Inv(Apply(s, step))
  {
    hide Inv, Apply;
    match step
    case Feed(bytes) => FeedKeepsInv(s, bytes); FeedIs(s, bytes);
    case Flush(n) => FlushKeepsInv(s, n);
    case SendDiff(_) => MoveKeepsInv(s, step);
    case ChildRead(_) => MoveKeepsInv(s, step);
    case _ => SignalKeepsInv(s, step);
  }

  lemma FeedIs(s: State, bytes: seq<byte>)
    ensures Apply(s, Feed(bytes)) == FeedStep(s, bytes)
  {
  }

  lemma SignalKeepsInv(s: State, step: Step)
    requires Inv(s) && !step.Feed? && !step.Flush? && !step.SendDiff? && !step.ChildRead?
    ensures Inv(Apply(s, step))
  {
    hide Arrived;
    if step.Done? {
      if s.outcome == Running && (s.phase.Finished? || s.phase == Died) { DoneKeepsInv(s, step.written, step.renamed); }
    } else {
      SameStreams(s, Apply(s, step));
    }
  }

  lemma {:induction false} RunKeepsInv(s: State, steps: seq<Step>)
    requires Inv(s)
    ensures Inv(Run(s, steps))
    decreases |steps|
  {
    if steps != [] {
      ApplyKeepsInv(s, steps[0]);
      RunKeepsInv(Apply(s, steps[0]), steps[1..]);
    }
  }

  lemma ForkedInv(s: State)
    requires Forked(s)
    ensures Inv(s)
  {
    assert s.log + s.aofBuf + [] == s.log + s.aofBuf;
  }

  // ---------------------------------------------------------------------------
  // The child's last read
  // ---------------------------------------------------------------------------

  /** The step with which the child stops reading, or the length of the run if it never does. */
  function LastRead(s: State, steps: seq<Step>): (k: nat)
    ensures k <= |steps|
    decreases |steps|
  {
    if steps == [] || (s.phase == Acked && steps[0] == ChildFinish(true)) then 0
    else 1 + LastRead(Apply(s, steps[0]), steps[1..])
  }

  /** The state in which the child finds nothing more to read. */
  function AtLastRead(s: State, steps: seq<Step>): State {
    Run(s, steps[..LastRead(s, steps)])
  }

  /** There is one such step in a run: whatever comes before, the child that was answered stops there. */
  lemma {:induction false} LastReadIs(s: State, pre: seq<Step>, post: seq<Step>)
    requires Run(s, pre).phase == Acked
    ensures LastRead(s, pre + [ChildFinish(true)] + post) == |pre|
    ensures AtLastRead(s, pre + [ChildFinish(true)] + post) == Run(s, pre)
    decreases |pre|
  {
    var steps := pre + [ChildFinish(true)] + post;
    if pre != [] {
      if s.phase == Acked && pre[0] == ChildFinish(true) {
        StaysFinished(Apply(s, pre[0]), pre[1..]);
      }
      hide Apply;
      assert steps[1..] == pre[1..] + [ChildFinish(true)] + post;
      LastReadIs(Apply(s, pre[0]), pre[1..], post);
    }
    assert LastRead(s, steps) == |pre|;
    assert steps[..|pre|] == pre;
  }

  lemma {:induction false} StaysFinished(s: State, steps: seq<Step>)
    requires s.phase.Finished?
    ensures Run(s, steps).phase.Finished?
    decreases |steps|
  {
    if steps != [] {
      StaysFinished(Apply(s, steps[0]), steps[1..]);
    }
  }

  /** The answer came after the parent had stopped sending, so nothing joins what the child leaves in the pipe. */
  lemma FinishedKeepsData(s: State, step: Step)
    requires Handshake(s) && s.phase.Finished?
    ensures Apply(s, step).phase.Finished? && Apply(s, step).data == s.data
  {
  }

  lemma {:induction false} FinishedRunKeepsData(s: State, steps: seq<Step>)
    requires Inv(s) && s.phase.Finished?
    ensures Run(s, steps).data == s.data
    decreases |steps|
  {
    hide Apply;
    if steps != [] {
      FinishedKeepsData(s, steps[0]);
      ApplyKeepsInv(s, steps[0]);
      FinishedRunKeepsData(Apply(s, steps[0]), steps[1..]);
    }
  }

  /** A child that finished stopped reading once, with its answer, and left in the pipe what is there ever since. */
  lemma {:induction false} FinishedHasLastRead(s: State, steps: seq<Step>)
    requires Inv(s) && !s.phase.Finished? && Run(s, steps).phase.Finished?
    ensures
      var k := LastRead(s, steps);
      && k < |steps| && steps[k] == ChildFinish(true)
      && AtLastRead(s, steps).phase == Acked && AtLastRead(s, steps).data == Run(s, steps).data
    decreases |steps|
  {
    assert steps != [];
    var s' := Apply(s, steps[0]);
    ApplyKeepsInv(s, steps[0]);
    if s.phase == Acked && steps[0] == ChildFinish(true) {
      FinishedRunKeepsData(s', steps[1..]);
      assert steps[..0] == [];
    } else {
      OnlyFinishFinishes(s, steps[0]);
      hide Apply, Inv;
      FinishedHasLastRead(s', steps[1..]);
      var k := LastRead(s', steps[1..]);
      assert steps[..k + 1][0] == steps[0] && steps[..k + 1][1..] == steps[1..][..k];
    }
  }

  lemma OnlyFinishFinishes(s: State, step: Step)
    requires !s.phase.Finished? && !(s.phase == Acked && step == ChildFinish(true))
    ensures !Apply(s, step).phase.Finished?
  {
  }

  /** However the two processes interleave, a rewrite that succeeds installs the child's snapshot followed by what was
      fed since the fork, in order and without what the child left in the pipe, and leaves nothing buffered. So the new
      file is exact, with every byte fed once, if and only if the pipe was empty when the child stopped reading. */
  lemma RewriteIsExact(s: State, steps: seq<Step>, written: nat, renamed: bool)
    requires Forked(s) && s.aof != Off
    requires Run(s, steps).outcome == Running && Apply(Run(s, steps), Done(written, renamed)).outcome == Succeeded
    ensures
      var before := Run(s, steps);
      var after := Apply(before, Done(written, renamed));
      && after.aofBuf == [] && after.aof == On
      && before.diff + before.data <= before.fed && after.log == before.snapshot + Arrived(before)
      && LastRead(s, steps) < |steps| && AtLastRead(s, steps).phase == Acked
      && before.data == AtLastRead(s, steps).data
      && (after.log == before.snapshot + before.fed <==> AtLastRead(s, steps).data == [])
  {
    ForkedInv(s);
    RunKeepsInv(s, steps);
    KeepsAofOn(s, steps);
    var t := Run(s, steps);
    OnlyFinishedSucceeds(t, written, renamed);
    FinishedHasLastRead(s, steps);
    hide LastRead, AtLastRead, Run, Inv, Apply;
    DoneInstalls(t, written, renamed);
    ExactIff(t);
  }

  lemma OnlyFinishedSucceeds(s: State, written: nat, renamed: bool)
    requires s.outcome == Running && Apply(s, Done(written, renamed)).outcome == Succeeded
    ensures s.phase.Finished?
  {
  }

  lemma DoneInstalls(s: State, written: nat, renamed: bool)
    requires Inv(s) && s.outcome == Running && s.aof != Off
    requires Apply(s, Done(written, renamed)).outcome == Succeeded
    ensures
      var after := Apply(s, Done(written, renamed));
      && after.aofBuf == [] && after.aof == On
      && s.diff + s.data <= s.fed && after.log == s.snapshot + Arrived(s)
  {
    var k := |s.diff| + |s.data|;
    assert s.diff + s.data <= s.fed && s.fed[k..] == s.pending;
    assert s.phase.file + s.pending == s.snapshot + Arrived(s);
  }

  lemma ExactIff(s: State)
    requires s.diff + s.data <= s.fed
    ensures s.snapshot + Arrived(s) == s.snapshot + s.fed <==> s.data == []
  {
    if s.data == [] {
      assert s.diff + s.data == s.diff;
      assert Arrived(s) == s.fed;
    } else {
      assert |s.snapshot + Arrived(s)| < |s.snapshot + s.fed|;
    }
  }

  lemma {:induction false} KeepsAofOn(s: State, steps: seq<Step>)
    requires s.aof != Off
    ensures Run(s, steps).aof != Off
    decreases |steps|
  {
    if steps != [] {
      KeepsAofOn(Apply(s, steps[0]), steps[1..]);
    }
  }

  /** At every moment of every run with AOF on, the file followed by the buffer is the old log followed by everything
      fed since the fork; after a success it is the snapshot followed by it if and only if the pipe was empty when the
      child stopped reading. */
  lemma NothingIsLost(s: State, steps: seq<Step>)
    requires Forked(s) && Run(s, steps).aof == On
    ensures
      var t := Run(s, steps);
      if t.outcome == Succeeded then
        && LastRead(s, steps) < |steps| && AtLastRead(s, steps).phase == Acked
        && (t.log + t.aofBuf == t.snapshot + t.fed <==> AtLastRead(s, steps).data == [])
      else t.log + t.aofBuf == t.oldLog + t.fed
  {
    ForkedInv(s);
    RunKeepsInv(s, steps);
    var t := Run(s, steps);
    if t.outcome == Succeeded {
      FinishedHasLastRead(s, steps);
      hide LastRead, AtLastRead, Run;
      ExactIff(t);
    }
  }

  /** A failed read: what was in the pipe when the child stopped reading is in no file. */
  lemma FailedReadLosesBytes(s: State, bytes: seq<byte>)
    requires Forked(s) && s.aof == On && bytes != []
    ensures
      var t := Run(s, FailedRead(bytes));
      t.outcome == Succeeded && t.log + t.aofBuf != t.snapshot + t.fed
  {
    hide Inv, AtLastRead, LastRead;
    var steps := FailedRead(bytes);
    var t := RunFailedRead(s, bytes);
    ForkedInv(s);
    FinishedHasLastRead(s, steps);
    NothingIsLost(s, steps);
  }

  /** Feed and send, shake hands, and finish without reading. */
  function FailedRead(bytes: seq<byte>): seq<Step> {
    [Feed(bytes), SendDiff(|bytes|)] + [ChildAsk(true), HandleAsk(true), ChildAwait(true)]
    + [ChildFinish(true), Done(0, true)]
  }

  lemma RunFailedRead(s: State, bytes: seq<byte>) returns (t: State)
    requires Forked(s) && s.aof == On
    ensures t == Run(s, FailedRead(bytes)) && t.outcome == Succeeded && t.phase.Finished?
    ensures t.aof == On && t.data == bytes
  {
    var shaken := [ChildAsk(true), HandleAsk(true), ChildAwait(true)];
    var sent := SentEverything(s, bytes);
    var answered := ShookHands(sent);
    t := Apply(Apply(answered, ChildFinish(true)), Done(0, true));
    RunTwo(s, Feed(bytes), SendDiff(|bytes|));
    RunTwo(Apply(sent, ChildAsk(true)), HandleAsk(true), ChildAwait(true));
    RunTwo(answered, ChildFinish(true), Done(0, true));
    hide Apply;
    assert shaken[1..] == [HandleAsk(true), ChildAwait(true)];
    assert Run(sent, shaken) == answered;
    hide Run;
    RunConcat(s, [Feed(bytes), SendDiff(|bytes|)] + shaken, [ChildFinish(true), Done(0, true)]);
    RunConcat(s, [Feed(bytes), SendDiff(|bytes|)], shaken);
  }

  /** Bytes that reach the child through the pipe, a handshake, and bytes that stay with the parent. */
  function GoodRun(a: seq<byte>, b: seq<byte>): seq<Step> {
    [Feed(a), SendDiff(|a|)] + [ChildAsk(true), HandleAsk(true), ChildAwait(true)]
    + [ChildRead(|a|), Feed(b)] + [ChildFinish(true), Done(|b|, true)]
  }

  /** A rewrite can succeed: what is fed before the handshake and after it ends up in the new file, in order. */
  lemma RewriteSucceeds(s: State, a: seq<byte>, b: seq<byte>)
    requires Forked(s) && s.aof == On
    ensures
      var t := Run(s, GoodRun(a, b));
      t.outcome == Succeeded && t.aof == On && t.log == s.snapshot + a + b && t.aofBuf == []
  {
    var shaken := [ChildAsk(true), HandleAsk(true), ChildAwait(true)];
    var sent := SentEverything(s, a);
    var answered := ShookHands(sent);
    var read := DrainedPipe(answered, a, b);
    RunTwo(s, Feed(a), SendDiff(|a|));
    RunTwo(Apply(sent, ChildAsk(true)), HandleAsk(true), ChildAwait(true));
    RunTwo(answered, ChildRead(|a|), Feed(b));
    RunTwo(read, ChildFinish(true), Done(|b|, true));
    InstalledFile(read, a, b);
    hide Apply;
    assert shaken[1..] == [HandleAsk(true), ChildAwait(true)];
    assert Run(sent, shaken) == answered;
    hide Run;
    RunConcat(s, [Feed(a), SendDiff(|a|)], shaken);
    RunConcat(s, [Feed(a), SendDiff(|a|)] + shaken, [ChildRead(|a|), Feed(b)]);
    RunConcat(s, [Feed(a), SendDiff(|a|)] + shaken + [ChildRead(|a|), Feed(b)], [ChildFinish(true), Done(|b|, true)]);
  }

  lemma DrainedPipe(s: State, a: seq<byte>, b: seq<byte>) returns (t: State)
    requires s.phase == Acked && s.data == a && s.diff == [] && s.pending == [] && s.outcome == Running && s.aof == On
    ensures t == Apply(Apply(s, ChildRead(|a|)), Feed(b))
    ensures t.phase == Acked && t.diff == a && t.pending == b && t.outcome == Running && t.aof == On
    ensures t.snapshot == s.snapshot
  {
    t := Apply(Apply(s, ChildRead(|a|)), Feed(b));
    assert [] + a == a && [] + b == b;
  }

  lemma InstalledFile(s: State, a: seq<byte>, b: seq<byte>)
    requires s.phase == Acked && s.diff == a && s.pending == b && s.outcome == Running && s.aof == On
    ensures
      var t := Apply(Apply(s, ChildFinish(true)), Done(|b|, true));
      t.outcome == Succeeded && t.aof == On && t.log == s.snapshot + a + b && t.aofBuf == []
  {
  }

  lemma SentEverything(s: State, bytes: seq<byte>) returns (t: State)
    requires Forked(s) && s.aof == On
    ensures t == Apply(Apply(s, Feed(bytes)), SendDiff(|bytes|))
    ensures t.data == bytes && t.pending == [] && t.outcome == Running && t.phase == Writing && t.aof == On
    ensures t.diff == s.diff && t.snapshot == s.snapshot
  {
    var s1 := Apply(s, Feed(bytes));
    assert s1.pending == bytes;
    t := Apply(s1, SendDiff(|bytes|));
    assert t.data == bytes;
  }

  lemma ShookHands(s: State) returns (t: State)
    requires s.outcome == Running && s.phase == Writing
    ensures t == Apply(Apply(Apply(s, ChildAsk(true)), HandleAsk(true)), ChildAwait(true))
    ensures t.phase == Acked && t.data == s.data && t.pending == s.pending && t.outcome == Running && t.aof == s.aof
    ensures t.diff == s.diff && t.snapshot == s.snapshot
  {
    t := Apply(Apply(Apply(s, ChildAsk(true)), HandleAsk(true)), ChildAwait(true));
  }

  lemma RunTwo(s: State, a: Step, b: Step)
    ensures Run(s, [a, b]) == Apply(Apply(s, a), b)
  {
    hide Apply;
    var none: seq<Step> := [];
    assert [a, b][1..] == [b] && [b][1..] == none;
    assert Run(Apply(s, a), [b]) == Run(Apply(Apply(s, a), b), none);
  }

  lemma {:induction false} RunConcat(s: State, a: seq<Step>, b: seq<Step>)
    ensures Run(s, a + b) == Run(Run(s, a), b)
    decreases |a|
  {
    hide Apply;
    if a == [] {
      assert a + b == b;
    } else {
      assert (a + b)[1..] == a[1..] + b;
      RunConcat(Apply(s, a[0]), a[1..], b);
    }
  }
}
