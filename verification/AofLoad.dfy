/**
 Loading the append only file: replaying its commands, and cutting the file back when it ends in the
 middle of something. Commands between MULTI and EXEC are queued and executed together.
 */
module AofLoad {
  import opened Prelude
  import opened Decimal
  import opened AofFormat

  // ---------------------------------------------------------------------------
  // Executing commands in the fake client
  // ---------------------------------------------------------------------------

  function Lower(b: byte): byte {
    if 65 <= b <= 90 then b + 32 else b
  }

  predicate Named(cmd: Command, name: seq<byte>) {
    && cmd != [] && |cmd[0]| == |name|
    && forall i :: 0 <= i < |name| ==> Lower(cmd[0][i]) == name[i]
  }

  predicate IsMulti(cmd: Command) {
    Named(cmd, [109, 117, 108, 116, 105])
  }

  predicate IsExec(cmd: Command) {
    Named(cmd, [101, 120, 101, 99])
  }

  /** The fake client: what it has executed, and the transaction it is in, if any. */
  datatype Client = Client(
    executed: seq<Command>,
    multi: bool,
    queued: seq<Command>,
    beforeMulti: nat)         // valid_before_multi

  const NEW_CLIENT := Client([], false, [], 0)

  /** One command that was read when the file was known to be good up to the offset valid. */
  function Execute(c: Client, cmd: Command, valid: nat): Client {
    var mark := if IsMulti(cmd) then valid else c.beforeMulti;
    if c.multi && !IsExec(cmd) then c.(queued := c.queued + [cmd], beforeMulti := mark)
    else if IsMulti(cmd) then c.(multi := true, queued := [], beforeMulti := mark)
    else if IsExec(cmd) then c.(executed := c.executed + c.queued, multi := false, queued := [], beforeMulti := mark)
    else c.(executed := c.executed + [cmd], beforeMulti := mark)
  }

  datatype LoadError = UnknownCommand | FormatError | ReadError | UnexpectedEnd | NoMemory

  datatype LoadResult =
    | EmptyFile
    | RdbPreamble                                         // not modelled further
    | Loaded(executed: seq<Command>, fileLength: nat)     // and the length the file is left with
    | Fatal(error: LoadError)                             // the process exits

  const REDIS: seq<byte> := [82, 69, 68, 73, 83]

  /** An unexpected end of file: with aof-load-truncated the file is cut at the last good offset. */
  function CutAt(c: Client, valid: nat, truncate: bool): LoadResult {
    if truncate then Loaded(c.executed, valid) else Fatal(UnexpectedEnd)
  }

  /** The result when nothing more can be executed. */
  function Stop(size: nat, r: Read<Command>, valid: nat, c: Client, truncate: bool): LoadResult {
    match r
    case AtEnd => if c.multi then CutAt(c, c.beforeMulti, truncate) else Loaded(c.executed, size)
    case Short => CutAt(c, valid, truncate)
    case Unreadable => Fatal(ReadError)
    case BadFormat => Fatal(FormatError)
    case OutOfMemory => Fatal(NoMemory)
    case Got(_, _) => Fatal(UnknownCommand)
  }

  function LoadFrom(size: nat, s: seq<byte>, valid: nat, c: Client, known: seq<byte> -> bool,
      truncate: bool): LoadResult
    requires |s| <= size
    decreases |s|
  {
    var next := ReadCommand(s);
    if next.Got? && known(next.value[0])
    then
      LoadFrom(size, next.rest, if truncate then size - |next.rest| else valid,
        Execute(c, next.value, valid), known, truncate)
    else Stop(size, next, valid, c, truncate)
  }

  function Load(file: seq<byte>, known: seq<byte> -> bool, truncate: bool): LoadResult {
    if file == [] then EmptyFile
    else if REDIS <= file then RdbPreamble
    else LoadFrom(|file|, file, 0, NEW_CLIENT, known, truncate)
  }

  /** The arguments read so far in front of what is still to come. */
  function Prepend(argv: Command, r: Read<Command>): Read<Command> {
    match r
    case Got(args, rest) => Got(argv + args, rest)
    case other => other
  }

  lemma PrependNothing(r: Read<Command>)
    ensures Prepend([], r) == r
  {
    if r.Got? {
      assert [] + r.value == r.value;
    }
  }

  lemma PrependToNothing(argv: Command, rest: seq<byte>)
    ensures Prepend(argv, Got([], rest)) == Got(argv, rest)
  {
    assert argv + [] == argv;
  }

  /** A read that gave no argument, as the result for the command. */
  function Failed(a: Read<seq<byte>>): Read<Command>
    requires !a.Got?
  {
    match a
    case AtEnd => AtEnd
    case Short => Short
    case Unreadable => Unreadable
    case BadFormat => BadFormat
    case OutOfMemory => OutOfMemory
  }

  lemma PrependNext(argv: Command, rest: seq<byte>, argc: nat)
    requires argc > 0
    ensures ReadArg(rest).Got? ==>
              Prepend(argv, ReadArgs(rest, argc)) ==
              Prepend(argv + [ReadArg(rest).value], ReadArgs(ReadArg(rest).rest, argc - 1))
    ensures !ReadArg(rest).Got? ==> Prepend(argv, ReadArgs(rest, argc)) == Failed(ReadArg(rest))
  {
    if ReadArg(rest).Got? {
      var r := ReadArgs(ReadArg(rest).rest, argc - 1);
      if r.Got? {
        assert argv + ([ReadArg(rest).value] + r.value) == (argv + [ReadArg(rest).value]) + r.value;
      }
    }
  }

  /** The argument loop of loadAppendOnlyFile. */
  method ReadArguments(s: seq<byte>, argc: nat) returns (r: Read<Command>)
    ensures r == ReadArgs(s, argc)
  {
    var argv, rest, j := [], s, 0;
    PrependNothing(ReadArgs(s, argc));
    hide ReadArg, Prepend;
    while j < argc
      invariant j <= argc
      invariant ReadArgs(s, argc) == Prepend(argv, ReadArgs(rest, argc - j))
    {
      var a := ReadArg(rest);
      PrependNext(argv, rest, argc - j);
      if !a.Got? {
        return Failed(a);
      }
      argv, rest, j := argv + [a.value], a.rest, j + 1;
    }
    PrependToNothing(argv, rest);
    r := Got(argv, rest);
  }

  /** One round of the loop of loadAppendOnlyFile, up to the command lookup. */
  method ReadNext(s: seq<byte>) returns (r: Read<Command>)
    ensures r == ReadCommand(s)
  {
    if s == [] {
      return AtEnd;
    }
    var k := LineLength(s, LINE_MAX);
    var line, rest := s[..k], s[k..];
    if line[0] != STAR {
      return BadFormat;
    }
    if |line| == 1 {
      return Short;
    }
    if line[1] == 0 {
      return if k == |s| && k < LINE_MAX && line[k - 1] != LF then Short else Unreadable;
    }
    var argc := Strtol(line[1..]);
    if argc < 1 {
      return BadFormat;
    }
    r := ReadArguments(rest, argc);
  }

  lemma LoadFromNext(size: nat, s: seq<byte>, valid: nat, c: Client, known: seq<byte> -> bool, truncate: bool)
    requires |s| <= size && ReadCommand(s).Got? && known(ReadCommand(s).value[0])
    ensures
      var next := ReadCommand(s);
      LoadFrom(size, s, valid, c, known, truncate)
      == LoadFrom(size, next.rest, if truncate then size - |next.rest| else valid,
           Execute(c, next.value, valid), known, truncate)
  {
  }

  lemma LoadFromStops(size: nat, s: seq<byte>, valid: nat, c: Client, known: seq<byte> -> bool, truncate: bool)
    requires |s| <= size
    requires ReadCommand(s).Got? ==> !known(ReadCommand(s).value[0])
    ensures LoadFrom(size, s, valid, c, known, truncate) == Stop(size, ReadCommand(s), valid, c, truncate)
  {
  }

  /** loadAppendOnlyFile */
  method LoadAppendOnlyFile(file: seq<byte>, known: seq<byte> -> bool, truncate: bool) returns (r: LoadResult)
    ensures r == Load(file, known, truncate)
  {
    hide ReadCommand, Execute, LoadFrom, Stop;
    if file == [] {
      return EmptyFile;
    }
    if REDIS <= file {
      return RdbPreamble;
    }
    var rest, client := file, NEW_CLIENT;
    var valid: nat := 0;
    while true
      invariant |rest| <= |file|
      invariant LoadFrom(|file|, rest, valid, client, known, truncate) == Load(file, known, truncate)
      decreases |rest|
    {
      var next := ReadNext(rest);
      if !next.Got? || !known(next.value[0]) {
        LoadFromStops(|file|, rest, valid, client, known, truncate);
        return Stop(|file|, next, valid, client, truncate);
      }
      LoadFromNext(|file|, rest, valid, client, known, truncate);
      client := Execute(client, next.value, valid);
      rest := next.rest;
      if truncate {
        valid := |file| - |rest|;
      }
    }
  }

  // ---------------------------------------------------------------------------
  // Loading a log, or any beginning of one
  // ---------------------------------------------------------------------------

  /** A list of commands as the server feeds them: they fit the format and are in the command table. */
  ghost predicate Loadable(cmds: seq<Command>, known: seq<byte> -> bool) {
    forall i :: 0 <= i < |cmds| ==> Fits(cmds[i]) && known(cmds[i][0])
  }

  /** How many of the commands are whole in the first n bytes of the log. */
  function Whole(cmds: seq<Command>, n: nat): (k: nat)
    ensures k <= |cmds| && |EncodeAll(cmds[..k])| <= n
    ensures k < |cmds| ==> n < |EncodeAll(cmds[..k + 1])|
  {
    if cmds == [] || n < |Encode(cmds[0])| then
      assert cmds != [] ==> cmds[..1] == [cmds[0]] && EncodeAll([cmds[0]]) == Encode(cmds[0]);
      0
    else
      var k := Whole(cmds[1..], n - |Encode(cmds[0])|);
      assert cmds[..k + 1] == [cmds[0]] + cmds[1..][..k];
      assert k + 1 < |cmds| ==> cmds[..k + 2] == [cmds[0]] + cmds[1..][..k + 1];
      k + 1
  }

  /** The fake client after a list of commands that starts at the given offset. */
  function Replay(c: Client, cmds: seq<Command>, valid: nat): Client
    decreases |cmds|
  {
    if cmds == [] then c
    else Replay(Execute(c, cmds[0], valid), cmds[1..], valid + |Encode(cmds[0])|)
  }

  /** The result of loading a log of which the last whole command ends at good and n bytes are there. */
  function AfterReplay(c: Client, good: nat, n: nat): LoadResult {
    if n == good && c.multi then Loaded(c.executed, c.beforeMulti) else Loaded(c.executed, good)
  }

  lemma {:induction false} LoadFromPrefix(cmds: seq<Command>, n: nat, valid: nat, c: Client, known: seq<byte> -> bool)
    requires Loadable(cmds, known) && n <= |EncodeAll(cmds)|
    ensures
      var k := Whole(cmds, n);
      var good := |EncodeAll(cmds[..k])|;
      LoadFrom(valid + n, EncodeAll(cmds)[..n], valid, c, known, true)
      == AfterReplay(Replay(c, cmds[..k], valid), valid + good, valid + n)
    decreases |cmds|
  {
    hide *;
    if cmds == [] || n < |Encode(cmds[0])| {
      WholeNone(cmds, n);
      ReplayNone(c, valid);
      LoadFromCut(cmds, n, valid, c, known);
    } else {
      var first := Encode(cmds[0]);
      PrefixNext(cmds, n);
      var rest := EncodeAll(cmds[1..])[..n - |first|];
      LoadableTail(cmds, known);
      ReadInvertsPrint(cmds[0], rest);
      LoadFromNext(valid + n, first + rest, valid, c, known, true);
      LoadFromPrefix(cmds[1..], n - |first|, valid + |first|, Execute(c, cmds[0], valid), known);
      WholeNext(cmds, n);
      ReplayNext(c, cmds, Whole(cmds[1..], n - |first|), valid);
    }
  }

  lemma LoadableTail(cmds: seq<Command>, known: seq<byte> -> bool)
    requires Loadable(cmds, known) && cmds != []
    ensures Fits(cmds[0]) && known(cmds[0][0]) && Loadable(cmds[1..], known)
  {
  }

  lemma WholeNone(cmds: seq<Command>, n: nat)
    requires cmds == [] || n < |Encode(cmds[0])|
    ensures Whole(cmds, n) == 0 && cmds[..0] == [] && EncodeAll([]) == []
  {
  }

  lemma ReplayNone(c: Client, valid: nat)
    ensures Replay(c, [], valid) == c
  {
  }

  lemma LoadFromCut(cmds: seq<Command>, n: nat, valid: nat, c: Client, known: seq<byte> -> bool)
    requires Loadable(cmds, known) && n <= |EncodeAll(cmds)| && (cmds == [] || n < |Encode(cmds[0])|)
    ensures LoadFrom(valid + n, EncodeAll(cmds)[..n], valid, c, known, true) == AfterReplay(c, valid, valid + n)
  {
    hide ReadCommand, Encode, Execute;
    var p := EncodeAll(cmds)[..n];
    if p == [] {
      ReadNothing();
    } else {
      var first := Encode(cmds[0]);
      assert EncodeAll(cmds) == first + EncodeAll(cmds[1..]);
      assert p == first[..n];
      ReadCut(cmds[0], p);
    }
  }

  lemma PrefixNext(cmds: seq<Command>, n: nat)
    requires cmds != [] && |Encode(cmds[0])| <= n <= |EncodeAll(cmds)|
    ensures
      var first := Encode(cmds[0]);
      && n - |first| <= |EncodeAll(cmds[1..])|
      && EncodeAll(cmds)[..n] == first + EncodeAll(cmds[1..])[..n - |first|]
  {
    hide Encode;
  }

  lemma WholeNext(cmds: seq<Command>, n: nat)
    requires cmds != [] && n >= |Encode(cmds[0])|
    ensures
      var k := Whole(cmds[1..], n - |Encode(cmds[0])|);
      Whole(cmds, n) == k + 1 && |EncodeAll(cmds[..k + 1])| == |Encode(cmds[0])| + |EncodeAll(cmds[1..][..k])|
  {
    var k := Whole(cmds[1..], n - |Encode(cmds[0])|);
    assert cmds[..k + 1] == [cmds[0]] + cmds[1..][..k];
  }

  lemma ReplayNext(c: Client, cmds: seq<Command>, k: nat, valid: nat)
    requires cmds != [] && k < |cmds|
    ensures Replay(c, cmds[..k + 1], valid) ==
            Replay(Execute(c, cmds[0], valid), cmds[1..][..k], valid + |Encode(cmds[0])|)
  {
    assert cmds[..k + 1][1..] == cmds[1..][..k];
  }

  lemma ReadNothing()
    ensures ReadCommand([]) == AtEnd
  {
  }

  // ---------------------------------------------------------------------------
  // What is executed and what is kept
  // ---------------------------------------------------------------------------

  /** On any beginning of a log, the loader executes what the whole commands in it amount to, and keeps the
      file up to the last of them; if that leaves a transaction open and the file ends with a whole command,
      it keeps the file up to that transaction instead. */
  lemma LoadPrefix(cmds: seq<Command>, n: nat, known: seq<byte> -> bool)
    requires Loadable(cmds, known) && 0 < n <= |EncodeAll(cmds)|
    ensures
      var k := Whole(cmds, n);
      Load(EncodeAll(cmds)[..n], known, true)
      == AfterReplay(Replay(NEW_CLIENT, cmds[..k], 0), |EncodeAll(cmds[..k])|, n)
  {
    hide ReadCommand, Encode, EncodeAll, Execute, LoadFrom, Whole, Replay, AfterReplay;
    LogStartsWithStar(cmds, n);
    assert REDIS[0] != STAR;
    LoadFromPrefix(cmds, n, 0, NEW_CLIENT, known);
  }

  lemma LogStartsWithStar(cmds: seq<Command>, n: nat)
    requires 0 < n <= |EncodeAll(cmds)|
    ensures EncodeAll(cmds)[..n][0] == STAR
  {
    assert EncodeAll(cmds) == Encode(cmds[0]) + EncodeAll(cmds[1..]);
  }

  ghost predicate NoTransactions(cmds: seq<Command>) {
    forall i :: 0 <= i < |cmds| ==> !IsMulti(cmds[i]) && !IsExec(cmds[i])
  }

  lemma {:induction false} ReplayPlain(c: Client, cmds: seq<Command>, valid: nat)
    requires NoTransactions(cmds) && !c.multi
    ensures Replay(c, cmds, valid) == c.(executed := c.executed + cmds)
    decreases |cmds|
  {
    if cmds == [] {
      assert c.executed + cmds == c.executed;
    } else {
      hide Encode, IsMulti, IsExec;
      ReplayPlain(Execute(c, cmds[0], valid), cmds[1..], valid + |Encode(cmds[0])|);
      assert c.executed + [cmds[0]] + cmds[1..] == c.executed + cmds;
    }
  }

  /** Without transactions: exactly the longest prefix of whole commands is executed and kept. */
  lemma LoadKeepsWholeCommands(cmds: seq<Command>, n: nat, known: seq<byte> -> bool)
    requires Loadable(cmds, known) && NoTransactions(cmds) && 0 < n <= |EncodeAll(cmds)|
    ensures
      var k := Whole(cmds, n);
      Load(EncodeAll(cmds)[..n], known, true) == Loaded(cmds[..k], |EncodeAll(cmds[..k])|)
  {
    hide Load, Whole, EncodeAll, Replay;
    LoadPrefix(cmds, n, known);
    var k := Whole(cmds, n);
    assert NoTransactions(cmds[..k]);
    ReplayPlain(NEW_CLIENT, cmds[..k], 0);
    assert [] + cmds[..k] == cmds[..k];
  }

  /** The commands without the MULTI and EXEC around their transactions. */
  function Flat(cmds: seq<Command>): seq<Command> {
    if cmds == [] then []
    else if IsMulti(cmds[0]) || IsExec(cmds[0]) then Flat(cmds[1..])
    else [cmds[0]] + Flat(cmds[1..])
  }

  /** No MULTI is given inside a transaction, and none is left open at the end. */
  predicate Balanced(open: bool, cmds: seq<Command>)
    decreases |cmds|
  {
    if cmds == [] then !open
    else !(open && IsMulti(cmds[0])) && Balanced(Opens(open, cmds[0]), cmds[1..])
  }

  predicate Opens(open: bool, cmd: Command) {
    IsMulti(cmd) || (open && !IsExec(cmd))
  }

  ghost predicate HasMulti(cmds: seq<Command>) {
    exists cmd <- cmds :: IsMulti(cmd)
  }

  /** Only an open transaction has commands queued. */
  predicate Tidy(c: Client) {
    c.multi || c.queued == []
  }

  /** One command, unless it is a nested MULTI, adds itself to what is executed or queued. */
  lemma ExecuteOne(c: Client, cmd: Command, valid: nat)
    requires Tidy(c)
    ensures
      var r := Execute(c, cmd, valid);
      && Tidy(r) && r.multi == Opens(c.multi, cmd)
      && r.executed + r.queued ==
         c.executed + c.queued + if IsExec(cmd) || (IsMulti(cmd) && !c.multi) then [] else [cmd]
  {
    assert !(IsMulti(cmd) && IsExec(cmd));
    hide IsMulti, IsExec;
  }

  lemma {:induction false} ReplayBalanced(c: Client, cmds: seq<Command>, valid: nat)
    requires Tidy(c) && Balanced(c.multi, cmds)
    ensures
      var r := Replay(c, cmds, valid);
      !r.multi && r.executed == c.executed + c.queued + Flat(cmds)
    decreases |cmds|
  {
    hide Encode, Execute, IsMulti, IsExec;
    if cmds == [] {
      assert c.executed + c.queued + Flat(cmds) == c.executed;
    } else {
      ExecuteOne(c, cmds[0], valid);
      ReplayBalanced(Execute(c, cmds[0], valid), cmds[1..], valid + |Encode(cmds[0])|);
      FlatNext(c.executed + c.queued, cmds);
    }
  }

  lemma FlatNext(before: seq<Command>, cmds: seq<Command>)
    requires cmds != []
    ensures before + Flat(cmds) ==
            before + (if IsMulti(cmds[0]) || IsExec(cmds[0]) then [] else [cmds[0]]) + Flat(cmds[1..])
  {
    hide IsMulti, IsExec;
  }

  /** A MULTI that was queued is executed like any other command, or its transaction is still open. */
  lemma {:induction false} ReplayKeepsMulti(c: Client, cmds: seq<Command>, valid: nat)
    requires Tidy(c) && HasMulti(c.executed + c.queued)
    ensures Replay(c, cmds, valid).multi || HasMulti(Replay(c, cmds, valid).executed)
    decreases |cmds|
  {
    hide Encode, Execute, IsMulti, IsExec;
    if cmds == [] {
      assert c.executed + [] == c.executed;
    } else {
      ExecuteOne(c, cmds[0], valid);
      ReplayKeepsMulti(Execute(c, cmds[0], valid), cmds[1..], valid + |Encode(cmds[0])|);
    }
  }

  lemma {:induction false} ReplayUnbalanced(c: Client, cmds: seq<Command>, valid: nat)
    requires Tidy(c) && !Balanced(c.multi, cmds)
    ensures Replay(c, cmds, valid).multi || HasMulti(Replay(c, cmds, valid).executed)
    decreases |cmds|
  {
    if cmds != [] {
      hide Encode, Execute;
      var c' := Execute(c, cmds[0], valid);
      ExecuteOne(c, cmds[0], valid);
      if c.multi && IsMulti(cmds[0]) {
        assert cmds[0] in c'.executed + c'.queued;
        ReplayKeepsMulti(c', cmds[1..], valid + |Encode(cmds[0])|);
      } else {
        ReplayUnbalanced(c', cmds[1..], valid + |Encode(cmds[0])|);
      }
    }
  }

  lemma {:induction false} FlatHasNoMulti(cmds: seq<Command>)
    ensures !HasMulti(Flat(cmds))
  {
    hide IsMulti, IsExec;
    if cmds != [] {
      FlatHasNoMulti(cmds[1..]);
    }
  }

  /** Loading a whole file executes what the commands in it amount to. */
  lemma LoadWhole(cmds: seq<Command>, known: seq<byte> -> bool)
    requires Loadable(cmds, known) && cmds != []
    ensures
      var n := |EncodeAll(cmds)|;
      Load(EncodeAll(cmds), known, true) == AfterReplay(Replay(NEW_CLIENT, cmds, 0), n, n)
  {
    hide Load, EncodeAll, Replay, Whole, AfterReplay;
    SomethingEncoded(cmds);
    var n := |EncodeAll(cmds)|;
    assert EncodeAll(cmds)[..n] == EncodeAll(cmds);
    LoadPrefix(cmds, n, known);
    WholeAll(cmds);
    assert cmds[..|cmds|] == cmds;
  }

  /** The offset of the MULTI of an open transaction is before the end. */
  lemma {:induction false} OpenStartsBefore(c: Client, cmds: seq<Command>, valid: nat)
    requires c.multi ==> c.beforeMulti < valid
    ensures
      var r := Replay(c, cmds, valid);
      r.multi ==> r.beforeMulti < valid + |EncodeAll(cmds)|
    decreases |cmds|
  {
    if cmds != [] {
      OneEncoded(cmds[0]);
      hide Encode, IsMulti, IsExec;
      OpenStartsBefore(Execute(c, cmds[0], valid), cmds[1..], valid + |Encode(cmds[0])|);
    }
  }

  /** The loader inverts the printer: the commands printed, those of transactions included, are executed and the
      whole file is kept, if and only if no transaction is nested or left open. */
  lemma LoadInvertsPrint(cmds: seq<Command>, known: seq<byte> -> bool)
    requires Loadable(cmds, known) && cmds != []
    ensures Load(EncodeAll(cmds), known, true) == Loaded(Flat(cmds), |EncodeAll(cmds)|) <==> Balanced(false, cmds)
  {
    hide Load, EncodeAll, Replay, Balanced, Flat, HasMulti, IsMulti, IsExec;
    LoadWhole(cmds, known);
    if Balanced(false, cmds) {
      ReplayBalanced(NEW_CLIENT, cmds, 0);
      assert [] + [] + Flat(cmds) == Flat(cmds);
    } else {
      ReplayUnbalanced(NEW_CLIENT, cmds, 0);
      FlatHasNoMulti(cmds);
      OpenStartsBefore(NEW_CLIENT, cmds, 0);
    }
  }

  lemma {:induction false} WholeAll(cmds: seq<Command>)
    ensures Whole(cmds, |EncodeAll(cmds)|) == |cmds|
    decreases |cmds|
  {
    if cmds != [] {
      hide Encode;
      WholeAll(cmds[1..]);
    }
  }

  // ---------------------------------------------------------------------------
  // Writing on after a truncated load
  // ---------------------------------------------------------------------------

  /** The fake client after the first k commands of a log. */
  function At(cmds: seq<Command>, k: nat): Client
    requires k <= |cmds|
  {
    Replay(NEW_CLIENT, cmds[..k], 0)
  }

  /** No MULTI is given inside a transaction. */
  ghost predicate NotNested(cmds: seq<Command>) {
    forall i :: 0 <= i < |cmds| && IsMulti(cmds[i]) ==> !At(cmds, i).multi
  }

  lemma {:induction false} ReplayConcat(c: Client, a: seq<Command>, b: seq<Command>, valid: nat)
    ensures Replay(c, a + b, valid) == Replay(Replay(c, a, valid), b, valid + |EncodeAll(a)|)
    decreases |a|
  {
    hide Execute, Encode;
    if a == [] {
      assert a + b == b;
    } else {
      assert (a + b)[1..] == a[1..] + b;
      ReplayConcat(Execute(c, a[0], valid), a[1..], b, valid + |Encode(a[0])|);
    }
  }

  lemma AtNext(cmds: seq<Command>, k: nat)
    requires k < |cmds|
    ensures At(cmds, k + 1) == Execute(At(cmds, k), cmds[k], |EncodeAll(cmds[..k])|)
  {
    hide Execute, Encode, EncodeAll;
    assert cmds[..k + 1] == cmds[..k] + [cmds[k]];
    ReplayConcat(NEW_CLIENT, cmds[..k], [cmds[k]], 0);
  }

  /** An open transaction was opened by a MULTI that starts where beforeMulti says, and nothing was executed since. */
  lemma {:induction false} OpenTransaction(cmds: seq<Command>, k: nat) returns (j: nat)
    requires k <= |cmds| && NotNested(cmds) && At(cmds, k).multi
    ensures j < k && At(cmds, k).beforeMulti == |EncodeAll(cmds[..j])|
    ensures !At(cmds, j).multi && At(cmds, j).executed == At(cmds, k).executed
    decreases k
  {
    hide EncodeAll, IsMulti, IsExec, Replay;
    AtStart(cmds);
    AtNext(cmds, k - 1);
    if At(cmds, k - 1).multi {
      j := OpenTransaction(cmds, k - 1);
    } else {
      j := k - 1;
    }
  }

  lemma AtStart(cmds: seq<Command>)
    ensures At(cmds, 0) == NEW_CLIENT
  {
  }

  /** Commands without transactions, after an open or a closed one. */
  lemma {:induction false} ReplayQueued(c: Client, cmds: seq<Command>, valid: nat)
    requires NoTransactions(cmds) && c.multi
    ensures Replay(c, cmds, valid).multi && Replay(c, cmds, valid).executed == c.executed
    decreases |cmds|
  {
    hide Encode, IsMulti, IsExec;
    if cmds != [] {
      ReplayQueued(Execute(c, cmds[0], valid), cmds[1..], valid + |Encode(cmds[0])|);
    }
  }

  lemma SomethingEncoded(cmds: seq<Command>)
    requires cmds != []
    ensures |EncodeAll(cmds)| > 0
  {
  }

  /** What a later load executes when new commands were appended to a log that ends with a whole command. */
  lemma LoadAppended(kept: seq<Command>, more: seq<Command>, known: seq<byte> -> bool)
    requires Loadable(kept + more, known) && NoTransactions(more) && more != []
    ensures
      var r := Load(EncodeAll(kept) + EncodeAll(more), known, true);
      var c := Replay(NEW_CLIENT, kept, 0);
      r.Loaded? && r.executed == (if c.multi then c.executed else c.executed + more)
  {
    hide Load, EncodeAll, Execute, Whole, Replay, IsMulti, IsExec, Loadable, NoTransactions;
    var all := kept + more;
    EncodeAllConcat(kept, more);
    SomethingEncoded(more);
    var n := |EncodeAll(all)|;
    assert EncodeAll(all)[..n] == EncodeAll(all);
    LoadPrefix(all, n, known);
    WholeAll(all);
    assert all[..|all|] == all;
    ReplayConcat(NEW_CLIENT, kept, more, 0);
    var c := Replay(NEW_CLIENT, kept, 0);
    if c.multi {
      ReplayQueued(c, more, 0 + |EncodeAll(kept)|);
    } else {
      ReplayPlain(c, more, 0 + |EncodeAll(kept)|);
    }
  }

  /** The file the loader leaves ends with a whole command, with these commands in it. */
  lemma KeptCommands(cmds: seq<Command>, n: nat) returns (kept: seq<Command>)
    requires NotNested(cmds) && n <= |EncodeAll(cmds)|
    ensures
      var k := Whole(cmds, n);
      var c := At(cmds, k);
      var good := |EncodeAll(cmds[..k])|;
      && kept <= cmds
      && |EncodeAll(kept)| == AfterReplay(c, good, n).fileLength <= n && EncodeAll(kept) <= EncodeAll(cmds)
      && Replay(NEW_CLIENT, kept, 0).executed == c.executed
      && (Replay(NEW_CLIENT, kept, 0).multi <==> c.multi && n != good)
  {
    hide Execute, IsMulti, IsExec, Whole, Replay, EncodeAll;
    var k := Whole(cmds, n);
    var c := At(cmds, k);
    var j := k;
    if c.multi && n == |EncodeAll(cmds[..k])| {
      j := OpenTransaction(cmds, k);
    }
    kept := cmds[..j];
    assert cmds == cmds[..j] + cmds[j..] && cmds[..k] == cmds[..j] + cmds[j..k];
    EncodeAllConcat(cmds[..j], cmds[j..]);
    EncodeAllConcat(cmds[..j], cmds[j..k]);
  }

  /** Load a log cut at n bytes, append more commands to the file the loader left, and load that again: the
      second load executes what the first did followed by the new commands if and only if the file was not
      cut inside a command of an open transaction. In that one case the MULTI stays in the file and
      swallows everything appended after it. */
  lemma AppendAfterTruncation(cmds: seq<Command>, n: nat, more: seq<Command>, known: seq<byte> -> bool)
    requires Loadable(cmds, known) && NotNested(cmds) && 0 < n <= |EncodeAll(cmds)|
    requires Loadable(more, known) && NoTransactions(more) && more != []
    ensures
      var first := Load(EncodeAll(cmds)[..n], known, true);
      && first.Loaded? && first.fileLength <= n
      && var second := Load(EncodeAll(cmds)[..first.fileLength] + EncodeAll(more), known, true);
      var k := Whole(cmds, n);
      second.Loaded? &&
      (second.executed == first.executed + more <==> !(At(cmds, k).multi && n != |EncodeAll(cmds[..k])|))
  {
    hide Load, Execute, IsMulti, IsExec, Replay, EncodeAll, Whole;
    LoadPrefix(cmds, n, known);
    var kept := KeptCommands(cmds, n);
    LoadableConcat(kept, cmds, more, known);
    LoadAppended(kept, more, known);
    var first := Load(EncodeAll(cmds)[..n], known, true);
    assert EncodeAll(cmds)[..first.fileLength] == EncodeAll(kept);
    assert first.executed + more != first.executed;
  }

  lemma LoadableConcat(kept: seq<Command>, cmds: seq<Command>, more: seq<Command>, known: seq<byte> -> bool)
    requires Loadable(cmds, known) && Loadable(more, known) && kept <= cmds
    ensures Loadable(kept + more, known)
  {
  }

  const MULTI: Command := [[109, 117, 108, 116, 105]]
  const SET_K_V: Command := [[115, 101, 116], [107], [118]]

  /** A file cut after the first byte of a SET inside a transaction: a SET appended later is never executed. */
  lemma MultiSwallowsAppended(known: seq<byte> -> bool)
    requires known(MULTI[0]) && known(SET_K_V[0])
    ensures
      var log := EncodeAll([MULTI, SET_K_V]);
      var n := |Encode(MULTI)| + 1;
      n <= |log| &&
      var first := Load(log[..n], known, true);
      && first.Loaded? && first.fileLength <= n
      && var second := Load(log[..first.fileLength] + EncodeAll([SET_K_V]), known, true);
      second.Loaded? && second.executed != first.executed + [SET_K_V]
  {
    hide Load, Encode, EncodeAll, IsMulti, IsExec, Fits, NotNested, At, Whole;
    var cmds, more := [MULTI, SET_K_V], [SET_K_V];
    var n := |Encode(MULTI)| + 1;
    OneEncoded(MULTI);
    SetIsPlain();
    OpenAfterMulti();
    CutWhole(n);
    assert cmds[..1] == [MULTI];
    AppendAfterTruncation(cmds, n, more, known);
  }

  lemma OpenAfterMulti()
    ensures NotNested([MULTI, SET_K_V]) && At([MULTI, SET_K_V], 1).multi
  {
    SetIsPlain();
    hide IsMulti, IsExec, Replay;
    AtStart([MULTI, SET_K_V]);
    AtNext([MULTI, SET_K_V], 0);
  }

  lemma OneEncoded(cmd: Command)
    ensures EncodeAll([cmd]) == Encode(cmd) && |Encode(cmd)| > 1
  {
    var none: seq<Command> := [];
    assert [cmd][1..] == none;
  }

  lemma SetIsPlain()
    ensures IsMulti(MULTI) && !IsExec(MULTI) && !IsMulti(SET_K_V) && !IsExec(SET_K_V)
    ensures Fits(MULTI) && Fits(SET_K_V)
  {
  }

  lemma CutWhole(n: nat)
    requires n == |Encode(MULTI)| + 1
    ensures n <= |EncodeAll([MULTI, SET_K_V])| && Whole([MULTI, SET_K_V], n) == 1
  {
    hide Encode;
    OneEncoded(MULTI);
    OneEncoded(SET_K_V);
    assert [MULTI, SET_K_V][1..] == [SET_K_V];
  }
}
