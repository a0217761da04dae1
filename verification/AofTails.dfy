/**
 What the loader makes of a log of whole commands followed by anything: nothing more, a cut command, a command that is
 not in the table, or bytes that are no command. With aof-load-truncated off nothing is ever cut from the file.
 */
module AofTails {
  import opened Prelude
  import opened Decimal
  import opened AofFormat
  import opened AofLoad

  /** Clients that differ at most in the offset before their MULTI. */
  predicate SameWork(c: Client, d: Client) {
    c.executed == d.executed && c.multi == d.multi && c.queued == d.queued
  }

  lemma ExecuteSame(c: Client, d: Client, cmd: Command, valid: nat, valid': nat)
    requires SameWork(c, d)
    ensures SameWork(Execute(c, cmd, valid), Execute(d, cmd, valid'))
  {
    hide IsMulti, IsExec;
  }

  /** The whole commands in front are replayed, whatever follows and whatever the setting. */
  lemma {:induction false} LoadFront(size: nat, cmds: seq<Command>, tail: seq<byte>, valid: nat, c: Client, at: nat,
      d: Client, known: seq<byte> -> bool, truncate: bool) returns (valid': nat, c': Client)
    requires Loadable(cmds, known) && |EncodeAll(cmds) + tail| <= size && SameWork(c, d)
    ensures LoadFrom(size, EncodeAll(cmds) + tail, valid, c, known, truncate)
            == LoadFrom(size, tail, valid', c', known, truncate)
    ensures SameWork(c', Replay(d, cmds, at))
    decreases |cmds|
  {
    hide *;
    FrontLength(cmds, tail);
    if cmds == [] {
      ReplayNone(d, at);
      NoFront(tail);
      valid', c' := valid, c;
    } else {
      var rest := EncodeAll(cmds[1..]) + tail;
      FrontNext(cmds, tail);
      LoadableTail(cmds, known);
      ReadInvertsPrint(cmds[0], rest);
      LoadFromNext(size, Encode(cmds[0]) + rest, valid, c, known, truncate);
      ExecuteSame(c, d, cmds[0], valid, at);
      ReplayStep(d, cmds, at);
      valid', c' := LoadFront(size, cmds[1..], tail, if truncate then size - |rest| else valid,
        Execute(c, cmds[0], valid), at + |Encode(cmds[0])|, Execute(d, cmds[0], at), known, truncate);
    }
  }

  lemma FrontLength(cmds: seq<Command>, tail: seq<byte>)
    ensures |EncodeAll(cmds) + tail| == |EncodeAll(cmds)| + |tail|
  {
  }

  lemma NoFront(tail: seq<byte>)
    ensures EncodeAll([]) + tail == tail
  {
  }

  lemma FrontNext(cmds: seq<Command>, tail: seq<byte>)
    requires cmds != []
    ensures EncodeAll(cmds) + tail == Encode(cmds[0]) + (EncodeAll(cmds[1..]) + tail)
    ensures |EncodeAll(cmds[1..]) + tail| <= |EncodeAll(cmds) + tail|
  {
    hide Encode;
  }

  lemma ReplayStep(c: Client, cmds: seq<Command>, valid: nat)
    requires cmds != []
    ensures Replay(c, cmds, valid) == Replay(Execute(c, cmds[0], valid), cmds[1..], valid + |Encode(cmds[0])|)
  {
  }

  /** A log that is not empty, or a tail that is no RDB file. */
  ghost predicate NoPreamble(cmds: seq<Command>, tail: seq<byte>) {
    cmds != [] || (tail != [] && !(REDIS <= tail))
  }

  /** Loading a log followed by a tail comes down to reading the tail with what the log left. */
  lemma LoadTail(cmds: seq<Command>, tail: seq<byte>, known: seq<byte> -> bool, truncate: bool)
      returns (valid: nat, c: Client)
    requires Loadable(cmds, known) && NoPreamble(cmds, tail)
    ensures
      var file := EncodeAll(cmds) + tail;
      && |tail| <= |file|
      && Load(file, known, truncate) == LoadFrom(|file|, tail, valid, c, known, truncate)
    ensures SameWork(c, Replay(NEW_CLIENT, cmds, 0))
  {
    var file := EncodeAll(cmds) + tail;
    StartsAsLog(cmds, tail);
    FrontLength(cmds, tail);
    hide LoadFrom, Replay, EncodeAll;
    valid, c := LoadFront(|file|, cmds, tail, 0, NEW_CLIENT, 0, NEW_CLIENT, known, truncate);
  }

  lemma StartsAsLog(cmds: seq<Command>, tail: seq<byte>)
    requires NoPreamble(cmds, tail)
    ensures
      var file := EncodeAll(cmds) + tail;
      file != [] && !(REDIS <= file)
  {
    if cmds == [] {
      NoFront(tail);
    } else {
      SomethingEncoded(cmds);
      LogStartsWithStar(cmds, |EncodeAll(cmds)|);
      hide EncodeAll;
      assert (EncodeAll(cmds) + tail)[0] == STAR && REDIS[0] != STAR;
    }
  }

  // ---------------------------------------------------------------------------
  // The file ends after a whole command
  // ---------------------------------------------------------------------------

  /** Without truncation a whole log is executed and kept, unless a transaction is left open at its end, which is then a
      fatal error. */
  lemma StrictLoad(cmds: seq<Command>, known: seq<byte> -> bool)
    requires Loadable(cmds, known) && cmds != []
    ensures
      var c := Replay(NEW_CLIENT, cmds, 0);
      Load(EncodeAll(cmds), known, false) ==
      if c.multi then Fatal(UnexpectedEnd) else Loaded(c.executed, |EncodeAll(cmds)|)
  {
    hide Replay, EncodeAll;
    var valid, c := LoadTail(cmds, [], known, false);
    assert EncodeAll(cmds) + [] == EncodeAll(cmds);
    ReadNothing();
  }

  /** Under both settings: what a log is executed as, if and only if no transaction is nested or left open. */
  lemma LoadEitherWay(cmds: seq<Command>, known: seq<byte> -> bool, truncate: bool)
    requires Loadable(cmds, known) && cmds != []
    ensures
      Load(EncodeAll(cmds), known, truncate) == Loaded(Flat(cmds), |EncodeAll(cmds)|) <==> Balanced(false, cmds)
  {
    hide Load, Replay, EncodeAll, Balanced, Flat, HasMulti, IsMulti, IsExec;
    if truncate {
      LoadInvertsPrint(cmds, known);
    } else {
      StrictLoad(cmds, known);
      if Balanced(false, cmds) {
        ReplayBalanced(NEW_CLIENT, cmds, 0);
        assert [] + [] + Flat(cmds) == Flat(cmds);
      } else {
        ReplayUnbalanced(NEW_CLIENT, cmds, 0);
        FlatHasNoMulti(cmds);
      }
    }
  }

  // ---------------------------------------------------------------------------
  // It ends inside a command
  // ---------------------------------------------------------------------------

  /** Without truncation a file that ends inside a command is a fatal error. */
  lemma StrictCut(cmds: seq<Command>, cmd: Command, n: nat, known: seq<byte> -> bool)
    requires Loadable(cmds, known) && Fits(cmd) && 0 < n < |Encode(cmd)|
    ensures Load(EncodeAll(cmds) + Encode(cmd)[..n], known, false) == Fatal(UnexpectedEnd)
  {
    var tail := Encode(cmd)[..n];
    assert tail[0] == STAR && REDIS[0] != STAR;
    ReadCut(cmd, tail);
    hide Replay, EncodeAll, Encode, ReadCommand;
    var valid, c := LoadTail(cmds, tail, known, false);
  }

  // ---------------------------------------------------------------------------
  // Something else follows
  // ---------------------------------------------------------------------------

  lemma LoadFailure(cmds: seq<Command>, tail: seq<byte>, known: seq<byte> -> bool, truncate: bool)
    requires Loadable(cmds, known) && NoPreamble(cmds, tail)
    ensures
      var next, r := ReadCommand(tail), Load(EncodeAll(cmds) + tail, known, truncate);
      && (next == BadFormat ==> r == Fatal(FormatError))
      && (next == Unreadable ==> r == Fatal(ReadError))
      && (next == OutOfMemory ==> r == Fatal(NoMemory))
      && (next.Got? && !known(next.value[0]) ==> r == Fatal(UnknownCommand))
  {
    hide Replay, EncodeAll, ReadCommand;
    var valid, c := LoadTail(cmds, tail, known, truncate);
  }

  /** A byte that is not a star where a command should start. */
  lemma NoStarIsFatal(cmds: seq<Command>, b: byte, rest: seq<byte>, known: seq<byte> -> bool, truncate: bool)
    requires Loadable(cmds, known) && b != 42 && (cmds != [] || !(REDIS <= [b] + rest))
    ensures Load(EncodeAll(cmds) + ([b] + rest), known, truncate) == Fatal(FormatError)
  {
    hide EncodeAll, Load;
    assert ReadCommand([b] + rest) == BadFormat;
    LoadFailure(cmds, [b] + rest, known, truncate);
  }

  /** A command that is not in the command table. */
  lemma UnknownIsFatal(cmds: seq<Command>, cmd: Command, rest: seq<byte>, known: seq<byte> -> bool, truncate: bool)
    requires Loadable(cmds, known) && Fits(cmd) && !known(cmd[0])
    ensures Load(EncodeAll(cmds) + (Encode(cmd) + rest), known, truncate) == Fatal(UnknownCommand)
  {
    assert (Encode(cmd) + rest)[0] == STAR && REDIS[0] != STAR;
    hide EncodeAll, Load, Encode;
    ReadInvertsPrint(cmd, rest);
    LoadFailure(cmds, Encode(cmd) + rest, known, truncate);
  }

  /** "*0", and a star followed by no number. */
  lemma NoArgumentsIsFatal(cmds: seq<Command>, b: byte, rest: seq<byte>, known: seq<byte> -> bool, truncate: bool)
    requires Loadable(cmds, known) && (b == 48 || 97 <= b <= 122)
    ensures Load(EncodeAll(cmds) + ([42, b, 13, 10] + rest), known, truncate) == Fatal(FormatError)
  {
    var tail := [42, b, 13, 10] + rest;
    assert REDIS[0] != tail[0];
    LineOf([42, b, 13], rest);
    assert [42, b, 13] + [10] + rest == tail;
    assert tail[..4] == [42, b, 13, 10];
    assert [42, b, 13, 10][1..] == [b, 13, 10];
    SmallNumber(b);
    assert ReadCommand(tail) == BadFormat;
    hide EncodeAll, Load, ReadCommand;
    LoadFailure(cmds, tail, known, truncate);
  }

  lemma LineOf(a: seq<byte>, rest: seq<byte>)
    requires NoLF(a) && |a| < LINE_MAX
    ensures LineLength(a + [10] + rest, LINE_MAX) == |a| + 1
  {
    LineEndsAtLF(a, rest, LINE_MAX);
  }

  lemma SmallNumber(b: byte)
    requires b == 48 || 97 <= b <= 122
    ensures Strtol([b, 13, 10]) == 0
  {
    var d: seq<byte> := if b == 48 then [48] else [];
    DigitRunOf(d, [b, 13, 10][|d|..]);
    assert d + [b, 13, 10][|d|..] == [b, 13, 10];
    assert [b, 13, 10][..|d|] == d;
  }

  /** An argument that does not start with a dollar sign. */
  lemma NoDollarIsFatal(cmds: seq<Command>, b: byte, rest: seq<byte>, known: seq<byte> -> bool, truncate: bool)
    requires Loadable(cmds, known) && b != 36
    ensures Load(EncodeAll(cmds) + ([42, 49, 13, 10] + ([b] + rest)), known, truncate) == Fatal(FormatError)
  {
    var tail := [42, 49, 13, 10] + ([b] + rest);
    assert REDIS[0] != tail[0];
    assert Digits(1) == [49];
    var h := HeaderLine(STAR, 1);
    assert h == [42, 49, 13, 10];
    ReadHeader(STAR, 1, [b] + rest);
    assert tail[..4] == h && tail[4..] == [b] + rest;
    assert ReadArg([b] + rest) == BadFormat;
    assert ReadCommand(tail) == BadFormat;
    hide EncodeAll, Load, ReadCommand;
    LoadFailure(cmds, tail, known, truncate);
  }

  /** "$-1" where the length of an argument should be. */
  lemma NegativeLengthIsFatal(cmds: seq<Command>, rest: seq<byte>, known: seq<byte> -> bool, truncate: bool)
    requires Loadable(cmds, known)
    ensures Load(EncodeAll(cmds) + ([42, 49, 13, 10] + ([36, 45, 49, 13, 10] + rest)), known, truncate)
            == Fatal(NoMemory)
  {
    var arg := [36, 45, 49, 13, 10] + rest;
    var tail := [42, 49, 13, 10] + arg;
    assert REDIS[0] != tail[0];
    assert Digits(1) == [49];
    var h := HeaderLine(STAR, 1);
    assert h == [42, 49, 13, 10];
    ReadHeader(STAR, 1, arg);
    assert tail[..4] == h && tail[4..] == arg;
    LineOf([36, 45, 49, 13], rest);
    assert [36, 45, 49, 13] + [10] + rest == arg;
    MinusOne();
    assert arg[..5][1..] == [45, 49, 13, 10];
    assert ReadArg(arg) == OutOfMemory;
    assert ReadCommand(tail) == OutOfMemory;
    hide EncodeAll, Load, ReadCommand;
    LoadFailure(cmds, tail, known, truncate);
  }

  lemma MinusOne()
    ensures Strtol([45, 49, 13, 10]) == -1
  {
    var s: seq<byte> := [49, 13, 10];
    assert [45, 49, 13, 10][1..] == s;
    DigitRunOf([49], [13, 10]);
    assert [49] + [13, 10] == s && s[..1] == [49];
    assert Value([49]) == 1;
  }

  // ---------------------------------------------------------------------------
  // Literal bytes
  // ---------------------------------------------------------------------------

  const SET_BYTES: seq<byte> := [42, 51, 13, 10] + [36, 51, 13, 10, 83, 69, 84, 13, 10]
                                + [36, 49, 13, 10, 107, 13, 10] + [36, 49, 13, 10, 118, 13, 10]
  const MULTI_BYTES: seq<byte> := [42, 49, 13, 10, 36, 53, 13, 10, 77, 85, 76, 84, 73, 13, 10]
  const EXEC_BYTES: seq<byte> := [42, 49, 13, 10, 36, 52, 13, 10, 69, 88, 69, 67, 13, 10]

  const SET_WORD: seq<byte> := [83, 69, 84]
  const MULTI_WORD: seq<byte> := [77, 85, 76, 84, 73]
  const EXEC_WORD: seq<byte> := [69, 88, 69, 67]
  const SET: Command := [SET_WORD, [107], [118]]

  lemma DigitBytes()
    ensures Digits(1) == [49] && Digits(3) == [51] && Digits(4) == [52] && Digits(5) == [53]
  {
  }

  lemma OneArg(arg: seq<byte>)
    ensures EncodeArgs([arg]) == EncodeArg(arg)
  {
    var none: Command := [];
    assert [arg][1..] == none;
    hide EncodeArg;
    assert EncodeArgs([arg]) == EncodeArg(arg) + EncodeArgs(none);
  }

  lemma ThreeArgs(a: seq<byte>, b: seq<byte>, c: seq<byte>)
    ensures EncodeArgs([a, b, c]) == EncodeArg(a) + EncodeArg(b) + EncodeArg(c)
  {
    hide EncodeArg;
    assert [a, b, c][1..] == [b, c] && [b, c][1..] == [c];
    OneArg(c);
    assert EncodeArgs([b, c]) == EncodeArg(b) + EncodeArgs([c]);
  }

  /** The bytes of SET k v as the protocol has them. */
  lemma SetIsEncoded()
    ensures Encode(SET) == SET_BYTES
  {
    DigitBytes();
    hide Digits;
    ThreeArgs(SET_WORD, [107], [118]);
    assert EncodeArg(SET_WORD) == [36, 51, 13, 10, 83, 69, 84, 13, 10];
    assert EncodeArg([107]) == [36, 49, 13, 10, 107, 13, 10];
    assert EncodeArg([118]) == [36, 49, 13, 10, 118, 13, 10];
  }

  lemma BracketsAreEncoded()
    ensures Encode([MULTI_WORD]) == MULTI_BYTES && Encode([EXEC_WORD]) == EXEC_BYTES
  {
    DigitBytes();
    hide Digits;
    OneArg(MULTI_WORD);
    OneArg(EXEC_WORD);
    assert EncodeArg(MULTI_WORD) == [36, 53, 13, 10, 77, 85, 76, 84, 73, 13, 10];
    assert EncodeArg(EXEC_WORD) == [36, 52, 13, 10, 69, 88, 69, 67, 13, 10];
  }

  lemma Words()
    ensures IsMulti([MULTI_WORD]) && !IsExec([MULTI_WORD]) && IsExec([EXEC_WORD]) && !IsMulti([EXEC_WORD])
    ensures !IsMulti(SET) && !IsExec(SET) && Fits([MULTI_WORD]) && Fits([EXEC_WORD]) && Fits(SET)
  {
    assert [MULTI_WORD][0] == MULTI_WORD && [EXEC_WORD][0] == EXEC_WORD && SET[0] == SET_WORD;
  }

  lemma TransactionIsFlat()
    ensures Flat([[MULTI_WORD], SET, [EXEC_WORD]]) == [SET] && Balanced(false, [[MULTI_WORD], SET, [EXEC_WORD]])
  {
    Words();
    hide IsMulti, IsExec;
    var none: seq<Command> := [];
    var all := [[MULTI_WORD], SET, [EXEC_WORD]];
    assert all[1..] == [SET, [EXEC_WORD]] && [SET, [EXEC_WORD]][1..] == [[EXEC_WORD]] && [[EXEC_WORD]][1..] == none;
    assert Flat([[EXEC_WORD]]) == Flat(none) && Flat([SET, [EXEC_WORD]]) == [SET] + Flat([[EXEC_WORD]]);
    assert Balanced(true, [[EXEC_WORD]]) && Balanced(true, [SET, [EXEC_WORD]]);
  }

  /** MULTI, SET k v, EXEC, byte for byte: the file is kept and the SET is executed, under both settings. */
  lemma TransactionBytes(known: seq<byte> -> bool, truncate: bool)
    requires known(MULTI_WORD) && known(SET_WORD) && known(EXEC_WORD)
    ensures
      var file := MULTI_BYTES + SET_BYTES + EXEC_BYTES;
      Load(file, known, truncate) == Loaded([SET], |file|)
  {
    var all := [[MULTI_WORD], SET, [EXEC_WORD]];
    Words();
    SetIsEncoded();
    BracketsAreEncoded();
    TransactionIsFlat();
    hide Load, Encode, Flat, Balanced, IsMulti, IsExec, Fits;
    OneEncoded([EXEC_WORD]);
    assert all[1..] == [SET, [EXEC_WORD]] && [SET, [EXEC_WORD]][1..] == [[EXEC_WORD]];
    assert EncodeAll([SET, [EXEC_WORD]]) == SET_BYTES + EXEC_BYTES;
    assert EncodeAll(all) == MULTI_BYTES + SET_BYTES + EXEC_BYTES;
    LoadEitherWay(all, known, truncate);
  }
}
