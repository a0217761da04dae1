/**
 The format of the append only file: commands as arrays of bulk strings of the Redis serialization
 protocol, the printer of feedAppendOnlyFile and the reader of loadAppendOnlyFile.
 */
module AofFormat {
  import opened Prelude
  import opened Decimal

  /** A command with its arguments, the name first; every argument is an arbitrary byte string. */
  type Command = seq<seq<byte>>

  const STAR: byte := 42
  const DOLLAR: byte := 36
  const CR: byte := 13
  const LF: byte := 10
  const CRLF: seq<byte> := [CR, LF]

  /** sizeof(buf) - 1: what one fgets can return. */
  const LINE_MAX: nat := 127

  // ---------------------------------------------------------------------------
  // Printing
  // ---------------------------------------------------------------------------

  function EncodeArg(arg: seq<byte>): seq<byte> {
    [DOLLAR] + Digits(|arg|) + CRLF + arg + CRLF
  }

  function EncodeArgs(args: Command): seq<byte> {
    if args == [] then [] else EncodeArg(args[0]) + EncodeArgs(args[1..])
  }

  function Encode(cmd: Command): seq<byte> {
    [STAR] + Digits(|cmd|) + CRLF + EncodeArgs(cmd)
  }

  function EncodeAll(cmds: seq<Command>): seq<byte> {
    if cmds == [] then [] else Encode(cmds[0]) + EncodeAll(cmds[1..])
  }

  lemma {:induction false} EncodeArgsConcat(a: Command, b: Command)
    ensures EncodeArgs(a + b) == EncodeArgs(a) + EncodeArgs(b)
  {
    if a == [] {
      assert a + b == b;
    } else {
      assert (a + b)[1..] == a[1..] + b;
      EncodeArgsConcat(a[1..], b);
    }
  }

  lemma EmptyArgs(args: Command)
    requires args == []
    ensures EncodeArgs(args) == []
  {
  }

  lemma EncodeArgsNext(argv: Command, j: nat)
    requires j < |argv|
    ensures EncodeArgs(argv[..j + 1]) == EncodeArgs(argv[..j]) + EncodeArg(argv[j])
  {
    assert argv[..j + 1] == argv[..j] + [argv[j]];
    EncodeArgsConcat(argv[..j], [argv[j]]);
    assert EncodeArgs([argv[j]]) == EncodeArg(argv[j]);
  }

  lemma {:induction false} EncodeAllConcat(a: seq<Command>, b: seq<Command>)
    ensures EncodeAll(a + b) == EncodeAll(a) + EncodeAll(b)
  {
    if a == [] {
      assert a + b == b;
    } else {
      assert (a + b)[1..] == a[1..] + b;
      EncodeAllConcat(a[1..], b);
    }
  }

  /** catAppendOnlyGenericCommand */
  method CatGenericCommand(dst: seq<byte>, argv: Command) returns (out: seq<byte>)
    ensures out == dst + Encode(argv)
  {
    out := dst + ([STAR] + Digits(|argv|) + CRLF);
    ghost var head := out;
    hide Digits, EncodeArgs;
    assert EncodeArgs(argv[..0]) == [] by {
      EmptyArgs(argv[..0]);
    }
    var j := 0;
    while j < |argv|
      invariant j <= |argv|
      invariant out == head + EncodeArgs(argv[..j])
    {
      EncodeArgsNext(argv, j);
      var arg := [DOLLAR] + Digits(|argv[j]|) + CRLF + argv[j] + CRLF;
      out := out + arg;
      j := j + 1;
    }
    assert argv[..j] == argv;
  }

  // ---------------------------------------------------------------------------
  // Reading
  // ---------------------------------------------------------------------------

  /** The number of bytes one fgets takes: up to and including a newline, at most max. */
  function LineLength(s: seq<byte>, max: nat): (k: nat)
    ensures k <= |s| && k <= max && (s != [] && max > 0 ==> k > 0)
  {
    if s == [] || max == 0 then 0
    else if s[0] == LF then 1
    else 1 + LineLength(s[1..], max - 1)
  }

  datatype Read<+T> =
    | Got(value: T, rest: seq<byte>)
    | AtEnd            // end of file where a command could start
    | Short            // end of file inside a command
    | Unreadable       // a NUL where the argument count should be, not at the end of file
    | BadFormat
    | OutOfMemory      // a negative length, taken for a huge one

  /** One bulk string. The two bytes after it are skipped without being looked at. */
  function ReadArg(s: seq<byte>): (r: Read<seq<byte>>)
    ensures r.Got? ==> |r.rest| < |s|
  {
    if s == [] then Short else
    var k := LineLength(s, LINE_MAX);
    var line, rest := s[..k], s[k..];
    if line[0] != DOLLAR then BadFormat else
    var len := Strtol(line[1..]);
    if len < 0 then OutOfMemory
    else if |rest| < len then Short
    else if |rest| - len < 2 then Short
    else Got(rest[..len], rest[len + 2..])
  }

  function ReadArgs(s: seq<byte>, argc: nat): (r: Read<Command>)
    ensures r.Got? ==> |r.rest| <= |s| && |r.value| == argc
    decreases argc
  {
    if argc == 0 then Got([], s) else
    match ReadArg(s)
    case Got(arg, rest) =>
      (match ReadArgs(rest, argc - 1)
       case Got(args, rest') => Got([arg] + args, rest')
       case other => other)
    case AtEnd => AtEnd
    case Short => Short
    case Unreadable => Unreadable
    case BadFormat => BadFormat
    case OutOfMemory => OutOfMemory
  }

  function ReadCommand(s: seq<byte>): (r: Read<Command>)
    ensures r.Got? ==> |r.rest| < |s| && |r.value| > 0
  {
    if s == [] then AtEnd else
    var k := LineLength(s, LINE_MAX);
    var line, rest := s[..k], s[k..];
    if line[0] != STAR then BadFormat
    else if |line| == 1 then Short              // buf[1] is the terminator, and fgets met the end of file
    else if line[1] == 0 then
      // fgets met the end of file unless it stopped at a newline or filled the buffer
      if k == |s| && k < LINE_MAX && line[k - 1] != LF then Short else Unreadable
    else
      var argc := Strtol(line[1..]);
      if argc < 1 then BadFormat else ReadArgs(rest, argc)
  }

  // ---------------------------------------------------------------------------
  // Reading inverts printing
  // ---------------------------------------------------------------------------

  /** What fits the int and long the printer and the reader use. */
  predicate Fits(cmd: Command) {
    && 0 < |cmd| <= 0x7fff_ffff
    && forall i :: 0 <= i < |cmd| ==> |cmd[i]| <= LONG_MAX
  }

  predicate NoLF(s: seq<byte>) {
    forall i :: 0 <= i < |s| ==> s[i] != LF
  }

  lemma {:induction false} LineEndsAtLF(a: seq<byte>, b: seq<byte>, max: nat)
    requires NoLF(a) && |a| < max
    ensures LineLength(a + [LF] + b, max) == |a| + 1
  {
    var s := a + [LF] + b;
    if a != [] {
      assert s[1..] == a[1..] + [LF] + b;
      LineEndsAtLF(a[1..], b, max - 1);
    }
  }

  lemma {:induction false} LineEndsAtEof(a: seq<byte>, max: nat)
    requires NoLF(a) && |a| <= max
    ensures LineLength(a, max) == |a|
  {
    if a != [] {
      LineEndsAtEof(a[1..], max - 1);
    }
  }

  /** A header line: a marker, a number and CRLF. */
  function HeaderLine(mark: byte, n: nat): seq<byte> {
    [mark] + Digits(n) + CRLF
  }

  lemma ReadHeader(mark: byte, n: nat, tail: seq<byte>)
    requires mark != LF && n <= LONG_MAX
    ensures
      var h := HeaderLine(mark, n);
      && |h| >= 4
      && LineLength(h + tail, LINE_MAX) == |h|
      && h[0] == mark && IsDigit(h[1]) && Strtol(h[1..]) == n
  {
    LongLength(n);
    var a := [mark] + Digits(n) + [CR];
    assert HeaderLine(mark, n) + tail == a + [LF] + tail;
    LineEndsAtLF(a, tail, LINE_MAX);
    assert HeaderLine(mark, n)[1..] == Digits(n) + CRLF;
    StrtolInvertsDigits(n, CRLF);
  }

  /** A header line cut short: everything is read, and the number is some prefix of the one printed. */
  lemma ReadCutHeader(mark: byte, n: nat, p: seq<byte>)
    requires mark != LF && n <= LONG_MAX && 0 < |p| < |HeaderLine(mark, n)| && p <= HeaderLine(mark, n)
    ensures LineLength(p, LINE_MAX) == |p| && p[0] == mark
    ensures |p| > 1 ==> p[1] == Digits(n)[0] && Strtol(p[1..]) >= 0 && (n > 0 ==> Strtol(p[1..]) > 0)
    ensures |p| == 1 ==> Strtol(p[1..]) == 0
  {
    LongLength(n);
    var d := Digits(n);
    var h := HeaderLine(mark, n);
    assert h == [mark] + d + [CR] + [LF];
    forall i | 0 <= i < |p|
      ensures p[i] != LF
    {
      assert p[i] == h[i];
    }
    LineEndsAtEof(p, LINE_MAX);
    if |p| > 1 {
      var k := Min(|p| - 1, |d|);
      CutDigits(d, p[1..], k);
      StrtolOfDigits(d[..k], p[1..][k..]);
      if n > 0 {
        PositiveStartsNonZero(n);
        NonZeroStart(d[..k]);
      }
    }
  }

  lemma CutDigits(d: seq<byte>, q: seq<byte>, k: nat)
    requires AllDigits(d) && d != [] && 0 < |q| <= |d| + 1 && q <= d + [CR] && k == Min(|q|, |d|)
    ensures q == d[..k] + q[k..] && AllDigits(d[..k]) && d[..k] != []
    ensures q[k..] == [] || !IsDigit(q[k..][0])
  {
    assert forall i :: 0 <= i < |q| ==> q[i] == (d + [CR])[i];
  }

  lemma ReadArgInverts(arg: seq<byte>, tail: seq<byte>)
    requires |arg| <= LONG_MAX
    ensures ReadArg(EncodeArg(arg) + tail) == Got(arg, tail)
  {
    var h := HeaderLine(DOLLAR, |arg|);
    var s := EncodeArg(arg) + tail;
    assert s == h + (arg + CRLF + tail);
    ReadHeader(DOLLAR, |arg|, arg + CRLF + tail);
    assert s[..|h|] == h && s[|h|..] == arg + CRLF + tail;
    assert (arg + CRLF + tail)[..|arg|] == arg;
    assert (arg + CRLF + tail)[|arg| + 2..] == tail;
  }

  /** A bulk string cut short anywhere is a short read. */
  lemma ReadArgCut(arg: seq<byte>, p: seq<byte>)
    requires |arg| <= LONG_MAX && p <= EncodeArg(arg) && |p| < |EncodeArg(arg)|
    ensures ReadArg(p) == Short
  {
    var h := HeaderLine(DOLLAR, |arg|);
    assert EncodeArg(arg) == h + (arg + CRLF);
    if p == [] {
    } else if |p| < |h| {
      assert p <= h;
      ReadCutHeader(DOLLAR, |arg|, p);
    } else {
      assert p == h + p[|h|..];
      ReadHeader(DOLLAR, |arg|, p[|h|..]);
      assert p[..|h|] == h;
    }
  }

  lemma {:induction false} ReadArgsInverts(args: Command, tail: seq<byte>)
    requires forall i :: 0 <= i < |args| ==> |args[i]| <= LONG_MAX
    ensures ReadArgs(EncodeArgs(args) + tail, |args|) == Got(args, tail)
    decreases |args|
  {
    hide EncodeArg, ReadArg;
    if args == [] {
      assert EncodeArgs(args) + tail == tail;
    } else {
      var rest := EncodeArgs(args[1..]) + tail;
      assert EncodeArgs(args) + tail == EncodeArg(args[0]) + rest;
      ReadArgInverts(args[0], rest);
      ReadArgsInverts(args[1..], tail);
      assert [args[0]] + args[1..] == args;
    }
  }

  lemma {:induction false} ReadArgsCut(args: Command, p: seq<byte>)
    requires forall i :: 0 <= i < |args| ==> |args[i]| <= LONG_MAX
    requires p <= EncodeArgs(args) && |p| < |EncodeArgs(args)|
    ensures ReadArgs(p, |args|) == Short
    decreases |args|
  {
    hide EncodeArg, ReadArg;
    var first := EncodeArg(args[0]);
    assert EncodeArgs(args) == first + EncodeArgs(args[1..]);
    if |p| < |first| {
      assert p <= first;
      ReadArgCut(args[0], p);
    } else {
      assert p == first + p[|first|..];
      assert p[|first|..] <= EncodeArgs(args[1..]);
      ReadArgInverts(args[0], p[|first|..]);
      ReadArgsCut(args[1..], p[|first|..]);
    }
  }

  /** The reader inverts the printer, whatever follows. */
  lemma ReadInvertsPrint(cmd: Command, tail: seq<byte>)
    requires Fits(cmd)
    ensures ReadCommand(Encode(cmd) + tail) == Got(cmd, tail)
  {
    var h := HeaderLine(STAR, |cmd|);
    var s := Encode(cmd) + tail;
    assert s == h + (EncodeArgs(cmd) + tail);
    ReadHeader(STAR, |cmd|, EncodeArgs(cmd) + tail);
    assert s[..|h|] == h && s[|h|..] == EncodeArgs(cmd) + tail;
    ReadArgsInverts(cmd, tail);
  }

  /** A printed command cut short anywhere is a short read, and nothing at all is the end of file. */
  lemma ReadCut(cmd: Command, p: seq<byte>)
    requires Fits(cmd) && p <= Encode(cmd) && |p| < |Encode(cmd)|
    ensures ReadCommand(p) == (if p == [] then AtEnd else Short)
  {
    var h := HeaderLine(STAR, |cmd|);
    assert Encode(cmd) == h + EncodeArgs(cmd);
    if p == [] {
    } else if |p| < |h| {
      assert p <= h;
      ReadCutHeader(STAR, |cmd|, p);
      assert p[..|p|] == p && p[|p|..] == [];
      assert |p| > 1 ==> IsDigit(p[1]) && ReadArgs([], Strtol(p[1..])) == Short;
    } else {
      assert p == h + p[|h|..];
      ReadHeader(STAR, |cmd|, p[|h|..]);
      assert p[..|h|] == h;
      ReadArgsCut(cmd, p[|h|..]);
    }
  }
}
