/** Feeding commands of several databases into one log: SELECT is written when the database changes. */
module AofFeed {
  import opened Prelude
  import opened Decimal
  import opened AofFormat
  import opened AofLoad

  const SELECT: seq<byte> := [83, 69, 76, 69, 67, 84]

  function SelectCommand(db: nat): Command {
    [SELECT, Digits(db)]
  }

  /** What one call adds to the log; selected is -1 when the database of the reader is not known. */
  function Fed(selected: int, db: nat, cmd: Command): seq<Command> {
    if db != selected then [SelectCommand(db), cmd] else [cmd]
  }

  class Feeder {
    var selected: int                  // aof_selected_db

    constructor ()
      ensures selected == -1
    {
      selected := -1;
    }

    /** feedAppendOnlyFile up to the appending, for a command that needs no translation. */
    method Feed(db: nat, argv: Command) returns (buf: seq<byte>)
      modifies this
      ensures buf == EncodeAll(Fed(old(selected), db, argv)) && selected == db
      ensures old(selected) == db ==> buf == Encode(argv)
      ensures old(selected) != db ==> buf == Encode([[83, 69, 76, 69, 67, 84], Digits(db)]) + Encode(argv)
    {
      hide Encode;
      buf := [];
      if db != selected {
        var seldb := Digits(db);
        buf := buf + (SELECT_HEAD + [DOLLAR] + Digits(|seldb|) + CRLF + seldb + CRLF);
        SelectText(db);
        selected := db;
      }
      buf := CatGenericCommand(buf, argv);
      EncodeFew(SelectCommand(db), argv);
    }

    /** The start of a rewrite: the next command is preceded by a SELECT. */
    method StartRewrite()
      modifies this
      ensures selected == -1
    {
      selected := -1;
    }
  }

  /** The constant part of the text printed for SELECT. */
  const SELECT_HEAD: seq<byte> := [STAR, 50] + CRLF + [DOLLAR, 54] + CRLF + SELECT + CRLF

  lemma HeadText()
    ensures SELECT_HEAD == [STAR] + Digits(2) + CRLF + EncodeArg(SELECT)
  {
    assert Digits(2) == [50] && Digits(6) == [54];
  }

  /** The text printed for SELECT is the command. */
  lemma SelectText(db: nat)
    ensures SELECT_HEAD + [DOLLAR] + Digits(|Digits(db)|) + CRLF + Digits(db) + CRLF == Encode(SelectCommand(db))
  {
    HeadText();
    hide Digits;
    var d, two := Digits(db), Digits(2);
    TwoArgs(SELECT, d);
    assert SELECT_HEAD + ([DOLLAR] + Digits(|d|) + CRLF + d + CRLF)
      == SELECT_HEAD + [DOLLAR] + Digits(|d|) + CRLF + d + CRLF;
  }

  lemma TwoArgs(a: seq<byte>, b: seq<byte>)
    ensures EncodeArgs([a, b]) == EncodeArg(a) + EncodeArg(b)
  {
    hide EncodeArg;
    var none: Command := [];
    assert [a, b][1..] == [b] && [b][1..] == none;
    assert EncodeArgs([b]) == EncodeArg(b) + EncodeArgs(none);
  }

  lemma EncodeFew(a: Command, b: Command)
    ensures EncodeAll([b]) == Encode(b) && EncodeAll([a, b]) == Encode(a) + Encode(b)
  {
    hide Encode;
    assert [a, b][1..] == [b];
    assert EncodeAll([b]) == Encode(b) + EncodeAll([]);
  }

  // ---------------------------------------------------------------------------
  // Reading the log back
  // ---------------------------------------------------------------------------

  predicate IsSelect(cmd: Command) {
    |cmd| == 2 && Named(cmd, [115, 101, 108, 101, 99, 116]) && Strtol(cmd[1]) >= 0
  }

  /** The commands with the databases they are executed in, for a client that starts in the given one. */
  function Placed(db: nat, cmds: seq<Command>): seq<(nat, Command)>
    decreases |cmds|
  {
    if cmds == [] then []
    else if IsSelect(cmds[0]) then Placed(Strtol(cmds[0][1]), cmds[1..])
    else [(db, cmds[0])] + Placed(db, cmds[1..])
  }

  /** The database the client ends in. */
  function EndDb(db: nat, cmds: seq<Command>): nat
    decreases |cmds|
  {
    if cmds == [] then db
    else if IsSelect(cmds[0]) then EndDb(Strtol(cmds[0][1]), cmds[1..])
    else EndDb(db, cmds[1..])
  }

  lemma {:induction false} PlacedConcat(db: nat, a: seq<Command>, b: seq<Command>)
    ensures Placed(db, a + b) == Placed(db, a) + Placed(EndDb(db, a), b)
    decreases |a|
  {
    if a == [] {
      assert a + b == b;
    } else {
      hide IsSelect;
      assert (a + b)[1..] == a[1..] + b;
      PlacedConcat(if IsSelect(a[0]) then Selected(a[0]) else db, a[1..], b);
    }
  }

  function Selected(cmd: Command): nat {
    if IsSelect(cmd) then Strtol(cmd[1]) else 0
  }

  lemma SelectSelects(db: nat)
    ensures IsSelect(SelectCommand(db)) && Strtol(SelectCommand(db)[1]) == db
  {
    StrtolInvertsDigits(db, []);
    assert Digits(db) + [] == Digits(db);
    var cmd := SelectCommand(db);
    assert cmd[0] == SELECT;
  }

  // ---------------------------------------------------------------------------
  // Histories
  // ---------------------------------------------------------------------------

  /** A command fed, or the start of a rewrite, after which the next command is preceded by a SELECT. */
  datatype Event = Write(db: nat, cmd: Command) | Fork

  function Logged(selected: int, events: seq<Event>): seq<Command>
    decreases |events|
  {
    if events == [] then []
    else match events[0]
      case Write(db, cmd) => Fed(selected, db, cmd) + Logged(db, events[1..])
      case Fork => Logged(-1, events[1..])
  }

  function Commands(events: seq<Event>): seq<(nat, Command)> {
    if events == [] then []
    else match events[0]
      case Write(db, cmd) => [(db, cmd)] + Commands(events[1..])
      case Fork => Commands(events[1..])
  }

  /** Clients' own SELECTs are not fed: they write nothing. */
  ghost predicate NoSelects(events: seq<Event>) {
    forall i :: 0 <= i < |events| && events[i].Write? ==> !IsSelect(events[i].cmd)
  }

  lemma FedPlaced(selected: int, db: nat, cmd: Command, at: nat)
    requires !IsSelect(cmd) && (selected == -1 || selected == at)
    ensures Placed(at, Fed(selected, db, cmd)) == [(db, cmd)] && EndDb(at, Fed(selected, db, cmd)) == db
  {
    SelectSelects(db);
    hide IsSelect;
    assert Placed(db, [cmd]) == [(db, cmd)] + Placed(db, []);
    assert EndDb(db, [cmd]) == EndDb(db, []);
    if db != selected {
      assert [SelectCommand(db), cmd][1..] == [cmd];
    }
  }

  /** Every command is replayed in its own database, wherever the reader starts if the log starts unselected. */
  lemma {:induction false} LogReplays(selected: int, events: seq<Event>, at: nat)
    requires NoSelects(events) && (selected == -1 || selected == at)
    ensures Placed(at, Logged(selected, events)) == Commands(events)
    decreases |events|
  {
    hide Fed, IsSelect;
    if events != [] {
      assert NoSelects(events[1..]) by {
        assert forall i :: 0 <= i < |events[1..]| ==> events[1..][i] == events[i + 1];
      }
      match events[0]
      case Write(db, cmd) =>
        FedPlaced(selected, db, cmd, at);
        PlacedConcat(at, Fed(selected, db, cmd), Logged(db, events[1..]));
        LogReplays(db, events[1..], db);
      case Fork =>
        LogReplays(-1, events[1..], at);
    }
  }

  /** A rewritten log: a snapshot, whatever database it ends in, and the differences fed since the fork. */
  lemma RewriteReplays(snapshot: seq<Command>, events: seq<Event>)
    requires NoSelects(events)
    ensures Placed(0, snapshot + Logged(-1, events)) == Placed(0, snapshot) + Commands(events)
  {
    PlacedConcat(0, snapshot, Logged(-1, events));
    LogReplays(-1, events, EndDb(0, snapshot));
  }

  // ---------------------------------------------------------------------------
  // The bytes of the file
  // ---------------------------------------------------------------------------

  /** Everything a history feeds. */
  method FeedHistory(f: Feeder, events: seq<Event>) returns (bytes: seq<byte>)
    modifies f
    ensures bytes == EncodeAll(Logged(old(f.selected), events))
  {
    hide EncodeAll, Fed;
    bytes := [];
    assert events[0..] == events;
    for i := 0 to |events|
      invariant bytes + EncodeAll(Logged(f.selected, events[i..])) == EncodeAll(Logged(old(f.selected), events))
    {
      LoggedNext(f.selected, events, i);
      match events[i]
      case Write(db, cmd) =>
        EncodeAllConcat(Fed(f.selected, db, cmd), Logged(db, events[i + 1..]));
        var buf := f.Feed(db, cmd);
        bytes := bytes + buf;
      case Fork => f.StartRewrite();
    }
    NothingEncoded();
  }

  lemma LoggedNext(selected: int, events: seq<Event>, i: nat)
    requires i < |events|
    ensures Logged(selected, events[i..]) ==
            match events[i]
            case Write(db, cmd) => Fed(selected, db, cmd) + Logged(db, events[i + 1..])
            case Fork => Logged(-1, events[i + 1..])
  {
    assert events[i..][1..] == events[i + 1..];
  }

  lemma NothingEncoded()
    ensures EncodeAll([]) == [] && forall selected :: Logged(selected, []) == []
  {
  }

  /** Commands as the server feeds them: of representable size, in the command table, and no SELECT of a client. */
  predicate Plain(cmd: Command, known: seq<byte> -> bool) {
    Fits(cmd) && known(cmd[0]) && !IsSelect(cmd)
  }

  predicate PlainEvents(events: seq<Event>, known: seq<byte> -> bool) {
    known(SELECT) && forall i :: 0 <= i < |events| && events[i].Write? ==>
      Plain(events[i].cmd, known) && events[i].db <= LONG_MAX
  }

  lemma SelectIsPlain(db: nat)
    requires db <= LONG_MAX
    ensures Fits(SelectCommand(db))
  {
    LongLength(db);
    hide Digits;
  }

  lemma SelectIsNoBracket(db: nat)
    ensures !IsMulti(SelectCommand(db)) && !IsExec(SelectCommand(db))
  {
    hide Digits;
    assert SelectCommand(db)[0] == SELECT;
  }

  lemma {:induction false} LoggedIsLoadable(selected: int, events: seq<Event>, known: seq<byte> -> bool)
    requires PlainEvents(events, known)
    ensures Loadable(Logged(selected, events), known) && NoSelects(events)
    decreases |events|
  {
    hide IsSelect, Fits;
    if events != [] {
      assert PlainEvents(events[1..], known) by {
        assert forall i :: 0 <= i < |events[1..]| ==> events[1..][i] == events[i + 1];
      }
      match events[0]
      case Write(db, cmd) =>
        SelectIsPlain(db);
        LoggedIsLoadable(db, events[1..], known);
      case Fork => LoggedIsLoadable(-1, events[1..], known);
    }
  }

  // ---------------------------------------------------------------------------
  // Transactions
  // ---------------------------------------------------------------------------

  /** The commands of a history without their databases. */
  function Written(events: seq<Event>): seq<Command> {
    if events == [] then []
    else match events[0]
      case Write(_, cmd) => [cmd] + Written(events[1..])
      case Fork => Written(events[1..])
  }

  /** Commands with their databases, without the MULTI and EXEC around transactions. */
  function Outside(placed: seq<(nat, Command)>): seq<(nat, Command)> {
    if placed == [] then []
    else if IsMulti(placed[0].1) || IsExec(placed[0].1) then Outside(placed[1..])
    else [placed[0]] + Outside(placed[1..])
  }

  /** The SELECTs in between neither open nor close a transaction. */
  lemma {:induction false} LoggedBalanced(selected: int, events: seq<Event>, open: bool)
    ensures Balanced(open, Logged(selected, events)) == Balanced(open, Written(events))
    decreases |events|
  {
    hide IsMulti, IsExec, SelectCommand;
    if events != [] {
      match events[0]
      case Write(db, cmd) =>
        var rest := Logged(db, events[1..]);
        SelectIsNoBracket(db);
        assert ([cmd] + rest)[1..] == rest;
        assert ([SelectCommand(db)] + ([cmd] + rest))[1..] == [cmd] + rest;
        assert [SelectCommand(db), cmd] + rest == [SelectCommand(db)] + ([cmd] + rest);
        LoggedBalanced(db, events[1..], Opens(open, cmd));
      case Fork =>
        LoggedBalanced(-1, events[1..], open);
    }
  }

  lemma {:induction false} BalancedConcat(open: bool, a: seq<Command>, b: seq<Command>)
    requires Balanced(open, a)
    ensures Balanced(open, a + b) == Balanced(false, b)
    decreases |a|
  {
    hide IsMulti, IsExec;
    if a == [] {
      assert a + b == b;
    } else {
      assert (a + b)[1..] == a[1..] + b;
      BalancedConcat(Opens(open, a[0]), a[1..], b);
    }
  }

  /** MULTI and EXEC do not select a database, so every command stays in its own without them. */
  lemma {:induction false} PlacedFlat(db: nat, cmds: seq<Command>)
    ensures Placed(db, Flat(cmds)) == Outside(Placed(db, cmds))
    decreases |cmds|
  {
    if cmds != [] {
      SelectNames(cmds[0]);
      hide IsMulti, IsExec, IsSelect;
      PlacedFlat(if IsSelect(cmds[0]) then Selected(cmds[0]) else db, cmds[1..]);
    }
  }

  lemma SelectNames(cmd: Command)
    ensures IsSelect(cmd) ==> !IsMulti(cmd) && !IsExec(cmd)
  {
  }

  /** Loading the bytes of a rewritten file, a snapshot and what was fed since the fork, executes the snapshot and then
      every command fed, each in its own database, if and only if the history leaves no transaction open or nested.
      With an empty snapshot this is the file of a whole history. */
  lemma FileReplays(snapshot: seq<Command>, events: seq<Event>, known: seq<byte> -> bool)
    requires Loadable(snapshot, known) && Balanced(false, snapshot)
    requires PlainEvents(events, known) && snapshot + Logged(-1, events) != []
    ensures
      var file := EncodeAll(snapshot) + EncodeAll(Logged(-1, events));
      var all := Flat(snapshot + Logged(-1, events));
      && (Load(file, known, true) == Loaded(all, |file|) <==> Balanced(false, Written(events)))
      && Placed(0, all) == Outside(Placed(0, snapshot) + Commands(events))
  {
    hide EncodeAll, Load, IsSelect, Fits, Logged, Placed, PlainEvents, Balanced, Flat, Outside;
    var log := Logged(-1, events);
    LoggedIsLoadable(-1, events, known);
    EncodeAllConcat(snapshot, log);
    LoadInvertsPrint(snapshot + log, known);
    BalancedConcat(false, snapshot, log);
    LoggedBalanced(-1, events, false);
    PlacedFlat(0, snapshot + log);
    RewriteReplays(snapshot, events);
  }
}
