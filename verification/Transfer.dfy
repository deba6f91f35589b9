/** The replica's end of the connection: what it takes for the snapshot, and when that is enough. */
module Transfer {
  import opened Text
  import opened SortedSet
  import opened Keyspace
  import opened ShardOps
  import opened Server
  import opened Resp
  import opened StreamParser
  import opened Snapshot
  import opened FlatMachine
  import opened Replication

  // ---------- receiving ----------

  /** The master's answer to AUTH and to SYNC. */
  const OK_REPLY := "+OK\r\n"

  predicate EofAt(s: string, i: int) {
    0 <= i && i + 3 <= |s| && s[i..i + 3] == "EOF"
  }

  predicate HasEof(s: string) {
    exists i :: 0 <= i < |s| && EofAt(s, i)
  }

  function StripReplies(data: string): string {
    if OK_REPLY <= data then StripReplies(data[|OK_REPLY|..]) else data
  }

  /** The pieces that reach the parser: without replies in front, up to the first one with
      "EOF" in it. */
  function Yielded(pieces: seq<string>): seq<string> {
    if pieces == [] then []
    else
      var data := StripReplies(pieces[0]);
      if HasEof(data) then [data] else [data] + Yielded(pieces[1..])
  }

  method Strip(piece: string) returns (data: string)
    ensures data == StripReplies(piece)
  {
    data := piece;
    while OK_REPLY <= data
      invariant StripReplies(data) == StripReplies(piece)
      decreases |data|
    {
      data := data[|OK_REPLY|..];
    }
  }

  /** recvRDBData. */
  method RecvRdbData(pieces: seq<string>) returns (yielded: seq<string>)
    ensures yielded == Yielded(pieces)
  {
    hide StripReplies, HasEof;
    yielded := [];
    var i := 0;
    assert pieces[0..] == pieces;
    while i < |pieces|
      invariant 0 <= i <= |pieces| && Yielded(pieces) == yielded + Yielded(pieces[i..])
    {
      var data := Strip(pieces[i]);
      assert pieces[i..][1..] == pieces[i + 1..];
      yielded := yielded + [data];
      if HasEof(data) {
        return;
      }
      i := i + 1;
    }
  }

  /** The bytes that a load with this limit accepts. */
  function Arrived(limit: nat, pieces: seq<string>): string {
    var yielded := Yielded(pieces);
    Joined(yielded[..Accepted(limit, 0, "", yielded)])
  }

  function Replies(n: nat): (s: string)
    ensures |s| == n * |OK_REPLY|
  {
    if n == 0 then "" else OK_REPLY + Replies(n - 1)
  }

  lemma ReplyRead(rest: string)
    ensures Parse(OK_REPLY + rest) == Parsed(SimpleString("OK"), |OK_REPLY|)
  {
    var reply := SimpleString("OK");
    assert CrlfFree("OK") && Encode(reply) == OK_REPLY;
    ParseOfEncode(reply, rest);
  }

  lemma ReplyDecoded(rest: string)
    ensures DecodeAll(OK_REPLY + rest).values == [SimpleString("OK")] + DecodeAll(rest).values
  {
    ReplyRead(rest);
    hide Parse;
    assert (OK_REPLY + rest)[|OK_REPLY|..] == rest;
  }

  lemma NoCommand(v: RespValue, values: seq<RespValue>)
    requires !v.Array?
    ensures Replayed([v] + values) == Replayed(values)
  {
    assert ([v] + values)[1..] == values;
  }

  /** What the master sends: the commands of the snapshot, and from other coroutines its
      answers to AUTH and to SYNC, in front of a command or behind it. */
  datatype Item = Cmd(c: Command) | Reply

  function TextOf(item: Item): string {
    if item.Reply? then OK_REPLY else FormatCommand(item.c)
  }

  function StreamText(items: seq<Item>): string {
    if items == [] then "" else TextOf(items[0]) + StreamText(items[1..])
  }

  function CommandsOf(items: seq<Item>): seq<Command> {
    if items == [] then [] else (if items[0].Reply? then [] else [items[0].c]) + CommandsOf(items[1..])
  }

  /** How many commands lie completely within the first `size` bytes. */
  function CommandsWithin(items: seq<Item>, size: nat): (n: nat)
    ensures n <= |CommandsOf(items)|
  {
    if items == [] || |TextOf(items[0])| > size then 0
    else (if items[0].Reply? then 0 else 1) + CommandsWithin(items[1..], size - |TextOf(items[0])|)
  }

  lemma ReplyStuck(part: string)
    requires part < OK_REPLY
    ensures Parse(part).Incomplete?
  {
    ReplyRead("");
    assert OK_REPLY + "" == OK_REPLY && part + OK_REPLY[|part|..] == OK_REPLY;
    if Parse(part).Parsed? {
      ParseExtended(part, OK_REPLY[|part|..]);
    }
  }

  lemma ItemStuck(item: Item, part: string)
    requires part < TextOf(item) && (item.Cmd? ==> Sized(item.c) && Clean(item.c))
    ensures DecodeAll(part) == Decoded([], part)
  {
    if item.Reply? {
      ReplyStuck(part);
    } else {
      PartStuck(item.c, part);
    }
    StuckDecodes(part);
  }

  lemma ItemDecoded(item: Item, rest: string)
    requires item.Cmd? ==> Sized(item.c) && Clean(item.c) && item.c != []
    ensures Replayed(DecodeAll(TextOf(item) + rest).values)
         == (if item.Reply? then [] else [item.c]) + Replayed(DecodeAll(rest).values)
  {
    var values := DecodeAll(rest).values;
    if item.Reply? {
      ReplyDecoded(rest);
      NoCommand(SimpleString("OK"), values);
    } else {
      DecodeOne(item.c, rest);
      OneCommand(item.c, values);
    }
    hide Replayed, DecodeAll, FormatCommand;
  }

  lemma OneCommand(c: Command, values: seq<RespValue>)
    requires c != []
    ensures Replayed([Array(Bulks(c))] + values) == [c] + Replayed(values)
  {
    assert ([Array(Bulks(c))] + values)[1..] == values;
    assert ArgsOf(Array(Bulks(c))) == c;
  }

  /** Wherever such a stream breaks off, the complete commands are run, and nothing else. */
  lemma {:induction false} ItemsReplayed(items: seq<Item>, part: string)
    requires forall i :: 0 <= i < |items| && items[i].Cmd? ==> Sized(items[i].c) && Clean(items[i].c) && items[i].c != []
    requires part <= StreamText(items)
    ensures Replayed(DecodeAll(part).values) == CommandsOf(items)[..CommandsWithin(items, |part|)]
  {
    hide DecodeAll, Replayed, TextOf, Sized, Clean;
    if items == [] {
      NothingDecoded();
      NothingReplayed();
    } else {
      var text := TextOf(items[0]);
      if |text| > |part| {
        assert part == text[..|part|];
        ItemStuck(items[0], part);
        NothingReplayed();
      } else {
        var rest := part[|text|..];
        assert part == text + rest;
        ItemDecoded(items[0], rest);
        ItemsReplayed(items[1..], rest);
      }
    }
  }

  lemma NothingReplayed()
    ensures Replayed([]) == []
  {
  }

  lemma {:induction false} CommandAmong(items: seq<Item>, i: nat)
    requires i < |items| && items[i].Cmd?
    ensures items[i].c in CommandsOf(items)
  {
    if i > 0 {
      CommandAmong(items[1..], i - 1);
    }
  }

  /** What arrives decides: a first part of the commands, with replies among them. */
  lemma ArrivalDecides(cfg: Config, clock: int, hash: string -> nat, dbs: seq<seq<Shard>>, cmds: seq<Command>,
                       arrived: string, items: seq<Item>, grows: nat -> bool)
    requires DbsOk(hash, dbs) && Covers(cfg, clock, hash, dbs, DB_COUNT, cmds) && DataFits(clock, hash, dbs)
    ensures var matches := Ends(RunOutcome(cfg, Start(), Replayed(DecodeAll(arrived).values), grows, 0),
                                Sent(hash, dbs, DB_COUNT));
      && (matches ==> DataClean(hash, dbs))
      && (CommandsOf(items) == cmds && arrived <= StreamText(items) ==>
            (matches <==> DataClean(hash, dbs) && Needed(cmds) <= CommandsWithin(items, |arrived|)))
  {
    hide Covers, DbsOk, RunOutcome, DecodeAll, Replayed, Ends, DataClean, Sent, Start, DataFits,
         CommandsWithin, StreamText;
    if Ends(RunOutcome(cfg, Start(), Replayed(DecodeAll(arrived).values), grows, 0), Sent(hash, dbs, DB_COUNT)) {
      LoadedIsClean(cfg, hash, dbs, arrived, grows);
    }
    if DataClean(hash, dbs) && CommandsOf(items) == cmds && arrived <= StreamText(items) {
      CoversSized(cfg, clock, hash, dbs, cmds);
      forall i | 0 <= i < |items| && items[i].Cmd?
        ensures Sized(items[i].c) && Clean(items[i].c) && items[i].c != []
      {
        CommandAmong(items, i);
      }
      ItemsReplayed(items, arrived);
      FrontMatchesIff(cfg, clock, hash, dbs, cmds, CommandsWithin(items, |arrived|), grows);
    }
  }

  lemma FrontMatchesIff(cfg: Config, clock: int, hash: string -> nat, dbs: seq<seq<Shard>>, cmds: seq<Command>, n: nat,
                        grows: nat -> bool)
    requires DbsOk(hash, dbs) && Covers(cfg, clock, hash, dbs, DB_COUNT, cmds) && n <= |cmds|
    ensures Ends(RunOutcome(cfg, Start(), cmds[..n], grows, 0), Sent(hash, dbs, DB_COUNT))
       <==> Needed(cmds) <= n
  {
    hide WritableArgs, AllWritable, Grows, Sent, DbsOk, ApplyAll, RunOutcome, Start;
    SentDefined(cfg, Start(), cmds[..n], grows, 0);
    AllNeeded(cfg, Start(), cmds, n);
  }

  lemma CoversSized(cfg: Config, clock: int, hash: string -> nat, dbs: seq<seq<Shard>>, cmds: seq<Command>)
    requires DbsOk(hash, dbs) && Covers(cfg, clock, hash, dbs, DB_COUNT, cmds)
    requires DataFits(clock, hash, dbs) && DataClean(hash, dbs)
    ensures forall i :: 0 <= i < |cmds| ==> Sized(cmds[i]) && Clean(cmds[i]) && cmds[i] != []
  {
    hide WritableArgs, Sized, Clean, AllWritable, Grows, Sent, DbsOk, ApplyAll;
    CleanIsWritable(clock, hash, dbs);
    AllSized(cmds);
  }

  /** A first load of a new replica, from the snapshot to the data, over any network: it does
      whatever it likes with the stream. The replica never has the master's data if a text in
      that data contains a line end. If what arrives is a first part of the commands, with
      replies among them, it has that data exactly when no text contains a line end and the
      last command that writes data arrives completely. */
  method Replicate(cfg: Config, clock: int, ghost hash: string -> nat, dbs: seq<seq<Shard>>, replica: ServerData,
                   limit: nat, network: string -> seq<string>, grows: nat -> bool, ghost answered: seq<Command> -> seq<Item>)
    returns (cmds: seq<Command>, db: nat, defined: bool)
    requires DbsOk(hash, dbs) && AllScoresPrint(cfg.text, dbs) && DataFits(clock, hash, dbs)
    requires replica.Valid() && replica.Settings() == cfg && replica.Held() == Start().views
    modifies replica`dbs
    ensures Covers(cfg, clock, hash, dbs, DB_COUNT, cmds)
    ensures var arrived, items := Arrived(limit, network(FormatAll(cmds))), answered(cmds);
      var matches := defined && replica.Valid() && replica.Held() == Sent(hash, dbs, DB_COUNT);
      && (matches ==> DataClean(hash, dbs))
      && (CommandsOf(items) == cmds && arrived <= StreamText(items) ==>
            (matches <==> DataClean(hash, dbs) && Needed(cmds) <= CommandsWithin(items, |arrived|)))
  {
    hide RunOutcome, DecodeAll, Replayed, FormatAll, Covers, Parse, DataClean, DataFits, DbsOk, Sent, Start,
         AllScoresPrint, Views, Yielded, Joined, Accepted, StreamText, CommandsOf, CommandsWithin;
    cmds := GenerateRdb(cfg, clock, hash, dbs);
    var pieces := network(FormatAll(cmds));
    var received := RecvRdbData(pieces);
    var fed;
    db, fed, defined := LoadRdb(replica, limit, received, grows);
    ArrivalDecides(cfg, clock, hash, dbs, cmds, Arrived(limit, pieces), answered(cmds), grows);
  }

  // ---------- when nothing is taken for a reply ----------

  /** No piece begins like a reply. */
  ghost predicate NoLookalike(pieces: seq<string>) {
    forall i :: 0 <= i < |pieces| ==> !(OK_REPLY <= pieces[i])
  }

  /** Then the pieces up to the first one with "EOF" in it come through as they are. */
  lemma {:induction false} YieldedFront(pieces: seq<string>) returns (n: nat)
    requires NoLookalike(pieces)
    ensures n <= |pieces| && Yielded(pieces) == pieces[..n]
    ensures n < |pieces| ==> n > 0 && HasEof(pieces[n - 1])
  {
    hide HasEof;
    if pieces == [] {
      n := 0;
    } else if HasEof(pieces[0]) {
      n := 1;
      assert pieces[..1] == [pieces[0]];
    } else {
      var m := YieldedFront(pieces[1..]);
      n := m + 1;
      assert pieces[..n] == [pieces[0]] + pieces[1..][..m];
    }
  }

  lemma JoinedFront(pieces: seq<string>, n: nat, m: nat)
    requires n <= m <= |pieces|
    ensures Joined(pieces[..n]) <= Joined(pieces[..m])
    ensures Joined(pieces[..n]) <= Joined(pieces)
  {
    hide Joined;
    assert pieces[..m] == pieces[..n] + pieces[n..m] && pieces == pieces[..n] + pieces[n..];
    JoinedConcat(pieces[..n], pieces[n..m]);
    JoinedConcat(pieces[..n], pieces[n..]);
  }

  /** A first part of the stream arrives. */
  lemma ArrivesInOrder(limit: nat, pieces: seq<string>)
    requires NoLookalike(pieces)
    ensures Arrived(limit, pieces) <= Joined(Yielded(pieces)) <= Joined(pieces)
  {
    hide Joined, Yielded, Accepted;
    var n := YieldedFront(pieces);
    JoinedFront(pieces, n, n);
    JoinedFront(Yielded(pieces), Accepted(limit, 0, "", Yielded(pieces)), n);
  }

  /** Replies in front of a piece, or in pieces of their own, make no difference. */
  lemma {:induction false} RepliesStripped(n: nat, data: string)
    ensures StripReplies(Replies(n) + data) == StripReplies(data)
  {
    if n == 0 {
      assert Replies(n) + data == data;
    } else {
      RepliesStripped(n - 1, data);
      assert Replies(n) + data == OK_REPLY + (Replies(n - 1) + data);
      assert (OK_REPLY + (Replies(n - 1) + data))[|OK_REPLY|..] == Replies(n - 1) + data;
    }
  }

  lemma RepliesInFront(limit: nat, n: nat, pieces: seq<string>)
    requires pieces != []
    ensures Arrived(limit, [Replies(n) + pieces[0]] + pieces[1..]) == Arrived(limit, pieces)
  {
    hide StripReplies, HasEof, Joined, Accepted, Replies;
    RepliesStripped(n, pieces[0]);
    assert ([Replies(n) + pieces[0]] + pieces[1..])[1..] == pieces[1..];
  }

  lemma RepliesAlone(limit: nat, n: nat, pieces: seq<string>)
    ensures Arrived(limit, [Replies(n)] + pieces) == Arrived(limit, pieces)
  {
    hide StripReplies, Replies;
    RepliesStripped(n, "");
    assert Replies(n) + "" == Replies(n);
    assert StripReplies("") == "" by { NothingToStrip(); }
    assert !HasEof("");
    var y, all := Yielded(pieces), Yielded([Replies(n)] + pieces);
    assert ([Replies(n)] + pieces)[1..] == pieces;
    assert all == [""] + y;
    hide Yielded;
    NothingFed();
    var m := Accepted(limit, 0, "", y);
    assert all[1..] == y && "" + "" == "";
    assert Accepted(limit, 0, "", all) == m + 1;
    assert all[..m + 1] == [""] + y[..m];
    JoinedConcat([""], y[..m]);
    assert Joined([""]) == "";
  }

  lemma NothingToStrip()
    ensures StripReplies("") == ""
  {
  }

  lemma NothingFed()
    ensures Kept(0, "") == 0 && DecodeAll("").rest == ""
  {
  }

  // ---------- "EOF" inside the data ----------

  lemma EofStays(a: string, s: string, b: string)
    requires HasEof(s)
    ensures HasEof(a + s + b)
  {
    var i :| 0 <= i < |s| && EofAt(s, i);
    assert (a + s + b)[|a| + i..|a| + i + 3] == s[i..i + 3];
    assert EofAt(a + s + b, |a| + i);
  }

  /** What is in a prefix is in the whole. */
  lemma EofInPrefix(part: string, whole: string)
    requires HasEof(part) && part <= whole
    ensures HasEof(whole)
  {
    EofStays("", part, whole[|part|..]);
    assert "" + part + whole[|part|..] == whole;
    hide HasEof;
  }

  predicate Apart(a: string, b: string) {
    || a == "" || b == ""
    || (a[|a| - 1] != 'E' && a[|a| - 1] != 'O')
    || (b[0] != 'O' && b[0] != 'F')
  }

  lemma EofInEither(a: string, b: string)
    requires Apart(a, b) && HasEof(a + b)
    ensures HasEof(a) || HasEof(b)
  {
    var s := a + b;
    var i :| 0 <= i < |s| && EofAt(s, i);
    assert s[i..i + 3][0] == s[i] && s[i..i + 3][1] == s[i + 1] && s[i..i + 3][2] == s[i + 2];
    assert forall k :: 0 <= k < |a| ==> s[k] == a[k];
    assert forall k :: |a| <= k < |s| ==> s[k] == b[k - |a|];
    if i + 3 <= |a| {
      assert s[i..i + 3] == a[i..i + 3];
      assert EofAt(a, i);
    } else if i >= |a| {
      assert s[i..i + 3] == b[i - |a|..i - |a| + 3];
      assert EofAt(b, i - |a|);
    }
  }

  predicate NoLetters(s: string) {
    forall i :: 0 <= i < |s| ==> s[i] != 'E'
  }

  lemma NoLettersNoEof(s: string)
    requires NoLetters(s)
    ensures !HasEof(s)
  {
    forall i | 0 <= i < |s|
      ensures !EofAt(s, i)
    {
      if i + 3 <= |s| {
        assert s[i..i + 3][0] == s[i];
      }
    }
  }

  /** The line that announces a length or a count. */
  function Line(kind: char, n: nat): string {
    [kind] + FromInt(n) + CRLF
  }

  lemma LineNoEof(kind: char, n: nat)
    requires kind != 'E'
    ensures !HasEof(Line(kind, n)) && |Line(kind, n)| > 2 && Line(kind, n)[|Line(kind, n)| - 1] == '\n'
  {
    var line := Line(kind, n);
    assert line == [kind] + FromInt(n) + CRLF;
    hide FromInt;
    forall i | 0 <= i < |line|
      ensures line[i] != 'E'
    {
      if 1 <= i < 1 + |FromInt(n)| {
        assert line[i] == FromInt(n)[i - 1];
      }
    }
    NoLettersNoEof(line);
  }

  ghost predicate EofInArgs(args: Command) {
    exists i :: 0 <= i < |args| && HasEof(args[i])
  }

  lemma Regrouped(a: string, b: string, c: string, d: string)
    ensures a + b + c + d == a + (b + (c + d))
  {
  }

  lemma FormatArgsLine(args: Command)
    requires args != []
    ensures FormatArgs(args) == Line('$', |args[0]|) + (args[0] + (CRLF + FormatArgs(args[1..])))
  {
    hide FromInt;
    Regrouped("$" + FromInt(|args[0]|) + CRLF, args[0], CRLF, FormatArgs(args[1..]));
  }

  lemma {:induction false} EofFromArgs(args: Command)
    requires HasEof(FormatArgs(args))
    ensures EofInArgs(args)
  {
    hide HasEof, Line;
    if args == [] {
      NoLettersNoEof("");
    } else {
      var line, rest := Line('$', |args[0]|), FormatArgs(args[1..]);
      FormatArgsLine(args);
      LineNoEof('$', |args[0]|);
      EofInEither(line, args[0] + (CRLF + rest));
      EofInEither(args[0], CRLF + rest);
      if !HasEof(args[0]) {
        EofInEither(CRLF, rest);
        NoLettersNoEof(CRLF);
        EofFromArgs(args[1..]);
        var i :| 0 <= i < |args[1..]| && HasEof(args[1..][i]);
        assert args[1..][i] == args[i + 1];
      }
    }
  }

  lemma FormatCommandLine(args: Command)
    ensures FormatCommand(args) == Line('*', |args|) + FormatArgs(args)
  {
  }

  lemma {:induction false} FormatArgsEnd(args: Command)
    ensures args != [] ==> |FormatArgs(args)| > 2 && FormatArgs(args)[|FormatArgs(args)| - 1] == '\n'
  {
    if |args| > 1 {
      FormatArgsEnd(args[1..]);
    }
  }

  lemma EofFromCommand(args: Command)
    requires HasEof(FormatCommand(args))
    ensures EofInArgs(args)
  {
    hide HasEof, Line;
    FormatCommandLine(args);
    LineNoEof('*', |args|);
    EofInEither(Line('*', |args|), FormatArgs(args));
    EofFromArgs(args);
  }

  lemma CommandEnd(args: Command)
    ensures |FormatCommand(args)| > 2 && FormatCommand(args)[0] == '*'
    ensures FormatCommand(args)[|FormatCommand(args)| - 1] == '\n'
  {
    FormatArgsEnd(args);
    hide FromInt;
  }

  /** "EOF" in the text of commands comes from one of their arguments. */
  lemma {:induction false} EofFromCommands(cmds: seq<Command>)
    requires HasEof(FormatAll(cmds))
    ensures exists j :: 0 <= j < |cmds| && EofInArgs(cmds[j])
  {
    hide HasEof, EofInArgs, FormatCommand;
    if cmds == [] {
      NoLettersNoEof("");
    } else {
      CommandEnd(cmds[0]);
      EofInEither(FormatCommand(cmds[0]), FormatAll(cmds[1..]));
      if HasEof(FormatCommand(cmds[0])) {
        EofFromCommand(cmds[0]);
      } else {
        EofFromCommands(cmds[1..]);
        var j :| 0 <= j < |cmds[1..]| && EofInArgs(cmds[1..][j]);
        assert cmds[1..][j] == cmds[j + 1];
      }
    }
  }

  /** And the other way round, it is there before the last byte of the command. */
  lemma {:induction false} EofBeforeEnd(args: Command)
    requires EofInArgs(args)
    ensures |FormatArgs(args)| > 2 && HasEof(FormatArgs(args)[..|FormatArgs(args)| - 1])
  {
    hide HasEof, Line, FormatArgs;
    var line, rest := Line('$', |args[0]|), FormatArgs(args[1..]);
    FormatArgsLine(args);
    LineNoEof('$', |args[0]|);
    var whole := FormatArgs(args);
    var i :| 0 <= i < |args| && HasEof(args[i]);
    if i == 0 {
      EofStays(line, args[0], (CRLF + rest)[..|CRLF + rest| - 1]);
      assert line + args[0] + (CRLF + rest)[..|CRLF + rest| - 1] == whole[..|whole| - 1];
    } else {
      assert args[1..][i - 1] == args[i];
      EofBeforeEnd(args[1..]);
      var front := line + args[0] + CRLF;
      EofStays(front, rest[..|rest| - 1], "");
      assert front + rest[..|rest| - 1] + "" == whole[..|whole| - 1];
    }
  }

  lemma EofInCommand(args: Command)
    requires EofInArgs(args)
    ensures HasEof(FormatCommand(args)[..|FormatCommand(args)| - 1])
  {
    hide HasEof, Line, EofInArgs, FormatArgs;
    EofBeforeEnd(args);
    FormatCommandLine(args);
    var line, body := Line('*', |args|), FormatArgs(args);
    EofStays(line, body[..|body| - 1], "");
    assert line + body[..|body| - 1] + "" == (line + body)[..|line + body| - 1];
  }

  /** Some command that is needed, or comes before one that is, has an argument with "EOF". */
  ghost predicate EofInside(cmds: seq<Command>) {
    exists j :: 0 <= j < Needed(cmds) && EofInArgs(cmds[j])
  }

  /** The stream as it can come out of the socket, at most 8191 bytes at a time, nothing in it
      being taken for a reply. */
  ghost predicate Received(cmds: seq<Command>, pieces: seq<string>) {
    && Joined(pieces) == FormatAll(cmds) && NoLookalike(pieces)
    && forall i :: 0 <= i < |pieces| ==> 0 < |pieces[i]| <= 8191
  }

  /** The transfer ends before all the data has come. */
  ghost predicate CutShort(cmds: seq<Command>, pieces: seq<string>) {
    Received(cmds, pieces) && |Joined(Yielded(pieces))| < DataLength(cmds)
  }

  lemma EofNeeded(cmds: seq<Command>, pieces: seq<string>)
    requires CutShort(cmds, pieces)
    ensures EofInside(cmds)
  {
    hide HasEof, EofInArgs, FormatCommand, Yielded, Joined, FormatAll;
    var n := YieldedFront(pieces);
    JoinedFront(pieces, n, n);
    var data := FormatAll(cmds[..Needed(cmds)]);
    FormatAllSplit(cmds, Needed(cmds));
    assert pieces[..|pieces|] == pieces;
    assert pieces[..n] == pieces[..n - 1] + [pieces[n - 1]];
    JoinedSnoc(pieces[..n - 1], pieces[n - 1]);
    var before, last := Joined(pieces[..n - 1]), pieces[n - 1];
    EofStays(before, last, "");
    assert before + last + "" == Joined(pieces[..n]);
    assert Joined(pieces[..n]) <= data;
    EofInPrefix(Joined(pieces[..n]), data);
    EofFromCommands(cmds[..Needed(cmds)]);
    var j :| 0 <= j < Needed(cmds) && EofInArgs(cmds[..Needed(cmds)][j]);
    assert cmds[..Needed(cmds)][j] == cmds[j];
  }

  function Bytes(s: string): seq<string> {
    seq(|s|, i requires 0 <= i < |s| => [s[i]])
  }

  lemma {:induction false} BytesThrough(s: string, rest: seq<string>)
    ensures Yielded(Bytes(s) + rest) == Bytes(s) + Yielded(rest)
    ensures Joined(Bytes(s) + rest) == s + Joined(rest)
  {
    hide StripReplies, HasEof, Yielded, Joined;
    if s == "" {
      assert Bytes(s) + rest == rest;
    } else {
      BytesThrough(s[1..], rest);
      assert Bytes(s) == [[s[0]]] + Bytes(s[1..]);
      hide Bytes;
      ByteFirst(s[0], Bytes(s[1..]) + rest);
      assert [[s[0]]] + Bytes(s[1..]) + rest == [[s[0]]] + (Bytes(s[1..]) + rest);
    }
  }

  lemma ByteFirst(c: char, rest: seq<string>)
    ensures Yielded([[c]] + rest) == [[c]] + Yielded(rest)
    ensures Joined([[c]] + rest) == [c] + Joined(rest)
  {
    ShortStays([c]);
    assert !HasEof([c]);
    hide StripReplies, HasEof;
    assert ([[c]] + rest)[1..] == rest;
  }

  lemma ShortStays(data: string)
    requires |data| < |OK_REPLY|
    ensures StripReplies(data) == data
  {
  }

  /** Byte by byte, but for the three letters. */
  lemma EofCuts(cmds: seq<Command>, j: nat) returns (pieces: seq<string>)
    requires j < Needed(cmds) && EofInArgs(cmds[j])
    ensures CutShort(cmds, pieces)
  {
    hide EofInArgs, FormatCommand, FormatAll, Joined, Yielded, StripReplies;
    var text, end := FormatAll(cmds), |FormatAll(cmds[..j + 1])|;
    EofBeforeEndOf(cmds, j);
    var i :| 0 <= i < end - 1 && EofAt(text[..end - 1], i);
    var before, after := text[..i], text[i + 3..];
    assert text[i..i + 3] == text[..end - 1][i..i + 3];
    assert text == before + ("EOF" + after);
    pieces := Bytes(before) + (["EOF"] + Bytes(after));
    BytesThrough(before, ["EOF"] + Bytes(after));
    BytesThrough(after, []);
    assert Bytes(after) + [] == Bytes(after) && after + "" == after;
    EofFirst(Bytes(after));
    BytesThrough(before, ["EOF"]);
    FormatAllLonger(cmds, j + 1, Needed(cmds));
  }

  lemma EofFirst(rest: seq<string>)
    ensures Yielded(["EOF"] + rest) == ["EOF"]
    ensures Joined(["EOF"] + rest) == "EOF" + Joined(rest) && Joined(["EOF"]) == "EOF" && Joined([]) == ""
  {
    ShortStays("EOF");
    assert EofAt("EOF", 0);
    assert (["EOF"] + rest)[1..] == rest;
    JoinedOne("EOF");
    hide StripReplies;
  }

  lemma EofBeforeEndOf(cmds: seq<Command>, j: nat)
    requires j < |cmds| && EofInArgs(cmds[j])
    ensures 0 < |FormatAll(cmds[..j + 1])| <= |FormatAll(cmds)|
    ensures HasEof(FormatAll(cmds)[..|FormatAll(cmds[..j + 1])| - 1])
  {
    hide HasEof, EofInArgs, FormatCommand, FormatAll;
    CommandEnds(cmds, j);
    EofInCommand(cmds[j]);
    var before, last := FormatAll(cmds[..j]), FormatCommand(cmds[j]);
    EofStays(before, last[..|last| - 1], "");
    assert before + last[..|last| - 1] + "" == FormatAll(cmds)[..|before + last| - 1];
  }

  lemma JoinedOne(a: string)
    ensures Joined([a]) == a
  {
    assert [a][1..] == [];
    assert Joined([a]) == a + Joined([]);
  }

  lemma FormatAllLonger(cmds: seq<Command>, n: nat, m: nat)
    requires n <= m <= |cmds|
    ensures |FormatAll(cmds[..n])| <= |FormatAll(cmds[..m])|
  {
    hide FormatAll;
    assert cmds[..m] == cmds[..n] + cmds[n..m];
    FormatAllConcat(cmds[..n], cmds[n..m]);
  }

  lemma FormatAllOne(c: Command)
    ensures FormatAll([c]) == FormatCommand(c)
  {
    hide FormatCommand;
    assert FormatAll([c]) == FormatCommand(c) + FormatAll([]);
  }

  /** Where command j lies in the stream. */
  lemma CommandEnds(cmds: seq<Command>, j: nat)
    requires j < |cmds|
    ensures FormatAll(cmds[..j + 1]) == FormatAll(cmds[..j]) + FormatCommand(cmds[j])
    ensures FormatAll(cmds) == FormatAll(cmds[..j + 1]) + FormatAll(cmds[j + 1..])
    ensures |FormatCommand(cmds[j])| > 2
  {
    hide FormatCommand, FormatAll;
    CommandEnd(cmds[j]);
    assert cmds[..j + 1] == cmds[..j] + [cmds[j]];
    FormatAllOne(cmds[j]);
    FormatAllConcat(cmds[..j], [cmds[j]]);
    FormatAllSplit(cmds, j + 1);
  }

  /** The stream can be cut so that the transfer ends too early exactly when an argument of a
      command up to the last one that writes data has "EOF" in it. */
  lemma EofCutsShortIff(cmds: seq<Command>)
    ensures (exists pieces :: CutShort(cmds, pieces)) <==> EofInside(cmds)
  {
    hide CutShort, EofInArgs;
    if pieces :| CutShort(cmds, pieces) {
      EofNeeded(cmds, pieces);
    }
    if EofInside(cmds) {
      var j :| 0 <= j < Needed(cmds) && EofInArgs(cmds[j]);
      var pieces := EofCuts(cmds, j);
    }
  }

  predicate NoEof(t: string) {
    !HasEof(t)
  }

  lemma NoneInArgs(args: Command)
    requires !EofInArgs(args)
    ensures ArgTexts(args, NoEof)
  {
    hide HasEof;
  }

  lemma NothingHeld(p: string -> bool)
    ensures StateTexts(Start(), p)
  {
  }

  /** It has whenever some name, field, value or member of the data has. */
  lemma EofInData(cfg: Config, clock: int, hash: string -> nat, dbs: seq<seq<Shard>>, cmds: seq<Command>, d: nat)
    requires DbsOk(hash, dbs) && Covers(cfg, clock, hash, dbs, DB_COUNT, cmds) && d < DB_COUNT
    requires !ViewTexts(Sent(hash, dbs, DB_COUNT)[d], NoEof)
    ensures EofInside(cmds)
  {
    hide DbsOk, Sent, Start, ApplyAll, Grows, Sendable, ViewTexts, EofInArgs, NoEof;
    if !EofInside(cmds) {
      var needed := cmds[..Needed(cmds)];
      forall j | 0 <= j < |needed|
        ensures ArgTexts(needed[j], NoEof)
      {
        NoneInArgs(cmds[j]);
      }
      NothingHeld(NoEof);
      RunTexts(cfg, Start(), needed, NoEof);
      AllNeeded(cfg, Start(), cmds, Needed(cmds));
    }
  }

  // ---------- the limit of the parser ----------

  /** With room for a command, a piece and what has been consumed, all that the transfer
      brings is accepted. */
  lemma AllAccepted(limit: nat, longest: nat, cmds: seq<Command>, pieces: seq<string>)
    requires Received(cmds, pieces) && 65536 + 8191 + longest <= limit
    requires forall i :: 0 <= i < |cmds| ==> Sized(cmds[i]) && Clean(cmds[i]) && |FormatCommand(cmds[i])| <= longest
    ensures Arrived(limit, pieces) == Joined(Yielded(pieces))
  {
    hide Sized, Clean, FormatCommand, FormatAll, Joined, Accepted, Yielded;
    var n := YieldedFront(pieces);
    var yielded := Yielded(pieces);
    JoinedFront(pieces, n, n);
    assert "" + Joined(yielded) == Joined(yielded);
    NothingRefused(limit, longest, 0, "", cmds, yielded);
    assert yielded[..|yielded|] == yielded;
  }

  lemma ShortPart(cmds: seq<Command>, data: string, j: nat)
    requires forall i :: 0 <= i < |cmds| ==> Sized(cmds[i]) && Clean(cmds[i])
    requires j < |cmds| && data <= FormatAll(cmds) && |data| < |FormatCommand(cmds[j])|
    ensures var n, rest := Complete(cmds, |data|), DecodeAll(data).rest;
      && n <= j && data == FormatAll(cmds[..n]) + rest && rest <= FormatAll(cmds[n..])
      && |rest| < |FormatAll(cmds[n..][..j - n + 1])|
      && |FormatAll(cmds[..j + 1])| == |FormatAll(cmds[..n])| + |FormatAll(cmds[n..][..j - n + 1])|
  {
    hide Sized, Clean, FormatCommand, FormatAll, DecodeAll, Complete;
    PartDecodes(cmds, data);
    var n, rest := Complete(cmds, |data|), DecodeAll(data).rest;
    CommandEnds(cmds, j);
    CompleteIff(cmds, |data|, j + 1);
    CommandEnds(cmds, n);
    assert cmds[..j + 1] == cmds[..n] + cmds[n..][..j - n + 1];
    FormatAllConcat(cmds[..n], cmds[n..][..j - n + 1]);
    FormatAllLonger(cmds, n + 1, j + 1);
  }

  lemma {:induction false} NeverComplete(limit: nat, kept: nat, pending: string, cmds: seq<Command>, chunks: seq<string>, j: nat)
    requires forall i :: 0 <= i < |cmds| ==> Sized(cmds[i]) && Clean(cmds[i])
    requires j < |cmds| && limit < |FormatCommand(cmds[j])| && |pending| < |FormatAll(cmds[..j + 1])|
    requires pending + Joined(chunks) <= FormatAll(cmds)
    ensures |pending| + |Joined(chunks[..Accepted(limit, kept, pending, chunks)])| < |FormatAll(cmds[..j + 1])|
    decreases |chunks|
  {
    hide Sized, Clean, FormatCommand, FormatAll, DecodeAll, Kept, Complete;
    var m := Accepted(limit, kept, pending, chunks);
    if m > 0 {
      var data := pending + chunks[0];
      assert data + Joined(chunks[1..]) == pending + Joined(chunks);
      PrefixOfPrefix(data, Joined(chunks[1..]), FormatAll(cmds));
      ShortPart(cmds, data, j);
      var n, rest := Complete(cmds, |data|), DecodeAll(data).rest;
      FormatAllSplit(cmds, n);
      CutFront(FormatAll(cmds[..n]), rest, Joined(chunks[1..]), FormatAll(cmds[n..]));
      assert cmds[n..][j - n] == cmds[j];
      NeverComplete(limit, Kept(kept, data), rest, cmds[n..], chunks[1..], j - n);
      assert chunks[..m] == [chunks[0]] + chunks[1..][..m - 1];
      assert chunks[..m][1..] == chunks[1..][..m - 1];
    }
  }

  /** A command that is longer than the limit never arrives, however the stream is cut. */
  lemma TooLongNeverArrives(limit: nat, cmds: seq<Command>, pieces: seq<string>, j: nat)
    requires forall i :: 0 <= i < |cmds| ==> Sized(cmds[i]) && Clean(cmds[i])
    requires Joined(pieces) <= FormatAll(cmds) && NoLookalike(pieces)
    requires j < Needed(cmds) && limit < |FormatCommand(cmds[j])|
    ensures Arrived(limit, pieces) <= FormatAll(cmds) && |Arrived(limit, pieces)| < DataLength(cmds)
  {
    hide Sized, Clean, FormatCommand, FormatAll, Joined, Accepted, Yielded;
    ArrivesInOrder(limit, pieces);
    var n := YieldedFront(pieces);
    JoinedFront(pieces, n, n);
    CommandEnds(cmds, j);
    assert "" + Joined(Yielded(pieces)) == Joined(Yielded(pieces));
    NeverComplete(limit, 0, "", cmds, Yielded(pieces), j);
    FormatAllLonger(cmds, j + 1, Needed(cmds));
  }

  // ---------- data that looks like a reply ----------

  predicate OkAt(s: string, i: int) {
    0 <= i && i + |OK_REPLY| <= |s| && s[i..i + |OK_REPLY|] == OK_REPLY
  }

  ghost predicate HasOk(s: string) {
    exists i :: OkAt(s, i)
  }

  predicate EndsOk(t: string) {
    |t| >= 3 && t[|t| - 3..] == "+OK"
  }

  ghost predicate OkAtEndOf(args: Command) {
    exists i :: 0 <= i < |args| && EndsOk(args[i])
  }

  lemma OkChars(s: string, i: int)
    requires OkAt(s, i)
    ensures s[i] == '+' && s[i + 1] == 'O' && s[i + 2] == 'K' && s[i + 3] == '\r' && s[i + 4] == '\n'
  {
    var t := s[i..i + |OK_REPLY|];
    assert t[0] == s[i] && t[1] == s[i + 1] && t[2] == s[i + 2] && t[3] == s[i + 3] && t[4] == s[i + 4];
  }

  /** What follows a line end is not part of a reply that begins before it. */
  lemma OkInEither(a: string, b: string)
    requires HasOk(a + b) && (a == "" || a[|a| - 1] == '\n')
    ensures HasOk(a) || HasOk(b)
  {
    var s := a + b;
    var i :| OkAt(s, i);
    OkChars(s, i);
    assert a != "" ==> s[|a| - 1] == '\n';
    if i + |OK_REPLY| <= |a| {
      assert s[i..i + |OK_REPLY|] == a[i..i + |OK_REPLY|];
      assert OkAt(a, i);
    } else if i >= |a| {
      assert s[i..i + |OK_REPLY|] == b[i - |a|..i - |a| + |OK_REPLY|];
      assert OkAt(b, i - |a|);
    }
  }

  lemma NoPlusNoOk(s: string)
    requires forall i :: 0 <= i < |s| ==> s[i] != '+'
    ensures !HasOk(s)
  {
    forall i
      ensures !OkAt(s, i)
    {
      if OkAt(s, i) {
        OkChars(s, i);
      }
    }
  }

  lemma LineNoOk(kind: char, n: nat)
    requires kind != '+'
    ensures !HasOk(Line(kind, n)) && |Line(kind, n)| > 2 && Line(kind, n)[|Line(kind, n)| - 1] == '\n'
  {
    var line := Line(kind, n);
    assert line == [kind] + FromInt(n) + CRLF;
    hide FromInt;
    forall i | 0 <= i < |line|
      ensures line[i] != '+'
    {
      if 1 <= i < 1 + |FromInt(n)| {
        assert line[i] == FromInt(n)[i - 1];
      }
    }
    NoPlusNoOk(line);
  }

  lemma OkAfterText(t: string, rest: string)
    requires CrlfFree(t) && HasOk(t + (CRLF + rest))
    ensures EndsOk(t) || HasOk(rest)
  {
    var s := t + (CRLF + rest);
    var i :| OkAt(s, i);
    OkChars(s, i);
    assert s[|t|] == '\r' && s[|t| + 1] == '\n';
    assert forall k :: 0 <= k < |t| ==> s[k] == t[k];
    assert !CrlfAt(t, i + 3);
    if i >= |t| {
      assert s[i..i + |OK_REPLY|] == rest[i - |t| - 2..i - |t| + 3];
      assert OkAt(rest, i - |t| - 2);
    } else if i + 3 == |t| {
      assert t[|t| - 3..] == "+OK";
    }
  }

  lemma {:induction false} OkFromArgs(args: Command)
    requires Clean(args) && HasOk(FormatArgs(args))
    ensures OkAtEndOf(args)
  {
    hide HasOk, EndsOk, Line, CrlfFree;
    if args == [] {
      NoPlusNoOk("");
    } else {
      var line, rest := Line('$', |args[0]|), FormatArgs(args[1..]);
      FormatArgsLine(args);
      LineNoOk('$', |args[0]|);
      OkInEither(line, args[0] + (CRLF + rest));
      OkAfterText(args[0], rest);
      if !EndsOk(args[0]) {
        OkFromArgs(args[1..]);
        var i :| 0 <= i < |args[1..]| && EndsOk(args[1..][i]);
        assert args[1..][i] == args[i + 1];
      }
    }
  }

  lemma {:induction false} OkFromCommands(cmds: seq<Command>)
    requires HasOk(FormatAll(cmds)) && forall j :: 0 <= j < |cmds| ==> Clean(cmds[j])
    ensures exists j :: 0 <= j < |cmds| && OkAtEndOf(cmds[j])
  {
    hide HasOk, OkAtEndOf, FormatCommand, FormatArgs, Line, Clean;
    if cmds == [] {
      NoPlusNoOk("");
    } else {
      CommandEnd(cmds[0]);
      OkInEither(FormatCommand(cmds[0]), FormatAll(cmds[1..]));
      if HasOk(FormatCommand(cmds[0])) {
        FormatCommandLine(cmds[0]);
        LineNoOk('*', |cmds[0]|);
        OkInEither(Line('*', |cmds[0]|), FormatArgs(cmds[0]));
        OkFromArgs(cmds[0]);
      } else {
        OkFromCommands(cmds[1..]);
        var j :| 0 <= j < |cmds[1..]| && OkAtEndOf(cmds[1..][j]);
        assert cmds[1..][j] == cmds[j + 1];
      }
    }
  }

  /** A piece can begin like a reply only where an argument ends in "+OK". */
  lemma LookalikeNeedsOk(cmds: seq<Command>, pieces: seq<string>)
    requires Joined(pieces) == FormatAll(cmds) && forall j :: 0 <= j < |cmds| ==> Clean(cmds[j]) && !OkAtEndOf(cmds[j])
    ensures NoLookalike(pieces)
  {
    hide Clean, OkAtEndOf, Joined, FormatAll;
    forall i | 0 <= i < |pieces|
      ensures !(OK_REPLY <= pieces[i])
    {
      if OK_REPLY <= pieces[i] {
        PieceInside(pieces, i);
        var before := Joined(pieces[..i]);
        assert Joined(pieces)[|before|..|before| + |OK_REPLY|] == OK_REPLY;
        assert OkAt(Joined(pieces), |before|);
        OkFromCommands(cmds);
      }
    }
  }

  lemma PieceInside(pieces: seq<string>, i: nat)
    requires i < |pieces|
    ensures Joined(pieces) == Joined(pieces[..i]) + pieces[i] + Joined(pieces[i + 1..])
  {
    hide Joined;
    var front, back := pieces[..i], pieces[i + 1..];
    JoinedSnoc(front, pieces[i]);
    JoinedConcat(front + [pieces[i]], back);
    assert front + [pieces[i]] + back == pieces;
  }

  /** FormatArgs of arguments of which the last one is t + "+OK", up to those three letters. */
  function WithoutOk(args: Command, t: string): string
    requires args != []
  {
    Line('$', |args[0]|) + (if |args| == 1 then t else args[0] + (CRLF + WithoutOk(args[1..], t)))
  }

  lemma {:induction false} OkAtEnd(args: Command, t: string)
    requires args != [] && args[|args| - 1] == t + "+OK"
    ensures FormatArgs(args) == WithoutOk(args, t) + OK_REPLY
  {
    hide Line;
    FormatArgsLine(args);
    if |args| == 1 {
      assert Line('$', |args[0]|) + (t + "+OK" + (CRLF + "")) == Line('$', |args[0]|) + t + OK_REPLY;
    } else {
      OkAtEnd(args[1..], t);
      var line, rest := Line('$', |args[0]|), WithoutOk(args[1..], t);
      assert line + (args[0] + (CRLF + (rest + OK_REPLY))) == line + (args[0] + (CRLF + rest)) + OK_REPLY;
    }
  }

  /** The bytes up to the next line end are one too few for the length announced. */
  lemma TailStuck(t: string, next: string, count: nat)
    requires |t| + 3 <= INT64_MAX && count < 10
    ensures Parse(Line('$', |t| + 3) + t + (Line('*', count) + next)).Incomplete?
  {
    hide Parse, HeaderLine, ParseInt, FromInt, Line;
    var line, head := Line('$', |t| + 3), Line('*', count);
    var data := line + t + (head + next);
    CountLine(count);
    InnerLineEnd(line + t, head, next, 2);
    assert line + t + head + next == data;
    LengthLine(|t| + 3, t + (head + next));
    assert line + (t + (head + next)) == data;
    EarlyLineEnd(data, FromInt(|t| + 3), |line|, t + "+OK", |t| + 2);
  }

  lemma CountLine(count: nat)
    requires count < 10
    ensures CrlfAt(Line('*', count), 2)
  {
    Digit(count);
  }

  lemma LengthLine(n: nat, tail: string)
    requires n <= INT64_MAX
    ensures var data := Line('$', n) + tail;
      && data != [] && data[0] == '$' && HeaderLine(data) == Parsed(FromInt(n), |Line('$', n)|) && Stoll(FromInt(n)) == Some(n)
  {
    hide HeaderLine, ParseInt, FromInt;
    assert Line('$', n) + tail == ['$'] + FromInt(n) + CRLF + tail;
    NumberLine('$', n, tail);
  }

  lemma {:induction false} ArgsTailStuck(args: Command, t: string, next: string, count: nat)
    requires Sized(args) && Clean(args) && args != [] && args[|args| - 1] == t + "+OK" && count < 10
    ensures ParseElements(WithoutOk(args, t) + (Line('*', count) + next), |args|).Incomplete?
  {
    hide Parse, Line, Encode;
    var rest := Line('*', count) + next;
    if |args| == 1 {
      TailStuck(t, next, count);
      assert |args[0]| == |t| + 3;
    } else {
      var more := WithoutOk(args[1..], t) + rest;
      ParseOfBulk(args[0], more);
      ArgsTailStuck(args[1..], t, next, count);
      BulkLine(args[0]);
      var first := Encode(BulkString(args[0]));
      assert WithoutOk(args, t) + rest == first + more;
      ElementsHead(first, more, args[0], |args|);
    }
  }

  lemma BulkLine(t: string)
    ensures Encode(BulkString(t)) == Line('$', |t|) + (t + CRLF)
  {
    hide FromInt;
  }

  /** A command that has lost those letters and the line end after them is never read. */
  lemma OkLostStuck(args: Command, t: string, next: string, count: nat)
    requires Sized(args) && Clean(args) && args != [] && args[|args| - 1] == t + "+OK" && count < 10
    ensures Parse(Line('*', |args|) + WithoutOk(args, t) + (Line('*', count) + next)).Incomplete?
  {
    hide FormatArgs, ParseElements, FromInt, WithoutOk, Clean;
    var body := WithoutOk(args, t) + (Line('*', count) + next);
    var data := Line('*', |args|) + WithoutOk(args, t) + (Line('*', count) + next);
    assert data == ['*'] + FromInt(|args|) + CRLF + body;
    NumberLine('*', |args|, body);
    ArgsTailStuck(args, t, next, count);
    assert data[|FromInt(|args|)| + 3..] == body;
  }

  /** Cut just before "+OK" at the end of the last argument of command j, the stream is decoded
      up to that command and no further. */
  lemma LookalikeLost(cmds: seq<Command>, j: nat, t: string)
    requires forall i :: 0 <= i < |cmds| ==> Sized(cmds[i]) && Clean(cmds[i])
    requires j + 1 < |cmds| && cmds[j] != [] && cmds[j][|cmds[j]| - 1] == t + "+OK" && |cmds[j + 1]| < 10
    ensures var front := FormatAll(cmds[..j]) + Line('*', |cmds[j]|) + WithoutOk(cmds[j], t);
      var rest := FormatAll(cmds[j + 1..]);
      && FormatAll(cmds) == front + (OK_REPLY + rest)
      && DecodeAll(front + rest).values == Commands(cmds[..j])
  {
    hide Sized, Clean, FormatCommand, DecodeAll, Parse, Line, WithoutOk, FormatArgs, Bulks;
    var cut, rest := Line('*', |cmds[j]|) + WithoutOk(cmds[j], t), FormatAll(cmds[j + 1..]);
    OkAtEnd(cmds[j], t);
    FormatCommandLine(cmds[j]);
    CommandEnds(cmds, j);
    FormatCommandLine(cmds[j + 1]);
    var next := FormatArgs(cmds[j + 1]) + FormatAll(cmds[j + 1..][1..]);
    assert rest == Line('*', |cmds[j + 1]|) + next;
    OkLostStuck(cmds[j], t, next, |cmds[j + 1]|);
    StuckDecodes(cut + rest);
    DecodeCleanStream(cmds[..j], cut + rest);
    assert Commands(cmds[..j]) + [] == Commands(cmds[..j]);
    assert FormatAll(cmds[..j]) + (cut + rest) == FormatAll(cmds[..j]) + Line('*', |cmds[j]|) + WithoutOk(cmds[j], t) + rest;
  }

  lemma FewerValues(part: string, whole: string)
    requires part <= whole
    ensures DecodeAll(part).values <= DecodeAll(whole).values
  {
    hide DecodeAll;
    assert whole == part + whole[|part|..];
    DecodeInPieces(part, whole[|part|..]);
  }

  /** Byte by byte, but for what looks like a reply. */
  lemma ReplyCut(limit: nat, front: string, rest: string) returns (pieces: seq<string>)
    ensures Joined(pieces) == front + (OK_REPLY + rest) && Arrived(limit, pieces) <= front + rest
    ensures forall i :: 0 <= i < |pieces| ==> 0 < |pieces[i]| <= 8191
  {
    hide Joined, Yielded, Accepted;
    pieces := Bytes(front) + ([OK_REPLY] + Bytes(rest));
    BytesThrough(front, [OK_REPLY] + Bytes(rest));
    BytesThrough(rest, []);
    assert Bytes(rest) + [] == Bytes(rest) && rest + "" == rest;
    ReplyFirst(Bytes(rest));
    var yielded := Yielded(pieces);
    BytesThrough(front, [""] + Bytes(rest));
    JoinedFront(yielded, Accepted(limit, 0, "", yielded), |yielded|);
  }

  lemma ReplyFirst(rest: seq<string>)
    ensures Yielded([OK_REPLY] + rest) == [""] + Yielded(rest)
    ensures Joined([OK_REPLY] + rest) == OK_REPLY + Joined(rest) && Joined([""] + rest) == Joined(rest)
    ensures Yielded([]) == [] && Joined([]) == ""
  {
    NothingToStrip();
    assert StripReplies(OK_REPLY) == StripReplies("");
    assert ([OK_REPLY] + rest)[1..] == rest && ([""] + rest)[1..] == rest;
    hide StripReplies;
  }

  /** A command of the snapshot whose last argument ends in "+OK": the stream can be cut so
      that the replica takes the end of it for a reply and never gets the master's data. */
  lemma ReplyLookalike(cfg: Config, clock: int, hash: string -> nat, dbs: seq<seq<Shard>>, cmds: seq<Command>,
                       limit: nat, grows: nat -> bool, j: nat, t: string) returns (pieces: seq<string>)
    requires DbsOk(hash, dbs) && Covers(cfg, clock, hash, dbs, DB_COUNT, cmds) && DataFits(clock, hash, dbs)
    requires j < Needed(cmds) && cmds[j] != [] && cmds[j][|cmds[j]| - 1] == t + "+OK"
    requires j + 1 < |cmds| && |cmds[j + 1]| < 10
    ensures Joined(pieces) == FormatAll(cmds) && forall i :: 0 <= i < |pieces| ==> 0 < |pieces[i]| <= 8191
    ensures !Ends(RunOutcome(cfg, Start(), Replayed(DecodeAll(Arrived(limit, pieces)).values), grows, 0),
                  Sent(hash, dbs, DB_COUNT))
  {
    hide DbsOk, Covers, RunOutcome, DecodeAll, Replayed, Ends, DataClean, DataFits, FormatAll, Start, Sent, Arrived, Joined, WithoutOk,
         Line;
    var front := FormatAll(cmds[..j]) + Line('*', |cmds[j]|) + WithoutOk(cmds[j], t);
    var rest := FormatAll(cmds[j + 1..]);
    pieces := ReplyCut(limit, front, rest);
    var arrived := Arrived(limit, pieces);
    LookalikeText(cmds, j, t);
    if Ends(RunOutcome(cfg, Start(), Replayed(DecodeAll(arrived).values), grows, 0), Sent(hash, dbs, DB_COUNT)) {
      LoadedIsClean(cfg, hash, dbs, arrived, grows);
      CoversSized(cfg, clock, hash, dbs, cmds);
      LookalikeLost(cmds, j, t);
      FewerValues(arrived, front + rest);
      var n := |DecodeAll(arrived).values|;
      assert DecodeAll(arrived).values == Commands(cmds[..n]);
      TooFew(cfg, clock, hash, dbs, cmds, n, grows);
    }
  }

  lemma LookalikeText(cmds: seq<Command>, j: nat, t: string)
    requires j < |cmds| && cmds[j] != [] && cmds[j][|cmds[j]| - 1] == t + "+OK"
    ensures FormatAll(cmds)
         == FormatAll(cmds[..j]) + Line('*', |cmds[j]|) + WithoutOk(cmds[j], t) + (OK_REPLY + FormatAll(cmds[j + 1..]))
  {
    hide FormatCommand, Line, WithoutOk, FormatAll, FormatArgs;
    OkAtEnd(cmds[j], t);
    FormatCommandLine(cmds[j]);
    CommandEnds(cmds, j);
  }

  lemma TooFew(cfg: Config, clock: int, hash: string -> nat, dbs: seq<seq<Shard>>, cmds: seq<Command>, n: nat, grows: nat -> bool)
    requires DbsOk(hash, dbs) && Covers(cfg, clock, hash, dbs, DB_COUNT, cmds) && n < Needed(cmds)
    ensures !Ends(RunOutcome(cfg, Start(), Replayed(Commands(cmds[..n])), grows, 0), Sent(hash, dbs, DB_COUNT))
  {
    hide Covers, DbsOk, RunOutcome, Replayed, Sent, Start, Ends;
    CommandsThere(cfg, clock, hash, dbs, cmds);
    ReplayedCommands(cmds[..n]);
    FrontMatchesIff(cfg, clock, hash, dbs, cmds, n, grows);
  }

  lemma CommandsThere(cfg: Config, clock: int, hash: string -> nat, dbs: seq<seq<Shard>>, cmds: seq<Command>)
    requires Covers(cfg, clock, hash, dbs, DB_COUNT, cmds)
    ensures forall i :: 0 <= i < |cmds| ==> cmds[i] != []
  {
    hide Grows, Sent, DbsOk, ApplyAll, Start, AllWritable;
  }

  /** Clean data, no "EOF" in it, no argument with "+OK" at its end, and commands that leave room
      below the limit: the replica gets the master's data, however the stream is cut. */
  lemma EveryCutMatches(cfg: Config, clock: int, hash: string -> nat, dbs: seq<seq<Shard>>, cmds: seq<Command>,
                        limit: nat, longest: nat, pieces: seq<string>, grows: nat -> bool)
    requires DbsOk(hash, dbs) && Covers(cfg, clock, hash, dbs, DB_COUNT, cmds)
    requires DataFits(clock, hash, dbs) && DataClean(hash, dbs)
    requires Joined(pieces) == FormatAll(cmds) && forall i :: 0 <= i < |pieces| ==> 0 < |pieces[i]| <= 8191
    requires !EofInside(cmds) && (forall j :: 0 <= j < |cmds| ==> !OkAtEndOf(cmds[j])) && 65536 + 8191 + longest <= limit
    requires forall i :: 0 <= i < |cmds| ==> |FormatCommand(cmds[i])| <= longest
    ensures Ends(RunOutcome(cfg, Start(), Replayed(DecodeAll(Arrived(limit, pieces)).values), grows, 0), Sent(hash, dbs, DB_COUNT))
  {
    hide DbsOk, Covers, RunOutcome, DecodeAll, Replayed, Ends, DataClean, DataFits, FormatAll, FormatCommand, Start, Sent, Arrived,
         Joined, Yielded, EofInside, DataLength, Sized, Clean, OkAtEndOf;
    CoversSized(cfg, clock, hash, dbs, cmds);
    LookalikeNeedsOk(cmds, pieces);
    AllAccepted(limit, longest, cmds, pieces);
    ArrivesInOrder(limit, pieces);
    EofCutsShortIff(cmds);
    assert !CutShort(cmds, pieces);
    PartMatchesIff(cfg, clock, hash, dbs, cmds, Arrived(limit, pieces), grows);
  }
}
