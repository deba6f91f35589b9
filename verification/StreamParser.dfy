/** RespStreamParser: values cut out of a byte stream that arrives in arbitrary pieces. */
module StreamParser {
  import opened Text
  import opened Resp

  /** The values at the front of a stream, and the bytes no value could be read from. */
  datatype Decoded = Decoded(values: seq<RespValue>, rest: string)

  function DecodeAll(data: string): Decoded
    decreases |data|
  {
    match Parse(data)
    case Incomplete => Decoded([], data)
    case Parsed(v, n) =>
      var d := DecodeAll(data[n..]);
      Decoded([v] + d.values, d.rest)
  }

  /** How the bytes are cut into pieces makes no difference: decoding a, keeping the
      rest, and going on with b is decoding a + b. This holds of every byte sequence. */
  lemma {:induction false} DecodeInPieces(a: string, b: string)
    ensures var first := DecodeAll(a);
            var second := DecodeAll(first.rest + b);
            DecodeAll(a + b) == Decoded(first.values + second.values, second.rest)
    decreases |a|
  {
    match Parse(a) {
      case Incomplete =>
        assert [] + DecodeAll(a + b).values == DecodeAll(a + b).values;
      case Parsed(v, n) =>
        ParseExtended(a, b);
        assert (a + b)[n..] == a[n..] + b;
        DecodeInPieces(a[n..], b);
        DecodePiecesStep(v, a[n..], b);
    }
  }

  lemma DecodePiecesStep(v: RespValue, a: string, b: string)
    ensures var first := DecodeAll(a).values;
            var second := DecodeAll(DecodeAll(a).rest + b).values;
            [v] + (first + second) == [v] + first + second
  {
  }

  /** Bytes that gave no value stay where they are. */
  lemma {:induction false} DecodeRestStuck(data: string)
    ensures Parse(DecodeAll(data).rest).Incomplete?
    ensures DecodeAll(DecodeAll(data).rest) == Decoded([], DecodeAll(data).rest)
    decreases |data|
  {
    match Parse(data) {
      case Incomplete =>
      case Parsed(v, n) => DecodeRestStuck(data[n..]);
    }
  }

  /** Consumed bytes are dropped once more than this many have piled up. */
  const COMPACTION: nat := 65536

  /** The consumed bytes still in front of the buffer when all of `data` that can be read has
      been, of which `kept` were there before. */
  function Kept(kept: nat, data: string): nat
    decreases |data|
  {
    match Parse(data)
    case Incomplete => kept
    case Parsed(_, n) => Kept(if n == |data| || kept + n > COMPACTION then 0 else kept + n, data[n..])
  }

  lemma {:induction false} KeptBound(kept: nat, data: string)
    requires kept <= COMPACTION
    ensures Kept(kept, data) <= COMPACTION
    decreases |data|
  {
    match Parse(data)
    case Incomplete =>
    case Parsed(_, n) => KeptBound(if n == |data| || kept + n > COMPACTION then 0 else kept + n, data[n..]);
  }

  /** How many pieces a parser accepts before it refuses one. */
  function Accepted(limit: nat, kept: nat, pending: string, chunks: seq<string>): (n: nat)
    ensures n <= |chunks|
    decreases |chunks|
  {
    if chunks == [] || kept + |pending| + |chunks[0]| > limit then 0
    else
      var data := pending + chunks[0];
      1 + Accepted(limit, Kept(kept, data), DecodeAll(data).rest, chunks[1..])
  }

  function Joined(chunks: seq<string>): string {
    if chunks == [] then "" else chunks[0] + Joined(chunks[1..])
  }

  lemma {:induction false} JoinedSnoc(chunks: seq<string>, last: string)
    ensures Joined(chunks + [last]) == Joined(chunks) + last
  {
    if chunks == [] {
      assert chunks + [last] == [last];
      assert Joined([last]) == last + Joined([]);
    } else {
      JoinedSnoc(chunks[1..], last);
      assert (chunks + [last])[1..] == chunks[1..] + [last];
    }
  }

  lemma {:induction false} JoinedConcat(a: seq<string>, b: seq<string>)
    ensures Joined(a + b) == Joined(a) + Joined(b)
  {
    if a == [] {
      assert a + b == b;
    } else {
      JoinedConcat(a[1..], b);
      assert (a + b)[1..] == a[1..] + b && (a + b)[0] == a[0];
      assert a[0] + (Joined(a[1..]) + Joined(b)) == a[0] + Joined(a[1..]) + Joined(b);
    }
  }

  class RespStreamParser {
    const maxBufferSize: nat
    var buffer: string
    var parseOffset: nat

    ghost predicate Valid()
      reads this
    {
      parseOffset <= |buffer| && parseOffset <= COMPACTION
    }

    ghost function Pending(): string
      requires Valid()
      reads this
    {
      buffer[parseOffset..]
    }

    constructor (maxBufferSize: nat)
      ensures Valid() && Pending() == "" && parseOffset == 0 && this.maxBufferSize == maxBufferSize
    {
      this.maxBufferSize := maxBufferSize;
      buffer, parseOffset := "", 0;
    }

    method Feed(data: string) returns (ok: bool)
      requires Valid()
      modifies this
      ensures Valid()
      ensures ok == (old(parseOffset) + |old(Pending())| + |data| <= maxBufferSize)
      ensures parseOffset == old(parseOffset)
      ensures Pending() == old(Pending()) + (if ok then data else "")
    {
      if |buffer| + |data| > maxBufferSize {
        return false;
      }
      assert (buffer + data)[parseOffset..] == buffer[parseOffset..] + data;
      buffer := buffer + data;
      return true;
    }

    method Next() returns (r: Option<RespValue>)
      requires Valid()
      modifies this
      ensures Valid()
      ensures match Parse(old(Pending()))
        case Incomplete => r == None && Pending() == old(Pending()) && parseOffset == old(parseOffset)
        case Parsed(v, n) =>
          && r == Some(v) && Pending() == old(Pending())[n..]
          && parseOffset == (if n == |old(Pending())| || old(parseOffset) + n > COMPACTION then 0 else old(parseOffset) + n)
    {
      var parsed := ParseValue(buffer[parseOffset..]);
      if parsed.Incomplete? {
        return None;
      }
      hide Parse;
      assert buffer[parseOffset..][parsed.consumed..] == buffer[parseOffset + parsed.consumed..];
      parseOffset := parseOffset + parsed.consumed;
      if parseOffset == |buffer| {
        buffer, parseOffset := "", 0;
      } else if parseOffset > COMPACTION {
        buffer, parseOffset := buffer[parseOffset..], 0;
      }
      return Some(parsed.value);
    }

    /** while (parser.next(cmd)): everything that can be read now. */
    method Drain() returns (values: seq<RespValue>)
      requires Valid()
      modifies this
      ensures Valid()
      ensures Decoded(values, Pending()) == DecodeAll(old(Pending()))
      ensures parseOffset == Kept(old(parseOffset), old(Pending()))
    {
      hide Parse;
      values := [];
      ghost var whole, kept := DecodeAll(Pending()), Kept(parseOffset, Pending());
      var more := true;
      while more
        invariant Valid()
        invariant more ==> whole.values == values + DecodeAll(Pending()).values
        invariant more ==> whole.rest == DecodeAll(Pending()).rest
        invariant !more ==> whole == Decoded(values, Pending())
        invariant kept == if more then Kept(parseOffset, Pending()) else parseOffset
        decreases more, |Pending()|
      {
        ghost var before := Pending();
        var r := Next();
        if r.None? {
          more := false;
        } else {
          ghost var n := Parse(before).consumed;
          assert values + ([r.value] + DecodeAll(before[n..]).values)
              == values + [r.value] + DecodeAll(before[n..]).values;
          values := values + [r.value];
        }
      }
    }
  }

  /** The receive loop: feed a piece, drain, feed the next. A refused piece ends it. */
  method DecodeChunks(parser: RespStreamParser, chunks: seq<string>)
    returns (values: seq<RespValue>, fed: nat)
    requires parser.Valid() && parser.Pending() == ""
    modifies parser
    ensures parser.Valid() && fed == Accepted(parser.maxBufferSize, old(parser.parseOffset), "", chunks)
    ensures Decoded(values, parser.Pending()) == DecodeAll(Joined(chunks[..fed]))
  {
    hide Parse, DecodeAll, Joined, Kept;
    values, fed := [], 0;
    NothingDecoded();
    assert chunks[..0] == [] && chunks[0..] == chunks;
    while fed < |chunks|
      invariant parser.Valid() && fed <= |chunks|
      invariant fed + Accepted(parser.maxBufferSize, parser.parseOffset, parser.Pending(), chunks[fed..])
             == Accepted(parser.maxBufferSize, old(parser.parseOffset), "", chunks)
      invariant Decoded(values, parser.Pending()) == DecodeAll(Joined(chunks[..fed]))
    {
      ghost var before := Joined(chunks[..fed]);
      var ok := parser.Feed(chunks[fed]);
      if !ok {
        return;
      }
      var more := parser.Drain();
      DecodeInPieces(before, chunks[fed]);
      JoinedSnoc(chunks[..fed], chunks[fed]);
      assert chunks[..fed + 1] == chunks[..fed] + [chunks[fed]];
      assert chunks[fed..][1..] == chunks[fed + 1..];
      values, fed := values + more, fed + 1;
    }
  }

  lemma NothingDecoded()
    ensures DecodeAll("") == Decoded([], "") && Joined([]) == ""
  {
  }

  // ---------- streams of commands ----------

  /** AOFModule::formatCommand. */
  function FormatCommand(args: seq<string>): string {
    "*" + FromInt(|args|) + CRLF + FormatArgs(args)
  }

  function FormatArgs(args: seq<string>): string {
    if args == [] then ""
    else "$" + FromInt(|args[0]|) + CRLF + args[0] + CRLF + FormatArgs(args[1..])
  }

  function Bulks(args: seq<string>): (vs: seq<RespValue>)
    ensures |vs| == |args| && forall i :: 0 <= i < |vs| ==> vs[i] == BulkString(args[i])
  {
    seq(|args|, i requires 0 <= i < |args| => BulkString(args[i]))
  }

  lemma {:induction false} FormatIsEncode(args: seq<string>)
    ensures FormatArgs(args) == EncodeAll(Bulks(args))
    ensures FormatCommand(args) == Encode(Array(Bulks(args)))
  {
    if args != [] {
      FormatIsEncode(args[1..]);
      assert Bulks(args)[1..] == Bulks(args[1..]);
    }
  }

  function FormatAll(cmds: seq<seq<string>>): string {
    if cmds == [] then "" else FormatCommand(cmds[0]) + FormatAll(cmds[1..])
  }

  ghost predicate Sized(args: seq<string>) {
    |args| <= INT64_MAX && forall i :: 0 <= i < |args| ==> |args[i]| <= INT64_MAX
  }

  ghost predicate Clean(args: seq<string>) {
    forall i :: 0 <= i < |args| ==> CrlfFree(args[i])
  }

  function Commands(cmds: seq<seq<string>>): (vs: seq<RespValue>)
    ensures |vs| == |cmds|
  {
    seq(|cmds|, i requires 0 <= i < |cmds| => Array(Bulks(cmds[i])))
  }

  /** A stream of clean commands decodes to exactly those commands. */
  lemma {:induction false} DecodeCleanStream(cmds: seq<seq<string>>, tail: string)
    requires forall i :: 0 <= i < |cmds| ==> Sized(cmds[i]) && Clean(cmds[i])
    ensures DecodeAll(FormatAll(cmds) + tail)
         == Decoded(Commands(cmds) + DecodeAll(tail).values, DecodeAll(tail).rest)
  {
    hide DecodeAll, FormatCommand, Bulks;
    if cmds == [] {
      assert FormatAll(cmds) + tail == tail;
      assert Commands(cmds) + DecodeAll(tail).values == DecodeAll(tail).values;
    } else {
      var rest := FormatAll(cmds[1..]) + tail;
      DecodeOne(cmds[0], rest);
      assert FormatAll(cmds) + tail == FormatCommand(cmds[0]) + rest;
      DecodeCleanStream(cmds[1..], tail);
      assert Commands(cmds) == [Array(Bulks(cmds[0]))] + Commands(cmds[1..]);
      assert [Array(Bulks(cmds[0]))] + (Commands(cmds[1..]) + DecodeAll(tail).values)
          == [Array(Bulks(cmds[0]))] + Commands(cmds[1..]) + DecodeAll(tail).values;
    }
  }

  lemma DecodeOne(args: seq<string>, rest: string)
    requires Sized(args) && Clean(args)
    ensures DecodeAll(FormatCommand(args) + rest)
         == Decoded([Array(Bulks(args))] + DecodeAll(rest).values, DecodeAll(rest).rest)
  {
    var head := FormatCommand(args);
    FormatIsEncode(args);
    ParseOfEncode(Array(Bulks(args)), rest);
    hide Parse, FormatCommand, Encode;
    assert (head + rest)[|head|..] == rest;
  }

  /** An argument with a line end inside stops its command from ever being read,
      whatever follows it. */
  lemma {:induction false} UncleanStuck(args: seq<string>, tail: string)
    requires Sized(args) && !Clean(args)
    ensures Parse(FormatCommand(args) + tail).Incomplete?
  {
    hide FormatArgs, ParseElements, FromInt, Sized, Clean;
    var body := FormatArgs(args) + tail;
    var data := FormatCommand(args) + tail;
    assert data == ['*'] + FromInt(|args|) + CRLF + body;
    assert |args| <= INT64_MAX by {
      SizedCount(args);
    }
    NumberLine('*', |args|, body);
    UncleanArgsStuck(args, tail);
    assert data[|FromInt(|args|)| + 3..] == body;
  }

  lemma SizedCount(args: seq<string>)
    requires Sized(args)
    ensures |args| <= INT64_MAX
  {
  }

  lemma FormatArgsHead(args: seq<string>)
    requires args != []
    ensures FormatArgs(args) == Encode(BulkString(args[0])) + FormatArgs(args[1..])
  {
  }

  lemma ElementsHead(first: string, rest: string, t: string, n: nat)
    requires n > 0 && Parse(first + rest) == Parsed(BulkString(t), |first|)
    ensures ParseElements(first + rest, n).Incomplete? <==> ParseElements(rest, n - 1).Incomplete?
  {
    assert (first + rest)[|first|..] == rest;
    hide Parse;
  }

  lemma {:induction false} UncleanArgsStuck(args: seq<string>, tail: string)
    requires Sized(args) && !Clean(args)
    ensures ParseElements(FormatArgs(args) + tail, |args|).Incomplete?
  {
    hide Parse, Encode, FormatArgs;
    var rest := FormatArgs(args[1..]) + tail;
    var first := Encode(BulkString(args[0]));
    FormatArgsHead(args);
    assert FormatArgs(args) + tail == first + rest;
    if CrlfFree(args[0]) {
      ParseOfBulk(args[0], rest);
      UncleanArgsStuck(args[1..], tail);
      ElementsHead(first, rest, args[0], |args|);
    } else {
      UncleanBulkStuck(args[0], rest);
    }
  }

  /** The first line end comes too early for the announced length. */
  lemma EarlyLineEnd(data: string, line: string, start: nat, t: string, i: nat)
    requires data != [] && data[0] == '$' && HeaderLine(data) == Parsed(line, start) && Stoll(line) == Some(|t|)
    requires CrlfAt(data, start + i) && i < |t|
    ensures Parse(data).Incomplete?
  {
  }

  lemma InnerLineEnd(prefix: string, t: string, tail: string, i: int)
    requires CrlfAt(t, i)
    ensures CrlfAt(prefix + t + tail, |prefix| + i)
  {
  }

  lemma UncleanBulkStuck(t: string, tail: string)
    requires |t| <= INT64_MAX && !CrlfFree(t)
    ensures Parse(Encode(BulkString(t)) + tail).Incomplete?
  {
    hide FromInt, Parse, HeaderLine, ParseInt;
    var prefix := "$" + FromInt(|t|) + CRLF;
    var data := Encode(BulkString(t)) + tail;
    assert data == ['$'] + FromInt(|t|) + CRLF + (t + CRLF + tail);
    assert data == prefix + t + (CRLF + tail);
    NumberLine('$', |t|, t + CRLF + tail);
    var i :| CrlfAt(t, i);
    InnerLineEnd(prefix, t, CRLF + tail, i);
    EarlyLineEnd(data, FromInt(|t|), |prefix|, t, i);
  }

  /** The stream decodes to its longest clean front and nothing after it. */
  lemma {:induction false} DecodeStream(cmds: seq<seq<string>>, n: nat)
    requires forall i :: 0 <= i < |cmds| ==> Sized(cmds[i])
    requires n <= |cmds| && forall i :: 0 <= i < n ==> Clean(cmds[i])
    requires n < |cmds| ==> !Clean(cmds[n])
    ensures DecodeAll(FormatAll(cmds)).values == Commands(cmds[..n])
    ensures DecodeAll(FormatAll(cmds)).rest == FormatAll(cmds[n..])
  {
    FormatAllSplit(cmds, n);
    DecodeCleanStream(cmds[..n], FormatAll(cmds[n..]));
    if n < |cmds| {
      UncleanStuck(cmds[n], FormatAll(cmds[n + 1..]));
      assert cmds[n..][1..] == cmds[n + 1..];
    } else {
      NothingDecoded();
    }
    assert Commands(cmds[..n]) + [] == Commands(cmds[..n]);
  }

  lemma {:induction false} FormatAllConcat(a: seq<seq<string>>, b: seq<seq<string>>)
    ensures FormatAll(a + b) == FormatAll(a) + FormatAll(b)
  {
    hide FormatCommand;
    if a == [] {
      assert a + b == b;
    } else {
      FormatAllConcat(a[1..], b);
      assert (a + b)[1..] == a[1..] + b && (a + b)[0] == a[0];
      assert FormatCommand(a[0]) + (FormatAll(a[1..]) + FormatAll(b)) == (FormatCommand(a[0]) + FormatAll(a[1..])) + FormatAll(b);
    }
  }

  lemma FormatAllSplit(cmds: seq<seq<string>>, n: nat)
    requires n <= |cmds|
    ensures FormatAll(cmds) == FormatAll(cmds[..n]) + FormatAll(cmds[n..])
  {
    hide FormatAll;
    FormatAllConcat(cmds[..n], cmds[n..]);
    assert cmds == cmds[..n] + cmds[n..];
  }

  // ---------- streams that break off ----------

  /** How many commands lie completely within the first `size` bytes. */
  function Complete(cmds: seq<seq<string>>, size: nat): (n: nat)
    ensures n <= |cmds|
  {
    if cmds == [] || |FormatCommand(cmds[0])| > size then 0
    else 1 + Complete(cmds[1..], size - |FormatCommand(cmds[0])|)
  }

  /** A part of a command is not taken for a value. */
  lemma PartStuck(args: seq<string>, part: string)
    requires Sized(args) && Clean(args) && part < FormatCommand(args)
    ensures Parse(part).Incomplete?
  {
    var text := FormatCommand(args);
    FormatIsEncode(args);
    ParseOfEncode(Array(Bulks(args)), "");
    assert text + "" == text;
    hide Parse, FormatCommand, Encode;
    assert part + text[|part|..] == text;
    if Parse(part).Parsed? {
      ParseExtended(part, text[|part|..]);
    }
  }

  /** The complete commands of a stream that breaks off have been read, and the rest is part of
      the next one. */
  ghost predicate ReadSoFar(cmds: seq<seq<string>>, part: string, n: nat) {
    && n <= |cmds| && DecodeAll(part).values == Commands(cmds[..n])
    && part == FormatAll(cmds[..n]) + DecodeAll(part).rest
    && DecodeAll(part).rest <= FormatAll(cmds[n..])
    && (n < |cmds| ==> DecodeAll(part).rest < FormatCommand(cmds[n]))
  }

  lemma ReadNone(cmds: seq<seq<string>>, part: string)
    requires part <= FormatAll(cmds) && Parse(part).Incomplete? && (cmds != [] ==> part < FormatCommand(cmds[0]))
    ensures ReadSoFar(cmds, part, 0)
  {
    StuckDecodes(part);
    hide DecodeAll, FormatCommand, Parse, Bulks;
    assert cmds[..0] == [] && cmds[0..] == cmds;
  }

  lemma ReadOneMore(cmds: seq<seq<string>>, rest: string, n: nat)
    requires cmds != [] && ReadSoFar(cmds[1..], rest, n)
    requires DecodeAll(FormatCommand(cmds[0]) + rest)
          == Decoded([Array(Bulks(cmds[0]))] + DecodeAll(rest).values, DecodeAll(rest).rest)
    ensures ReadSoFar(cmds, FormatCommand(cmds[0]) + rest, n + 1)
  {
    hide DecodeAll, FormatCommand, Bulks;
    assert cmds[..n + 1] == [cmds[0]] + cmds[1..][..n];
    assert cmds[..n + 1][1..] == cmds[1..][..n];
    assert cmds[n + 1..] == cmds[1..][n..];
    assert Commands(cmds[..n + 1]) == [Array(Bulks(cmds[0]))] + Commands(cmds[1..][..n]);
    assert FormatCommand(cmds[0]) + (FormatAll(cmds[1..][..n]) + DecodeAll(rest).rest)
        == FormatCommand(cmds[0]) + FormatAll(cmds[1..][..n]) + DecodeAll(rest).rest;
  }

  /** Wherever a clean stream breaks off. */
  lemma {:induction false} PartDecodes(cmds: seq<seq<string>>, part: string)
    requires forall i :: 0 <= i < |cmds| ==> Sized(cmds[i]) && Clean(cmds[i])
    requires part <= FormatAll(cmds)
    ensures ReadSoFar(cmds, part, Complete(cmds, |part|))
  {
    hide FormatCommand, DecodeAll, Bulks, Sized, Clean, ReadSoFar;
    if cmds == [] {
      NothingParsed();
      ReadNone(cmds, part);
    } else if |FormatCommand(cmds[0])| > |part| {
      assert part == FormatCommand(cmds[0])[..|part|];
      PartStuck(cmds[0], part);
      ReadNone(cmds, part);
    } else {
      var rest := part[|FormatCommand(cmds[0])|..];
      assert part == FormatCommand(cmds[0]) + rest;
      DecodeOne(cmds[0], rest);
      PartDecodes(cmds[1..], rest);
      ReadOneMore(cmds, rest, Complete(cmds[1..], |rest|));
    }
  }

  lemma NothingParsed()
    ensures Parse("").Incomplete?
  {
  }

  lemma StuckDecodes(part: string)
    requires Parse(part).Incomplete?
    ensures DecodeAll(part) == Decoded([], part)
  {
  }

  /** If a command, a piece and the consumed bytes always fit, every piece is accepted. */
  lemma {:induction false} NothingRefused(limit: nat, longest: nat, kept: nat, pending: string, cmds: seq<seq<string>>,
                                          chunks: seq<string>)
    requires forall i :: 0 <= i < |cmds| ==> Sized(cmds[i]) && Clean(cmds[i]) && |FormatCommand(cmds[i])| <= longest
    requires forall i :: 0 <= i < |chunks| ==> COMPACTION + longest + |chunks[i]| <= limit
    requires kept <= COMPACTION && |pending| <= longest && pending + Joined(chunks) <= FormatAll(cmds)
    ensures Accepted(limit, kept, pending, chunks) == |chunks|
    decreases |chunks|
  {
    hide FormatCommand, DecodeAll, Kept, Sized, Clean, FormatAll;
    if chunks != [] {
      var data := pending + chunks[0];
      assert data + Joined(chunks[1..]) == pending + Joined(chunks);
      PrefixOfPrefix(data, Joined(chunks[1..]), FormatAll(cmds));
      PartDecodes(cmds, data);
      KeptBound(kept, data);
      var n, rest := Complete(cmds, |data|), DecodeAll(data).rest;
      FormatAllSplit(cmds, n);
      CutFront(FormatAll(cmds[..n]), rest, Joined(chunks[1..]), FormatAll(cmds[n..]));
      if n == |cmds| {
        NoCommands();
        assert cmds[n..] == [];
      }
      NothingRefused(limit, longest, Kept(kept, data), rest, cmds[n..], chunks[1..]);
    }
  }

  lemma NoCommands()
    ensures FormatAll([]) == ""
  {
  }

  lemma PrefixOfPrefix(a: string, b: string, whole: string)
    requires a + b <= whole
    ensures a <= whole
  {
    assert a == (a + b)[..|a|];
  }

  lemma CutFront(front: string, a: string, b: string, back: string)
    requires front + a + b <= front + back
    ensures a + b <= back
  {
    assert front + a + b == front + (a + b);
    assert a + b == (front + (a + b))[|front|..];
    assert back == (front + back)[|front|..];
  }
}
