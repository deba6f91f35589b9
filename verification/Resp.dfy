/** RespValue::encode and RespValue::parse of the Redis serialization protocol. */
module Resp {
  import opened Text

  datatype RespValue =
    | SimpleString(str: string)
    | Error(str: string)
    | Integer(integ: int)
    | BulkString(str: string)
    | Array(arr: seq<RespValue>)
    | NullVal
    | Nil

  /** The parser reports failure by zero bytes consumed: Incomplete stands for that. */
  datatype ParseResult<+T> = Incomplete | Parsed(value: T, consumed: nat)

  const CRLF := "\r\n"

  predicate CrlfAt(s: string, i: int) {
    0 <= i < |s| - 1 && s[i] == '\r' && s[i + 1] == '\n'
  }

  ghost predicate CrlfFree(s: string) {
    forall i :: !CrlfAt(s, i)
  }

  /** string_view::find("\r\n", from). */
  function FindCrlf(s: string, from: nat): (r: Option<nat>)
    ensures r.Some? ==> from <= r.value && CrlfAt(s, r.value)
    ensures r.Some? ==> forall i :: from <= i < r.value ==> !CrlfAt(s, i)
    ensures r.None? ==> forall i :: from <= i ==> !CrlfAt(s, i)
    decreases |s| - from
  {
    if from >= |s| then None
    else if CrlfAt(s, from) then Some(from)
    else FindCrlf(s, from + 1)
  }

  // ---------- encoder ----------

  function Encode(v: RespValue): (s: string)
    ensures |s| > 0
    decreases v, 0
  {
    match v
    case SimpleString(t) => "+" + t + CRLF
    case Error(t) => "-" + t + CRLF
    case Integer(i) => ":" + FromInt(i) + CRLF
    case BulkString(t) => "$" + FromInt(|t|) + CRLF + t + CRLF
    case Array(elems) => "*" + FromInt(|elems|) + CRLF + EncodeAll(elems)
    case NullVal => "$-1" + CRLF
    case Nil => "$-1" + CRLF
  }

  function EncodeAll(vs: seq<RespValue>): string
    decreases vs, 1
  {
    if vs == [] then "" else Encode(vs[0]) + EncodeAll(vs[1..])
  }

  // ---------- parser ----------

  /** Reads "<type byte><text>\r\n": the text and the position after the line end. */
  function HeaderLine(data: string): (r: ParseResult<string>)
    requires data != []
    requires !CrlfAt(data, 0)
    ensures r.Parsed? ==> 3 <= r.consumed <= |data| && r.value == data[1..r.consumed - 2]
    ensures r.Parsed? ==> CrlfFree(r.value)
  {
    match FindCrlf(data, 0)
    case None => Incomplete
    case Some(pos) =>
      var line := data[1..pos];
      assert forall i :: CrlfAt(line, i) ==> CrlfAt(data, i + 1);
      Parsed(line, pos + 2)
  }

  function ParseBulk(data: string): (r: ParseResult<RespValue>)
    requires data != [] && data[0] == '$'
    ensures r.Parsed? ==> 0 < r.consumed <= |data|
  {
    match HeaderLine(data)
    case Incomplete => Incomplete
    case Parsed(line, start) =>
      match Stoll(line)
      case None => Incomplete
      case Some(len) =>
        if len == -1 then Parsed(NullVal, start)
        else if len < 0 then Incomplete
        else if start + len > |data| then Incomplete
        else
          match FindCrlf(data, start)
          case None => Incomplete
          case Some(end) =>
            if end - start != len then Incomplete
            else Parsed(BulkString(data[start..end]), end + 2)
  }

  function Parse(data: string): (r: ParseResult<RespValue>)
    ensures r.Parsed? ==> 0 < r.consumed <= |data|
    decreases |data|, 0
  {
    if data == [] then Incomplete
    else match data[0]
      case '+' =>
        (match HeaderLine(data)
         case Incomplete => Incomplete
         case Parsed(line, n) => Parsed(SimpleString(line), n))
      case '-' =>
        (match HeaderLine(data)
         case Incomplete => Incomplete
         case Parsed(line, n) => Parsed(Error(line), n))
      case ':' =>
        (match HeaderLine(data)
         case Incomplete => Incomplete
         case Parsed(line, n) =>
           match Stoll(line)
           case None => Incomplete
           case Some(i) => Parsed(Integer(i), n))
      case '$' => ParseBulk(data)
      case '*' =>
        (match HeaderLine(data)
         case Incomplete => Incomplete
         case Parsed(line, start) =>
           match Stoll(line)
           case None => Incomplete
           case Some(count) =>
             if count < 0 then Incomplete
             else match ParseElements(data[start..], count)
               case Incomplete => Incomplete
               case Parsed(elems, n) => Parsed(Array(elems), start + n))
      case _ => Incomplete
  }

  /** The loop over array elements: count values, one after the other. */
  function ParseElements(data: string, count: nat): (r: ParseResult<seq<RespValue>>)
    ensures r.Parsed? ==> r.consumed <= |data| && |r.value| == count
    decreases |data|, 1
  {
    if count == 0 then Parsed([], 0)
    else match Parse(data)
      case Incomplete => Incomplete
      case Parsed(v, n) =>
        match ParseElements(data[n..], count - 1)
        case Incomplete => Incomplete
        case Parsed(vs, m) => Parsed([v] + vs, n + m)
  }

  /** How much of the whole is known after `done` bytes gave `elems` and `rest` is to come. */
  ghost predicate Split(whole: ParseResult<seq<RespValue>>, elems: seq<RespValue>, done: nat,
                        rest: ParseResult<seq<RespValue>>)
  {
    match rest
    case Incomplete => whole.Incomplete?
    case Parsed(vs, n) => whole == Parsed(elems + vs, done + n)
  }

  lemma SplitEnds(whole: ParseResult<seq<RespValue>>)
    ensures Split(whole, [], 0, whole)
  {
    if whole.Parsed? {
      assert [] + whole.value == whole.value;
    }
  }

  lemma SplitStep(whole: ParseResult<seq<RespValue>>, elems: seq<RespValue>, done: nat,
                  data: string, count: nat)
    requires count > 0 && Split(whole, elems, done, ParseElements(data, count))
    ensures match Parse(data)
      case Incomplete => whole.Incomplete?
      case Parsed(v, n) =>
        Split(whole, elems + [v], done + n, ParseElements(data[n..], count - 1))
  {
    hide Parse;
    var first := Parse(data);
    if first.Parsed? {
      var rest := ParseElements(data[first.consumed..], count - 1);
      if rest.Parsed? {
        assert elems + ([first.value] + rest.value) == elems + [first.value] + rest.value;
      }
    }
  }

  /** The parser as written: a loop over the elements of an array, recursion for nesting. */
  method ParseValue(data: string) returns (r: ParseResult<RespValue>)
    ensures r == Parse(data)
    decreases |data|, 1
  {
    if data == [] || data[0] != '*' {
      return Parse(data);
    }
    var header := HeaderLine(data);
    if header.Incomplete? {
      return Incomplete;
    }
    var count := Stoll(header.value);
    if count.None? || count.value < 0 {
      return Incomplete;
    }
    var elems := ParseArrayBody(data[header.consumed..], count.value);
    match elems
    case Incomplete => return Incomplete;
    case Parsed(vs, n) => return Parsed(Array(vs), header.consumed + n);
  }

  method ParseArrayBody(data: string, count: nat) returns (r: ParseResult<seq<RespValue>>)
    ensures r == ParseElements(data, count)
    decreases |data|, 2
  {
    hide Parse, ParseElements;
    var elems, start: nat, i := [], 0, 0;
    assert data[0..] == data;
    SplitEnds(ParseElements(data, count));
    while i < count
      invariant 0 <= i <= count && start <= |data|
      invariant Split(ParseElements(data, count), elems, start, ParseElements(data[start..], count - i))
    {
      SplitStep(ParseElements(data, count), elems, start, data[start..], count - i);
      if start >= |data| {
        ParseOfEmpty(data[start..]);
        return Incomplete;
      }
      var elem := ParseValue(data[start..]);
      if elem.Incomplete? {
        return Incomplete;
      }
      assert data[start..][elem.consumed..] == data[start + elem.consumed..];
      elems, start, i := elems + [elem.value], start + elem.consumed, i + 1;
    }
    NoElements(data[start..]);
    assert elems + [] == elems;
    return Parsed(elems, start);
  }

  lemma NoElements(data: string)
    ensures ParseElements(data, 0) == Parsed([], 0)
  {
  }

  lemma ParseOfEmpty(data: string)
    requires data == []
    ensures Parse(data).Incomplete?
  {
  }

  // ---------- what a parse depends on ----------

  lemma FindCrlfExtended(s: string, from: nat, more: string)
    requires FindCrlf(s, from).Some?
    ensures FindCrlf(s + more, from) == FindCrlf(s, from)
  {
    var p := FindCrlf(s, from).value;
    assert forall i :: 0 <= i < |s| - 1 ==> (CrlfAt(s + more, i) <==> CrlfAt(s, i));
    assert CrlfAt(s + more, p);
  }

  lemma HeaderLineExtended(data: string, more: string)
    requires data != [] && data[0] != '\r'
    requires HeaderLine(data).Parsed?
    ensures HeaderLine(data + more) == HeaderLine(data)
  {
    FindCrlfExtended(data, 0, more);
    var n := HeaderLine(data).consumed;
    assert (data + more)[1..n - 2] == data[1..n - 2];
  }

  /** Once a value has been read, bytes that arrive later cannot change it. */
  lemma {:induction false} ParseExtended(data: string, more: string)
    requires Parse(data).Parsed?
    ensures Parse(data + more) == Parse(data)
    decreases |data|, 0
  {
    HeaderLineExtended(data, more);
    if data[0] == '$' {
      var start := HeaderLine(data).consumed;
      var len := Stoll(HeaderLine(data).value).value;
      if len >= 0 {
        FindCrlfExtended(data, start, more);
        assert (data + more)[start..start + len] == data[start..start + len];
      }
    } else if data[0] == '*' {
      var start := HeaderLine(data).consumed;
      ParseElementsExtended(data[start..], Stoll(HeaderLine(data).value).value, more);
      assert (data + more)[start..] == data[start..] + more;
    }
  }

  lemma {:induction false} ParseElementsExtended(data: string, count: nat, more: string)
    requires ParseElements(data, count).Parsed?
    ensures ParseElements(data + more, count) == ParseElements(data, count)
    decreases |data|, 1
  {
    hide Parse;
    if count > 0 {
      ParseExtended(data, more);
      ParseElementsExtended(data[Parse(data).consumed..], count - 1, more);
      ElementsStep(data, count, more);
    }
  }

  lemma ElementsStep(data: string, count: nat, more: string)
    requires count > 0 && Parse(data).Parsed? && Parse(data + more) == Parse(data)
    requires ParseElements(data[Parse(data).consumed..] + more, count - 1)
          == ParseElements(data[Parse(data).consumed..], count - 1)
    ensures ParseElements(data + more, count) == ParseElements(data, count)
  {
    hide Parse;
    var n := Parse(data).consumed;
    assert (data + more)[n..] == data[n..] + more;
  }

  // ---------- round trip ----------

  /** What a C++ RespValue can hold: 64-bit integers and sizes. */
  ghost predicate Representable(v: RespValue) {
    match v
    case Integer(i) => INT64_MIN <= i <= INT64_MAX
    case BulkString(t) => |t| <= INT64_MAX
    case Array(elems) =>
      |elems| <= INT64_MAX && forall i :: 0 <= i < |elems| ==> Representable(elems[i])
    case _ => true
  }

  /** No text inside v contains a line end, and no part of v is the unset value. */
  ghost predicate Transparent(v: RespValue) {
    match v
    case SimpleString(t) => CrlfFree(t)
    case Error(t) => CrlfFree(t)
    case BulkString(t) => CrlfFree(t)
    case Array(elems) => forall i :: 0 <= i < |elems| ==> Transparent(elems[i])
    case Nil => false
    case _ => true
  }

  lemma HeaderLineOf(kind: char, text: string, tail: string)
    requires kind != '\r' && CrlfFree(text)
    ensures HeaderLine([kind] + text + CRLF + tail) == Parsed(text, |text| + 3)
  {
    var data := [kind] + text + CRLF + tail;
    forall i | 0 <= i < |text| + 1
      ensures !CrlfAt(data, i)
    {
      if 1 <= i < |text| {
        assert !CrlfAt(text, i - 1);
      }
    }
    assert CrlfAt(data, |text| + 1);
    assert FindCrlf(data, 0) == Some(|text| + 1);
    assert data[1..|text| + 1] == text;
  }

  lemma NumberLine(kind: char, i: int, tail: string)
    requires kind != '\r' && INT64_MIN <= i <= INT64_MAX
    ensures HeaderLine([kind] + FromInt(i) + CRLF + tail) == Parsed(FromInt(i), |FromInt(i)| + 3)
    ensures Stoll(FromInt(i)) == Some(i)
  {
    assert CrlfFree(FromInt(i));
    HeaderLineOf(kind, FromInt(i), tail);
    IntRoundTrip(i, INT64_MIN, INT64_MAX, "");
    assert FromInt(i) + "" == FromInt(i);
  }

  /** The first line end after a text that has none inside is the one that closes it. */
  lemma FindCrlfAfter(prefix: string, t: string, tail: string)
    requires CrlfFree(t)
    ensures FindCrlf(prefix + t + CRLF + tail, |prefix|) == Some(|prefix| + |t|)
  {
    var data := prefix + t + CRLF + tail;
    forall i | |prefix| <= i < |prefix| + |t|
      ensures !CrlfAt(data, i)
    {
      assert !CrlfAt(t, i - |prefix|);
    }
    assert CrlfAt(data, |prefix| + |t|);
  }

  lemma ParseOfBulk(t: string, tail: string)
    requires |t| <= INT64_MAX && CrlfFree(t)
    ensures Parse(Encode(BulkString(t)) + tail)
         == Parsed(BulkString(t), |Encode(BulkString(t))|)
  {
    hide Parse, HeaderLine, FindCrlf, Stoll, FromInt;
    var prefix := "$" + FromInt(|t|) + CRLF;
    var data := prefix + t + CRLF + tail;
    FindCrlfAfter(prefix, t, tail);
    assert data == ['$'] + FromInt(|t|) + CRLF + (t + CRLF + tail);
    NumberLine('$', |t|, t + CRLF + tail);
    BulkAt(data, FromInt(|t|), |prefix|, |t|);
    assert data[|prefix|..|prefix| + |t|] == t;
    assert Encode(BulkString(t)) + tail == data;
  }

  lemma LineAt(data: string, line: string, start: nat)
    requires data != [] && data[0] != '\r' && HeaderLine(data) == Parsed(line, start)
    ensures data[0] == '+' ==> Parse(data) == Parsed(SimpleString(line), start)
    ensures data[0] == '-' ==> Parse(data) == Parsed(Error(line), start)
    ensures data[0] == ':' && Stoll(line).Some? ==> Parse(data) == Parsed(Integer(Stoll(line).value), start)
    ensures data[0] == '$' && Stoll(line) == Some(-1) ==> Parse(data) == Parsed(NullVal, start)
  {
  }

  lemma BulkAt(data: string, line: string, start: nat, len: nat)
    requires data != [] && data[0] == '$'
    requires HeaderLine(data) == Parsed(line, start) && Stoll(line) == Some(len)
    requires FindCrlf(data, start) == Some(start + len)
    ensures Parse(data) == Parsed(BulkString(data[start..start + len]), start + len + 2)
  {
  }

  lemma ArrayAt(data: string, line: string, start: nat, elems: seq<RespValue>, n: nat)
    requires data != [] && data[0] == '*'
    requires HeaderLine(data) == Parsed(line, start) && Stoll(line) == Some(|elems|)
    requires ParseElements(data[start..], |elems|) == Parsed(elems, n)
    ensures Parse(data) == Parsed(Array(elems), start + n)
  {
  }

  /** Whatever the bytes, a value read contains no line end inside a text. */
  lemma {:induction false} ParseTransparent(data: string)
    requires Parse(data).Parsed?
    ensures Transparent(Parse(data).value)
    decreases |data|, 0
  {
    if data[0] == '$' {
      var start := HeaderLine(data).consumed;
      var len := Stoll(HeaderLine(data).value).value;
      if len >= 0 {
        var t := data[start..start + len];
        assert forall i :: CrlfAt(t, i) ==> CrlfAt(data, start + i);
      }
    } else if data[0] == '*' {
      var start := HeaderLine(data).consumed;
      ParseElementsTransparent(data[start..], Stoll(HeaderLine(data).value).value);
    }
  }

  lemma {:induction false} ParseElementsTransparent(data: string, count: nat)
    requires ParseElements(data, count).Parsed?
    ensures Transparent(Array(ParseElements(data, count).value))
    decreases |data|, 1
  {
    if count > 0 {
      ParseTransparent(data);
      ParseElementsTransparent(data[Parse(data).consumed..], count - 1);
    }
  }

  /** Exactly which values survive a write and a read. */
  lemma RoundTripIff(v: RespValue, tail: string)
    requires Representable(v)
    ensures Parse(Encode(v) + tail) == Parsed(v, |Encode(v)|) <==> Transparent(v)
  {
    if Transparent(v) {
      ParseOfEncode(v, tail);
    } else if Parse(Encode(v) + tail) == Parsed(v, |Encode(v)|) {
      ParseTransparent(Encode(v) + tail);
    }
  }

  // ---------- what is read, exactly ----------

  /** A line of kind, a text that reads as the number n, and what belongs to it. */
  ghost predicate Announces(text: string, kind: char, line: string, n: int, body: string) {
    text == [kind] + line + CRLF + body && CrlfFree(line) && Stoll(line) == Some(n)
  }

  /** The texts that stand for a value. A number may have white space, a sign or zeros in front
      and anything but a line end behind. */
  ghost predicate Form(text: string, v: RespValue)
    decreases v, 0
  {
    match v
    case SimpleString(t) => text == "+" + t + CRLF && CrlfFree(t)
    case Error(t) => text == "-" + t + CRLF && CrlfFree(t)
    case Integer(i) => exists line :: Announces(text, ':', line, i, "")
    case BulkString(t) => CrlfFree(t) && exists line :: Announces(text, '$', line, |t|, t + CRLF)
    case Array(vs) => exists line, body :: Announces(text, '*', line, |vs|, body) && FormAll(body, vs)
    case NullVal => exists line :: Announces(text, '$', line, -1, "")
    case Nil => false
  }

  /** Values one after the other. */
  ghost predicate FormAll(text: string, vs: seq<RespValue>)
    decreases vs, 1
  {
    if vs == [] then text == ""
    else exists head, rest :: text == head + rest && Form(head, vs[0]) && FormAll(rest, vs[1..])
  }

  lemma AnnouncedLine(text: string, kind: char, line: string, n: int, body: string, tail: string)
    requires Announces(text, kind, line, n, body) && kind != '\r'
    ensures var data := text + tail;
      && data != [] && data[0] == kind && HeaderLine(data) == Parsed(line, |line| + 3)
      && data[|line| + 3..] == body + tail && |text| == |line| + 3 + |body|
  {
    hide HeaderLine;
    assert text + tail == [kind] + line + CRLF + (body + tail);
    HeaderLineOf(kind, line, body + tail);
  }

  lemma BulkRead(text: string, line: string, t: string, tail: string)
    requires CrlfFree(t) && Announces(text, '$', line, |t|, t + CRLF)
    ensures Parse(text + tail) == Parsed(BulkString(t), |text|)
  {
    hide Parse, HeaderLine, FindCrlf, CrlfFree;
    AnnouncedLine(text, '$', line, |t|, t + CRLF, tail);
    var prefix := "$" + line + CRLF;
    FindCrlfAfter(prefix, t, tail);
    assert text + tail == prefix + t + CRLF + tail;
    BulkAt(text + tail, line, |prefix|, |t|);
    assert (prefix + t + CRLF + tail)[|prefix|..|prefix| + |t|] == t;
  }

  lemma TextRead(text: string, v: RespValue, tail: string)
    requires Form(text, v) && (v.SimpleString? || v.Error?)
    ensures Parse(text + tail) == Parsed(v, |text|)
  {
    hide Parse, HeaderLine, CrlfFree;
    var kind := if v.SimpleString? then '+' else '-';
    HeaderLineOf(kind, v.str, tail);
    assert text + tail == [kind] + v.str + CRLF + tail;
    LineAt(text + tail, v.str, |v.str| + 3);
  }

  lemma NumberRead(text: string, v: RespValue, tail: string)
    requires Form(text, v) && (v.Integer? || v.NullVal?)
    ensures Parse(text + tail) == Parsed(v, |text|)
  {
    hide Parse, HeaderLine, Announces;
    var kind, i := if v.Integer? then ':' else '$', if v.Integer? then v.integ else -1;
    var line :| Announces(text, kind, line, i, "");
    AnnouncedLine(text, kind, line, i, "", tail);
    NumberOf(text, kind, line, i);
    LineAt(text + tail, line, |line| + 3);
  }

  lemma NumberOf(text: string, kind: char, line: string, i: int)
    requires Announces(text, kind, line, i, "")
    ensures Stoll(line) == Some(i)
  {
    hide Stoll;
  }

  /** Each of these texts is read as its value, whatever follows. */
  lemma {:induction false} FormRead(text: string, v: RespValue, tail: string)
    requires Form(text, v)
    ensures Parse(text + tail) == Parsed(v, |text|)
    decreases v, 0
  {
    hide Parse, HeaderLine, FormAll, Announces, CrlfFree;
    if v.SimpleString? || v.Error? {
      TextRead(text, v, tail);
    } else if v.Integer? || v.NullVal? {
      NumberRead(text, v, tail);
    } else if v.BulkString? {
      var line :| Announces(text, '$', line, |v.str|, v.str + CRLF);
      BulkRead(text, line, v.str, tail);
    } else {
      var line, body :| Announces(text, '*', line, |v.arr|, body) && FormAll(body, v.arr);
      FormAllRead(body, v.arr, tail);
      ArrayRead(text, line, body, v.arr, tail);
    }
  }

  lemma ArrayRead(text: string, line: string, body: string, vs: seq<RespValue>, tail: string)
    requires Announces(text, '*', line, |vs|, body) && ParseElements(body + tail, |vs|) == Parsed(vs, |body|)
    ensures Parse(text + tail) == Parsed(Array(vs), |text|)
  {
    hide Parse, ParseElements, HeaderLine, CrlfFree, Stoll;
    AnnouncedLine(text, '*', line, |vs|, body, tail);
    ArrayAt(text + tail, line, |line| + 3, vs, |body|);
  }

  lemma {:induction false} FormAllRead(text: string, vs: seq<RespValue>, tail: string)
    requires FormAll(text, vs)
    ensures ParseElements(text + tail, |vs|) == Parsed(vs, |text|)
    decreases vs, 1
  {
    hide Parse, Form, ParseElements;
    if vs == [] {
      NoElements(text + tail);
    } else {
      var head, rest :| text == head + rest && Form(head, vs[0]) && FormAll(rest, vs[1..]);
      FormRead(head, vs[0], rest + tail);
      FormAllRead(rest, vs[1..], tail);
      assert text + tail == head + (rest + tail);
      FirstElement(head, rest + tail, vs, |rest|);
    }
  }

  lemma FirstElement(head: string, rest: string, vs: seq<RespValue>, n: nat)
    requires vs != [] && Parse(head + rest) == Parsed(vs[0], |head|) && ParseElements(rest, |vs| - 1) == Parsed(vs[1..], n)
    ensures ParseElements(head + rest, |vs|) == Parsed(vs, |head| + n)
  {
    hide Parse;
    assert (head + rest)[|head|..] == rest;
    assert [vs[0]] + vs[1..] == vs;
  }

  lemma HeaderText(data: string)
    requires data != [] && data[0] != '\r' && HeaderLine(data).Parsed?
    ensures var line, start := HeaderLine(data).value, HeaderLine(data).consumed;
      data[..start] == [data[0]] + line + CRLF && CrlfFree(line)
  {
    var start := HeaderLine(data).consumed;
    assert CrlfAt(data, start - 2);
    assert data[..start] == [data[0]] + data[1..start - 2] + data[start - 2..start];
    assert data[start - 2..start] == CRLF;
  }

  lemma BulkParts(data: string)
    requires data != [] && data[0] == '$' && Parse(data).Parsed?
    ensures HeaderLine(data).Parsed? && Stoll(HeaderLine(data).value).Some?
    ensures var line, start, len := HeaderLine(data).value, HeaderLine(data).consumed, Stoll(HeaderLine(data).value).value;
      if len == -1 then Parse(data) == Parsed(NullVal, start)
      else
        && 0 <= len && start + len <= |data| && FindCrlf(data, start) == Some(start + len)
        && Parse(data) == Parsed(BulkString(data[start..start + len]), start + len + 2)
  {
    hide HeaderLine, FindCrlf, Stoll;
  }

  lemma TextBeforeCrlf(data: string, start: nat, end: nat)
    requires FindCrlf(data, start) == Some(end)
    ensures end + 2 <= |data| && CrlfFree(data[start..end]) && data[end..end + 2] == CRLF
  {
    hide FindCrlf;
    var t := data[start..end];
    forall i
      ensures !CrlfAt(t, i)
    {
      assert CrlfAt(t, i) ==> CrlfAt(data, start + i);
    }
  }

  lemma BulkForm(data: string)
    requires data != [] && data[0] == '$' && Parse(data).Parsed?
    ensures Form(data[..Parse(data).consumed], Parse(data).value)
  {
    hide Parse, HeaderLine, FindCrlf, CrlfFree, Stoll;
    BulkParts(data);
    HeaderText(data);
    var line, start := HeaderLine(data).value, HeaderLine(data).consumed;
    var len := Stoll(line).value;
    if len == -1 {
      assert data[..start] == ['$'] + line + CRLF + "";
      assert Announces(data[..start], '$', line, -1, "");
    } else {
      TextBeforeCrlf(data, start, start + len);
      var t := data[start..start + len];
      var n := start + len + 2;
      assert data[..n] == data[..start] + (t + data[start + len..n]);
      assert Announces(data[..n], '$', line, len, t + CRLF);
    }
  }

  lemma LineForm(data: string)
    requires data != [] && data[0] in {'+', '-', ':'} && Parse(data).Parsed?
    ensures Form(data[..Parse(data).consumed], Parse(data).value)
  {
    HeaderText(data);
    hide HeaderLine, CrlfFree;
    var line, start := HeaderLine(data).value, HeaderLine(data).consumed;
    if data[0] == ':' {
      assert data[..start] == [':'] + line + CRLF + "";
      assert Announces(data[..start], ':', line, Parse(data).value.integ, "");
    }
  }

  lemma ArrayParts(data: string)
    requires data != [] && data[0] == '*' && Parse(data).Parsed?
    ensures HeaderLine(data).Parsed?
    ensures var line, start := HeaderLine(data).value, HeaderLine(data).consumed;
      && Parse(data).value.Array? && Stoll(line) == Some(|Parse(data).value.arr|)
      && ParseElements(data[start..], |Parse(data).value.arr|) == Parsed(Parse(data).value.arr, Parse(data).consumed - start)
  {
    hide HeaderLine, Stoll, ParseElements;
  }

  lemma ArrayForm(head: string, line: string, body: string, vs: seq<RespValue>)
    requires head == ['*'] + line + CRLF && CrlfFree(line) && Stoll(line) == Some(|vs|) && FormAll(body, vs)
    ensures Form(head + body, Array(vs))
  {
    hide FormAll, CrlfFree, Stoll;
    assert Announces(head + body, '*', line, |vs|, body);
  }

  lemma ArrayWhole(data: string, vs: seq<RespValue>, n: nat)
    requires data != [] && data[0] == '*' && HeaderLine(data).Parsed? && HeaderLine(data).consumed <= n <= |data|
    requires Stoll(HeaderLine(data).value) == Some(|vs|) && FormAll(data[HeaderLine(data).consumed..][..n - HeaderLine(data).consumed], vs)
    ensures Form(data[..n], Array(vs))
  {
    hide HeaderLine, Form, FormAll, Stoll, CrlfFree;
    HeaderText(data);
    var start := HeaderLine(data).consumed;
    ArrayForm(data[..start], HeaderLine(data).value, data[start..][..n - start], vs);
    assert data[..n] == data[..start] + data[start..][..n - start];
  }

  /** And whatever is read stood there in one of these texts. */
  lemma {:induction false} ReadForm(data: string)
    requires Parse(data).Parsed?
    ensures Form(data[..Parse(data).consumed], Parse(data).value)
    decreases |data|, 0
  {
    KindRead(data);
    hide Parse, Form, HeaderLine, FormAll, Stoll, CrlfFree, ParseElements;
    if data[0] == '$' {
      BulkForm(data);
    } else if data[0] == '*' {
      ArrayParts(data);
      ReadFormAll(data[HeaderLine(data).consumed..], |Parse(data).value.arr|);
      ArrayWhole(data, Parse(data).value.arr, Parse(data).consumed);
    } else {
      LineForm(data);
    }
  }

  lemma KindRead(data: string)
    requires Parse(data).Parsed?
    ensures data != [] && data[0] in {'+', '-', ':', '$', '*'}
  {
  }

  lemma {:induction false} ReadFormAll(data: string, count: nat)
    requires ParseElements(data, count).Parsed?
    ensures FormAll(data[..ParseElements(data, count).consumed], ParseElements(data, count).value)
    decreases |data|, 1
  {
    hide Parse, Form;
    if count > 0 {
      ReadForm(data);
      var n := Parse(data).consumed;
      var rest := data[n..];
      ReadFormAll(rest, count - 1);
      var m := ParseElements(rest, count - 1).consumed;
      assert data[..n + m] == data[..n] + rest[..m];
      var vs := ParseElements(data, count).value;
      assert vs[1..] == ParseElements(rest, count - 1).value;
      assert Form(data[..n], vs[0]) && FormAll(rest[..m], vs[1..]);
    }
  }

  /** The parser reads a value from the front of the data exactly when one of its texts is there. */
  lemma ParseIff(data: string, v: RespValue, n: nat)
    ensures Parse(data) == Parsed(v, n) <==> n <= |data| && Form(data[..n], v)
  {
    hide Parse, Form;
    if Parse(data) == Parsed(v, n) {
      ReadForm(data);
    }
    if n <= |data| && Form(data[..n], v) {
      assert data[..n] + data[n..] == data;
      FormRead(data[..n], v, data[n..]);
    }
  }

  // ---------- reading back what was written ----------

  lemma NumberText(i: int)
    requires INT64_MIN <= i <= INT64_MAX
    ensures CrlfFree(FromInt(i)) && Stoll(FromInt(i)) == Some(i)
  {
    NumberLine(':', i, "");
  }

  lemma NumberForm(v: RespValue)
    requires v.Integer? && INT64_MIN <= v.integ <= INT64_MAX
    ensures Form(Encode(v), v)
  {
    NumberText(v.integ);
    hide FromInt, Stoll, CrlfFree;
    assert Encode(v) == [':'] + FromInt(v.integ) + CRLF + "";
    assert Announces(Encode(v), ':', FromInt(v.integ), v.integ, "");
  }

  lemma NullForm()
    ensures Form(Encode(NullVal), NullVal)
  {
    NumberText(-1);
    assert FromInt(1) == "1" && FromInt(-1) == "-1";
    hide FromInt, Stoll, CrlfFree;
    assert Encode(NullVal) == ['$'] + "-1" + CRLF + "";
    assert Announces(Encode(NullVal), '$', "-1", -1, "");
  }

  lemma BulkEncoded(t: string)
    requires |t| <= INT64_MAX && CrlfFree(t)
    ensures Form(Encode(BulkString(t)), BulkString(t))
  {
    NumberText(|t|);
    hide FromInt, Stoll, CrlfFree;
    assert Encode(BulkString(t)) == ['$'] + FromInt(|t|) + CRLF + (t + CRLF);
    assert Announces(Encode(BulkString(t)), '$', FromInt(|t|), |t|, t + CRLF);
  }

  lemma ArrayEncoded(vs: seq<RespValue>)
    requires |vs| <= INT64_MAX && FormAll(EncodeAll(vs), vs)
    ensures Form(Encode(Array(vs)), Array(vs))
  {
    NumberText(|vs|);
    hide FromInt, Stoll, CrlfFree, FormAll, EncodeAll;
    ArrayForm(['*'] + FromInt(|vs|) + CRLF, FromInt(|vs|), EncodeAll(vs), vs);
    assert Encode(Array(vs)) == ['*'] + FromInt(|vs|) + CRLF + EncodeAll(vs);
  }

  /** The encoder writes one of the texts that stand for its value. */
  lemma {:induction false} EncodeForm(v: RespValue)
    requires Representable(v) && Transparent(v)
    ensures Form(Encode(v), v)
    decreases v, 0
  {
    match v
    case Integer(_) => NumberForm(v);
    case BulkString(t) => BulkEncoded(t);
    case NullVal => NullForm();
    case Array(vs) =>
      EncodeAllForm(vs);
      ArrayEncoded(vs);
    case _ =>
  }

  lemma {:induction false} EncodeAllForm(vs: seq<RespValue>)
    requires forall i :: 0 <= i < |vs| ==> Representable(vs[i]) && Transparent(vs[i])
    ensures FormAll(EncodeAll(vs), vs)
    decreases vs, 1
  {
    hide Encode, Form, Representable, Transparent;
    if vs != [] {
      EncodeForm(vs[0]);
      EncodeAllForm(vs[1..]);
      assert EncodeAll(vs) == Encode(vs[0]) + EncodeAll(vs[1..]);
    }
  }

  /** Reading back what was written, whatever bytes follow. */
  lemma ParseOfEncode(v: RespValue, tail: string)
    requires Representable(v) && Transparent(v)
    ensures Parse(Encode(v) + tail) == Parsed(v, |Encode(v)|)
  {
    hide Parse, Encode, Form;
    EncodeForm(v);
    FormRead(Encode(v), v, tail);
  }
}
