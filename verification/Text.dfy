/** Decimal text as std::to_string, std::stoi, std::stoll and std::stoull produce and read it.
    A string is a sequence of bytes: every char stands for one byte. */
module Text {

  datatype Option<+T> = None | Some(value: T)

  const INT_MIN: int := -0x8000_0000
  const INT_MAX: int := 0x7FFF_FFFF
  const INT64_MIN: int := -0x8000_0000_0000_0000
  const INT64_MAX: int := 0x7FFF_FFFF_FFFF_FFFF
  const SIZE_LIMIT: int := 0x1_0000_0000_0000_0000

  predicate IsDigit(c: char) {
    '0' <= c <= '9'
  }

  predicate AllDigits(s: string) {
    forall i :: 0 <= i < |s| ==> IsDigit(s[i])
  }

  function FromNat(n: nat): (s: string)
    ensures |s| > 0 && AllDigits(s)
  {
    var last := [('0' as int + n % 10) as char];
    if n < 10 then last else FromNat(n / 10) + last
  }

  function FromInt(i: int): (s: string)
    ensures |s| > 0
    ensures forall j :: 0 <= j < |s| ==> IsDigit(s[j]) || s[j] == '-'
  {
    if i < 0 then "-" + FromNat(-i) else FromNat(i)
  }

  function DigitsValue(s: string): nat
    requires AllDigits(s)
  {
    if s == [] then 0
    else DigitsValue(s[..|s| - 1]) * 10 + (s[|s| - 1] as int - '0' as int)
  }

  /** Length of the longest run of digits at the front of s. */
  function DigitRun(s: string): (n: nat)
    ensures n <= |s| && AllDigits(s[..n])
    ensures n < |s| ==> !IsDigit(s[n])
  {
    if s == [] || !IsDigit(s[0]) then 0
    else
      var n := 1 + DigitRun(s[1..]);
      assert forall i :: 1 <= i < n ==> s[i] == s[1..][i - 1];
      n
  }

  predicate IsSpace(c: char) {
    c == ' ' || ('\t' <= c <= '\r')
  }

  function SkipSpace(s: string): (r: string)
    ensures |r| <= |s|
  {
    if s != [] && IsSpace(s[0]) then SkipSpace(s[1..]) else s
  }

  /** The C conversion behind std::stoi and std::stoll: white space, a sign, then
      digits; trailing text is ignored. None stands for the exceptions thrown when there
      is no digit or the value is outside lo..hi. */
  function ParseInt(s: string, lo: int, hi: int): (r: Option<int>)
    ensures r.Some? ==> lo <= r.value <= hi
  {
    var t := SkipSpace(s);
    var signed := t != [] && (t[0] == '-' || t[0] == '+');
    var body := if signed then t[1..] else t;
    var n := DigitRun(body);
    if n == 0 then None
    else
      var magnitude := DigitsValue(body[..n]);
      var v: int := if signed && t[0] == '-' then 0 - magnitude else magnitude;
      if lo <= v <= hi then Some(v) else None
  }

  function Stoi(s: string): Option<int> {
    ParseInt(s, INT_MIN, INT_MAX)
  }

  function Stoll(s: string): Option<int> {
    ParseInt(s, INT64_MIN, INT64_MAX)
  }

  /** std::stoull: a minus sign negates modulo 2^64. */
  function Stoull(s: string): Option<nat> {
    match ParseInt(s, 1 - SIZE_LIMIT, SIZE_LIMIT - 1)
    case None => None
    case Some(v) => Some(if v < 0 then v + SIZE_LIMIT else v)
  }

  lemma {:induction false} DigitsValueOfFromNat(n: nat)
    ensures DigitsValue(FromNat(n)) == n
  {
    var s := FromNat(n);
    if n >= 10 {
      assert s[..|s| - 1] == FromNat(n / 10);
      DigitsValueOfFromNat(n / 10);
    } else {
      assert s[..|s| - 1] == [];
    }
  }

  lemma {:induction false} DigitRunOfDigits(s: string, tail: string)
    requires AllDigits(s)
    requires tail == [] || !IsDigit(tail[0])
    ensures DigitRun(s + tail) == |s|
  {
    if s == [] {
      assert s + tail == tail;
    } else {
      DigitRunOfDigits(s[1..], tail);
      assert (s + tail)[1..] == s[1..] + tail;
    }
  }

  /** Printing and reading a number back gives the number, whatever follows it. */
  lemma {:induction false} IntRoundTrip(i: int, lo: int, hi: int, tail: string)
    requires lo <= i <= hi
    requires tail == [] || !IsDigit(tail[0])
    ensures ParseInt(FromInt(i) + tail, lo, hi) == Some(i)
  {
    var digits := FromNat(if i < 0 then -i else i);
    var s := FromInt(i) + tail;
    DigitRunOfDigits(digits, tail);
    DigitsValueOfFromNat(if i < 0 then -i else i);
    assert s == if i < 0 then "-" + (digits + tail) else digits + tail;
    assert !IsSpace(s[0]);
    assert (digits + tail)[..|digits|] == digits;
  }

  /** isspace in the C locale: blank, tab, line feed, vertical tab, form feed, carriage return. */
  lemma SpaceIff(c: char)
    ensures IsSpace(c) <==> c as int in {32, 9, 10, 11, 12, 13}
  {
  }

  /** std::stoull reads a number of less than 65 bits and gives its remainder modulo 2^64. */
  lemma StoullIff(s: string, v: nat)
    ensures Stoull(s) == Some(v) <==>
      exists n :: ParseInt(s, -0xFFFF_FFFF_FFFF_FFFF, 0xFFFF_FFFF_FFFF_FFFF) == Some(n) && v == n % 0x1_0000_0000_0000_0000
  {
    hide ParseInt;
  }

  lemma {:induction false} SpaceSkipped(space: string, rest: string)
    requires (forall i :: 0 <= i < |space| ==> IsSpace(space[i])) && (rest != [] ==> !IsSpace(rest[0]))
    ensures SkipSpace(space + rest) == rest
  {
    if space == [] {
      assert space + rest == rest;
    } else {
      SpaceSkipped(space[1..], rest);
      assert (space + rest)[1..] == space[1..] + rest;
    }
  }

  lemma {:induction false} SpaceInFront(s: string) returns (space: string)
    ensures s == space + SkipSpace(s) && forall i :: 0 <= i < |space| ==> IsSpace(space[i])
    ensures SkipSpace(s) != [] ==> !IsSpace(SkipSpace(s)[0])
  {
    if s != [] && IsSpace(s[0]) {
      space := SpaceInFront(s[1..]);
      assert s == [s[0]] + s[1..];
      space := [s[0]] + space;
    } else {
      space := [];
    }
  }

  /** White space, a sign or none, digits, and what does not begin with a digit. */
  ghost predicate IsNumber(s: string, sign: string, digits: string) {
    && sign in {"", "+", "-"} && digits != [] && AllDigits(digits)
    && exists space, tail :: Around(s, space, sign, digits, tail)
  }

  ghost predicate Around(s: string, space: string, sign: string, digits: string, tail: string) {
    && s == space + (sign + digits + tail) && (forall i :: 0 <= i < |space| ==> IsSpace(space[i]))
    && (tail != [] ==> !IsDigit(tail[0]))
  }

  lemma NumberParsed(s: string, sign: string, digits: string, lo: int, hi: int)
    requires IsNumber(s, sign, digits)
    ensures var v := if sign == "-" then 0 - DigitsValue(digits) else DigitsValue(digits);
      ParseInt(s, lo, hi) == if lo <= v <= hi then Some(v) else None
  {
    var space, tail :| Around(s, space, sign, digits, tail);
    var rest := sign + digits + tail;
    assert rest[0] == if sign == "" then digits[0] else sign[0];
    SpaceSkipped(space, rest);
    DigitRunOfDigits(digits, tail);
    var body := digits + tail;
    assert rest == sign + body && body[0] == digits[0];
    assert (if sign == "" then rest else rest[1..]) == body;
    assert body[..|digits|] == digits;
  }

  lemma ParsedNumber(s: string, lo: int, hi: int) returns (sign: string, digits: string)
    requires ParseInt(s, lo, hi).Some?
    ensures IsNumber(s, sign, digits)
  {
    hide DigitsValue, SkipSpace, IsSpace;
    var space := SpaceInFront(s);
    var t := SkipSpace(s);
    var tail;
    sign, digits, tail := SignAndDigits(t);
    assert Around(s, space, sign, digits, tail);
  }

  lemma SignAndDigits(t: string) returns (sign: string, digits: string, tail: string)
    ensures t == sign + digits + tail && sign in {"", "+", "-"} && AllDigits(digits) && (tail != [] ==> !IsDigit(tail[0]))
    ensures var signed := t != [] && (t[0] == '-' || t[0] == '+'); |digits| == DigitRun(if signed then t[1..] else t)
  {
    var signed := t != [] && (t[0] == '-' || t[0] == '+');
    var body := if signed then t[1..] else t;
    var n := DigitRun(body);
    sign, digits, tail := if signed then [t[0]] else "", body[..n], body[n..];
    hide DigitRun;
    assert t == sign + body && body == digits + tail;
  }

  ghost predicate Denotes(s: string, sign: string, digits: string, v: int) {
    IsNumber(s, sign, digits) && v == (if sign == "-" then 0 - DigitsValue(digits) else DigitsValue(digits))
  }

  /** A number is read exactly from a text of that form whose value is in range. */
  lemma ReadIff(s: string, lo: int, hi: int, v: int)
    ensures ParseInt(s, lo, hi) == Some(v) <==>
      && lo <= v <= hi
      && exists sign, digits :: Denotes(s, sign, digits, v)
  {
    hide ParseInt;
    if ParseInt(s, lo, hi).Some? {
      var sign, digits := ParsedNumber(s, lo, hi);
      NumberParsed(s, sign, digits, lo, hi);
      assert Denotes(s, sign, digits, ParseInt(s, lo, hi).value);
    }
    if sign, digits :| Denotes(s, sign, digits, v) {
      NumberParsed(s, sign, digits, lo, hi);
    }
  }

  /** One more digit behind a number. */
  lemma DigitsPlaces(s: string, d: nat)
    requires AllDigits(s) && d < 10
    ensures DigitsValue(s + ["0123456789"[d]]) == 10 * DigitsValue(s) + d
  {
    assert (s + ["0123456789"[d]])[..|s|] == s;
  }

  /** ::toupper over a command name, in the C locale. */
  function ToUpper(s: string): (r: string)
    ensures |r| == |s|
  {
    seq(|s|, i requires 0 <= i < |s| =>
      if 'a' <= s[i] <= 'z' then (s[i] as int - 32) as char else s[i])
  }

  /** Only the 26 small letters change, each into its capital. */
  lemma UpperLetters(s: string, i: nat)
    requires i < |s|
    ensures forall k :: 0 <= k < 26 && s[i] == "abcdefghijklmnopqrstuvwxyz"[k] ==>
      ToUpper(s)[i] == "ABCDEFGHIJKLMNOPQRSTUVWXYZ"[k]
    ensures s[i] !in "abcdefghijklmnopqrstuvwxyz" ==> ToUpper(s)[i] == s[i]
  {
    var small := "abcdefghijklmnopqrstuvwxyz";
    if 'a' <= s[i] <= 'z' {
      assert small[s[i] as int - 'a' as int] == s[i];
    }
  }
}
