/** Text cut at a separator, as loadFromFile cuts the dump into lines and fields. */
module Delimited {

  /** First position of c, or the length when c does not occur. */
  function IndexOf(s: string, c: char): (i: nat)
    ensures i <= |s| && c !in s[..i] && (i < |s| ==> s[i] == c)
  {
    if s == [] || s[0] == c then 0
    else
      var i := 1 + IndexOf(s[1..], c);
      assert s[..i] == [s[0]] + s[1..][..i - 1];
      i
  }

  /** The pieces between the separators; one piece when there is none. */
  function Cut(s: string, c: char): (parts: seq<string>)
    ensures |parts| >= 1
    decreases |s|
  {
    var i := IndexOf(s, c);
    if i == |s| then [s] else [s[..i]] + Cut(s[i + 1..], c)
  }

  function Glue(parts: seq<string>, c: char): string
    requires |parts| >= 1
  {
    if |parts| == 1 then parts[0] else parts[0] + [c] + Glue(parts[1..], c)
  }

  predicate AllFree(parts: seq<string>, c: char) {
    forall i :: 0 <= i < |parts| ==> c !in parts[i]
  }

  lemma {:induction false} IndexOfFront(s: string, c: char, tail: string)
    requires c !in s
    ensures IndexOf(s + [c] + tail, c) == |s|
    ensures IndexOf(s, c) == |s|
  {
    if s != [] {
      IndexOfFront(s[1..], c, tail);
      assert s[0] in s;
      assert (s + [c] + tail)[1..] == s[1..] + [c] + tail;
    }
  }

  lemma {:induction false} CutOfGlue(parts: seq<string>, c: char)
    requires |parts| >= 1 && AllFree(parts, c)
    ensures Cut(Glue(parts, c), c) == parts
  {
    if |parts| == 1 {
      IndexOfFront(parts[0], c, "");
    } else {
      var rest := Glue(parts[1..], c);
      IndexOfFront(parts[0], c, rest);
      var t := parts[0] + [c] + rest;
      assert t[..|parts[0]|] == parts[0] && t[|parts[0]| + 1..] == rest;
      CutOfGlue(parts[1..], c);
    }
  }

  lemma {:induction false} CutFree(s: string, c: char)
    ensures AllFree(Cut(s, c), c)
    decreases |s|
  {
    hide IndexOf;
    var i := IndexOf(s, c);
    if i == |s| {
      assert s[..i] == s;
    } else {
      CutFree(s[i + 1..], c);
      FreeCons(s[..i], Cut(s[i + 1..], c), c);
    }
  }

  lemma FreeCons(part: string, parts: seq<string>, c: char)
    requires c !in part && AllFree(parts, c)
    ensures AllFree([part] + parts, c)
  {
  }

  /** Cutting undoes the join exactly when no piece contains the separator. */
  lemma CutOfGlueIff(parts: seq<string>, c: char)
    requires |parts| >= 1
    ensures Cut(Glue(parts, c), c) == parts <==> AllFree(parts, c)
  {
    CutFree(Glue(parts, c), c);
    if AllFree(parts, c) {
      CutOfGlue(parts, c);
    }
  }

  /** And joining always undoes the cut. */
  lemma {:induction false} GlueOfCut(s: string, c: char)
    ensures Glue(Cut(s, c), c) == s
    decreases |s|
  {
    hide IndexOf;
    var i := IndexOf(s, c);
    if i < |s| {
      GlueOfCut(s[i + 1..], c);
      GlueCons(s[..i], Cut(s[i + 1..], c), c);
      assert s == s[..i] + [c] + s[i + 1..];
    }
  }

  lemma GlueCons(part: string, parts: seq<string>, c: char)
    requires |parts| >= 1
    ensures Glue([part] + parts, c) == part + [c] + Glue(parts, c)
  {
    assert ([part] + parts)[1..] == parts;
  }

  lemma CutStep(s: string, c: char, parts: seq<string>)
    ensures var i := IndexOf(s, c);
      parts + Cut(s, c) == if i == |s| then parts + [s] else (parts + [s[..i]]) + Cut(s[i + 1..], c)
  {
    hide IndexOf;
    var i := IndexOf(s, c);
    if i < |s| {
      var rest := Cut(s[i + 1..], c);
      assert parts + ([s[..i]] + rest) == (parts + [s[..i]]) + rest;
    }
  }

  /** The loop of loadFromFile: the line is eaten from the front. */
  method Split(text: string, c: char) returns (parts: seq<string>)
    ensures parts == Cut(text, c)
  {
    hide IndexOf, Cut;
    parts := [];
    var line := text;
    var pos := IndexOf(line, c);
    assert [] + Cut(text, c) == Cut(text, c);
    while pos < |line|
      invariant parts + Cut(line, c) == Cut(text, c)
      invariant pos == IndexOf(line, c)
      decreases |line|
    {
      CutStep(line, c, parts);
      parts := parts + [line[..pos]];
      line := line[pos + 1..];
      pos := IndexOf(line, c);
    }
    CutStep(line, c, parts);
    parts := parts + [line];
  }

  // ---------- lines ----------

  /** What std::getline delivers: a final piece without a line end counts, an empty one does not. */
  function Lines(file: string): seq<string>
    decreases |file|
  {
    if file == [] then []
    else
      var i := IndexOf(file, '\n');
      if i == |file| then [file] else [file[..i]] + Lines(file[i + 1..])
  }

  function FileText(lines: seq<string>): string {
    if lines == [] then [] else lines[0] + ['\n'] + FileText(lines[1..])
  }

  lemma {:induction false} LinesOfText(lines: seq<string>)
    requires AllFree(lines, '\n')
    ensures Lines(FileText(lines)) == lines
  {
    if lines != [] {
      var rest := FileText(lines[1..]);
      IndexOfFront(lines[0], '\n', rest);
      var t := lines[0] + ['\n'] + rest;
      assert t[..|lines[0]|] == lines[0] && t[|lines[0]| + 1..] == rest;
      LinesOfText(lines[1..]);
    }
  }

  lemma {:induction false} LinesFree(file: string)
    ensures AllFree(Lines(file), '\n')
    decreases |file|
  {
    if file != [] {
      var i := IndexOf(file, '\n');
      if i == |file| {
        assert file[..i] == file;
      } else {
        LinesFree(file[i + 1..]);
      }
    }
  }

  lemma LinesOfTextIff(lines: seq<string>)
    ensures Lines(FileText(lines)) == lines <==> AllFree(lines, '\n')
  {
    LinesFree(FileText(lines));
    if AllFree(lines, '\n') {
      LinesOfText(lines);
    }
  }

  /** A piece of a line has no character the line does not have. */
  lemma {:induction false} CutWithin(s: string, c: char, other: char)
    requires other !in s
    ensures AllFree(Cut(s, c), other)
    decreases |s|
  {
    var i := IndexOf(s, c);
    if i < |s| {
      CutWithin(s[i + 1..], c, other);
    }
  }

  lemma {:induction false} GlueWithin(parts: seq<string>, c: char, other: char)
    requires |parts| >= 1 && AllFree(parts, other) && other != c
    ensures other !in Glue(parts, c)
  {
    if |parts| > 1 {
      GlueWithin(parts[1..], c, other);
    }
  }
}
