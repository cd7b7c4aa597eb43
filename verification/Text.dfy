/** Byte order of strings, and lines of text. */
module Text {

  // ----- the order of std::string::compare

  predicate Less(a: string, b: string) {
    b != "" && (a == "" || a[0] < b[0] || (a[0] == b[0] && Less(a[1..], b[1..])))
  }

  method Compare(a: string, b: string) returns (c: int)
    ensures c < 0 <==> Less(a, b)
    ensures c == 0 <==> a == b
  {
    var i := 0;
    while i < |a| && i < |b| && a[i] == b[i]
      invariant i <= |a| && i <= |b| && a[..i] == b[..i]
      invariant Less(a, b) == Less(a[i..], b[i..])
    {
      assert a[i..][1..] == a[i + 1..] && b[i..][1..] == b[i + 1..];
      i := i + 1;
    }
    assert a == a[..i] + a[i..] && b == b[..i] + b[i..];
    c := if i == |b| then (if i == |a| then 0 else 1)
         else if i == |a| || a[i] < b[i] then -1
         else 1;
  }

  lemma {:induction false} LessIrreflexive(a: string)
    ensures !Less(a, a)
  {
    if a != "" { LessIrreflexive(a[1..]); }
  }

  lemma {:induction false} LessTransitive(a: string, b: string, c: string)
    requires Less(a, b) && Less(b, c)
    ensures Less(a, c)
  {
    if a != "" && a[0] == b[0] == c[0] { LessTransitive(a[1..], b[1..], c[1..]); }
  }

  lemma {:induction false} LessTotal(a: string, b: string)
    ensures Less(a, b) || a == b || Less(b, a)
  {
    if a != "" && b != "" && a[0] == b[0] {
      LessTotal(a[1..], b[1..]);
      assert a == [a[0]] + a[1..] && b == [b[0]] + b[1..];
    }
  }

  lemma AtMostLess(a: string, b: string, c: string)
    requires !Less(b, a) && Less(b, c)
    ensures Less(a, c)
  {
    LessTotal(a, b);
    if Less(a, b) { LessTransitive(a, b, c); }
  }

  // ----- lines

  /** The text before the first newline. */
  function FirstLine(s: string): (line: string)
    ensures |line| <= |s| && line == s[..|line|]
    ensures '\n' !in line
    ensures |line| < |s| ==> s[|line|] == '\n'
  {
    if s == "" || s[0] == '\n' then "" else [s[0]] + FirstLine(s[1..])
  }

  /** The first line with its newline, when it has one. */
  function Chunk(s: string): (c: string)
    requires s != ""
    ensures 0 < |c| <= |s| && c == s[..|c|]
  {
    var line := FirstLine(s);
    if |line| < |s| then s[..|line| + 1] else s
  }

  predicate EndsLine(s: string) { s != "" && s[|s| - 1] == '\n' }

  function Lines(s: string): (lines: seq<string>)
    ensures forall i :: 0 <= i < |lines| ==> '\n' !in lines[i]
  {
    if s == "" then [] else [FirstLine(s)] + Lines(AfterLine(s))
  }

  function Unlines(lines: seq<string>): string {
    if lines == [] then "" else lines[0] + "\n" + Unlines(lines[1..])
  }

  function AfterLine(s: string): (rest: string)
    requires s != ""
    ensures |rest| < |s|
  {
    s[|Chunk(s)|..]
  }

  method SplitLines(s: string) returns (lines: seq<string>)
    ensures lines == Lines(s)
  {
    hide FirstLine, Lines, Chunk;
    lines := [];
    var start := 0;
    assert s[0..] == s;
    while start < |s|
      invariant start <= |s|
      invariant Lines(s) == lines + Lines(s[start..])
    {
      var line := FirstLine(s[start..]);
      LinesStep(s[start..]);
      lines := lines + [line];
      if start + |line| == |s| {
        LinesOfNothing();
        return;
      }
      assert s[start..][|line| + 1..] == s[start + |line| + 1..];
      start := start + |line| + 1;
    }
    assert s[start..] == "";
    LinesOfNothing();
  }

  lemma LinesOfNothing()
    ensures Lines("") == []
  {
  }

  lemma LinesStep(s: string)
    requires s != ""
    ensures Lines(s) == [FirstLine(s)] + Lines(AfterLine(s))
    ensures AfterLine(s) == if |FirstLine(s)| < |s| then s[|FirstLine(s)| + 1..] else ""
  {
  }

  lemma FirstLineIs(line: string, rest: string)
    requires '\n' !in line
    ensures FirstLine(line + "\n" + rest) == line
    ensures Chunk(line + "\n" + rest) == line + "\n"
  {
    hide FirstLine;
    var s := line + "\n" + rest;
    var f := FirstLine(s);
    assert forall i :: 0 <= i < |f| ==> f[i] == s[i];
    assert forall i :: 0 <= i < |line| ==> line[i] == s[i];
    assert s[|line|] == '\n';
    assert s[..|line|] == line;
    assert s[..|line| + 1] == line + "\n";
  }

  lemma {:induction false} LinesOfUnlines(lines: seq<string>)
    requires forall i :: 0 <= i < |lines| ==> '\n' !in lines[i]
    ensures Lines(Unlines(lines)) == lines
  {
    if lines != [] {
      var rest := Unlines(lines[1..]);
      LinesOfUnlines(lines[1..]);
      FirstLineIs(lines[0], rest);
      assert Unlines(lines)[|lines[0] + "\n"|..] == rest;
    }
  }

  lemma {:induction false} UnlinesOfLines(s: string)
    requires s == "" || EndsLine(s)
    ensures Unlines(Lines(s)) == s
  {
    hide FirstLine, Lines, Chunk, AfterLine;
    if s == "" {
      LinesOfNothing();
    } else {
      LinesStep(s);
      var line := FirstLine(s);
      assert forall i :: 0 <= i < |line| ==> line[i] == s[i];
      var rest := s[|line| + 1..];
      assert s == line + "\n" + rest;
      UnlinesOfLines(rest);
    }
  }

  lemma {:induction false} UnlinesConcat(a: seq<string>, b: seq<string>)
    ensures Unlines(a + b) == Unlines(a) + Unlines(b)
  {
    if a == [] {
      assert a + b == b;
    } else {
      UnlinesConcat(a[1..], b);
      assert (a + b)[1..] == a[1..] + b;
    }
  }
}
