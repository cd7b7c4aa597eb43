/** The validator of dump files, against a one-pass reading of their grammar. */
module DumpValidator {
  import opened Fields

  // ----- stripping

  function RStrip(s: string): (r: string)
    ensures |r| <= |s|
    decreases |s|
  {
    if s != "" && IsSpace(s[|s| - 1]) then RStrip(s[..|s| - 1]) else s
  }

  function LStrip(s: string): string
    decreases |s|
  {
    if s != "" && IsSpace(s[0]) then LStrip(s[1..]) else s
  }

  function Strip(s: string): string { RStrip(LStrip(s)) }

  lemma {:induction false} RStripKeepsStart(s: string)
    ensures RStrip(s) != "" ==> s != "" && RStrip(s)[0] == s[0]
    ensures s != "" && !IsSpace(s[0]) ==> RStrip(s) != ""
    decreases |s|
  {
    if s != "" && IsSpace(s[|s| - 1]) {
      RStripKeepsStart(s[..|s| - 1]);
    }
  }

  lemma StripOfHeader(s: string)
    requires IsHeader(RStrip(s))
    ensures Strip(s) == RStrip(s)
  {
    hide RStrip;
    RStripKeepsStart(s);
  }

  // ----- the grammar

  predicate IsHeader(line: string) { line == "pts" || line == "basicBlock" || line == "callGraph" }

  predicate IsKind(t: string) { t == "POS" || t == "ZERO" || t == "NEG" || t == "NULL" }

  /** A section and, once a line of it was read, how many columns its lines have. */
  datatype Section = Top | Points | Blocks(width: Option<nat>) | Calls(width: Option<nat>)

  function Start(header: string): Section {
    if header == "pts" then Points else if header == "basicBlock" then Blocks(None) else Calls(None)
  }

  predicate AllInts(tokens: seq<string>) { forall i :: 0 <= i < |tokens| ==> IsInt(tokens[i]) }

  predicate PointsLine(line: string) {
    var segs := Split(line, ";");
    IsInt(segs[0]) && forall i :: 1 <= i < |segs| ==> AllInts(Split(segs[i], ","))
  }

  /** A function, then kinds and braced lists of numbers. */
  predicate CallRecord(record: string) {
    var tokens := Words(record);
    tokens != [] && IsInt(tokens[0]) && Arguments(tokens[1..], false)
  }

  predicate Arguments(tokens: seq<string>, braced: bool) {
    if tokens == [] then !braced
    else if braced then (if tokens[0] == "}" then Arguments(tokens[1..], false) else IsInt(tokens[0]) && Arguments(tokens[1..], true))
    else if IsKind(tokens[0]) then Arguments(tokens[1..], false)
    else tokens[0] == "{" && Arguments(tokens[1..], true)
  }

  predicate Fits(width: Option<nat>, n: nat) { width.None? || width.value == n }

  predicate WellFormed(line: string, section: Section)
    requires !section.Top?
  {
    match section
    case Points => PointsLine(line)
    case Blocks(width) => AllInts(Words(line)) && Fits(width, |Words(line)|)
    case Calls(width) =>
      var records := Split(line, ", ");
      Fits(width, |records|) && forall i :: 0 <= i < |records| ==> CallRecord(records[i])
  }

  function After(line: string, section: Section): Section
    requires !section.Top?
  {
    match section
    case Points => Points
    case Blocks(_) => Blocks(Some(|Words(line)|))
    case Calls(_) => Calls(Some(|Split(line, ", ")|))
  }

  /** Reads the lines once, in a section. */
  predicate Scan(lines: seq<string>, section: Section) {
    if lines == [] then true
    else
      var line := if section.Top? then Strip(lines[0]) else RStrip(lines[0]);
      if line == "" then Scan(lines[1..], section)
      else if IsHeader(line) then Scan(lines[1..], Start(line))
      else !section.Top? && WellFormed(line, section) && Scan(lines[1..], After(line, section))
  }

  predicate Printable(line: string) { forall i :: 0 <= i < |line| ==> line[i] == '\t' || ' ' <= line[i] <= '~' }

  predicate Accepted(lines: seq<string>) {
    (forall i :: 0 <= i < |lines| ==> Printable(lines[i])) && Scan(lines, Top)
  }

  lemma ScanStep(lines: seq<string>, section: Section)
    requires lines != []
    ensures var line := if section.Top? then Strip(lines[0]) else RStrip(lines[0]);
      Scan(lines, section) ==
      if line == "" then Scan(lines[1..], section)
      else if IsHeader(line) then Scan(lines[1..], Start(line))
      else !section.Top? && WellFormed(line, section) && Scan(lines[1..], After(line, section))
  {
    hide Strip, RStrip, WellFormed, After, Start;
  }

  /** A header ends a section as it would begin one. */
  lemma ScanHeader(lines: seq<string>, section: Section)
    requires lines != [] && IsHeader(RStrip(lines[0]))
    ensures Scan(lines, section) == Scan(lines, Top)
  {
    hide Strip, RStrip, Scan, Start, WellFormed, After;
    StripOfHeader(lines[0]);
    ScanStep(lines, section);
    ScanStep(lines, Top);
  }

  lemma ScanNothing(section: Section)
    ensures Scan([], section)
  {
  }

  // ----- the validator

  method SkipToHeader(lines: seq<string>, idx: nat) returns (next: nat)
    requires idx <= |lines|
    ensures idx <= next <= |lines|
    ensures next < |lines| ==> IsHeader(Strip(lines[next]))
    ensures forall i :: idx <= i < next ==> !IsHeader(Strip(lines[i]))
  {
    hide Strip;
    next := idx;
    while next < |lines| && !IsHeader(Strip(lines[next]))
      invariant idx <= next <= |lines|
      invariant forall i :: idx <= i < next ==> !IsHeader(Strip(lines[i]))
    {
      next := next + 1;
    }
  }

  /** What each section validator promises: the rest of the file is read on from `next`, or the
      section has a bad line. */
  ghost predicate Read(lines: seq<string>, idx: nat, section: Section, next: nat, ok: bool)
    requires idx < |lines|
  {
    idx < next <= |lines| && Scan(lines[idx + 1..], section) == (ok && Scan(lines[next..], Top))
  }

  method CheckPointsLine(line: string) returns (ok: bool)
    ensures ok == PointsLine(line)
  {
    hide Split, IsInt;
    var segs := SplitChar(line, ';');
    ok := IsInt(segs[0]);
    for i := 1 to |segs|
      invariant ok == (IsInt(segs[0]) && forall j :: 1 <= j < i ==> AllInts(Split(segs[j], ",")))
    {
      if !ok { break; }
      var toks := SplitChar(segs[i], ',');
      ok := AllInts(toks);
    }
  }

  method ValidatePts(lines: seq<string>, start: nat) returns (next: nat, ok: bool)
    requires start < |lines|
    ensures Read(lines, start, Points, next, ok)
  {
    hide RStrip, Strip, Scan, PointsLine, Start;
    next := start + 1;
    while next < |lines|
      invariant start < next <= |lines|
      invariant Scan(lines[start + 1..], Points) == Scan(lines[next..], Points)
    {
      var line := RStrip(lines[next]);
      ScanStep(lines[next..], Points);
      assert lines[next..][1..] == lines[next + 1..];
      if line == "" {
        next := next + 1;
        continue;
      }
      if IsHeader(line) {
        ScanHeader(lines[next..], Points);
        return next, true;
      }
      var good := CheckPointsLine(line);
      if !good {
        next := SkipToHeader(lines, next);
        return next, false;
      }
      next := next + 1;
    }
    assert lines[next..] == [];
    ScanNothing(Points);
    ScanNothing(Top);
    ok := true;
  }

  method ValidateBasicBlock(lines: seq<string>, start: nat) returns (next: nat, ok: bool)
    requires start < |lines|
    ensures Read(lines, start, Blocks(None), next, ok)
  {
    hide RStrip, Strip, Scan, AllInts, Words, Start;
    next := start + 1;
    var width: Option<nat> := None;
    while next < |lines|
      invariant start < next <= |lines|
      invariant Scan(lines[start + 1..], Blocks(None)) == Scan(lines[next..], Blocks(width))
    {
      var line := RStrip(lines[next]);
      ScanStep(lines[next..], Blocks(width));
      assert lines[next..][1..] == lines[next + 1..];
      if line == "" {
        next := next + 1;
        continue;
      }
      if IsHeader(line) {
        ScanHeader(lines[next..], Blocks(width));
        return next, true;
      }
      if !AllInts(Words(line)) {
        next := SkipToHeader(lines, next);
        return next, false;
      }
      var n := |Words(line)|;
      if width.None? {
        width := Some(n);
      } else if n != width.value {
        next := SkipToHeader(lines, next);
        return next, false;
      }
      next := next + 1;
    }
    assert lines[next..] == [];
    ScanNothing(Blocks(width));
    ScanNothing(Top);
    ok := true;
  }

  /** The record parser: an index over the tokens, and an inner one between braces. */
  method ParseRecord(record: string) returns (ok: bool)
    ensures ok == CallRecord(record)
  {
    hide IsInt, Words, Arguments;
    var toks := Words(record);
    if toks == [] || !IsInt(toks[0]) { return false; }
    var j := 1;
    while j < |toks|
      invariant 1 <= j <= |toks| && Arguments(toks[1..], false) == Arguments(toks[j..], false)
    {
      ArgumentsStep(toks[j..], false);
      assert toks[j..][1..] == toks[j + 1..];
      var t := toks[j];
      if IsKind(t) {
        j := j + 1;
        continue;
      }
      if t != "{" { return false; }
      var k := j + 1;
      while k < |toks| && toks[k] != "}"
        invariant j < k <= |toks| && Arguments(toks[1..], false) == Arguments(toks[k..], true)
      {
        ArgumentsStep(toks[k..], true);
        assert toks[k..][1..] == toks[k + 1..];
        if !IsInt(toks[k]) { return false; }
        k := k + 1;
      }
      if k >= |toks| {
        assert toks[k..] == [];
        NoArguments();
        return false;
      }
      ArgumentsStep(toks[k..], true);
      assert toks[k..][1..] == toks[k + 1..];
      j := k + 1;
    }
    assert toks[j..] == [];
    NoArguments();
    ok := true;
  }

  lemma ArgumentsStep(tokens: seq<string>, braced: bool)
    requires tokens != []
    ensures Arguments(tokens, braced) ==
      if braced then (if tokens[0] == "}" then Arguments(tokens[1..], false) else IsInt(tokens[0]) && Arguments(tokens[1..], true))
      else if IsKind(tokens[0]) then Arguments(tokens[1..], false)
      else tokens[0] == "{" && Arguments(tokens[1..], true)
  {
    hide IsInt, IsKind;
  }

  lemma NoArguments()
    ensures Arguments([], false) && !Arguments([], true)
  {
  }

  method ValidateCallGraph(lines: seq<string>, start: nat) returns (next: nat, ok: bool)
    requires start < |lines|
    ensures Read(lines, start, Calls(None), next, ok)
  {
    hide RStrip, Strip, Scan, CallRecord, Split, Start;
    next := start + 1;
    var width: Option<nat> := None;
    while next < |lines|
      invariant start < next <= |lines|
      invariant Scan(lines[start + 1..], Calls(None)) == Scan(lines[next..], Calls(width))
    {
      var line := RStrip(lines[next]);
      ScanStep(lines[next..], Calls(width));
      assert lines[next..][1..] == lines[next + 1..];
      if line == "" {
        next := next + 1;
        continue;
      }
      if IsHeader(line) {
        ScanHeader(lines[next..], Calls(width));
        return next, true;
      }
      var records := Split(line, ", ");
      if width.Some? && |records| != width.value {
        next := SkipToHeader(lines, next);
        return next, false;
      }
      ghost var before := width;
      width := Some(|records|);
      for i := 0 to |records|
        invariant forall j :: 0 <= j < i ==> CallRecord(records[j])
      {
        var good := ParseRecord(records[i]);
        if !good {
          assert !WellFormed(line, Calls(before));
          next := SkipToHeader(lines, next);
          return next, false;
        }
      }
      next := next + 1;
    }
    assert lines[next..] == [];
    ScanNothing(Calls(width));
    ScanNothing(Top);
    ok := true;
  }

  /** The main loop: a file is accepted exactly when it follows the grammar. */
  method Validate(lines: seq<string>) returns (ok: bool)
    ensures ok == Accepted(lines)
  {
    hide Strip, RStrip, Scan, Printable, Start;
    ok := true;
    for i := 0 to |lines|
      invariant ok == forall j :: 0 <= j < i ==> Printable(lines[j])
    {
      if !Printable(lines[i]) { ok := false; }
    }
    ghost var clean := ok;
    var i := 0;
    assert lines[0..] == lines;
    while i < |lines|
      invariant i <= |lines|
      invariant ok ==> clean && Scan(lines, Top) == Scan(lines[i..], Top)
      invariant !ok ==> !Accepted(lines)
    {
      var line := Strip(lines[i]);
      ScanStep(lines[i..], Top);
      assert lines[i..][1..] == lines[i + 1..];
      if line == "" {
        i := i + 1;
        continue;
      }
      if IsHeader(line) {
        StartOf();
        var good;
        if line == "pts" {
          i, good := ValidatePts(lines, i);
        } else if line == "basicBlock" {
          i, good := ValidateBasicBlock(lines, i);
        } else {
          i, good := ValidateCallGraph(lines, i);
        }
        ok := ok && good;
        continue;
      }
      ok := false;
      i := i + 1;
    }
    assert lines[i..] == [];
    ScanNothing(Top);
  }

  lemma StartOf()
    ensures Start("pts") == Points && Start("basicBlock") == Blocks(None) && Start("callGraph") == Calls(None)
  {
  }
}
