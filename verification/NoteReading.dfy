/** What the lines of a note say of a proposition, told from where they stand. */
module NoteReading {
  import opened NoteLines
  import opened ProofTree

  function Statement(pp: string, theorem: bool): string { if theorem then TheoremLine(pp) else ConjectureLine(pp) }

  /** The first line that states `pp` does so as a theorem or not, and `run` stands below it. */
  ghost predicate States(lines: seq<string>, pp: string, theorem: bool, run: seq<string>) {
    exists above, below, rest ::
      FirstAt(lines, above, Statement(pp, theorem), below) && Statement(pp, !theorem) !in above && RunThen(below, run, rest)
  }

  /** In the run, a line names the group and a line below it the premise, with only premises of
      the group between them. */
  ghost predicate Names(run: seq<string>, key: Key) {
    key.func != "" && key.pp != "" && exists i, j :: NamesAt(run, key, i, j)
  }

  ghost predicate NamesAt(run: seq<string>, key: Key, i: int, j: int) {
    && 0 <= i < j < |run| && run[i] == WhenLine(key.func) && run[j] == ChildLine(key.pp)
    && forall k :: i < k < j ==> IsChild(run[k])
  }

  lemma WhenIs(line: string, func: string)
    ensures line == WhenLine(func) <==> IsWhen(line) && WhenName(line) == func
  {
    if IsWhen(line) { assert line == line[..10] + line[10..]; }
  }

  lemma ChildIs(line: string, pp: string)
    ensures line == ChildLine(pp) <==> IsChild(line) && ChildName(line) == pp
  {
    if IsChild(line) { assert line == line[..6] + line[6..]; }
  }

  ghost predicate ChildAt(lines: seq<string>, pp: string, j: int) {
    0 <= j < |lines| && lines[j] == ChildLine(pp) && forall k :: 0 <= k < j ==> IsChild(lines[k])
  }

  lemma {:induction false} InChildKeys(func: string, lines: seq<string>, key: Key)
    ensures key in ChildKeys(func, lines) <==> key.func == func && key.pp != "" && exists j :: ChildAt(lines, key.pp, j)
  {
    hide IsChild, ChildName, ChildLine;
    if lines != [] {
      ChildIs(lines[0], key.pp);
      if IsChild(lines[0]) {
        ChildIs(lines[0], ChildName(lines[0]));
        InChildKeys(func, lines[1..], key);
        if j :| ChildAt(lines[1..], key.pp, j) { ChildLater(lines, key.pp, j + 1); }
        if j :| ChildAt(lines, key.pp, j) {
          if j > 0 { ChildLater(lines, key.pp, j); }
        }
        if lines[0] == ChildLine(key.pp) { assert ChildAt(lines, key.pp, 0); }
      } else {
        NoChildAt(lines, key.pp);
      }
    }
  }

  lemma NoChildAt(lines: seq<string>, pp: string)
    requires lines != [] && !IsChild(lines[0])
    ensures forall j :: !ChildAt(lines, pp, j)
  {
    ChildIs(lines[0], pp);
    hide IsChild, ChildLine, ChildName;
  }

  lemma ChildLater(lines: seq<string>, pp: string, j: int)
    requires lines != [] && j > 0 && IsChild(lines[0])
    ensures ChildAt(lines, pp, j) <==> ChildAt(lines[1..], pp, j - 1)
  {
    hide IsChild, ChildLine;
    var rest := lines[1..];
    assert forall k :: 0 <= k < |rest| ==> rest[k] == lines[k + 1];
    if ChildAt(rest, pp, j - 1) {
      forall k | 0 <= k < j ensures IsChild(lines[k]) {
        if k > 0 { assert IsChild(rest[k - 1]); }
      }
    }
  }

  lemma NamesFirst(run: seq<string>, key: Key, j: int)
    requires run != [] && j > 0
    ensures NamesAt(run, key, 0, j) <==> run[0] == WhenLine(key.func) && ChildAt(run[1..], key.pp, j - 1)
  {
    hide IsChild, WhenLine, ChildLine;
    var rest := run[1..];
    assert forall k :: 0 <= k < |rest| ==> rest[k] == run[k + 1];
    if NamesAt(run, key, 0, j) {
      forall k | 0 <= k < j - 1 ensures IsChild(rest[k]) { assert IsChild(run[k + 1]); }
    }
    if ChildAt(rest, key.pp, j - 1) {
      forall k | 0 < k < j && k < |run| ensures IsChild(run[k]) { assert IsChild(rest[k - 1]); }
    }
  }

  lemma NamesLater(run: seq<string>, key: Key, i: int, j: int)
    requires run != [] && i > 0
    ensures NamesAt(run, key, i, j) <==> NamesAt(run[1..], key, i - 1, j - 1)
  {
    hide IsChild, WhenLine, ChildLine;
    var rest := run[1..];
    assert forall k :: 0 <= k < |rest| ==> rest[k] == run[k + 1];
    if NamesAt(rest, key, i - 1, j - 1) {
      forall k | i < k < j ensures IsChild(run[k]) { assert IsChild(rest[k - 1]); }
    }
  }

  /** The premises of a run are those that it names. */
  lemma {:induction false} InRunWhens(run: seq<string>, key: Key)
    ensures key in RunWhens(run) <==> Names(run, key)
  {
    hide IsChild, WhenLine, ChildLine, IsWhen, WhenName, ChildKeys, NamesAt, ChildAt;
    if run == [] {
      NothingNamed(key);
    } else {
      InRunWhens(run[1..], key);
      WhenIs(run[0], key.func);
      if IsWhen(run[0]) { InChildKeys(WhenName(run[0]), run[1..], key); }
      forall i, j | i > 0 ensures NamesAt(run, key, i, j) <==> NamesAt(run[1..], key, i - 1, j - 1) { NamesLater(run, key, i, j); }
      forall j | j > 0 ensures NamesAt(run, key, 0, j) <==> run[0] == WhenLine(key.func) && ChildAt(run[1..], key.pp, j - 1) {
        NamesFirst(run, key, j);
      }
      NamedShift(run, key);
    }
  }

  lemma NothingNamed(key: Key)
    ensures RunWhens([]) == [] && forall i, j :: !NamesAt([], key, i, j)
  {
  }

  lemma NamedShift(run: seq<string>, key: Key)
    requires run != []
    ensures (exists i, j :: NamesAt(run, key, i, j)) <==>
      || (run[0] == WhenLine(key.func) && exists j :: ChildAt(run[1..], key.pp, j))
      || exists i, j :: NamesAt(run[1..], key, i, j)
  {
    hide NamesAt, ChildAt, WhenLine;
    if i, j :| NamesAt(run, key, i, j) {
      NamedInside(run, key, i, j);
      if i > 0 { NamesLater(run, key, i, j); } else { NamesFirst(run, key, j); }
    }
    if i, j :| NamesAt(run[1..], key, i, j) {
      NamedInside(run[1..], key, i, j);
      NamesLater(run, key, i + 1, j + 1);
    }
    if run[0] == WhenLine(key.func) {
      if j :| ChildAt(run[1..], key.pp, j) {
        assert j >= 0 by { ChildInside(run[1..], key.pp, j); }
        NamesFirst(run, key, j + 1);
      }
    }
  }

  lemma NamedInside(run: seq<string>, key: Key, i: int, j: int)
    requires NamesAt(run, key, i, j)
    ensures 0 <= i < j
  {
  }

  lemma ChildInside(lines: seq<string>, pp: string, j: int)
    requires ChildAt(lines, pp, j)
    ensures 0 <= j
  {
  }

  /** The statement that comes first, looked for from `i` on. */
  lemma {:induction false} EntryFrom(lines: seq<string>, pp: string, i: nat)
    requires i <= |lines|
    ensures var c, t := IndexOf(lines, ConjectureLine(pp), i, |lines|), IndexOf(lines, TheoremLine(pp), i, |lines|);
      Entry(lines[i..], pp) ==
        if c == |lines| && t == |lines| then NoteLines.None
        else if c < t then NoteLines.Some((false, Run(lines[c + 1..])))
        else NoteLines.Some((true, Run(lines[t + 1..])))
    decreases |lines| - i
  {
    StatementsDiffer(pp);
    hide ConjectureLine, TheoremLine, Run;
    if i < |lines| {
      assert lines[i..][1..] == lines[i + 1..];
      EntryFrom(lines, pp, i + 1);
    }
  }

  lemma StatementsDiffer(pp: string)
    ensures ConjectureLine(pp) != TheoremLine(pp)
  {
    assert ConjectureLine(pp)[2] == 'C' && TheoremLine(pp)[2] == 'T';
  }

  lemma {:induction false} RunIs(lines: seq<string>, run: seq<string>)
    ensures run == Run(lines) <==> exists rest :: RunThen(lines, run, rest)
  {
    hide Indented;
    if lines == [] || !Indented(lines[0]) {
      NoRun(lines, run);
    } else if run != [] {
      RunIs(lines[1..], run[1..]);
      assert Run(lines) == [lines[0]] + Run(lines[1..]);
      if rest :| RunThen(lines[1..], run[1..], rest) {
        if run[0] == lines[0] {
          assert run == [lines[0]] + run[1..];
          assert RunThen(lines, run, rest);
        }
      }
      if rest :| RunThen(lines, run, rest) {
        assert run[0] == lines[0] && lines[1..] == run[1..] + rest;
        assert RunThen(lines[1..], run[1..], rest);
      }
    } else {
      forall rest ensures !RunThen(lines, run, rest) { assert [] + rest == rest; }
    }
  }

  lemma NoRun(lines: seq<string>, run: seq<string>)
    requires lines == [] || !Indented(lines[0])
    ensures run == Run(lines) <==> exists rest :: RunThen(lines, run, rest)
  {
    hide Indented;
    if run == [] {
      assert lines == [] + lines && RunThen(lines, run, lines);
    } else {
      forall rest ensures !RunThen(lines, run, rest) { assert (run + rest)[0] == run[0]; }
    }
  }

  /** The first statement of a proposition, and what stands below it, are found. */
  lemma EntryIs(lines: seq<string>, pp: string, theorem: bool, run: seq<string>)
    ensures Entry(lines, pp) == NoteLines.Some((theorem, run)) <==> States(lines, pp, theorem, run)
  {
    hide ConjectureLine, TheoremLine, RunThen, FirstAt, Run, IndexOf, Entry;
    var line, other := Statement(pp, theorem), Statement(pp, !theorem);
    var c, t := IndexOf(lines, line, 0, |lines|), IndexOf(lines, other, 0, |lines|);
    StatementsDiffer(pp);
    EntryFrom(lines, pp, 0);
    assert lines[0..] == lines;
    OnlyFirst(lines, line);
    NotInAbove(lines, other, c);
    if c < |lines| { RunIs(lines[c + 1..], run); }
    if c < |lines| && c == t { assert lines[c] == line && lines[c] == other; }
    assert Entry(lines, pp) == NoteLines.Some((theorem, run)) <==> c < |lines| && c <= t && run == Run(lines[c + 1..]);
  }

  /** A proposition has the premises that the run below its first statement names. */
  lemma WhensAre(lines: seq<string>, pp: string, key: Key)
    ensures key in Whens(lines, pp) <==> exists theorem, run :: States(lines, pp, theorem, run) && Names(run, key)
    ensures forall theorem :: Theoremhood(lines, pp) == NoteLines.Some(theorem) <==> exists run :: States(lines, pp, theorem, run)
  {
    hide Entry, States, Names, RunWhens;
    forall theorem, run ensures Entry(lines, pp) == NoteLines.Some((theorem, run)) <==> States(lines, pp, theorem, run) {
      EntryIs(lines, pp, theorem, run);
    }
    forall run ensures key in RunWhens(run) <==> Names(run, key) { InRunWhens(run, key); }
    var e := Entry(lines, pp);
    if e.Some? { assert States(lines, pp, e.value.0, e.value.1); }
  }
}
