/** What the edits of a record do to the propositions it states: proving keeps every
    premise, adding reaches the intended group only under a condition, and removing undoes
    adding only under a condition. */
module NoteEffects {
  import opened ProofTree
  import opened NoteLines

  // ----- statements in concatenated lines

  predicate Flush(lines: seq<string>) { lines == [] || !Indented(lines[0]) }

  predicate AllIndented(lines: seq<string>) { forall i :: 0 <= i < |lines| ==> Indented(lines[i]) }

  lemma IndentedPlus(run: seq<string>, line: string)
    requires AllIndented(run) && Indented(line)
    ensures AllIndented(run + [line])
  {
  }

  lemma {:induction false} RunOfConcat(a: seq<string>, b: seq<string>)
    requires Flush(b)
    ensures Run(a + b) == Run(a)
    ensures AllIndented(a) ==> Run(a + b) == a
  {
    if a == [] {
      assert a + b == b;
    } else {
      RunOfConcat(a[1..], b);
      assert (a + b)[1..] == a[1..] + b;
    }
  }

  lemma {:induction false} EntryOfConcat(a: seq<string>, b: seq<string>, pp: string)
    requires Flush(b)
    ensures Entry(a + b, pp) == if Entry(a, pp).Some? then Entry(a, pp) else Entry(b, pp)
  {
    if a == [] {
      assert a + b == b;
    } else {
      EntryOfConcat(a[1..], b, pp);
      RunOfConcat(a[1..], b);
      assert (a + b)[1..] == a[1..] + b;
    }
  }

  lemma {:induction false} EntrySkipsRun(run: seq<string>, b: seq<string>, pp: string)
    requires AllIndented(run)
    ensures Entry(run + b, pp) == Entry(b, pp)
  {
    if run == [] {
      assert run + b == b;
    } else {
      assert Indented(run[0]);
      EntrySkipsRun(run[1..], b, pp);
      assert (run + b)[1..] == run[1..] + b;
    }
  }

  /** A statement line, its indented run, and what follows. */
  lemma EntryOfBlock(head: string, run: seq<string>, b: seq<string>, pp: string)
    requires AllIndented(run) && Flush(b)
    ensures Entry([head] + run + b, pp) ==
      if head == ConjectureLine(pp) then Some((false, run))
      else if head == TheoremLine(pp) then Some((true, run))
      else Entry(b, pp)
  {
    assert ([head] + run + b)[1..] == run + b;
    RunOfConcat(run, b);
    EntrySkipsRun(run, b, pp);
  }

  lemma StatementLinesDiffer(pp: string, con: string)
    ensures !Indented(ConjectureLine(con)) && !Indented(TheoremLine(con))
    ensures ConjectureLine(pp) != TheoremLine(con)
    ensures ConjectureLine(pp) == ConjectureLine(con) <==> pp == con
    ensures TheoremLine(pp) == TheoremLine(con) <==> pp == con
  {
    assert ConjectureLine(pp)[2] == 'C' && TheoremLine(con)[2] == 'T';
    assert ConjectureLine(pp)[14..] == pp && ConjectureLine(con)[14..] == con;
    assert TheoremLine(pp)[11..] == pp && TheoremLine(con)[11..] == con;
  }

  lemma InnerLines(func: string, pp: string, prf: string)
    ensures Indented(WhenLine(func)) && IsWhen(WhenLine(func)) && WhenName(WhenLine(func)) == func
    ensures Indented(ChildLine(pp)) && IsChild(ChildLine(pp)) && ChildName(ChildLine(pp)) == pp
    ensures Indented(ProofLine(prf)) && !IsWhen(ProofLine(prf)) && !IsChild(ProofLine(prf))
    ensures WhenLine(func) != ChildLine(pp)
  {
    assert ProofLine(prf)[2] == '-' && ProofLine(prf)[4] == 'P';
    assert WhenLine(func)[2] == '-' && ChildLine(pp)[2] == ' ';
  }

  lemma WhenIsNoChild(line: string)
    ensures !(IsWhen(line) && IsChild(line))
  {
    if IsWhen(line) { assert line[2] == "  - When: "[2] == '-'; }
  }

  lemma SplitAround<T>(s: seq<T>, c: nat, end: nat)
    requires c < end <= |s|
    ensures s == s[..c] + ([s[c]] + s[c + 1..end] + s[end..])
  {
    assert s[c..] == [s[c]] + s[c + 1..end] + s[end..];
  }

  /** The record around one statement line: what is before it, its run, and what is after. */
  lemma BlockAround(lines: seq<string>, c: nat)
    requires c < |lines|
    ensures var end := RunEnd(lines, c + 1);
      && lines == lines[..c] + ([lines[c]] + lines[c + 1..end] + lines[end..])
      && AllIndented(lines[c + 1..end]) && Flush(lines[end..])
  {
    RunEndIsRun(lines, c + 1);
    hide RunEnd, Indented;
    SplitAround(lines, c, RunEnd(lines, c + 1));
  }

  // ----- rewriting one run

  /** The first statement of `pp` stands at `h`. */
  predicate Heads(lines: seq<string>, h: nat, pp: string)
    requires h < |lines|
  {
    Entry(lines[..h], pp) == None && (lines[h] == ConjectureLine(pp) || lines[h] == TheoremLine(pp))
  }

  /** Rewriting the indented run below a line changes the entry that the line heads, if any,
      and no other. */
  lemma RunRewritten(lines: seq<string>, h: nat, run': seq<string>, pp: string)
    requires h < |lines| && !Indented(lines[h]) && AllIndented(run')
    ensures var end := RunEnd(lines, h + 1); var e := Entry(lines[..h + 1] + run' + lines[end..], pp);
      if Heads(lines, h, pp) then
        && Entry(lines, pp) == Some((lines[h] == TheoremLine(pp), lines[h + 1..end]))
        && e == Some((lines[h] == TheoremLine(pp), run'))
      else e == Entry(lines, pp)
  {
    hide Entry, RunEnd, Indented, AllIndented, ConjectureLine, TheoremLine, Flush;
    StatementLinesDiffer(pp, pp);
    BlockAround(lines, h);
    var a, head, end := lines[..h], lines[h], RunEnd(lines, h + 1);
    var run, b := lines[h + 1..end], lines[end..];
    EntryAround(a, head, run, b, pp);
    EntryAround(a, head, run', b, pp);
    HeadApart(lines, h, run', b);
  }

  lemma HeadApart(lines: seq<string>, h: nat, run: seq<string>, b: seq<string>)
    requires h < |lines|
    ensures lines[..h + 1] + run + b == lines[..h] + ([lines[h]] + run + b)
  {
  }

  /** A block in the middle, headed by a line that is not indented. */
  lemma EntryAround(a: seq<string>, head: string, run: seq<string>, b: seq<string>, pp: string)
    requires !Indented(head) && AllIndented(run) && Flush(b)
    ensures Entry(a + ([head] + run + b), pp) ==
      if Entry(a, pp).Some? then Entry(a, pp)
      else if head == ConjectureLine(pp) then Some((false, run))
      else if head == TheoremLine(pp) then Some((true, run))
      else Entry(b, pp)
  {
    var all := [head] + run + b;
    assert Flush(all) by { assert all[0] == head; }
    hide Entry, Indented, AllIndented, ConjectureLine, TheoremLine, Flush;
    EntryOfConcat(a, all, pp);
    EntryOfBlock(head, run, b, pp);
  }

  /** The line that is not indented above `i`. */
  function HeadAbove(lines: seq<string>, i: nat): (h: nat)
    requires 0 < i <= |lines|
    ensures h < i
  {
    if i == 1 || !Indented(lines[i - 1]) then i - 1 else HeadAbove(lines, i - 1)
  }

  lemma {:induction false} HeadAboveIs(lines: seq<string>, c: nat, i: nat)
    requires c < i <= |lines| && !Indented(lines[c])
    ensures c <= HeadAbove(lines, i) && !Indented(lines[HeadAbove(lines, i)])
    ensures forall j :: HeadAbove(lines, i) < j < i ==> Indented(lines[j])
    decreases i
  {
    hide Indented;
    if Indented(lines[i - 1]) { HeadAboveIs(lines, c, i - 1); }
  }

  lemma SameRunEnd(lines: seq<string>, from: nat, inside: nat)
    requires from <= inside <= |lines| && inside <= RunEnd(lines, from)
    ensures RunEnd(lines, inside) == RunEnd(lines, from)
  {
    hide Indented;
    RunEndIsRun(lines, from);
    RunEndIs(lines, inside, RunEnd(lines, from));
  }

  /** The run around an indented line: from the head above it to the end of the run below it. */
  lemma RunAround(lines: seq<string>, c: nat, w: nat)
    requires c < w < |lines| && !Indented(lines[c]) && Indented(lines[w])
    ensures var h := HeadAbove(lines, w);
      && c <= h < w && !Indented(lines[h]) && w < RunEnd(lines, h + 1) == RunEnd(lines, w + 1)
    ensures HeadAbove(lines, w) == c <==> w < RunEnd(lines, c + 1)
  {
    hide HeadAbove, Indented, RunEnd;
    var h := HeadAbove(lines, w);
    HeadAboveIs(lines, c, w);
    RunReaches(lines, h, w);
    SameRunEnd(lines, h + 1, w + 1);
    if c < h && w < RunEnd(lines, c + 1) {
      RunEndIsRun(lines, c + 1);
      assert false;
    }
  }

  lemma RunReaches(lines: seq<string>, h: nat, w: nat)
    requires h < w < |lines| && forall j :: h < j <= w ==> Indented(lines[j])
    ensures w < RunEnd(lines, h + 1)
  {
    hide Indented, RunEnd;
    RunEndIsRun(lines, h + 1);
  }

  // ----- the premises of a run, read in one pass

  /** The group that `line` opens, when it opens a named one. */
  function Opened(line: string): Option<string> {
    if IsWhen(line) && WhenName(line) != "" then Some(WhenName(line)) else None
  }

  /** The group that a child line after `run` belongs to, when one before it belongs to `owner`. */
  function OwnerAfter(owner: Option<string>, run: seq<string>): Option<string>
    decreases run
  {
    if run == [] then owner else OwnerAfter(if IsChild(run[0]) then owner else Opened(run[0]), run[1..])
  }

  /** The group that a child line at the end of `run` belongs to. */
  function Owner(run: seq<string>): Option<string> { OwnerAfter(None, run) }

  function Premise(owner: Option<string>, pp: string): seq<Key> {
    if owner.Some? && pp != "" then [Key(owner.value, pp)] else []
  }

  /** The premises that `run` adds below lines whose group is `owner`. */
  function Below(owner: Option<string>, run: seq<string>): seq<Key>
    decreases run
  {
    if run == [] then []
    else if IsChild(run[0]) then Premise(owner, ChildName(run[0])) + Below(owner, run[1..])
    else Below(Opened(run[0]), run[1..])
  }

  lemma {:induction false} BelowIs(owner: Option<string>, run: seq<string>)
    ensures Below(owner, run) == (if owner.Some? then ChildKeys(owner.value, run) else []) + RunWhens(run)
    decreases run
  {
    hide IsChild, IsWhen, ChildName, WhenName, RunWhens, ChildKeys, GroupKeys;
    if run == [] {
      NothingRead(owner);
    } else if IsChild(run[0]) {
      BelowIs(owner, run[1..]);
      ChildRead(owner, run);
    } else {
      BelowIs(Opened(run[0]), run[1..]);
      GroupRead(owner, run);
    }
  }

  lemma NothingRead(owner: Option<string>)
    ensures (if owner.Some? then ChildKeys(owner.value, []) else []) + RunWhens([]) == []
  {
  }

  lemma ChildRead(owner: Option<string>, run: seq<string>)
    requires run != [] && IsChild(run[0])
    ensures (if owner.Some? then ChildKeys(owner.value, run) else []) + RunWhens(run)
         == Premise(owner, ChildName(run[0])) + ((if owner.Some? then ChildKeys(owner.value, run[1..]) else []) + RunWhens(run[1..]))
  {
    hide IsChild, IsWhen, ChildName, WhenName, RunWhens, ChildKeys, Premise;
    ChildOpensNothing(run);
    if owner.Some? {
      ChildKeysStep(owner.value, run);
      Associate(Premise(owner, ChildName(run[0])), ChildKeys(owner.value, run[1..]), RunWhens(run[1..]));
    } else {
      PremiseNone(ChildName(run[0]));
      Associate([], [], RunWhens(run[1..]));
    }
  }

  lemma PremiseNone(pp: string)
    ensures Premise(None, pp) == []
  {
  }

  lemma ChildKeysStep(func: string, run: seq<string>)
    requires run != [] && IsChild(run[0])
    ensures ChildKeys(func, run) == Premise(Some(func), ChildName(run[0])) + ChildKeys(func, run[1..])
  {
    hide IsChild, ChildName;
  }

  lemma Associate(a: seq<Key>, b: seq<Key>, c: seq<Key>)
    ensures a + b + c == a + (b + c)
    ensures [] + c == c
  {
  }

  lemma ChildOpensNothing(run: seq<string>)
    requires run != [] && IsChild(run[0])
    ensures RunWhens(run) == RunWhens(run[1..])
  {
    WhenIsNoChild(run[0]);
    hide IsChild, IsWhen, ChildName, WhenName;
    assert [] + RunWhens(run[1..]) == RunWhens(run[1..]);
  }

  lemma GroupRead(owner: Option<string>, run: seq<string>)
    requires run != [] && !IsChild(run[0])
    ensures (if owner.Some? then ChildKeys(owner.value, run) else []) + RunWhens(run)
         == (if Opened(run[0]).Some? then ChildKeys(Opened(run[0]).value, run[1..]) else []) + RunWhens(run[1..])
  {
    hide IsChild, IsWhen, ChildName, WhenName;
    assert (if owner.Some? then ChildKeys(owner.value, run) else []) == [];
    assert [] + RunWhens(run) == RunWhens(run);
  }

  /** One pass over a run finds the premises that the nested loops find. */
  lemma RunWhensIsBelow(run: seq<string>)
    ensures RunWhens(run) == Below(None, run)
  {
    hide Below, RunWhens;
    BelowIs(None, run);
    assert [] + RunWhens(run) == RunWhens(run);
  }

  lemma {:induction false} BelowAppend(owner: Option<string>, a: seq<string>, b: seq<string>)
    ensures Below(owner, a + b) == Below(owner, a) + Below(OwnerAfter(owner, a), b)
    ensures OwnerAfter(owner, a + b) == OwnerAfter(OwnerAfter(owner, a), b)
    decreases a
  {
    hide IsChild, IsWhen, ChildName, WhenName, Opened, Premise;
    if a == [] {
      assert a + b == b && [] + Below(owner, b) == Below(owner, b);
    } else {
      assert (a + b)[0] == a[0] && (a + b)[1..] == a[1..] + b;
      BelowAppend(if IsChild(a[0]) then owner else Opened(a[0]), a[1..], b);
    }
  }

  lemma BelowOne(owner: Option<string>, line: string)
    ensures Below(owner, [line]) == (if IsChild(line) then Premise(owner, ChildName(line)) else [])
    ensures OwnerAfter(owner, [line]) == (if IsChild(line) then owner else Opened(line))
  {
    hide IsChild, IsWhen, ChildName, WhenName;
    assert [line][1..] == [];
    assert Below(owner, []) == [] && Premise(owner, "") + [] == Premise(owner, "");
    if IsChild(line) { assert Premise(owner, ChildName(line)) + [] == Premise(owner, ChildName(line)); }
  }

  /** A child line in the middle of a run is a premise of the group above it, and the lines
      after it mean the same without it. */
  lemma ChildInRun(a: seq<string>, pp: string, b: seq<string>)
    ensures RunWhens(a + [ChildLine(pp)] + b) == RunWhens(a) + Premise(Owner(a), pp) + Below(Owner(a), b)
    ensures RunWhens(a + b) == RunWhens(a) + Below(Owner(a), b)
  {
    var child := ChildLine(pp);
    InnerLines("", pp, "");
    hide IsChild, ChildLine, ChildName, Below, RunWhens, OwnerAfter;
    BelowOne(OwnerAfter(None, a), child);
    BelowAppend(None, a, [child]);
    BelowAppend(None, a + [child], b);
    BelowAppend(None, a, b);
    RunWhensIsBelow(a);
    RunWhensIsBelow(a + b);
    RunWhensIsBelow(a + [child] + b);
  }

  /** A line that is no child at the end of a run adds no premise. */
  lemma PlainAtEnd(run: seq<string>, line: string)
    requires !IsChild(line)
    ensures RunWhens(run + [line]) == RunWhens(run) && Owner(run + [line]) == Opened(line)
  {
    hide IsChild, Below, RunWhens, OwnerAfter, Opened;
    BelowOne(OwnerAfter(None, run), line);
    BelowAppend(None, run, [line]);
    RunWhensIsBelow(run);
    RunWhensIsBelow(run + [line]);
    assert RunWhens(run) + [] == RunWhens(run);
  }

  lemma ChildAtEnd(run: seq<string>, pp: string)
    ensures RunWhens(run + [ChildLine(pp)]) == RunWhens(run) + Premise(Owner(run), pp)
  {
    hide RunWhens, Owner, Below, ChildLine;
    ChildInRun(run, pp, []);
    assert run + [ChildLine(pp)] + [] == run + [ChildLine(pp)] && run + [] == run;
    BelowNothing(Owner(run));
    assert RunWhens(run) + Premise(Owner(run), pp) + [] == RunWhens(run) + Premise(Owner(run), pp);
  }

  lemma BelowNothing(owner: Option<string>)
    ensures Below(owner, []) == []
  {
  }

  // ----- `-p`

  /** Proving a conjecture makes it a theorem and changes nothing else the record says: every
      other proposition keeps its status, and every proposition keeps its premises. */
  lemma PromotionKeepsPremises(lines: seq<string>, con: string, prf: string, pp: string)
    requires Promoted(lines, con, prf).Ok?
    ensures var after := Promoted(lines, con, prf).value;
      && Theoremhood(lines, con).Some?
      && Theoremhood(after, pp) == (if pp == con then Some(true) else Theoremhood(lines, pp))
      && Whens(after, pp) == Whens(lines, pp)
  {
    hide Entry, RunWhens, IndexOf, RunEnd, Run, AllIndented, Indented, ConjectureLine, TheoremLine, ProofLine, Flush, IsWhen, IsChild, Opened;
    var c := IndexOf(lines, ConjectureLine(con), 0, |lines|);
    var end := RunEnd(lines, c + 1);
    var a, run, b := lines[..c], lines[c + 1..end], lines[end..];
    var run' := run + [ProofLine(prf)];
    BlockAround(lines, c);
    StatementLinesDiffer(pp, con);
    StatementLinesDiffer(con, pp);
    StatementLinesDiffer(con, con);
    InnerLines("", "", prf);
    PlainAtEnd(run, ProofLine(prf));
    IndentedPlus(run, ProofLine(prf));
    EntryAround(a, lines[c], run, b, pp);
    EntryAround(a, lines[c], run, b, con);
    EntryAround(a, TheoremLine(con), run', b, pp);
    PromotedLines(lines, c, TheoremLine(con), end, ProofLine(prf));
    IndexOfIsFirst(lines, ConjectureLine(con), 0, |lines|);
    NoConjectureBefore(a, con);
  }

  lemma PromotedLines(lines: seq<string>, c: nat, theorem: string, end: nat, proof: string)
    requires c < end <= |lines|
    ensures Inserted(lines[c := theorem], end, [proof]) == lines[..c] + ([theorem] + (lines[c + 1..end] + [proof]) + lines[end..])
  {
  }

  lemma {:induction false} NoConjectureBefore(a: seq<string>, con: string)
    requires forall i :: 0 <= i < |a| ==> a[i] != ConjectureLine(con)
    ensures Entry(a, con).Some? ==> Entry(a, con).value.0
  {
    hide ConjectureLine, TheoremLine, Run;
    if a != [] { NoConjectureBefore(a[1..], con); }
  }

  // ----- `-a`

  /** Where the indented run of an open conjecture ends. */
  function BlockEnd(lines: seq<string>, con: string): (end: nat)
    requires OpenConjecture(lines, con).Ok?
    ensures OpenConjecture(lines, con).value < end <= |lines|
  {
    RunEnd(lines, OpenConjecture(lines, con).value + 1)
  }

  function Block(lines: seq<string>, con: string): seq<string>
    requires OpenConjecture(lines, con).Ok?
  {
    lines[OpenConjecture(lines, con).value + 1..BlockEnd(lines, con)]
  }

  /** Where `-a` and `-r` look for the group: anywhere after the conjecture. */
  function GroupAt(lines: seq<string>, con: string, func: string): (w: nat)
    requires OpenConjecture(lines, con).Ok?
    ensures OpenConjecture(lines, con).value < w <= |lines|
    ensures w < |lines| ==> lines[w] == WhenLine(func)
  {
    IndexOf(lines, WhenLine(func), OpenConjecture(lines, con).value + 1, |lines|)
  }

  /** The line that heads the run they edit: the conjecture, or whatever stands above the
      group that was found. */
  function EditedHead(lines: seq<string>, con: string, func: string): (h: nat)
    requires OpenConjecture(lines, con).Ok?
    ensures h < |lines|
  {
    if GroupAt(lines, con, func) == |lines| then OpenConjecture(lines, con).value
    else HeadAbove(lines, GroupAt(lines, con, func))
  }

  function EditedRun(lines: seq<string>, con: string, func: string): seq<string>
    requires OpenConjecture(lines, con).Ok?
  {
    var h := EditedHead(lines, con, func);
    lines[h + 1..RunEnd(lines, h + 1)]
  }

  lemma EditedIs(lines: seq<string>, con: string, func: string)
    requires OpenConjecture(lines, con).Ok?
    ensures var c, h, w := OpenConjecture(lines, con).value, EditedHead(lines, con, func), GroupAt(lines, con, func);
      && c <= h && !Indented(lines[h]) && AllIndented(EditedRun(lines, con, func))
      && (h == c <==> w == |lines| || w < BlockEnd(lines, con))
      && (w < |lines| ==> h < w < RunEnd(lines, h + 1) == RunEnd(lines, w + 1))
  {
    hide IndexOf, RunEnd, Indented, OpenConjecture, HeadAbove, ConjectureLine, TheoremLine, WhenLine, ChildLine, ProofLine,
         GroupAt, AllIndented, IsWhen, IsChild, WhenName, ChildName, Flush;
    StatementLinesDiffer(con, con);
    InnerLines(func, "", "");
    var c, w := OpenConjecture(lines, con).value, GroupAt(lines, con, func);
    if w < |lines| { RunAround(lines, c, w); }
    BlockAround(lines, EditedHead(lines, con, func));
  }

  /** An open conjecture heads its own entry, and a line above or below it does not. */
  lemma OpenHeads(lines: seq<string>, con: string, h: nat)
    requires OpenConjecture(lines, con).Ok? && OpenConjecture(lines, con).value <= h < |lines|
    ensures Heads(lines, h, con) <==> h == OpenConjecture(lines, con).value
    ensures Theoremhood(lines, con) == Some(false) && Whens(lines, con) == RunWhens(Block(lines, con))
  {
    var c := OpenConjecture(lines, con).value;
    StatementLinesDiffer(con, con);
    NoStatementBefore(lines, con);
    hide Entry, IndexOf, RunEnd, RunWhens, OpenConjecture, ConjectureLine, TheoremLine, Indented;
    RunRewritten(lines, c, [], con);
    if c < h { StatedInPrefix(lines, c, h, con); }
  }

  lemma StatedInPrefix(lines: seq<string>, c: nat, h: nat, con: string)
    requires c < h <= |lines| && lines[c] == ConjectureLine(con)
    ensures Entry(lines[..h], con).Some?
  {
    hide ConjectureLine, TheoremLine;
    StatedSomewhere(lines[..h], c, con);
  }

  lemma {:induction false} StatedSomewhere(lines: seq<string>, c: nat, con: string)
    requires c < |lines| && lines[c] == ConjectureLine(con)
    ensures Entry(lines, con).Some?
  {
    hide ConjectureLine, TheoremLine;
    if c > 0 { StatedSomewhere(lines[1..], c - 1, con); }
  }

  lemma NoStatementBefore(lines: seq<string>, con: string)
    requires OpenConjecture(lines, con).Ok?
    ensures Entry(lines[..OpenConjecture(lines, con).value], con) == None
  {
    hide ConjectureLine, TheoremLine;
    IndexOfIsFirst(lines, ConjectureLine(con), 0, |lines|);
    IndexOfIsFirst(lines, TheoremLine(con), 0, |lines|);
    NoStatement(lines[..OpenConjecture(lines, con).value], con);
  }

  lemma {:induction false} NoStatement(a: seq<string>, con: string)
    requires forall i :: 0 <= i < |a| ==> a[i] != ConjectureLine(con) && a[i] != TheoremLine(con)
    ensures Entry(a, con) == None
  {
    hide ConjectureLine, TheoremLine;
    if a != [] { NoStatement(a[1..], con); }
  }

  lemma AddedIs(lines: seq<string>, con: string, func: string, pp: string)
    requires OpenConjecture(lines, con).Ok?
    ensures var w := GroupAt(lines, con, func);
      PremiseAdded(lines, con, func, pp) == Ok(
        if w < |lines| then Inserted(lines, RunEnd(lines, w + 1), [ChildLine(pp)])
        else Inserted(lines, BlockEnd(lines, con), [WhenLine(func), ChildLine(pp)]))
  {
    hide IndexOf, RunEnd, OpenConjecture, WhenLine, ChildLine, Inserted;
  }

  /** What is inserted at the end of the edited run. */
  function Insertion(lines: seq<string>, con: string, func: string, pp: string): seq<string>
    requires OpenConjecture(lines, con).Ok?
  {
    if GroupAt(lines, con, func) == |lines| then [WhenLine(func), ChildLine(pp)] else [ChildLine(pp)]
  }

  lemma InsertedInRun(lines: seq<string>, h: nat, end: nat, added: seq<string>)
    requires h < end <= |lines|
    ensures Inserted(lines, end, added) == lines[..h + 1] + (lines[h + 1..end] + added) + lines[end..]
  {
  }

  lemma AddedToRun(lines: seq<string>, con: string, func: string, pp: string)
    requires OpenConjecture(lines, con).Ok?
    ensures var h := EditedHead(lines, con, func); var end := RunEnd(lines, h + 1);
      PremiseAdded(lines, con, func, pp)
      == Ok(lines[..h + 1] + (EditedRun(lines, con, func) + Insertion(lines, con, func, pp)) + lines[end..])
  {
    hide IndexOf, RunEnd, OpenConjecture, WhenLine, ChildLine, Inserted, PremiseAdded, HeadAbove;
    AddedIs(lines, con, func, pp);
    EditedIs(lines, con, func);
    var h := EditedHead(lines, con, func);
    InsertedInRun(lines, h, RunEnd(lines, h + 1), Insertion(lines, con, func, pp));
  }

  /** The group under which an added premise is later read back, if any. */
  function Destination(lines: seq<string>, con: string, func: string): Option<string>
    requires OpenConjecture(lines, con).Ok?
  {
    if GroupAt(lines, con, func) == |lines| then (if func == "" then None else Some(func))
    else Owner(EditedRun(lines, con, func))
  }

  lemma InsertionReads(lines: seq<string>, con: string, func: string, pp: string)
    requires OpenConjecture(lines, con).Ok?
    ensures var run, added := EditedRun(lines, con, func), Insertion(lines, con, func, pp);
      && AllIndented(run + added)
      && RunWhens(run + added) == RunWhens(run) + Premise(Destination(lines, con, func), pp)
  {
    hide RunWhens, Owner, WhenLine, ChildLine, ProofLine, EditedRun, EditedHead, GroupAt, IsWhen, IsChild, WhenName, ChildName, Indented,
         OpenConjecture, AllIndented, RunEnd, Premise;
    var run := EditedRun(lines, con, func);
    EditedIs(lines, con, func);
    InnerLines(func, pp, "");
    if GroupAt(lines, con, func) == |lines| {
      NewGroupReads(run, func, pp);
      IndentedPlus(run, WhenLine(func));
      IndentedPlus(run + [WhenLine(func)], ChildLine(pp));
      assert run + [WhenLine(func), ChildLine(pp)] == run + [WhenLine(func)] + [ChildLine(pp)];
    } else {
      ChildAtEnd(run, pp);
      IndentedPlus(run, ChildLine(pp));
    }
  }

  /** A new group with one child adds that premise, unless the group has no name. */
  lemma NewGroupReads(run: seq<string>, func: string, pp: string)
    ensures RunWhens(run + [WhenLine(func)] + [ChildLine(pp)])
         == RunWhens(run) + Premise(if func == "" then None else Some(func), pp)
  {
    var when := WhenLine(func);
    InnerLines(func, pp, "");
    WhenIsNoChild(when);
    hide RunWhens, Owner, WhenLine, ChildLine, IsWhen, IsChild, WhenName, Premise;
    PlainAtEnd(run, when);
    ChildAtEnd(run + [when], pp);
  }

  /** `-a` gives one premise to the proposition that heads the run it edits, under the group
      that owns the end of that run, or none; every other proposition keeps its entry, and
      every proposition its status. */
  lemma AdditionEffect(lines: seq<string>, con: string, func: string, pp: string, any: string)
    requires OpenConjecture(lines, con).Ok?
    ensures var after := PremiseAdded(lines, con, func, pp);
      && after.Ok?
      && Theoremhood(after.value, any) == Theoremhood(lines, any)
      && (if Heads(lines, EditedHead(lines, con, func), any)
          then Whens(after.value, any) == Whens(lines, any) + Premise(Destination(lines, con, func), pp)
          else Entry(after.value, any) == Entry(lines, any))
  {
    hide Entry, RunEnd, RunWhens, OpenConjecture, PremiseAdded, Destination, GroupAt, EditedHead, Insertion, Heads, Indented,
         ConjectureLine, TheoremLine, AllIndented, Premise, BlockEnd;
    EditedIs(lines, con, func);
    AddedToRun(lines, con, func, pp);
    InsertionReads(lines, con, func, pp);
    RunRewritten(lines, EditedHead(lines, con, func), EditedRun(lines, con, func) + Insertion(lines, con, func, pp), any);
  }

  /** The added premise is the one asked for exactly when the group is new and named, or is
      the one that owns the end of the conjecture's own block. */
  lemma AdditionIsIntendedIff(lines: seq<string>, con: string, func: string, pp: string)
    requires OpenConjecture(lines, con).Ok? && pp != ""
    ensures PremiseAdded(lines, con, func, pp).Ok?
    ensures Whens(PremiseAdded(lines, con, func, pp).value, con) == Whens(lines, con) + [Key(func, pp)]
      <==> var w := GroupAt(lines, con, func);
           if w == |lines| then func != ""
           else w < BlockEnd(lines, con) && Owner(Block(lines, con)) == Some(func)
  {
    hide Entry, IndexOf, RunEnd, OpenConjecture, RunWhens, Owner, PremiseAdded, GroupAt, HeadAbove, Heads, Premise, Indented, AllIndented;
    EditedIs(lines, con, func);
    OpenHeads(lines, con, EditedHead(lines, con, func));
    AdditionEffect(lines, con, func, pp, con);
    var w := GroupAt(lines, con, func);
    if w == |lines| || w < BlockEnd(lines, con) {
      AppendIsInjective(Whens(lines, con), Premise(Destination(lines, con, func), pp), [Key(func, pp)]);
      PremiseIs(Destination(lines, con, func), func, pp);
      assert EditedRun(lines, con, func) == Block(lines, con);
    } else {
      assert |Whens(lines, con) + [Key(func, pp)]| == |Whens(lines, con)| + 1;
    }
  }

  lemma PremiseIs(owner: Option<string>, func: string, pp: string)
    requires pp != ""
    ensures Premise(owner, pp) == [Key(func, pp)] <==> owner == Some(func)
  {
    if owner.Some? { assert [Key(owner.value, pp)][0] == Key(owner.value, pp); }
  }

  lemma AppendIsInjective<T>(a: seq<T>, b: seq<T>, c: seq<T>)
    ensures a + b == a + c <==> b == c
  {
    assert (a + b)[|a|..] == b && (a + c)[|a|..] == c;
  }

  /** The record with two open conjectures of which the second has the group. */
  function TwoConjectures(): seq<string> {
    [ConjectureLine("a"), ConjectureLine("b"), WhenLine("f"), ChildLine("x")]
  }

  /** `-a` for the first conjecture ends under the group of the second. */
  lemma AdditionGoesAstray()
    ensures OpenConjecture(TwoConjectures(), "a").Ok? && PremiseAdded(TwoConjectures(), "a", "f", "y").Ok?
    ensures var after := PremiseAdded(TwoConjectures(), "a", "f", "y").value;
      && Whens(after, "a") == Whens(TwoConjectures(), "a") == []
      && Whens(TwoConjectures(), "b") == [Key("f", "x")]
      && Whens(after, "b") == [Key("f", "x"), Key("f", "y")]
  {
    hide Entry, IndexOf, RunEnd, RunWhens, OpenConjecture, PremiseAdded, ConjectureLine, TheoremLine, WhenLine, ChildLine, ProofLine,
         Indented, HeadAbove, Owner, IsWhen, IsChild;
    var lines := TwoConjectures();
    TwoConjecturesRead();
    AdditionEffect(lines, "a", "f", "y", "a");
    AdditionEffect(lines, "a", "f", "y", "b");
    assert Whens(PremiseAdded(lines, "a", "f", "y").value, "b") == [Key("f", "x")] + Premise(Some("f"), "y");
  }

  lemma TwoConjecturesRead()
    ensures var lines := TwoConjectures();
      && OpenConjecture(lines, "a") == Ok(0) && GroupAt(lines, "a", "f") == 2 && EditedHead(lines, "a", "f") == 1
      && Heads(lines, 1, "b") && !Heads(lines, 1, "a")
      && Whens(lines, "a") == [] && Whens(lines, "b") == [Key("f", "x")]
      && Destination(lines, "a", "f") == Some("f")
  {
    hide Entry, IndexOf, RunEnd, RunWhens, OpenConjecture, ConjectureLine, TheoremLine, WhenLine, ChildLine, ProofLine,
         Indented, IsWhen, IsChild, WhenName, ChildName, AllIndented, Flush, Below, OwnerAfter, Premise;
    var lines := TwoConjectures();
    var when, child := WhenLine("f"), ChildLine("x");
    StatementLinesDiffer("a", "a");
    StatementLinesDiffer("a", "b");
    InnerLines("f", "x", "");
    OpenFirst(lines, "a");
    assert lines[1] == ConjectureLine("b") && lines[2] == when && lines[3] == child;
    IndexOfIs(lines, when, 1, 4, 2);
    RunEndIs(lines, 1, 1);
    RunEndIs(lines, 2, 4);
    FirstHeads(lines, "a", "b");
    OpenHeads(lines, "a", 1);
    RunRewritten(lines, 1, [], "b") by { NothingIndented(); }
    assert lines[2..4] == [when, child] && lines[1..1] == [];
    assert [when] + [child] == [when, child] && [] + [when] == [when];
    RunWhensNothing();
    PlainAtEnd([], when) by { WhenIsNoChild(when); }
    ChildAtEnd([when], "x");
    BelowOne(Some("f"), child);
    BelowAppend(None, [when], [child]);
    PremiseIs(Some("f"), "f", "x");
  }

  lemma NothingIndented()
    ensures AllIndented([])
  {
  }

  lemma RunWhensNothing()
    ensures RunWhens([]) == []
  {
  }

  lemma OpenFirst(lines: seq<string>, con: string)
    requires lines != [] && lines[0] == ConjectureLine(con)
    ensures OpenConjecture(lines, con) == Ok(0)
  {
    hide ConjectureLine, TheoremLine;
    IndexOfHere(lines, ConjectureLine(con), 0, |lines|);
  }

  /** The second of two conjectures heads its own entry. */
  lemma FirstHeads(lines: seq<string>, first: string, second: string)
    requires |lines| > 1 && first != second && lines[0] == ConjectureLine(first) && lines[1] == ConjectureLine(second)
    ensures Heads(lines, 1, second)
  {
    StatementLinesDiffer(second, first);
    StatementLinesDiffer(first, second);
    hide ConjectureLine, TheoremLine;
    NoStatement(lines[..1], second);
  }

  // ----- `-r`

  /** The line that `-r` removes: the first such child in the run after the group it found. */
  function RemovedAt(lines: seq<string>, con: string, func: string, pp: string): (k: nat)
    requires OpenConjecture(lines, con).Ok? && GroupAt(lines, con, func) < |lines|
    ensures GroupAt(lines, con, func) < k <= |lines|
  {
    var w := GroupAt(lines, con, func);
    IndexOf(lines, ChildLine(pp), w + 1, RunEnd(lines, w + 1))
  }

  /** The edited run before and after the removed line. */
  function AboveRemoved(lines: seq<string>, con: string, func: string, pp: string): seq<string>
    requires OpenConjecture(lines, con).Ok? && GroupAt(lines, con, func) < |lines|
  {
    lines[EditedHead(lines, con, func) + 1..RemovedAt(lines, con, func, pp)]
  }

  function BelowRemoved(lines: seq<string>, con: string, func: string, pp: string): seq<string>
    requires OpenConjecture(lines, con).Ok? && GroupAt(lines, con, func) < |lines|
  {
    var k, end := RemovedAt(lines, con, func, pp), RunEnd(lines, GroupAt(lines, con, func) + 1);
    if k < end then lines[k + 1..end] else []
  }

  lemma RemovedIs(lines: seq<string>, con: string, func: string, pp: string, w: nat, end: nat, k: nat)
    requires OpenConjecture(lines, con).Ok? && w == GroupAt(lines, con, func) < |lines|
    requires end == RunEnd(lines, w + 1) && k == IndexOf(lines, ChildLine(pp), w + 1, end) < end
    ensures PremiseRemoved(lines, con, func, pp)
      == Ok(if end == w + 2 then lines[..w] + lines[w + 2..] else lines[..k] + lines[k + 1..])
  {
    hide IndexOf, RunEnd, OpenConjecture, WhenLine, ChildLine;
  }

  lemma RemovedOk(lines: seq<string>, con: string, func: string, pp: string)
    requires PremiseRemoved(lines, con, func, pp).Ok?
    ensures OpenConjecture(lines, con).Ok? && GroupAt(lines, con, func) < |lines|
    ensures RemovedAt(lines, con, func, pp) < RunEnd(lines, GroupAt(lines, con, func) + 1)
    ensures lines[RemovedAt(lines, con, func, pp)] == ChildLine(pp)
  {
    hide IndexOf, RunEnd, OpenConjecture, WhenLine, ChildLine, ConjectureLine;
    var open := OpenConjecture(lines, con);
    assert open.Ok?;
    var w := IndexOf(lines, WhenLine(func), open.value + 1, |lines|);
    assert w == GroupAt(lines, con, func) < |lines|;
  }

  /** What is left of the edited run: the group goes too when the removed line was alone. */
  function Remaining(lines: seq<string>, con: string, func: string, pp: string): seq<string>
    requires OpenConjecture(lines, con).Ok? && GroupAt(lines, con, func) < |lines|
  {
    var h, w := EditedHead(lines, con, func), GroupAt(lines, con, func);
    if RunEnd(lines, w + 1) == w + 2 then lines[h + 1..w]
    else AboveRemoved(lines, con, func, pp) + BelowRemoved(lines, con, func, pp)
  }

  lemma CutGroup(lines: seq<string>, h: nat, w: nat, end: nat)
    requires h < w < end <= |lines|
    ensures lines[..w] + lines[end..] == lines[..h + 1] + lines[h + 1..w] + lines[end..]
  {
  }

  lemma CutLine(lines: seq<string>, h: nat, k: nat, end: nat)
    requires h < k < end <= |lines|
    ensures lines[..k] + lines[k + 1..] == lines[..h + 1] + (lines[h + 1..k] + lines[k + 1..end]) + lines[end..]
  {
    assert lines[k + 1..] == lines[k + 1..end] + lines[end..];
    assert lines[..k] == lines[..h + 1] + lines[h + 1..k];
  }

  /** The two forms of the removal, as a change of one run. */
  lemma CutRun(lines: seq<string>, h: nat, w: nat, k: nat, end: nat, after: seq<string>, left: seq<string>, end': nat)
    requires h < w < k < end <= |lines| && end' == end
    requires left == if end == w + 2 then lines[h + 1..w] else lines[h + 1..k] + lines[k + 1..end]
    requires after == if end == w + 2 then lines[..w] + lines[w + 2..] else lines[..k] + lines[k + 1..]
    ensures after == lines[..h + 1] + left + lines[end'..]
  {
    if end == w + 2 {
      CutGroup(lines, h, w, end);
    } else {
      CutLine(lines, h, k, end);
    }
  }

  lemma CutLeft(lines: seq<string>, h: nat, w: nat, k: nat, end: nat,
                run: seq<string>, a: seq<string>, b: seq<string>, left: seq<string>, when: string, child: string)
    requires h < w < k < end <= |lines| && lines[w] == when && lines[k] == child
    requires a == lines[h + 1..k] && b == lines[k + 1..end] && run == lines[h + 1..end]
    requires left == if end == w + 2 then lines[h + 1..w] else lines[h + 1..k] + lines[k + 1..end]
    ensures run == a + [child] + b
    ensures left == a + b || (b == [] && a == left + [when])
  {
  }

  /** `-r` changes one run. */
  lemma RemovedFromRun(lines: seq<string>, con: string, func: string, pp: string, after: seq<string>)
    requires PremiseRemoved(lines, con, func, pp) == Ok(after)
    ensures OpenConjecture(lines, con).Ok? && GroupAt(lines, con, func) < |lines|
    ensures var h := EditedHead(lines, con, func);
      after == lines[..h + 1] + Remaining(lines, con, func, pp) + lines[RunEnd(lines, h + 1)..]
  {
    hide *;
    RemovedOk(lines, con, func, pp);
    EditedIs(lines, con, func);
    PartsAre(lines, con, func, pp);
    var h, w, k := EditedHead(lines, con, func), GroupAt(lines, con, func), RemovedAt(lines, con, func, pp);
    RemovedValue(lines, con, func, pp, after);
    CutRun(lines, h, w, k, RunEnd(lines, w + 1), after, Remaining(lines, con, func, pp), RunEnd(lines, h + 1));
    assert after == lines[..h + 1] + Remaining(lines, con, func, pp) + lines[RunEnd(lines, h + 1)..];
  }

  lemma RunWithoutLine(lines: seq<string>, con: string, func: string, pp: string)
    requires PremiseRemoved(lines, con, func, pp).Ok?
    ensures OpenConjecture(lines, con).Ok? && GroupAt(lines, con, func) < |lines|
    ensures EditedRun(lines, con, func) == AboveRemoved(lines, con, func, pp) + [ChildLine(pp)] + BelowRemoved(lines, con, func, pp)
    ensures Remaining(lines, con, func, pp) == AboveRemoved(lines, con, func, pp) + BelowRemoved(lines, con, func, pp)
         || (BelowRemoved(lines, con, func, pp) == [] && AboveRemoved(lines, con, func, pp) == Remaining(lines, con, func, pp) + [WhenLine(func)])
  {
    hide *;
    RemovedOk(lines, con, func, pp);
    EditedIs(lines, con, func);
    PartsAre(lines, con, func, pp);
    var h, w, k := EditedHead(lines, con, func), GroupAt(lines, con, func), RemovedAt(lines, con, func, pp);
    CutLeft(lines, h, w, k, RunEnd(lines, w + 1), EditedRun(lines, con, func), AboveRemoved(lines, con, func, pp),
            BelowRemoved(lines, con, func, pp), Remaining(lines, con, func, pp), WhenLine(func), ChildLine(pp));
    assert EditedRun(lines, con, func) == AboveRemoved(lines, con, func, pp) + [ChildLine(pp)] + BelowRemoved(lines, con, func, pp);
  }

  lemma RemovedAtIs(lines: seq<string>, con: string, func: string, pp: string)
    requires OpenConjecture(lines, con).Ok? && GroupAt(lines, con, func) < |lines|
    ensures var w := GroupAt(lines, con, func);
      RemovedAt(lines, con, func, pp) == IndexOf(lines, ChildLine(pp), w + 1, RunEnd(lines, w + 1))
  {
    hide IndexOf, RunEnd, OpenConjecture, GroupAt;
  }

  lemma RemovedValue(lines: seq<string>, con: string, func: string, pp: string, after: seq<string>)
    requires OpenConjecture(lines, con).Ok? && GroupAt(lines, con, func) < |lines|
    requires RemovedAt(lines, con, func, pp) < RunEnd(lines, GroupAt(lines, con, func) + 1)
    requires PremiseRemoved(lines, con, func, pp) == Ok(after)
    ensures var w, k := GroupAt(lines, con, func), RemovedAt(lines, con, func, pp);
      after == if RunEnd(lines, w + 1) == w + 2 then lines[..w] + lines[w + 2..] else lines[..k] + lines[k + 1..]
  {
    hide *;
    RemovedAtIs(lines, con, func, pp);
    var w, k := GroupAt(lines, con, func), RemovedAt(lines, con, func, pp);
    RemovedIs(lines, con, func, pp, w, RunEnd(lines, w + 1), k);
  }

  lemma PartsAre(lines: seq<string>, con: string, func: string, pp: string)
    requires OpenConjecture(lines, con).Ok? && GroupAt(lines, con, func) < |lines|
    requires var h, w := EditedHead(lines, con, func), GroupAt(lines, con, func);
      h < w && RunEnd(lines, h + 1) == RunEnd(lines, w + 1) && RemovedAt(lines, con, func, pp) < RunEnd(lines, w + 1)
    ensures var h, w, k := EditedHead(lines, con, func), GroupAt(lines, con, func), RemovedAt(lines, con, func, pp);
      var end := RunEnd(lines, w + 1);
      && AboveRemoved(lines, con, func, pp) == lines[h + 1..k] && BelowRemoved(lines, con, func, pp) == lines[k + 1..end]
      && EditedRun(lines, con, func) == lines[h + 1..end]
      && Remaining(lines, con, func, pp) == if end == w + 2 then lines[h + 1..w] else lines[h + 1..k] + lines[k + 1..end]
  {
    hide IndexOf, RunEnd, OpenConjecture, WhenLine, ChildLine, HeadAbove, Indented, GroupAt, EditedHead, RemovedAt;
  }

  lemma IndentedPart(run: seq<string>, a: seq<string>, x: seq<string>, b: seq<string>)
    requires AllIndented(run) && run == a + x + b
    ensures AllIndented(a + b) && AllIndented(a)
  {
    hide Indented;
    assert forall i :: 0 <= i < |a| ==> a[i] == run[i];
    assert forall i :: 0 <= i < |b| ==> b[i] == run[|a| + |x| + i];
  }

  lemma RemainingReads(lines: seq<string>, con: string, func: string, pp: string)
    requires PremiseRemoved(lines, con, func, pp).Ok?
    ensures OpenConjecture(lines, con).Ok? && GroupAt(lines, con, func) < |lines|
    ensures var a, b := AboveRemoved(lines, con, func, pp), BelowRemoved(lines, con, func, pp);
      && AllIndented(Remaining(lines, con, func, pp))
      && RunWhens(EditedRun(lines, con, func)) == RunWhens(a) + Premise(Owner(a), pp) + Below(Owner(a), b)
      && RunWhens(Remaining(lines, con, func, pp)) == RunWhens(a) + Below(Owner(a), b)
  {
    hide RunWhens, Owner, WhenLine, ChildLine, EditedRun, EditedHead, GroupAt, Remaining, AboveRemoved, BelowRemoved, IsWhen, IsChild,
         Indented, OpenConjecture, AllIndented, RunEnd, Premise, PremiseRemoved, Below, WhenName, ChildName, ProofLine;
    RunWithoutLine(lines, con, func, pp);
    EditedIs(lines, con, func);
    var run, a, b := EditedRun(lines, con, func), AboveRemoved(lines, con, func, pp), BelowRemoved(lines, con, func, pp);
    var left := Remaining(lines, con, func, pp);
    ChildInRun(a, pp, b);
    IndentedPart(run, a, [ChildLine(pp)], b);
    if left != a + b {
      InnerLines(func, pp, "");
      WhenIsNoChild(WhenLine(func));
      PlainAtEnd(left, WhenLine(func));
      BelowNothing(Owner(a));
      assert RunWhens(a) + [] == RunWhens(a);
      assert a == left + [WhenLine(func)] + [];
      IndentedPart(a, left, [WhenLine(func)], []);
    }
  }

  /** `-r` takes one premise from the proposition that heads the run it edits, the one that the
      removed line was read as, or none; every other proposition keeps its entry, and every
      proposition its status. */
  lemma RemovalEffect(lines: seq<string>, con: string, func: string, pp: string, any: string)
    requires PremiseRemoved(lines, con, func, pp).Ok?
    ensures OpenConjecture(lines, con).Ok? && GroupAt(lines, con, func) < |lines|
    ensures var after := PremiseRemoved(lines, con, func, pp).value;
      var a, b := AboveRemoved(lines, con, func, pp), BelowRemoved(lines, con, func, pp);
      && Theoremhood(after, any) == Theoremhood(lines, any)
      && (if Heads(lines, EditedHead(lines, con, func), any)
          then Whens(lines, any) == RunWhens(a) + Premise(Owner(a), pp) + Below(Owner(a), b)
               && Whens(after, any) == RunWhens(a) + Below(Owner(a), b)
          else Entry(after, any) == Entry(lines, any))
  {
    hide Entry, RunEnd, RunWhens, OpenConjecture, PremiseRemoved, GroupAt, EditedHead, Heads, Indented, ConjectureLine, TheoremLine,
         AllIndented, Premise, BlockEnd, Below, Owner, Remaining, AboveRemoved, BelowRemoved;
    RemovedFromRun(lines, con, func, pp, PremiseRemoved(lines, con, func, pp).value);
    EditedIs(lines, con, func);
    RemainingReads(lines, con, func, pp);
    RunRewritten(lines, EditedHead(lines, con, func), Remaining(lines, con, func, pp), any);
  }

  /** One occurrence of a premise less. */
  ghost predicate OneLess(before: seq<Key>, after: seq<Key>, key: Key) {
    exists i :: 0 <= i < |before| && before[i] == key && after == before[..i] + before[i + 1..]
  }

  lemma OneLessIff(a: seq<Key>, premise: seq<Key>, b: seq<Key>, key: Key)
    requires |premise| <= 1
    ensures OneLess(a + premise + b, a + b, key) <==> premise == [key]
  {
    if premise == [key] {
      LessIsOneLess(a, key, b);
    }
    hide OneLess;
    if OneLess(a + premise + b, a + b, key) {
      OneLessCounts(a + premise + b, a + b, key);
      if premise == [] {
        assert a + [] + b == a + b;
        NotOneLess(a + b, key);
      } else {
        assert premise == [premise[0]];
        LessIsOneLess(a, premise[0], b);
        OneLessCounts(a + premise + b, a + b, premise[0]);
        CancelOne(multiset(a + b), key, premise[0]);
      }
    }
  }

  lemma CancelOne(m: multiset<Key>, x: Key, y: Key)
    requires m + multiset{x} == m + multiset{y}
    ensures x == y
  {
    assert (m + multiset{x})[x] == m[x] + 1;
    assert (m + multiset{y})[x] == m[x] + if x == y then 1 else 0;
  }

  lemma LessIsOneLess(a: seq<Key>, key: Key, b: seq<Key>)
    ensures OneLess(a + [key] + b, a + b, key)
  {
    var before := a + [key] + b;
    assert before[|a|] == key && before[..|a|] == a && before[|a| + 1..] == b;
  }

  lemma OneLessCounts(before: seq<Key>, after: seq<Key>, key: Key)
    requires OneLess(before, after, key)
    ensures multiset(before) == multiset(after) + multiset{key}
  {
    var i :| 0 <= i < |before| && before[i] == key && after == before[..i] + before[i + 1..];
    assert before == before[..i] + [key] + before[i + 1..];
  }

  /** The removed premise is the one asked for exactly when the group stands in the
      conjecture's own block and owns the first such line below it. */
  lemma RemovalIsIntendedIff(lines: seq<string>, con: string, func: string, pp: string)
    requires PremiseRemoved(lines, con, func, pp).Ok? && pp != ""
    ensures OpenConjecture(lines, con).Ok? && GroupAt(lines, con, func) < |lines|
    ensures OneLess(Whens(lines, con), Whens(PremiseRemoved(lines, con, func, pp).value, con), Key(func, pp))
      <==> GroupAt(lines, con, func) < BlockEnd(lines, con) && Owner(AboveRemoved(lines, con, func, pp)) == Some(func)
  {
    hide Entry, RunEnd, RunWhens, OpenConjecture, PremiseRemoved, GroupAt, EditedHead, Heads, Indented, AllIndented, Premise, BlockEnd,
         Below, Owner, AboveRemoved, BelowRemoved, OneLess;
    RemovedOk(lines, con, func, pp);
    EditedIs(lines, con, func);
    OpenHeads(lines, con, EditedHead(lines, con, func));
    RemovalEffect(lines, con, func, pp, con);
    var a, b := AboveRemoved(lines, con, func, pp), BelowRemoved(lines, con, func, pp);
    if GroupAt(lines, con, func) < BlockEnd(lines, con) {
      PremiseLength(Owner(a), pp);
      OneLessIff(RunWhens(a), Premise(Owner(a), pp), Below(Owner(a), b), Key(func, pp));
      PremiseIs(Owner(a), func, pp);
    } else {
      NotOneLess(Whens(lines, con), Key(func, pp));
    }
  }

  lemma PremiseLength(owner: Option<string>, pp: string)
    ensures |Premise(owner, pp)| <= 1
  {
  }

  lemma NotOneLess(whens: seq<Key>, key: Key)
    ensures !OneLess(whens, whens, key)
  {
    assert forall i :: 0 <= i < |whens| ==> |whens[..i] + whens[i + 1..]| < |whens|;
  }

  /** `-r` for the first conjecture removes the premise of the second, and its group. */
  lemma RemovalGoesAstray()
    ensures PremiseRemoved(TwoConjectures(), "a", "f", "x") == Ok([ConjectureLine("a"), ConjectureLine("b")])
    ensures Whens(TwoConjectures(), "a") == [] && Whens(TwoConjectures(), "b") == [Key("f", "x")]
  {
    hide Entry, IndexOf, RunEnd, RunWhens, OpenConjecture, PremiseRemoved, ConjectureLine, TheoremLine, WhenLine, ChildLine, ProofLine,
         Indented, HeadAbove, Owner, IsWhen, IsChild, Heads, Destination;
    var lines := TwoConjectures();
    TwoConjecturesRead();
    InnerLines("f", "x", "");
    RunEndIs(lines, 3, 4);
    IndexOfHere(lines, ChildLine("x"), 3, 4);
    RemovedIs(lines, "a", "f", "x", 2, 4, 3);
    assert lines[..2] + lines[4..] == [ConjectureLine("a"), ConjectureLine("b")];
  }

  // ----- `-r` after `-a`

  /** `-r` can undo `-a`: the group was new, or it had lines below it and the premise was not
      among them, except perhaps as the last lines. */
  predicate Undoable(lines: seq<string>, con: string, func: string, pp: string)
    requires OpenConjecture(lines, con).Ok?
  {
    var w := GroupAt(lines, con, func);
    w == |lines| ||
      var at := RunEnd(lines, w + 1);
      w + 1 < at && forall j :: IndexOf(lines, ChildLine(pp), w + 1, at) <= j < at ==> lines[j] == ChildLine(pp)
  }

  lemma InsertedAt(lines: seq<string>, at: nat, added: seq<string>)
    requires at <= |lines|
    ensures var after := Inserted(lines, at, added);
      && |after| == |lines| + |added|
      && (forall i :: 0 <= i < at ==> after[i] == lines[i])
      && (forall i :: at <= i < at + |added| ==> after[i] == added[i - at])
      && (at < |lines| ==> after[at + |added|] == lines[at])
  {
  }

  lemma FoundBefore(lines: seq<string>, at: nat, added: seq<string>, line: string, from: nat, end: nat, end': nat)
    requires from <= end <= |lines| && at <= |lines| && from <= end' <= |lines| + |added|
    requires IndexOf(lines, line, from, end) < end && IndexOf(lines, line, from, end) < at && IndexOf(lines, line, from, end) < end'
    ensures IndexOf(Inserted(lines, at, added), line, from, end') == IndexOf(lines, line, from, end)
  {
    InsertedAt(lines, at, added);
    IndexOfIsFirst(lines, line, from, end);
    hide IndexOf, Inserted;
    IndexOfIs(Inserted(lines, at, added), line, from, end', IndexOf(lines, line, from, end));
  }

  lemma FoundInserted(lines: seq<string>, at: nat, added: seq<string>, line: string, from: nat, end: nat, end': nat)
    requires from <= at <= end <= |lines| && at < end' <= |lines| + |added|
    requires at <= IndexOf(lines, line, from, end) && added != [] && added[0] == line
    ensures IndexOf(Inserted(lines, at, added), line, from, end') == at
  {
    InsertedAt(lines, at, added);
    IndexOfIsFirst(lines, line, from, end);
    hide IndexOf, Inserted;
    IndexOfIs(Inserted(lines, at, added), line, from, end', at);
  }

  lemma RunExtended(lines: seq<string>, from: nat, at: nat, added: seq<string>)
    requires from <= at <= |lines| && forall i :: from <= i < at ==> Indented(lines[i])
    requires AllIndented(added) && (at < |lines| ==> !Indented(lines[at]))
    ensures RunEnd(Inserted(lines, at, added), from) == at + |added|
  {
    InsertedAt(lines, at, added);
    hide RunEnd, Inserted, Indented;
    RunEndIs(Inserted(lines, at, added), from, at + |added|);
  }

  lemma OpenKept(lines: seq<string>, con: string, at: nat, added: seq<string>)
    requires OpenConjecture(lines, con).Ok? && OpenConjecture(lines, con).value < at <= |lines|
    ensures OpenConjecture(Inserted(lines, at, added), con) == OpenConjecture(lines, con)
  {
    StatementLinesDiffer(con, con);
    InsertedAt(lines, at, added);
    var c := OpenConjecture(lines, con).value;
    IndexOfIsFirst(lines, TheoremLine(con), 0, |lines|);
    hide IndexOf, Inserted, ConjectureLine, TheoremLine;
    FoundBefore(lines, at, added, ConjectureLine(con), 0, |lines|, |lines| + |added|);
    IndexOfBeyond(Inserted(lines, at, added), TheoremLine(con), c);
  }

  lemma IndexOfBeyond(lines: seq<string>, line: string, c: nat)
    requires c < |lines| && forall i :: 0 <= i <= c ==> lines[i] != line
    ensures c < IndexOf(lines, line, 0, |lines|)
  {
    hide IndexOf;
    var i := IndexOf(lines, line, 0, |lines|);
  }

  lemma UndoNewGroup(lines: seq<string>, con: string, func: string, pp: string)
    requires OpenConjecture(lines, con).Ok? && GroupAt(lines, con, func) == |lines|
    ensures var after := PremiseAdded(lines, con, func, pp);
      after.Ok? && PremiseRemoved(after.value, con, func, pp) == Ok(lines)
  {
    InnerLines(func, pp, "");
    var c := OpenConjecture(lines, con).value;
    var at, added := BlockEnd(lines, con), [WhenLine(func), ChildLine(pp)];
    var after := Inserted(lines, at, added);
    AddedIs(lines, con, func, pp);
    RunEndIsRun(lines, c + 1);
    InsertedTwice(lines, at, WhenLine(func), ChildLine(pp));
    hide IndexOf, RunEnd, OpenConjecture, WhenLine, ChildLine, Indented, PremiseAdded, PremiseRemoved, Inserted;
    OpenKept(lines, con, at, added);
    FoundInserted(lines, at, added, WhenLine(func), c + 1, |lines|, |after|);
    RunExtended(lines, at, at, added);
    SameRunEnd(after, at, at + 1);
    IndexOfHere(after, ChildLine(pp), at + 1, at + 2);
    RemovedIs(after, con, func, pp, at, at + 2, at + 1);
  }

  lemma IndexOfHere(lines: seq<string>, line: string, from: nat, end: nat)
    requires from < end <= |lines| && lines[from] == line
    ensures IndexOf(lines, line, from, end) == from
  {
  }

  lemma InsertedTwice(lines: seq<string>, at: nat, x: string, y: string)
    requires at <= |lines|
    ensures var after := Inserted(lines, at, [x, y]);
      after[at] == x && after[at + 1] == y && after[..at] + after[at + 2..] == lines
  {
  }

  lemma {:induction false} ConstantFrom<T>(s: seq<T>, x: T, k: nat, at: nat)
    requires k < at <= |s| && s[k] == x
    requires forall j :: k <= j < at - 1 ==> s[j] == s[j + 1]
    ensures forall j :: k <= j < at ==> s[j] == x
    decreases at - k
  {
    if k + 1 < at {
      assert s[k] == s[k + 1];
      ConstantFrom(s, x, k + 1, at);
    }
  }

  /** Inserting `x` at `at` and dropping the element at `k` gives the sequence back exactly
      when everything from `k` up to `at` is `x`. */
  lemma InsertThenDrop<T>(s: seq<T>, x: T, k: nat, at: nat)
    requires k <= at <= |s| && (k < at ==> s[k] == x)
    ensures var after := s[..at] + [x] + s[at..];
      after[..k] + after[k + 1..] == s <==> forall j :: k <= j < at ==> s[j] == x
  {
    var after := s[..at] + [x] + s[at..];
    var back := after[..k] + after[k + 1..];
    assert forall j :: 0 <= j < |s| && j < k ==> back[j] == s[j];
    assert forall j :: at <= j < |s| ==> back[j] == s[j];
    assert forall j :: k <= j < at ==> back[j] == after[j + 1];
    assert forall j :: k < j < at ==> after[j] == s[j];
    assert after[at] == x;
    if back == s && k < at {
      ConstantFrom(s, x, k, at);
    }
  }

  lemma UndoDrop(lines: seq<string>, child: string, w: nat, k: nat, at: nat)
    requires w < k <= at <= |lines| && (k < at ==> lines[k] == child)
    ensures var after := Inserted(lines, at, [child]);
      (if at + 1 == w + 2 then after[..w] + after[w + 2..] else after[..k] + after[k + 1..]) == lines
      <==> w + 1 < at && forall j :: k <= j < at ==> lines[j] == child
  {
    var after := Inserted(lines, at, [child]);
    if at == w + 1 {
      assert |after[..w] + after[w + 2..]| < |lines|;
    } else {
      InsertThenDrop(lines, child, k, at);
    }
  }

  /** After `-a` under an existing group, `-r` finds the same group. */
  lemma UndoFindsGroup(lines: seq<string>, con: string, func: string, at: nat, child: string)
    requires OpenConjecture(lines, con).Ok? && GroupAt(lines, con, func) < |lines|
    requires GroupAt(lines, con, func) < at <= |lines|
    ensures OpenConjecture(Inserted(lines, at, [child]), con) == OpenConjecture(lines, con)
    ensures GroupAt(Inserted(lines, at, [child]), con, func) == GroupAt(lines, con, func)
  {
    assert |Inserted(lines, at, [child])| == |lines| + 1;
    hide IndexOf, OpenConjecture, WhenLine, Inserted;
    OpenKept(lines, con, at, [child]);
    FoundBefore(lines, at, [child], WhenLine(func), OpenConjecture(lines, con).value + 1, |lines|, |lines| + 1);
  }

  /** In a longer run, it finds the same child. */
  lemma UndoFindsChild(lines: seq<string>, from: nat, pp: string)
    requires from <= |lines|
    ensures var at := RunEnd(lines, from);
      var after := Inserted(lines, at, [ChildLine(pp)]);
      && |after| == |lines| + 1 && RunEnd(after, from) == at + 1
      && IndexOf(after, ChildLine(pp), from, at + 1) == IndexOf(lines, ChildLine(pp), from, at)
  {
    InnerLines("", pp, "");
    var at, child := RunEnd(lines, from), ChildLine(pp);
    assert |Inserted(lines, at, [child])| == |lines| + 1;
    RunEndIsRun(lines, from);
    hide IndexOf, RunEnd, ChildLine, Indented, Inserted;
    RunExtended(lines, from, at, [child]);
    ChildFound(lines, from, at, child);
  }

  lemma UndoOldGroup(lines: seq<string>, con: string, func: string, pp: string)
    requires OpenConjecture(lines, con).Ok? && GroupAt(lines, con, func) < |lines|
    ensures var after := PremiseAdded(lines, con, func, pp);
      after.Ok? && (PremiseRemoved(after.value, con, func, pp) == Ok(lines) <==> Undoable(lines, con, func, pp))
  {
    hide IndexOf, RunEnd, OpenConjecture, WhenLine, ChildLine, Indented, PremiseAdded, PremiseRemoved, Inserted, GroupAt;
    var w, child := GroupAt(lines, con, func), ChildLine(pp);
    var at := RunEnd(lines, w + 1);
    var k := IndexOf(lines, child, w + 1, at);
    AddedIs(lines, con, func, pp);
    UndoFindsGroup(lines, con, func, at, child);
    UndoFindsChild(lines, w + 1, pp);
    RemovedIs(Inserted(lines, at, [child]), con, func, pp, w, at + 1, k);
    UndoDrop(lines, child, w, k, at);
  }

  lemma ChildFound(lines: seq<string>, from: nat, at: nat, child: string)
    requires from <= at <= |lines|
    ensures IndexOf(Inserted(lines, at, [child]), child, from, at + 1) == IndexOf(lines, child, from, at)
  {
    if IndexOf(lines, child, from, at) < at {
      FoundBefore(lines, at, [child], child, from, at, at + 1);
    } else {
      FoundInserted(lines, at, [child], child, from, at, at + 1);
    }
  }

  /** Removing right after adding gives the record back exactly when the addition is
      undoable. */
  lemma RemovalUndoesAdditionIff(lines: seq<string>, con: string, func: string, pp: string)
    requires OpenConjecture(lines, con).Ok?
    ensures var after := PremiseAdded(lines, con, func, pp);
      after.Ok? && (PremiseRemoved(after.value, con, func, pp) == Ok(lines) <==> Undoable(lines, con, func, pp))
  {
    if GroupAt(lines, con, func) == |lines| {
      UndoNewGroup(lines, con, func, pp);
    } else {
      UndoOldGroup(lines, con, func, pp);
    }
  }

  /** Adding a premise that the group has higher up, and removing it, reorders the group. */
  lemma RemovalUndoesOther()
    ensures var lines := [ConjectureLine("a"), WhenLine("f"), ChildLine("x"), ChildLine("y")];
      var after := PremiseAdded(lines, "a", "f", "x");
      && OpenConjecture(lines, "a").Ok? && after.Ok?
      && PremiseRemoved(after.value, "a", "f", "x").Ok? && PremiseRemoved(after.value, "a", "f", "x") != Ok(lines)
  {
    hide IndexOf, RunEnd, OpenConjecture, PremiseAdded, PremiseRemoved, ConjectureLine, TheoremLine, WhenLine, ChildLine, ProofLine, Indented,
         IsWhen, IsChild, WhenName, ChildName, Inserted;
    var lines := [ConjectureLine("a"), WhenLine("f"), ChildLine("x"), ChildLine("y")];
    InnerLines("f", "x", "");
    InnerLines("f", "y", "");
    OpenFirst(lines, "a");
    IndexOfHere(lines, WhenLine("f"), 1, 4);
    RunEndIs(lines, 2, 4);
    IndexOfHere(lines, ChildLine("x"), 2, 4);
    assert lines[3] != ChildLine("x");
    RemovalUndoesAdditionIff(lines, "a", "f", "x");
    AddedIs(lines, "a", "f", "x");
    UndoFindsGroup(lines, "a", "f", 4, ChildLine("x"));
    UndoFindsChild(lines, 2, "x");
    RemovedIs(Inserted(lines, 4, [ChildLine("x")]), "a", "f", "x", 1, 5, 2);
  }
}
