/** The lines of one note record: the propositions it states with their premises, and the
    edits that prove a conjecture and add or remove a premise. */
module NoteLines {
  import opened ProofTree

  function ConjectureLine(pp: string): string { "- Conjecture: " + pp }
  function TheoremLine(pp: string): string { "- Theorem: " + pp }
  function WhenLine(func: string): string { "  - When: " + func }
  function ChildLine(pp: string): string { "    - " + pp }
  function ProofLine(prf: string): string { "  - Proof: " + prf }

  predicate IsWhen(line: string) { "  - When: " <= line }
  function WhenName(line: string): string
    requires IsWhen(line)
  {
    line[10..]
  }

  predicate IsChild(line: string) { "    - " <= line }
  function ChildName(line: string): string
    requires IsChild(line)
  {
    line[6..]
  }

  predicate Indented(line: string) { line != "" && (line[0] == ' ' || line[0] == '\t') }

  // ----- reading a record

  /** The length of the indented run that `lines` opens with. */
  function RunLength(lines: seq<string>): (n: nat)
    ensures n <= |lines|
  {
    if lines == [] || !Indented(lines[0]) then 0 else 1 + RunLength(lines[1..])
  }

  function Run(lines: seq<string>): seq<string> { lines[..RunLength(lines)] }

  /** The first statement of `pp`: whether it is a theorem, and the indented run below it. */
  function Entry(lines: seq<string>, pp: string): (e: Option<(bool, seq<string>)>) {
    if lines == [] then None
    else if lines[0] == ConjectureLine(pp) then Some((false, Run(lines[1..])))
    else if lines[0] == TheoremLine(pp) then Some((true, Run(lines[1..])))
    else Entry(lines[1..], pp)
  }

  datatype Option<T> = None | Some(value: T)

  /** The named children that `lines` opens with. */
  function ChildKeys(func: string, lines: seq<string>): seq<Key> {
    if lines == [] || !IsChild(lines[0]) then []
    else (if ChildName(lines[0]) == "" then [] else [Key(func, ChildName(lines[0]))]) + ChildKeys(func, lines[1..])
  }

  /** The premises of the group that `line` opens, when it opens a named one. */
  function GroupKeys(line: string, rest: seq<string>): seq<Key> {
    if IsWhen(line) && WhenName(line) != "" then ChildKeys(WhenName(line), rest) else []
  }

  /** The premises written in an indented run. */
  function RunWhens(run: seq<string>): seq<Key> {
    if run == [] then []
    else GroupKeys(run[0], run[1..]) + RunWhens(run[1..])
  }

  function Theoremhood(lines: seq<string>, pp: string): Option<bool> {
    var e := Entry(lines, pp);
    if e.Some? then Some(e.value.0) else None
  }

  function Whens(lines: seq<string>, pp: string): seq<Key> {
    var e := Entry(lines, pp);
    if e.Some? then RunWhens(e.value.1) else []
  }

  method IsTheorem(lines: seq<string>, pp: string) returns (r: Option<bool>)
    ensures r == Theoremhood(lines, pp)
  {
    for i := 0 to |lines|
      invariant Entry(lines, pp) == Entry(lines[i..], pp)
    {
      assert lines[i..][1..] == lines[i + 1..];
      if lines[i] == ConjectureLine(pp) { return Some(false); }
      if lines[i] == TheoremLine(pp) { return Some(true); }
    }
    r := None;
  }

  /** The search of `getWhens` for the statement of `pp`. */
  method FindTarget(lines: seq<string>, pp: string) returns (target: nat)
    ensures target <= |lines|
    ensures target == |lines| ==> Entry(lines, pp) == None
    ensures target < |lines| ==> Entry(lines, pp).Some? && Entry(lines, pp).value.1 == Run(lines[target + 1..])
  {
    hide RunLength, Run;
    target := 0;
    assert lines[0..] == lines;
    while target < |lines| && lines[target] != ConjectureLine(pp) && lines[target] != TheoremLine(pp)
      invariant target <= |lines| && Entry(lines, pp) == Entry(lines[target..], pp)
    {
      assert lines[target..][1..] == lines[target + 1..];
      target := target + 1;
    }
    if target < |lines| { assert lines[target..][1..] == lines[target + 1..]; }
  }

  method GetWhens(lines: seq<string>, pp: string) returns (whens: seq<Key>)
    ensures whens == Whens(lines, pp)
  {
    hide Entry, RunWhens, RunLength, Run, ChildKeys, IsWhen, WhenName;
    whens := [];
    var target := FindTarget(lines, pp);
    if target == |lines| { return; }
    var i := target + 1;
    while i < |lines| && Indented(lines[i])
      invariant target < i <= |lines|
      invariant Whens(lines, pp) == whens + RunWhens(Run(lines[i..]))
    {
      WhensStep(lines, i);
      if IsWhen(lines[i]) {
        var func := WhenName(lines[i]);
        if func != "" {
          var children := GetChildren(lines, i + 1, func);
          whens := whens + children;
        }
      }
      i := i + 1;
    }
    EmptyRun(lines[i..]);
  }

  lemma EmptyRun(lines: seq<string>)
    requires lines == [] || !Indented(lines[0])
    ensures Run(lines) == [] && RunWhens(Run(lines)) == []
  {
  }

  lemma WhensStep(lines: seq<string>, i: nat)
    requires i < |lines| && Indented(lines[i])
    ensures RunWhens(Run(lines[i..])) == GroupKeys(lines[i], lines[i + 1..]) + RunWhens(Run(lines[i + 1..]))
  {
    hide IsWhen, WhenName, ChildKeys, RunLength;
    var rest := lines[i + 1..];
    assert lines[i..][1..] == rest;
    RunStep(lines[i..]);
    assert Run(lines[i..])[1..] == Run(rest);
    if IsWhen(lines[i]) { ChildrenInRun(WhenName(lines[i]), rest); }
  }

  /** The inner loop of `getWhens`. */
  method GetChildren(lines: seq<string>, start: nat, func: string) returns (keys: seq<Key>)
    requires start <= |lines|
    ensures keys == ChildKeys(func, lines[start..])
  {
    hide IsChild, ChildName;
    keys := [];
    var j := start;
    while j < |lines| && IsChild(lines[j])
      invariant start <= j <= |lines|
      invariant ChildKeys(func, lines[start..]) == keys + ChildKeys(func, lines[j..])
    {
      assert lines[j..][1..] == lines[j + 1..];
      var name := ChildName(lines[j]);
      if name != "" { keys := keys + [Key(func, name)]; }
      j := j + 1;
    }
  }

  lemma RunStep(lines: seq<string>)
    requires lines != [] && Indented(lines[0])
    ensures Run(lines) == [lines[0]] + Run(lines[1..])
  {
  }

  lemma {:induction false} ChildrenInRun(func: string, lines: seq<string>)
    ensures ChildKeys(func, Run(lines)) == ChildKeys(func, lines)
  {
    hide ChildName;
    if lines != [] && IsChild(lines[0]) {
      RunStep(lines);
      ChildrenInRun(func, lines[1..]);
      assert Run(lines)[1..] == Run(lines[1..]);
    }
  }

  // ----- editing a record

  datatype Error = TheoremPremise | ConjectureNotFound | WhenNotFound | PremiseNotFound

  datatype Result<T> = Ok(value: T) | Err(error: Error)

  /** The first index in `from..end` that holds `line`, or `end`. */
  function IndexOf(lines: seq<string>, line: string, from: nat, end: nat): (i: nat)
    requires from <= end <= |lines|
    ensures from <= i <= end
    ensures i < end ==> lines[i] == line
    decreases end - from
  {
    if from == end || lines[from] == line then from else IndexOf(lines, line, from + 1, end)
  }

  lemma {:induction false} IndexOfIs(lines: seq<string>, line: string, from: nat, end: nat, i: nat)
    requires from <= i <= end <= |lines| && (i < end ==> lines[i] == line)
    requires forall j :: from <= j < i ==> lines[j] != line
    ensures IndexOf(lines, line, from, end) == i
    decreases i - from
  {
    if from < i { IndexOfIs(lines, line, from + 1, end, i); }
  }

  lemma {:induction false} IndexOfIsFirst(lines: seq<string>, line: string, from: nat, end: nat)
    requires from <= end <= |lines|
    ensures forall j :: from <= j < IndexOf(lines, line, from, end) ==> lines[j] != line
    decreases end - from
  {
    if from < end && lines[from] != line { IndexOfIsFirst(lines, line, from + 1, end); }
  }

  /** The end of the indented run that starts at `from`. */
  function RunEnd(lines: seq<string>, from: nat): (i: nat)
    requires from <= |lines|
    ensures from <= i <= |lines|
    decreases |lines| - from
  {
    if from == |lines| || !Indented(lines[from]) then from else RunEnd(lines, from + 1)
  }

  lemma {:induction false} RunEndIs(lines: seq<string>, from: nat, i: nat)
    requires from <= i <= |lines| && (i < |lines| ==> !Indented(lines[i]))
    requires forall j :: from <= j < i ==> Indented(lines[j])
    ensures RunEnd(lines, from) == i
    decreases i - from
  {
    hide Indented;
    if from < i { RunEndIs(lines, from + 1, i); }
  }

  lemma {:induction false} RunEndIsRun(lines: seq<string>, from: nat)
    requires from <= |lines|
    ensures forall j :: from <= j < RunEnd(lines, from) ==> Indented(lines[j])
    ensures RunEnd(lines, from) < |lines| ==> !Indented(lines[RunEnd(lines, from)])
    decreases |lines| - from
  {
    hide Indented;
    if from < |lines| && Indented(lines[from]) { RunEndIsRun(lines, from + 1); }
  }

  function Inserted(lines: seq<string>, at: nat, added: seq<string>): seq<string>
    requires at <= |lines|
  {
    lines[..at] + added + lines[at..]
  }

  /** Where an open conjecture stands; an edit of premises refuses a proved one. */
  function OpenConjecture(lines: seq<string>, con: string): (r: Result<nat>)
    ensures r.Ok? ==> r.value < |lines| && lines[r.value] == ConjectureLine(con)
  {
    var c, t := IndexOf(lines, ConjectureLine(con), 0, |lines|), IndexOf(lines, TheoremLine(con), 0, |lines|);
    if t < c then Err(TheoremPremise)
    else if c == |lines| then Err(ConjectureNotFound)
    else Ok(c)
  }

  /** `-p`: the conjecture becomes a theorem, and the proof closes its indented run. */
  function Promoted(lines: seq<string>, con: string, prf: string): Result<seq<string>> {
    var c := IndexOf(lines, ConjectureLine(con), 0, |lines|);
    if c == |lines| then Err(ConjectureNotFound)
    else Ok(Inserted(lines[c := TheoremLine(con)], RunEnd(lines, c + 1), [ProofLine(prf)]))
  }

  /** `-a`: the premise goes to the end of the indented run, under a new group when no line
      after the conjecture opens one of that name. */
  function PremiseAdded(lines: seq<string>, con: string, func: string, pp: string): Result<seq<string>> {
    match OpenConjecture(lines, con)
    case Err(e) => Err(e)
    case Ok(c) =>
      var w := IndexOf(lines, WhenLine(func), c + 1, |lines|);
      if w < |lines| then Ok(Inserted(lines, RunEnd(lines, w + 1), [ChildLine(pp)]))
      else Ok(Inserted(lines, RunEnd(lines, c + 1), [WhenLine(func), ChildLine(pp)]))
  }

  /** `-r`: the premise goes, and with it the group when nothing else is left below it. */
  function PremiseRemoved(lines: seq<string>, con: string, func: string, pp: string): Result<seq<string>> {
    match OpenConjecture(lines, con)
    case Err(e) => Err(e)
    case Ok(c) =>
      var w := IndexOf(lines, WhenLine(func), c + 1, |lines|);
      if w == |lines| then Err(WhenNotFound)
      else
        var end := RunEnd(lines, w + 1);
        var k := IndexOf(lines, ChildLine(pp), w + 1, end);
        if k == end then Err(PremiseNotFound)
        else if end == w + 2 then Ok(lines[..w] + lines[end..])
        else Ok(lines[..k] + lines[k + 1..])
  }

  // ----- the edits, told from the lines around them

  /** `line` stands first after `above`. */
  ghost predicate FirstAt(lines: seq<string>, above: seq<string>, line: string, below: seq<string>) {
    lines == above + [line] + below && line !in above
  }

  /** The lines open with the indented run `run`. */
  ghost predicate RunThen(lines: seq<string>, run: seq<string>, rest: seq<string>) {
    && lines == run + rest
    && (forall i :: 0 <= i < |run| ==> Indented(run[i]))
    && (rest == [] || !Indented(rest[0]))
  }

  /** What `-p` makes of the lines. */
  ghost predicate Promotion(lines: seq<string>, con: string, prf: string, r: Result<seq<string>>) {
    || (ConjectureLine(con) !in lines && r == Err(ConjectureNotFound))
    || exists above, below, run, rest ::
         FirstAt(lines, above, ConjectureLine(con), below) && RunThen(below, run, rest) &&
         r == Ok(above + [TheoremLine(con)] + run + [ProofLine(prf)] + rest)
  }

  /** The conjecture is open: no line above it states it as a theorem. */
  ghost predicate OpenAt(lines: seq<string>, con: string, above: seq<string>, below: seq<string>) {
    FirstAt(lines, above, ConjectureLine(con), below) && TheoremLine(con) !in above
  }

  ghost predicate NotOpen(lines: seq<string>, con: string, error: Error) {
    || (ConjectureLine(con) !in lines && TheoremLine(con) !in lines && error == ConjectureNotFound)
    || exists above, below ::
         FirstAt(lines, above, TheoremLine(con), below) && ConjectureLine(con) !in above && error == TheoremPremise
  }

  /** What `-a` makes of the lines below an open conjecture. */
  ghost predicate Grown(below: seq<string>, func: string, pp: string, after: seq<string>) {
    || (exists run, rest ::
          WhenLine(func) !in below && RunThen(below, run, rest) && after == run + [WhenLine(func), ChildLine(pp)] + rest)
    || exists between, tail, run, rest ::
         FirstAt(below, between, WhenLine(func), tail) && RunThen(tail, run, rest) &&
         after == between + [WhenLine(func)] + run + [ChildLine(pp)] + rest
  }

  ghost predicate Addition(lines: seq<string>, con: string, func: string, pp: string, r: Result<seq<string>>) {
    || (r.Err? && NotOpen(lines, con, r.error))
    || exists above, below, after ::
         OpenAt(lines, con, above, below) && Grown(below, func, pp, after) &&
         r == Ok(above + [ConjectureLine(con)] + after)
  }

  /** What `-r` makes of the group of the premise, with the indented run below its first line. */
  ghost predicate Shrunk(run: seq<string>, func: string, pp: string, r: Result<seq<string>>) {
    || (ChildLine(pp) !in run && r == Err(PremiseNotFound))
    || (run == [ChildLine(pp)] && r == Ok([]))
    || exists before, after ::
         FirstAt(run, before, ChildLine(pp), after) && |run| > 1 && r == Ok([WhenLine(func)] + before + after)
  }

  ghost predicate Removal(lines: seq<string>, con: string, func: string, pp: string, r: Result<seq<string>>) {
    || (r.Err? && NotOpen(lines, con, r.error))
    || (exists above, below :: OpenAt(lines, con, above, below) && WhenLine(func) !in below && r == Err(WhenNotFound))
    || exists above, below, between, tail, run, rest, group ::
         OpenAt(lines, con, above, below) && FirstAt(below, between, WhenLine(func), tail) && RunThen(tail, run, rest) &&
         Shrunk(run, func, pp, group) &&
         r == if group.Err? then group
              else Ok(above + [ConjectureLine(con)] + between + group.value + rest)
  }

  lemma IndexOfFirstAt(lines: seq<string>, above: seq<string>, line: string, below: seq<string>)
    requires FirstAt(lines, above, line, below)
    ensures IndexOf(lines, line, 0, |lines|) == |above| && lines[|above|] == line && lines[|above| + 1..] == below
  {
    assert forall j :: 0 <= j < |above| ==> lines[j] == above[j];
    IndexOfIs(lines, line, 0, |lines|, |above|);
  }

  lemma IndexOfSplits(lines: seq<string>, line: string)
    ensures var c := IndexOf(lines, line, 0, |lines|);
      if c == |lines| then line !in lines else FirstAt(lines, lines[..c], line, lines[c + 1..])
  {
    var c := IndexOf(lines, line, 0, |lines|);
    IndexOfIsFirst(lines, line, 0, |lines|);
    hide IndexOf;
    if c < |lines| { assert lines == lines[..c] + [line] + lines[c + 1..]; }
  }

  /** Searching behind `above` is searching what is below. */
  lemma {:induction false} IndexOfBelow(lines: seq<string>, from: nat, line: string, part: seq<string>, i: nat)
    requires from + |part| <= |lines| && part == lines[from..from + |part|] && i <= |part|
    ensures IndexOf(lines, line, from + i, from + |part|) == from + IndexOf(part, line, i, |part|)
    decreases |part| - i
  {
    if i < |part| {
      assert part[i] == lines[from + i];
      IndexOfBelow(lines, from, line, part, i + 1);
    }
  }

  lemma RunEndSplits(lines: seq<string>, from: nat)
    requires from <= |lines|
    ensures var end := RunEnd(lines, from); RunThen(lines[from..], lines[from..end], lines[end..])
  {
    var end := RunEnd(lines, from);
    RunEndIsRun(lines, from);
    hide RunEnd, Indented;
    assert lines[from..] == lines[from..end] + lines[end..];
  }

  lemma RunEndOfRun(lines: seq<string>, from: nat, run: seq<string>, rest: seq<string>)
    requires from <= |lines| && RunThen(lines[from..], run, rest)
    ensures RunEnd(lines, from) == from + |run| && lines[from..from + |run|] == run && lines[from + |run|..] == rest
  {
    hide Indented;
    var tail, end := lines[from..], from + |run|;
    assert lines[from..end] == tail[..|run|] == run;
    assert lines[end..] == tail[|run|..] == rest;
    forall j | from <= j < end ensures Indented(lines[j]) { assert lines[j] == run[j - from]; }
    RunEndIs(lines, from, end);
  }

  /** For all lines, `-p` is exactly what is said of it. */
  lemma PromotionIs(lines: seq<string>, con: string, prf: string, r: Result<seq<string>>)
    ensures Promotion(lines, con, prf, r) <==> r == Promoted(lines, con, prf)
  {
    hide IndexOf, RunEnd, FirstAt, RunThen, ConjectureLine, TheoremLine, ProofLine, Inserted;
    var line := ConjectureLine(con);
    var c := IndexOf(lines, line, 0, |lines|);
    IndexOfSplits(lines, line);
    if c == |lines| {
      forall above, below | FirstAt(lines, above, line, below) ensures false { FirstIsIn(lines, above, line, below); }
    } else {
      FirstIsIn(lines, lines[..c], line, lines[c + 1..]);
      var end := RunEnd(lines, c + 1);
      RunEndSplits(lines, c + 1);
      PromotedPieces(lines, lines[..c], con, prf, lines[c + 1..], lines[c + 1..end], lines[end..]);
      forall above, below, run, rest | FirstAt(lines, above, line, below) && RunThen(below, run, rest)
        ensures Promoted(lines, con, prf) == Ok(above + [TheoremLine(con)] + run + [ProofLine(prf)] + rest)
      {
        PromotedPieces(lines, above, con, prf, below, run, rest);
      }
    }
  }

  lemma FirstIsIn(lines: seq<string>, above: seq<string>, line: string, below: seq<string>)
    requires FirstAt(lines, above, line, below)
    ensures line in lines
  {
    assert lines[|above|] == line;
  }

  lemma PromotedPieces(lines: seq<string>, above: seq<string>, con: string, prf: string, below: seq<string>,
                       run: seq<string>, rest: seq<string>)
    requires FirstAt(lines, above, ConjectureLine(con), below) && RunThen(below, run, rest)
    ensures Promoted(lines, con, prf) == Ok(above + [TheoremLine(con)] + run + [ProofLine(prf)] + rest)
  {
    hide IndexOf, RunEnd, ConjectureLine, TheoremLine, ProofLine;
    IndexOfFirstAt(lines, above, ConjectureLine(con), below);
    RunEndOfRun(lines, |above| + 1, run, rest);
    hide RunThen;
    MarkedPieces(lines, above, ConjectureLine(con), TheoremLine(con), run, [ProofLine(prf)], rest);
  }

  lemma MarkedPieces(lines: seq<string>, above: seq<string>, line: string, mark: string, run: seq<string>,
                     added: seq<string>, rest: seq<string>)
    requires lines == above + [line] + (run + rest)
    ensures Inserted(lines[|above| := mark], |above| + 1 + |run|, added) == above + [mark] + run + added + rest
  {
    assert lines[|above| := mark] == above + [mark] + run + rest;
    InsertedPieces(above + [mark] + run, added, rest);
  }

  lemma InsertedPieces(front: seq<string>, added: seq<string>, rest: seq<string>)
    ensures Inserted(front + rest, |front|, added) == front + added + rest
  {
  }

  lemma FirstIsUnique(lines: seq<string>, line: string, above: seq<string>, below: seq<string>)
    requires FirstAt(lines, above, line, below)
    ensures var c := IndexOf(lines, line, 0, |lines|); c < |lines| && above == lines[..c] && below == lines[c + 1..]
  {
    IndexOfFirstAt(lines, above, line, below);
    hide IndexOf;
    assert lines[..|above|] == above;
  }

  lemma NotInAbove(lines: seq<string>, line: string, c: nat)
    requires c <= |lines|
    ensures line !in lines[..c] <==> c <= IndexOf(lines, line, 0, |lines|)
  {
    var t := IndexOf(lines, line, 0, |lines|);
    IndexOfIsFirst(lines, line, 0, |lines|);
    hide IndexOf;
    if t < c { assert lines[..c][t] == line; }
  }

  /** An open conjecture is where it is looked for, and otherwise the error is the one given. */
  lemma OpenIs(lines: seq<string>, con: string)
    ensures match OpenConjecture(lines, con)
      case Ok(c) =>
        && OpenAt(lines, con, lines[..c], lines[c + 1..])
        && (forall above, below :: OpenAt(lines, con, above, below) ==> above == lines[..c] && below == lines[c + 1..])
        && (forall e :: !NotOpen(lines, con, e))
      case Err(e) =>
        && (forall above, below :: !OpenAt(lines, con, above, below))
        && (forall e' :: NotOpen(lines, con, e') <==> e' == e)
  {
    var conjecture, theorem := ConjectureLine(con), TheoremLine(con);
    assert conjecture != theorem by { assert conjecture[2] == 'C' && theorem[2] == 'T'; }
    hide IndexOf, FirstAt, ConjectureLine, TheoremLine;
    var c, t := IndexOf(lines, conjecture, 0, |lines|), IndexOf(lines, theorem, 0, |lines|);
    OnlyFirst(lines, conjecture);
    OnlyFirst(lines, theorem);
    NotInAbove(lines, theorem, c);
    NotInAbove(lines, conjecture, t);
  }

  /** A line has one first place, or none. */
  lemma OnlyFirst(lines: seq<string>, line: string)
    ensures var c := IndexOf(lines, line, 0, |lines|);
      && (c < |lines| <==> line in lines)
      && (c < |lines| ==> FirstAt(lines, lines[..c], line, lines[c + 1..]))
      && forall above, below :: FirstAt(lines, above, line, below) ==>
           c < |lines| && above == lines[..c] && below == lines[c + 1..]
  {
    hide IndexOf, FirstAt;
    IndexOfSplits(lines, line);
    forall above, below | FirstAt(lines, above, line, below)
      ensures var c := IndexOf(lines, line, 0, |lines|); c < |lines| && above == lines[..c] && below == lines[c + 1..]
    {
      FirstIsUnique(lines, line, above, below);
    }
  }

  /** The group of a name, looked for below `above`. */
  lemma WhenBelow(lines: seq<string>, from: nat, line: string)
    requires from <= |lines|
    ensures IndexOf(lines, line, from, |lines|) == from + IndexOf(lines[from..], line, 0, |lines| - from)
  {
    IndexOfBelow(lines, from, line, lines[from..], 0);
  }

  lemma PutPieces(lines: seq<string>, front: seq<string>, run: seq<string>, added: seq<string>, rest: seq<string>)
    requires lines == front + (run + rest)
    ensures Inserted(lines, |front| + |run|, added) == front + (run + added + rest)
  {
    assert lines == (front + run) + rest;
    InsertedPieces(front + run, added, rest);
  }

  /** Where the open conjecture stands, and the group of a name below it. */
  lemma GroupBelow(lines: seq<string>, con: string, func: string, above: seq<string>, below: seq<string>)
    requires OpenAt(lines, con, above, below)
    ensures OpenConjecture(lines, con) == Ok(|above|) && |lines| == |above| + 1 + |below| && lines[|above| + 1..] == below
    ensures IndexOf(lines, WhenLine(func), |above| + 1, |lines|)
         == |above| + 1 + IndexOf(below, WhenLine(func), 0, |below|)
    ensures WhenLine(func) in below <==> IndexOf(below, WhenLine(func), 0, |below|) < |below|
  {
    hide ConjectureLine, TheoremLine, WhenLine, IndexOf, OpenConjecture;
    OpenIs(lines, con);
    hide NotOpen;
    IndexOfFirstAt(lines, above, ConjectureLine(con), below);
    assert OpenConjecture(lines, con).Ok?;
    assert |lines[..OpenConjecture(lines, con).value]| == |above|;
    WhenBelow(lines, |above| + 1, WhenLine(func));
    NotInAbove(below, WhenLine(func), |below|);
    assert below[..|below|] == below;
  }

  lemma AddedPieces(lines: seq<string>, con: string, func: string, pp: string, above: seq<string>, below: seq<string>,
                    after: seq<string>)
    requires OpenAt(lines, con, above, below) && Grown(below, func, pp, after)
    ensures PremiseAdded(lines, con, func, pp) == Ok(above + [ConjectureLine(con)] + after)
  {
    hide ConjectureLine, WhenLine, ChildLine, RunThen, FirstAt, OpenAt, PremiseAdded;
    var when, child := WhenLine(func), ChildLine(pp);
    if run, rest :| when !in below && RunThen(below, run, rest) && after == run + [when, child] + rest {
      AddedGroup(lines, con, func, pp, above, below, run, rest);
    } else {
      var between, tail, run, rest :|
        FirstAt(below, between, when, tail) && RunThen(tail, run, rest) && after == between + [when] + run + [child] + rest;
      AddedToGroup(lines, con, func, pp, above, below, between, tail, run, rest);
    }
  }

  lemma AddedGroup(lines: seq<string>, con: string, func: string, pp: string, above: seq<string>, below: seq<string>,
                   run: seq<string>, rest: seq<string>)
    requires OpenAt(lines, con, above, below) && WhenLine(func) !in below && RunThen(below, run, rest)
    ensures PremiseAdded(lines, con, func, pp)
      == Ok(above + [ConjectureLine(con)] + (run + [WhenLine(func), ChildLine(pp)] + rest))
  {
    hide ConjectureLine, WhenLine, ChildLine, IndexOf, RunEnd, OpenConjecture, RunThen, OpenAt, Inserted;
    GroupBelow(lines, con, func, above, below);
    OpenPieces(lines, con, above, below);
    RunEndOfRun(lines, |above| + 1, run, rest);
    RunPieces(below, run, rest);
    PutPieces(lines, above + [ConjectureLine(con)], run, [WhenLine(func), ChildLine(pp)], rest);
  }

  lemma AddedToGroup(lines: seq<string>, con: string, func: string, pp: string, above: seq<string>, below: seq<string>,
                     between: seq<string>, tail: seq<string>, run: seq<string>, rest: seq<string>)
    requires OpenAt(lines, con, above, below) && FirstAt(below, between, WhenLine(func), tail) && RunThen(tail, run, rest)
    ensures PremiseAdded(lines, con, func, pp)
      == Ok(above + [ConjectureLine(con)] + (between + [WhenLine(func)] + run + [ChildLine(pp)] + rest))
  {
    hide ConjectureLine, WhenLine, ChildLine, IndexOf, RunEnd, OpenConjecture, RunThen, FirstAt, OpenAt, Inserted;
    GroupStart(lines, con, func, above, below, between, tail);
    RunSpot(lines, |above| + 1 + |between| + 1, run, rest, ChildLine(pp));
    GroupPieces(lines, con, func, above, below, between, tail, run, rest);
    PutInGroup(above + [ConjectureLine(con)], between, [WhenLine(func)], run, [ChildLine(pp)], rest);
  }

  lemma PutInGroup(front: seq<string>, between: seq<string>, when: seq<string>, run: seq<string>, added: seq<string>,
                   rest: seq<string>)
    ensures Inserted(front + between + when + run + rest, |front| + |between| + |when| + |run|, added)
         == front + (between + when + run + added + rest)
  {
    InsertedPieces(front + between + when + run, added, rest);
  }

  lemma OpenPieces(lines: seq<string>, con: string, above: seq<string>, below: seq<string>)
    requires OpenAt(lines, con, above, below)
    ensures lines == above + [ConjectureLine(con)] + below
  {
  }

  lemma RunPieces(lines: seq<string>, run: seq<string>, rest: seq<string>)
    requires RunThen(lines, run, rest)
    ensures lines == run + rest
  {
  }

  lemma GrowsSomehow(below: seq<string>, func: string, pp: string)
    ensures exists after :: Grown(below, func, pp, after)
  {
    hide RunThen, FirstAt, IndexOf, RunEnd, WhenLine, ChildLine;
    var when, child := WhenLine(func), ChildLine(pp);
    var w := IndexOf(below, when, 0, |below|);
    IndexOfSplits(below, when);
    if w == |below| {
      var end := RunEnd(below, 0);
      RunEndSplits(below, 0);
      assert below[0..] == below;
      assert Grown(below, func, pp, below[0..end] + [when, child] + below[end..]);
    } else {
      var end := RunEnd(below, w + 1);
      RunEndSplits(below, w + 1);
      assert Grown(below, func, pp, below[..w] + [when] + below[w + 1..end] + [child] + below[end..]);
    }
  }

  /** For all lines, `-a` is exactly what is said of it. */
  lemma AdditionIs(lines: seq<string>, con: string, func: string, pp: string, r: Result<seq<string>>)
    ensures Addition(lines, con, func, pp, r) <==> r == PremiseAdded(lines, con, func, pp)
  {
    hide OpenAt, NotOpen, Grown, OpenConjecture, IndexOf, RunEnd, ConjectureLine, WhenLine, ChildLine, Inserted;
    OpenIs(lines, con);
    if OpenConjecture(lines, con).Ok? {
      var c := OpenConjecture(lines, con).value;
      GrowsSomehow(lines[c + 1..], func, pp);
      var after :| Grown(lines[c + 1..], func, pp, after);
      AddedPieces(lines, con, func, pp, lines[..c], lines[c + 1..], after);
      forall above, below, after | OpenAt(lines, con, above, below) && Grown(below, func, pp, after)
        ensures PremiseAdded(lines, con, func, pp) == Ok(above + [ConjectureLine(con)] + after)
      {
        AddedPieces(lines, con, func, pp, above, below, after);
      }
    }
  }

  /** The lines without the premise at `i` of a run of `n` lines, whose group opens at `w`. */
  function Remains(lines: seq<string>, w: nat, n: nat, i: nat): Result<seq<string>>
    requires w + 1 + n <= |lines| && i <= n
  {
    if i == n then Err(PremiseNotFound)
    else if n == 1 then Ok(lines[..w] + lines[w + 2..])
    else Ok(lines[..w + 1 + i] + lines[w + 1 + i + 1..])
  }

  lemma RemovedFrom(lines: seq<string>, con: string, func: string, pp: string, above: seq<string>, below: seq<string>,
                    between: seq<string>, tail: seq<string>, run: seq<string>, rest: seq<string>)
    requires OpenAt(lines, con, above, below) && FirstAt(below, between, WhenLine(func), tail) && RunThen(tail, run, rest)
    ensures var front := above + [ConjectureLine(con)] + between;
      var i := IndexOf(run, ChildLine(pp), 0, |run|);
      && lines == front + [WhenLine(func)] + run + rest
      && PremiseRemoved(lines, con, func, pp) == Remains(lines, |front|, |run|, i)
  {
    hide ConjectureLine, WhenLine, ChildLine, IndexOf, RunEnd, OpenConjecture, RunThen, FirstAt, OpenAt, PremiseRemoved;
    var w, i := |above| + 1 + |between|, IndexOf(run, ChildLine(pp), 0, |run|);
    GroupPieces(lines, con, func, above, below, between, tail, run, rest);
    GroupStart(lines, con, func, above, below, between, tail);
    RunSpot(lines, w + 1, run, rest, ChildLine(pp));
    RemovedAt(lines, con, func, pp, |above|, w, w + 1 + |run|, w + 1 + i);
    assert |above + [ConjectureLine(con)] + between| == w;
  }

  lemma GroupPieces(lines: seq<string>, con: string, func: string, above: seq<string>, below: seq<string>,
                    between: seq<string>, tail: seq<string>, run: seq<string>, rest: seq<string>)
    requires OpenAt(lines, con, above, below) && FirstAt(below, between, WhenLine(func), tail) && RunThen(tail, run, rest)
    ensures lines == above + [ConjectureLine(con)] + between + [WhenLine(func)] + run + rest
  {
    hide ConjectureLine, TheoremLine, WhenLine, Indented;
    var front := above + [ConjectureLine(con)];
    assert front + (between + [WhenLine(func)] + (run + rest)) == front + between + [WhenLine(func)] + run + rest;
  }

  /** Where the group of a name opens, below an open conjecture. */
  lemma GroupStart(lines: seq<string>, con: string, func: string, above: seq<string>, below: seq<string>,
                   between: seq<string>, tail: seq<string>)
    requires OpenAt(lines, con, above, below) && FirstAt(below, between, WhenLine(func), tail)
    ensures var w := |above| + 1 + |between|;
      && OpenConjecture(lines, con) == Ok(|above|) && w < |lines| && WhenLine(func) in below
      && IndexOf(lines, WhenLine(func), |above| + 1, |lines|) == w && lines[w + 1..] == tail
  {
    hide ConjectureLine, WhenLine, IndexOf, OpenConjecture, FirstAt, OpenAt;
    GroupBelow(lines, con, func, above, below);
    FirstIsIn(below, between, WhenLine(func), tail);
    IndexOfFirstAt(below, between, WhenLine(func), tail);
    SliceOfSlice(lines, |above| + 1, |between| + 1);
  }

  lemma SliceOfSlice(lines: seq<string>, i: nat, j: nat)
    requires i + j <= |lines|
    ensures lines[i..][j..] == lines[i + j..]
  {
  }

  lemma RunSpot(lines: seq<string>, from: nat, run: seq<string>, rest: seq<string>, line: string)
    requires from <= |lines| && RunThen(lines[from..], run, rest)
    ensures RunEnd(lines, from) == from + |run| && from + |run| <= |lines|
    ensures IndexOf(lines, line, from, from + |run|) == from + IndexOf(run, line, 0, |run|)
  {
    hide IndexOf, RunEnd, RunThen;
    RunEndOfRun(lines, from, run, rest);
    IndexOfBelow(lines, from, line, run, 0);
  }

  lemma RemovedAt(lines: seq<string>, con: string, func: string, pp: string, c: nat, w: nat, end: nat, k: nat)
    requires OpenConjecture(lines, con) == Ok(c) && c < w < |lines| && IndexOf(lines, WhenLine(func), c + 1, |lines|) == w
    requires RunEnd(lines, w + 1) == end && IndexOf(lines, ChildLine(pp), w + 1, end) == k
    ensures PremiseRemoved(lines, con, func, pp) ==
      if k == end then Err(PremiseNotFound)
      else if end == w + 2 then Ok(lines[..w] + lines[end..])
      else Ok(lines[..k] + lines[k + 1..])
  {
    hide ConjectureLine, TheoremLine, WhenLine, ChildLine, IndexOf, RunEnd, OpenConjecture;
  }

  lemma RemovedPieces(lines: seq<string>, con: string, func: string, pp: string, above: seq<string>, below: seq<string>,
                      between: seq<string>, tail: seq<string>, run: seq<string>, rest: seq<string>, group: Result<seq<string>>)
    requires OpenAt(lines, con, above, below) && FirstAt(below, between, WhenLine(func), tail) && RunThen(tail, run, rest)
    requires Shrunk(run, func, pp, group)
    ensures PremiseRemoved(lines, con, func, pp)
      == if group.Err? then group else Ok(above + [ConjectureLine(con)] + between + group.value + rest)
  {
    hide ConjectureLine, WhenLine, ChildLine, IndexOf, PremiseRemoved;
    RemovedFrom(lines, con, func, pp, above, below, between, tail, run, rest);
    ShrunkPieces(lines, above + [ConjectureLine(con)] + between, func, pp, run, rest, group);
  }

  lemma ShrunkPieces(lines: seq<string>, front: seq<string>, func: string, pp: string, run: seq<string>, rest: seq<string>,
                     group: Result<seq<string>>)
    requires lines == front + [WhenLine(func)] + run + rest && Shrunk(run, func, pp, group)
    ensures (if group.Err? then group else Ok(front + group.value + rest))
         == Remains(lines, |front|, |run|, IndexOf(run, ChildLine(pp), 0, |run|))
  {
    hide WhenLine, ChildLine, IndexOf, FirstAt, Remains;
    var when, child := WhenLine(func), ChildLine(pp);
    if before, after :| FirstAt(run, before, child, after) && |run| > 1 && group == Ok([when] + before + after) {
      ChildDropped(lines, front, when, before, child, after, rest, run);
    } else if run == [child] {
      GroupDropped(lines, front, when, child, rest);
    } else {
      NothingDropped(lines, |front|, run, child);
    }
  }

  lemma ChildDropped(lines: seq<string>, front: seq<string>, when: string, before: seq<string>, line: string,
                     after: seq<string>, rest: seq<string>, run: seq<string>)
    requires lines == front + [when] + run + rest && FirstAt(run, before, line, after) && |run| > 1
    ensures Remains(lines, |front|, |run|, IndexOf(run, line, 0, |run|)) == Ok(front + ([when] + before + after) + rest)
  {
    hide FirstAt, IndexOf;
    IndexOfFirstAt(run, before, line, after);
    DroppedPieces(lines, front + [when], before, line, after, rest, run);
    assert front + [when] + before + after + rest == front + ([when] + before + after) + rest;
  }

  lemma GroupDropped(lines: seq<string>, front: seq<string>, when: string, child: string, rest: seq<string>)
    requires lines == front + [when] + [child] + rest
    ensures Remains(lines, |front|, 1, IndexOf([child], child, 0, 1)) == Ok(front + [] + rest)
  {
    assert lines[..|front|] == front && lines[|front| + 2..] == rest;
    assert front + [] == front;
    assert IndexOf([child], child, 0, 1) == 0;
  }

  lemma NothingDropped(lines: seq<string>, w: nat, run: seq<string>, child: string)
    requires w + 1 + |run| <= |lines| && child !in run
    ensures Remains(lines, w, |run|, IndexOf(run, child, 0, |run|)) == Err(PremiseNotFound)
  {
    NotInAbove(run, child, |run|);
    assert run[..|run|] == run;
  }

  lemma DroppedPieces(lines: seq<string>, front: seq<string>, before: seq<string>, line: string, after: seq<string>,
                      rest: seq<string>, run: seq<string>)
    requires lines == front + run + rest && FirstAt(run, before, line, after)
    ensures var k := |front| + |before|; k < |lines| && lines[..k] + lines[k + 1..] == front + before + after + rest
  {
    var k := |front| + |before|;
    assert lines == front + before + [line] + after + rest;
    assert lines[..k] == front + before && lines[k + 1..] == after + rest;
  }

  lemma ShrinksSomehow(run: seq<string>, func: string, pp: string)
    ensures exists group :: Shrunk(run, func, pp, group)
  {
    var child := ChildLine(pp);
    hide FirstAt, IndexOf, WhenLine, ChildLine;
    var k := IndexOf(run, child, 0, |run|);
    IndexOfSplits(run, child);
    if k == |run| {
      assert Shrunk(run, func, pp, Err(PremiseNotFound));
    } else if |run| == 1 {
      assert Shrunk(run, func, pp, Ok([]));
    } else {
      assert Shrunk(run, func, pp, Ok([WhenLine(func)] + run[..k] + run[k + 1..]));
    }
  }

  lemma RemovesSomehow(lines: seq<string>, con: string, func: string, pp: string, c: nat)
    requires OpenConjecture(lines, con) == Ok(c)
    ensures Removal(lines, con, func, pp, PremiseRemoved(lines, con, func, pp))
  {
    hide OpenAt, NotOpen, FirstAt, RunThen, Shrunk, OpenConjecture, IndexOf, RunEnd, ConjectureLine, WhenLine, ChildLine, Removal;
    OpenIs(lines, con);
    var above, below := lines[..c], lines[c + 1..];
    GroupBelow(lines, con, func, above, below);
    IndexOfSplits(below, WhenLine(func));
    var w := IndexOf(below, WhenLine(func), 0, |below|);
    if w < |below| {
      RunEndSplits(below, w + 1);
      var end := RunEnd(below, w + 1);
      var run := below[w + 1..end];
      ShrinksSomehow(run, func, pp);
      var group :| Shrunk(run, func, pp, group);
      RemovedPieces(lines, con, func, pp, above, below, below[..w], below[w + 1..], run, below[end..], group);
      GroupIsRemoval(lines, con, func, pp, above, below, below[..w], below[w + 1..], run, below[end..], group);
    } else {
      NoGroupIsRemoval(lines, con, func, pp, above, below);
    }
  }

  lemma GroupIsRemoval(lines: seq<string>, con: string, func: string, pp: string, above: seq<string>, below: seq<string>,
                       between: seq<string>, tail: seq<string>, run: seq<string>, rest: seq<string>, group: Result<seq<string>>)
    requires OpenAt(lines, con, above, below) && FirstAt(below, between, WhenLine(func), tail) && RunThen(tail, run, rest)
    requires Shrunk(run, func, pp, group)
    ensures Removal(lines, con, func, pp,
                    if group.Err? then group else Ok(above + [ConjectureLine(con)] + between + group.value + rest))
  {
    hide OpenAt, FirstAt, RunThen, Shrunk, NotOpen, ConjectureLine, WhenLine;
  }

  lemma NoGroupIsRemoval(lines: seq<string>, con: string, func: string, pp: string, above: seq<string>, below: seq<string>)
    requires OpenAt(lines, con, above, below) && WhenLine(func) !in below
    ensures Removal(lines, con, func, pp, Err(WhenNotFound))
  {
    hide OpenAt, NotOpen, WhenLine, FirstAt, RunThen, Shrunk, ConjectureLine;
  }

  lemma RemovalIsForced(lines: seq<string>, con: string, func: string, pp: string, r: Result<seq<string>>)
    requires Removal(lines, con, func, pp, r)
    ensures r == PremiseRemoved(lines, con, func, pp)
  {
    hide OpenAt, NotOpen, FirstAt, RunThen, Shrunk, OpenConjecture, IndexOf, RunEnd, ConjectureLine, WhenLine, ChildLine;
    OpenIs(lines, con);
    if above, below :| OpenAt(lines, con, above, below) && WhenLine(func) !in below && r == Err(WhenNotFound) {
      GroupBelow(lines, con, func, above, below);
    } else if !(r.Err? && NotOpen(lines, con, r.error)) {
      hide PremiseRemoved;
      var above, below, between, tail, run, rest, group :|
        OpenAt(lines, con, above, below) && FirstAt(below, between, WhenLine(func), tail) && RunThen(tail, run, rest) &&
        Shrunk(run, func, pp, group) &&
        r == if group.Err? then group else Ok(above + [ConjectureLine(con)] + between + group.value + rest);
      RemovedPieces(lines, con, func, pp, above, below, between, tail, run, rest, group);
    }
  }

  /** For all lines, `-r` is exactly what is said of it. */
  lemma RemovalIs(lines: seq<string>, con: string, func: string, pp: string, r: Result<seq<string>>)
    ensures Removal(lines, con, func, pp, r) <==> r == PremiseRemoved(lines, con, func, pp)
  {
    OpenIs(lines, con);
    hide Removal, OpenAt;
    if Removal(lines, con, func, pp, r) { RemovalIsForced(lines, con, func, pp, r); }
    match OpenConjecture(lines, con)
    case Ok(c) => RemovesSomehow(lines, con, func, pp, c);
    case Err(e) => ErrorIsRemoval(lines, con, func, pp, e);
  }

  lemma ErrorIsRemoval(lines: seq<string>, con: string, func: string, pp: string, e: Error)
    requires NotOpen(lines, con, e)
    ensures Removal(lines, con, func, pp, Err(e))
  {
    hide NotOpen, OpenAt, FirstAt, RunThen, Shrunk;
  }

  // ----- the edits as the loops of the command

  method FindConjecture(lines: seq<string>, con: string, guarded: bool) returns (r: Result<nat>)
    ensures guarded ==> r == OpenConjecture(lines, con)
    ensures !guarded ==>
      var c := IndexOf(lines, ConjectureLine(con), 0, |lines|);
      r == if c == |lines| then Err(ConjectureNotFound) else Ok(c)
  {
    var conjecture, theorem := ConjectureLine(con), TheoremLine(con);
    assert conjecture != theorem by { assert conjecture[2] == 'C' && theorem[2] == 'T'; }
    hide IndexOf, ConjectureLine, TheoremLine;
    for i := 0 to |lines|
      invariant IndexOf(lines, conjecture, 0, |lines|) == IndexOf(lines, conjecture, i, |lines|)
      invariant guarded ==> IndexOf(lines, theorem, 0, |lines|) == IndexOf(lines, theorem, i, |lines|)
    {
      IndexOfStep(lines, conjecture, i);
      IndexOfStep(lines, theorem, i);
      if lines[i] == conjecture { return Ok(i); }
      if guarded && lines[i] == theorem { return Err(TheoremPremise); }
    }
    r := Err(ConjectureNotFound);
  }

  lemma IndexOfStep(lines: seq<string>, line: string, i: nat)
    requires i < |lines|
    ensures IndexOf(lines, line, i, |lines|) == if lines[i] == line then i else IndexOf(lines, line, i + 1, |lines|)
  {
  }

  method FindLine(lines: seq<string>, line: string, from: nat, to: nat) returns (r: nat)
    requires from <= to <= |lines|
    ensures r == IndexOf(lines, line, from, to)
  {
    r := from;
    while r < to && lines[r] != line
      invariant from <= r <= to && IndexOf(lines, line, from, to) == IndexOf(lines, line, r, to)
    {
      r := r + 1;
    }
  }

  method FindRunEnd(lines: seq<string>, from: nat) returns (r: nat)
    requires from <= |lines|
    ensures r == RunEnd(lines, from)
  {
    r := from;
    while r < |lines| && Indented(lines[r])
      invariant from <= r <= |lines| && RunEnd(lines, from) == RunEnd(lines, r)
    {
      r := r + 1;
    }
  }

  method Promote(lines: seq<string>, con: string, prf: string) returns (r: Result<seq<string>>)
    ensures r == Promoted(lines, con, prf) && Promotion(lines, con, prf, r)
  {
    PromotionIs(lines, con, prf, Promoted(lines, con, prf));
    hide Promotion;
    var found := FindConjecture(lines, con, false);
    if found.Err? { return Err(found.error); }
    var c := found.value;
    var modified := MarkProved(lines, c, RunEnd(lines, c + 1), TheoremLine(con), ProofLine(prf));
    r := Ok(modified);
  }

  method MarkProved(lines: seq<string>, c: nat, ghost end: nat, theorem: string, proof: string) returns (modified: seq<string>)
    requires c < |lines| && end == RunEnd(lines, c + 1)
    ensures modified == Inserted(lines[c := theorem], end, [proof])
  {
    RunEndIsRun(lines, c + 1);
    hide RunEnd;
    modified := [];
    var proofInserted := false;
    ghost var marked := lines[c := theorem];
    for i := 0 to |lines|
      invariant proofInserted <==> end < i
      invariant !proofInserted ==> modified == marked[..i]
      invariant proofInserted ==> modified == marked[..end] + [proof] + marked[end..i]
    {
      if i == c {
        modified := modified + [theorem];
      } else {
        if i > c && !proofInserted && !Indented(lines[i]) {
          assert i == end;
          modified := modified + [proof];
          proofInserted := true;
        }
        modified := modified + [lines[i]];
      }
    }
    if !proofInserted { modified := modified + [proof]; }
  }

  method InsertLines(lines: seq<string>, at: nat, added: seq<string>) returns (modified: seq<string>)
    requires at <= |lines|
    ensures modified == Inserted(lines, at, added)
  {
    modified := [];
    for i := 0 to |lines|
      invariant modified == if at < i then lines[..at] + added + lines[at..i] else lines[..i]
    {
      if i == at { modified := modified + added; }
      modified := modified + [lines[i]];
    }
    if at == |lines| { modified := modified + added; }
  }

  method AddPremise(lines: seq<string>, con: string, func: string, pp: string) returns (r: Result<seq<string>>)
    ensures r == PremiseAdded(lines, con, func, pp) && Addition(lines, con, func, pp, r)
  {
    AdditionIs(lines, con, func, pp, PremiseAdded(lines, con, func, pp));
    hide Addition;
    var found := FindConjecture(lines, con, true);
    if found.Err? { return Err(found.error); }
    var w := FindLine(lines, WhenLine(func), found.value + 1, |lines|);
    var insertion := FindRunEnd(lines, if w < |lines| then w + 1 else found.value + 1);
    var inserted := if w < |lines| then [ChildLine(pp)] else [WhenLine(func), ChildLine(pp)];
    var modified := InsertLines(lines, insertion, inserted);
    r := Ok(modified);
  }

  method RemovePremise(lines: seq<string>, con: string, func: string, pp: string) returns (r: Result<seq<string>>)
    ensures r == PremiseRemoved(lines, con, func, pp) && Removal(lines, con, func, pp, r)
  {
    RemovalIs(lines, con, func, pp, PremiseRemoved(lines, con, func, pp));
    hide Removal, IndexOf, RunEnd, OpenConjecture, WhenLine, ChildLine, Indented;
    var found := FindConjecture(lines, con, true);
    if found.Err? { return Err(found.error); }
    var w := FindLine(lines, WhenLine(func), found.value + 1, |lines|);
    if w == |lines| { return Err(WhenNotFound); }
    var end := FindRunEnd(lines, w + 1);
    var k := FindLine(lines, ChildLine(pp), w + 1, end);
    if k == end { return Err(PremiseNotFound); }
    RunEndIsRun(lines, w + 1);
    var hasOtherChild := HasOtherChild(lines, w, end, k);
    var modified := DropLines(lines, k, w, !hasOtherChild);
    r := Ok(modified);
  }

  method HasOtherChild(lines: seq<string>, w: nat, end: nat, k: nat) returns (r: bool)
    requires w < k < end <= |lines| && forall j :: w < j < end ==> Indented(lines[j])
    ensures r <==> end != w + 2
  {
    r := false;
    for i := w + 1 to end
      invariant r <==> w + 3 <= i || (i == w + 2 && k != w + 1)
    {
      if i != k && Indented(lines[i]) { r := true; }
    }
  }

  method DropLines(lines: seq<string>, k: nat, w: nat, alsoGroup: bool) returns (modified: seq<string>)
    requires w < k < |lines| && (alsoGroup ==> k == w + 1)
    ensures modified == if alsoGroup then lines[..w] + lines[w + 2..] else lines[..k] + lines[k + 1..]
  {
    modified := [];
    var first := if alsoGroup then w else k;
    for i := 0 to |lines|
      invariant i <= first ==> modified == lines[..i]
      invariant first < i <= k ==> modified == lines[..first]
      invariant k < i ==> modified == lines[..first] + lines[k + 1..i]
    {
      if i != k && (i != w || !alsoGroup) {
        modified := modified + [lines[i]];
      }
    }
  }
}
