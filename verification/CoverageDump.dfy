/** The coverage dumps, and why the validator accepts everything that is printed. */
module CoverageDump {
  import opened Fields
  import opened Text
  import opened DumpValidator
  import opened HookSpec
  import opened Interning
  import opened CgPool
  import opened Sorting
  import opened Listings
  import WindowOrder
  import PtsDump

  // ----- what is printed

  function Decimals(vids: seq<int>): seq<string> { seq(|vids|, i requires 0 <= i < |vids| => Decimal(vids[i])) }

  /** A basic-block window: its ids, separated by spaces. */
  function BlockLine(win: seq<int>): string
    requires win != []
  {
    Join(Decimals(win), " ")
  }

  function TypeVids(types: seq<PtrType>): seq<int> { seq(|types|, i requires 0 <= i < |types| => types[i].vid) }

  function ArgTokens(a: ArgValue): seq<string> {
    match a
    case PosNum => ["POS"]
    case ZeroNum => ["ZERO"]
    case NegNum => ["NEG"]
    case NullPtr => ["NULL"]
    case Ptr(types) => ["{"] + Decimals(TypeVids(types)) + ["}"]
  }

  function AllArgTokens(args: seq<ArgValue>): seq<string> {
    if args == [] then [] else ArgTokens(args[0]) + AllArgTokens(args[1..])
  }

  function LevelTokens(level: Level): seq<string> { [Decimal(level.vid)] + AllArgTokens(level.args) }

  function LevelText(level: Level): string { Join(LevelTokens(level), " ") }

  function LevelTexts(win: seq<Level>): seq<string> { seq(|win|, i requires 0 <= i < |win| => LevelText(win[i])) }

  /** A call-context window: its levels, separated by commas. */
  function CallLine(win: seq<Level>): string
    requires win != []
  {
    Join(LevelTexts(win), ", ")
  }

  // ----- printing

  lemma {:induction false} JoinLast(parts: seq<string>, last: string, sep: string)
    requires parts != []
    ensures Join(parts + [last], sep) == Join(parts, sep) + sep + last
    decreases |parts|
  {
    var all := parts + [last];
    if |parts| == 1 {
      assert all[1..] == [last];
      assert parts[0] + sep + last == Join(all, sep);
    } else {
      JoinLast(parts[1..], last, sep);
      assert all[1..] == parts[1..] + [last];
      assert parts[0] + sep + (Join(parts[1..], sep) + sep + last) == (parts[0] + sep + Join(parts[1..], sep)) + sep + last;
    }
  }

  method PrintBlockWindow(pool: seq<int>, w: nat, a: nat) returns (text: string)
    requires 0 < w && a + w <= |pool|
    ensures text == BlockLine(Slot(pool, a, w))
  {
    hide Decimal, Join;
    text := "";
    ghost var win := Slot(pool, a, w);
    for i := 0 to w
      invariant text == if i == 0 then "" else Join(Decimals(win[..i]), " ")
    {
      assert win[i] == pool[a + i];
      assert Decimals(win[..i + 1]) == Decimals(win[..i]) + [Decimal(win[i])];
      if i > 0 {
        JoinLast(Decimals(win[..i]), Decimal(win[i]), " ");
        text := text + " ";
      } else {
        JoinOne(Decimal(win[0]), " ");
        assert Decimals(win[..1]) == [Decimal(win[0])];
      }
      text := text + Decimal(pool[a + i]);
    }
    assert win[..w] == win;
  }

  lemma JoinOne(part: string, sep: string)
    ensures Join([part], sep) == part
  {
  }

  /** More tokens, each after a space. */
  function Tail(tokens: seq<string>): string { if tokens == [] then "" else " " + tokens[0] + Tail(tokens[1..]) }

  lemma {:induction false} TailAppend(a: seq<string>, b: seq<string>)
    ensures Tail(a + b) == Tail(a) + Tail(b)
  {
    if a == [] {
      assert a + b == b;
    } else {
      TailAppend(a[1..], b);
      assert (a + b)[1..] == a[1..] + b;
    }
  }

  lemma {:induction false} JoinIsTail(first: string, rest: seq<string>)
    ensures Join([first] + rest, " ") == first + Tail(rest)
    decreases |rest|
  {
    if rest == [] {
      assert [first] + rest == [first] && first + "" == first;
    } else {
      JoinIsTail(rest[0], rest[1..]);
      assert ([first] + rest)[1..] == [rest[0]] + rest[1..];
      assert first + " " + (rest[0] + Tail(rest[1..])) == first + (" " + rest[0] + Tail(rest[1..]));
    }
  }

  lemma TailOne(token: string)
    ensures Tail([token]) == " " + token && Tail([]) == ""
  {
    assert [token][1..] == [];
    assert " " + token + "" == " " + token;
  }

  method PrintTypes(types: seq<PtrType>, s: Slice) returns (text: string)
    requires In(s, |types|)
    ensures text == Tail(Decimals(TypeVids(Cut(types, s))))
  {
    hide Decimal, Tail;
    text := "";
    TailOne("");
    ghost var all := Decimals(TypeVids(Cut(types, s)));
    assert all[..0] == [];
    for k := s.start to s.end
      invariant text == Tail(all[..k - s.start])
    {
      ghost var i := k - s.start;
      assert Cut(types, s)[i] == types[k];
      TailAppend(all[..i], [all[i]]);
      TailOne(all[i]);
      assert all[..i + 1] == all[..i] + [all[i]];
      text := text + (" " + Decimal(types[k].vid));
    }
    assert all[..|all|] == all;
  }

  method PrintArg(types: seq<PtrType>, a: AbstractArg) returns (text: string)
    requires a.kind.PTR? ==> In(a.vals, |types|)
    ensures text == Tail(ArgTokens(CgPool.ValueOf(a, types)))
  {
    hide Decimal, Tail, Cut;
    match a.kind
    case POS_NUM => TailOne("POS"); text := " " + "POS";
    case ZERO_NUM => TailOne("ZERO"); text := " " + "ZERO";
    case NEG_NUM => TailOne("NEG"); text := " " + "NEG";
    case NULL_PTR => TailOne("NULL"); text := " " + "NULL";
    case PTR =>
      ghost var numbers := Decimals(TypeVids(Cut(types, a.vals)));
      var inner := PrintTypes(types, a.vals);
      TailOne("{");
      TailOne("}");
      TailAppend(["{"] + numbers, ["}"]);
      TailAppend(["{"], numbers);
      text := " " + "{" + inner + " }";
  }

  method PrintLevel(args: seq<AbstractArg>, types: seq<PtrType>, rec: CgRecord) returns (text: string)
    requires In(rec.args, |args|) && ArgsIn(args, types)
    ensures text == LevelText(LevelOf(rec, args, types))
  {
    hide Decimal, Tail, ArgTokens, CgPool.ValueOf;
    text := Decimal(rec.vid);
    ghost var values, done: seq<string> := ValuesOf(Cut(args, rec.args), types), [];
    TailOne("");
    assert done + AllArgTokens(values) == AllArgTokens(values);
    assert values[0..] == values;
    for j := rec.args.start to rec.args.end
      invariant text == Decimal(rec.vid) + Tail(done)
      invariant done + AllArgTokens(values[j - rec.args.start..]) == AllArgTokens(values)
    {
      ghost var i := j - rec.args.start;
      assert values[i] == CgPool.ValueOf(args[j], types);
      var more := PrintArg(types, args[j]);
      ghost var tokens, rest := ArgTokens(values[i]), AllArgTokens(values[i + 1..]);
      assert values[i..][1..] == values[i + 1..];
      TailAppend(done, tokens);
      assert done + (tokens + rest) == done + tokens + rest;
      text := text + more;
      done := done + tokens;
    }
    assert values[|values|..] == [];
    assert done + [] == done;
    JoinIsTail(Decimal(rec.vid), done);
  }

  method PrintCallWindow(pool: seq<CgRecord>, args: seq<AbstractArg>, types: seq<PtrType>, w: nat, a: nat) returns (text: string)
    requires 0 < w && a + w <= |pool| && RecordsIn(pool, args) && ArgsIn(args, types)
    ensures text == CallLine(Slot(LevelsOf(pool, args, types), a, w))
  {
    hide LevelText, Join, LevelOf;
    text := "";
    ghost var win := Slot(LevelsOf(pool, args, types), a, w);
    for i := 0 to w
      invariant text == if i == 0 then "" else Join(LevelTexts(win[..i]), ", ")
    {
      assert win[i] == LevelOf(pool[a + i], args, types);
      var level := PrintLevel(args, types, pool[a + i]);
      assert LevelTexts(win[..i + 1]) == LevelTexts(win[..i]) + [level];
      if i > 0 {
        JoinLast(LevelTexts(win[..i]), level, ", ");
        text := text + ", ";
      } else {
        JoinOne(level, ", ");
        assert LevelTexts(win[..1]) == [level];
      }
      text := text + level;
    }
    assert win[..w] == win;
  }

  // ----- what the validator makes of it

  /** Printed pieces hold no control characters and end with no blank; lines start as a number. */
  ghost predicate Ended(s: string) { s != "" && !IsSpace(s[|s| - 1]) && Plain(s) }

  ghost predicate Clean(line: string) { Ended(line) && (IsDigit(line[0]) || line[0] == '-') }

  ghost predicate Plain(s: string) { forall i :: 0 <= i < |s| ==> ' ' <= s[i] <= '~' }

  lemma CleanLine(line: string)
    requires Clean(line)
    ensures Printable(line) && RStrip(line) == line && !IsHeader(line) && '\n' !in line
  {
  }

  ghost predicate AllFit(lines: seq<string>, section: Section)
    requires !section.Top?
  {
    forall i :: 0 <= i < |lines| ==> Clean(lines[i]) && WellFormed(lines[i], section)
  }

  /** The section does not change after a line. */
  ghost predicate Settled(section: Section) {
    section == Points || (section.Blocks? && section.width.Some?) || (section.Calls? && section.width.Some?)
  }

  lemma AfterSettled(line: string, section: Section)
    requires Settled(section) && WellFormed(line, section)
    ensures After(line, section) == section
  {
    hide Words, Split, PointsLine, CallRecord;
  }

  lemma {:induction false} ScanClean(lines: seq<string>, section: Section)
    requires Settled(section) && AllFit(lines, section)
    ensures Scan(lines, section)
  {
    hide Scan, Clean, WellFormed, After, Settled, RStrip, IsHeader;
    if lines == [] {
      ScanNothing(section);
    } else {
      NotTop(section);
      CleanLine(lines[0]);
      NotEmpty(lines[0]);
      ScanStep(lines, section);
      AfterSettled(lines[0], section);
      ScanClean(lines[1..], section);
    }
  }

  lemma NotTop(section: Section)
    requires Settled(section)
    ensures !section.Top?
  {
  }

  lemma NotEmpty(line: string)
    requires Clean(line)
    ensures line != ""
  {
  }

  /** The section of a header after its first line. */
  function Opened(header: string, width: nat): Section {
    if header == "pts" then Points else if header == "basicBlock" then Blocks(Fields.Some(width)) else Calls(Fields.Some(width))
  }

  lemma OpenedSettled(header: string, width: nat)
    requires IsHeader(header)
    ensures Settled(Opened(header, width)) && !Start(header).Top?
  {
  }

  lemma FirstLineOpens(header: string, width: nat, line: string)
    requires IsHeader(header) && WellFormed(line, Opened(header, width))
    ensures WellFormed(line, Start(header)) && After(line, Start(header)) == Opened(header, width)
  {
    hide Words, Split, PointsLine, CallRecord;
  }

  /** A header followed by clean lines of one width is accepted. */
  lemma SectionAccepted(header: string, width: nat, lines: seq<string>)
    requires IsHeader(header) && AllFit(lines, Opened(header, width))
    ensures Accepted([header] + lines)
    ensures forall i :: 0 <= i < |lines| ==> '\n' !in lines[i]
  {
    hide Scan, Clean, WellFormed, After, RStrip, Strip, Printable, Start, Opened, Settled, Plain;
    var all := [header] + lines;
    assert all[1..] == lines;
    HeaderIsPlain(header);
    OpenedSettled(header, width);
    forall i | 0 <= i < |lines| ensures Printable(lines[i]) && '\n' !in lines[i] { CleanLine(lines[i]); }
    forall i | 0 <= i < |all| ensures Printable(all[i]) {
      if i > 0 { assert all[i] == lines[i - 1]; }
    }
    ScanStep(all, Top);
    if lines == [] {
      ScanNothing(Start(header));
    } else {
      CleanLine(lines[0]);
      NotEmpty(lines[0]);
      ScanStep(lines, Start(header));
      FirstLineOpens(header, width, lines[0]);
      ScanClean(lines[1..], Opened(header, width));
    }
  }

  lemma HeaderIsPlain(header: string)
    requires IsHeader(header)
    ensures Printable(header) && Strip(header) == header && header != ""
  {
    if header == "pts" {
      assert LStrip("pts") == "pts" && RStrip("pts") == "pts";
    } else if header == "basicBlock" {
      assert LStrip("basicBlock") == "basicBlock" && RStrip("basicBlock") == "basicBlock";
    } else {
      assert LStrip("callGraph") == "callGraph" && RStrip("callGraph") == "callGraph";
    }
  }

  // ----- the lines of each section

  lemma {:induction false} JoinEnded(parts: seq<string>, sep: string)
    requires parts != [] && Plain(sep) && forall i :: 0 <= i < |parts| ==> Ended(parts[i])
    ensures Ended(Join(parts, sep)) && parts[0] != "" && Join(parts, sep)[0] == parts[0][0]
    decreases |parts|
  {
    assert Ended(parts[0]);
    if |parts| > 1 {
      JoinEnded(parts[1..], sep);
      var rest := Join(parts[1..], sep);
      var all := parts[0] + sep + rest;
      assert all[|all| - 1] == rest[|rest| - 1];
    }
  }

  lemma NumeralToken(n: int)
    ensures Clean(Decimal(n)) && IsToken(Decimal(n)) && IsInt(Decimal(n))
    ensures ';' !in Decimal(n) && ',' !in Decimal(n)
  {
    hide Decimal, IsInt;
    DecimalIsNumeral(n);
  }

  /** A block line is read as its ids. */
  lemma BlockLineFits(win: seq<int>)
    requires win != []
    ensures Clean(BlockLine(win)) && WellFormed(BlockLine(win), Blocks(Fields.Some(|win|)))
  {
    hide Decimal, Words, IsInt, Join;
    var tokens := Decimals(win);
    forall i | 0 <= i < |tokens| ensures Clean(tokens[i]) && IsToken(tokens[i]) && IsInt(tokens[i]) { NumeralToken(win[i]); }
    JoinEnded(tokens, " ");
    WordsOfJoin(tokens);
  }

  lemma MarksAreTokens(t: string)
    requires t == "{" || t == "}" || IsKind(t)
    ensures Ended(t) && IsToken(t) && ',' !in t
  {
  }

  lemma ArgTokensAre(a: ArgValue, i: nat)
    requires i < |ArgTokens(a)|
    ensures Ended(ArgTokens(a)[i]) && IsToken(ArgTokens(a)[i]) && ',' !in ArgTokens(a)[i]
  {
    hide Decimal, Ended, IsToken;
    var t := ArgTokens(a)[i];
    if a.Ptr? && 0 < i < |ArgTokens(a)| - 1 {
      assert t == Decimal(a.types[i - 1].vid);
      NumeralToken(a.types[i - 1].vid);
    } else {
      MarksAreTokens(t);
    }
  }

  ghost predicate GoodTokens(tokens: seq<string>) {
    forall i :: 0 <= i < |tokens| ==> Ended(tokens[i]) && IsToken(tokens[i]) && ',' !in tokens[i]
  }

  lemma {:induction false} AllArgTokensAre(args: seq<ArgValue>)
    ensures GoodTokens(AllArgTokens(args))
  {
    hide ArgTokens, Ended, IsToken;
    if args != [] {
      forall i | 0 <= i < |ArgTokens(args[0])|
        ensures Ended(ArgTokens(args[0])[i]) && IsToken(ArgTokens(args[0])[i]) && ',' !in ArgTokens(args[0])[i]
      {
        ArgTokensAre(args[0], i);
      }
      AllArgTokensAre(args[1..]);
    }
  }

  lemma {:induction false} NumbersInBraces(vids: seq<int>, rest: seq<string>)
    requires Arguments(rest, false)
    ensures Arguments(Decimals(vids) + ["}"] + rest, true)
    decreases |vids|
  {
    hide Decimal, IsInt, Arguments;
    var all := Decimals(vids) + ["}"] + rest;
    ArgumentsStep(all, true);
    if vids == [] {
      assert all[1..] == rest;
    } else {
      NumbersInBraces(vids[1..], rest);
      assert all[1..] == Decimals(vids[1..]) + ["}"] + rest;
      NumeralToken(vids[0]);
    }
  }

  lemma {:induction false} PrintedArguments(args: seq<ArgValue>)
    ensures Arguments(AllArgTokens(args), false)
  {
    hide Decimal, Arguments, TypeVids, Decimals;
    if args == [] {
      NoArguments();
    } else {
      var rest := AllArgTokens(args[1..]);
      var all := AllArgTokens(args);
      PrintedArguments(args[1..]);
      ArgumentsStep(all, false);
      if args[0].Ptr? {
        var numbers := Decimals(TypeVids(args[0].types));
        NumbersInBraces(TypeVids(args[0].types), rest);
        assert all[1..] == numbers + ["}"] + rest;
      } else {
        assert all[1..] == rest;
      }
    }
  }

  /** A level is read as its tokens. */
  lemma LevelIsRecord(level: Level)
    ensures CallRecord(LevelText(level)) && Clean(LevelText(level)) && ',' !in LevelText(level)
  {
    hide Decimal, AllArgTokens, Words, IsInt, Arguments, Join, IsToken, Ended;
    var tokens := LevelTokens(level);
    NumeralToken(level.vid);
    AllArgTokensAre(level.args);
    assert GoodTokens(tokens);
    JoinEnded(tokens, " ");
    WordsOfJoin(tokens);
    PrintedArguments(level.args);
    JoinHasNo(tokens, ',');
  }

  lemma {:induction false} JoinHasNo(parts: seq<string>, c: char)
    requires parts != [] && c != ' ' && forall i :: 0 <= i < |parts| ==> c !in parts[i]
    ensures c !in Join(parts, " ")
    decreases |parts|
  {
    if |parts| > 1 { JoinHasNo(parts[1..], c); }
  }

  lemma CallLineFits(win: seq<Level>)
    requires win != []
    ensures Clean(CallLine(win)) && WellFormed(CallLine(win), Calls(Fields.Some(|win|)))
  {
    hide LevelText, Join, Split, CallRecord, Ended;
    var texts := LevelTexts(win);
    forall i | 0 <= i < |texts| ensures CallRecord(texts[i]) && Clean(texts[i]) && ',' !in texts[i] { LevelIsRecord(win[i]); }
    JoinEnded(texts, ", ");
    SplitOfJoin(texts, ", ");
  }

  lemma {:induction false} ContextJoins(head: string, ctx: seq<int>)
    ensures head + PtsDump.ContextText(ctx) == Join([head] + Decimals(ctx), ",")
    decreases |ctx|
  {
    hide Decimal;
    if ctx == [] {
      assert head + "" == head && [head] + Decimals(ctx) == [head];
    } else {
      var t, rest := Decimal(ctx[0]), PtsDump.ContextText(ctx[1..]);
      assert ([head] + Decimals(ctx))[1..] == [t] + Decimals(ctx[1..]);
      ContextJoins(t, ctx[1..]);
      assert head + ("," + t + rest) == head + "," + (t + rest);
    }
  }

  /** A target is read as numbers. */
  lemma TargetIsNumbers(t: PtsDump.Target)
    ensures AllInts(Split(PtsDump.TargetText(t), ",")) && Clean(PtsDump.TargetText(t))
  {
    hide Decimal, PtsDump.ContextText, Split, Join, IsInt;
    var numbers := [Decimal(t.0)] + Decimals(t.1);
    forall i | 0 <= i < |numbers| ensures IsInt(numbers[i]) && ',' !in numbers[i] && Clean(numbers[i]) {
      NumeralToken(if i == 0 then t.0 else t.1[i - 1]);
    }
    ContextJoins(Decimal(t.0), t.1);
    SplitOfJoin(numbers, ",");
    JoinEnded(numbers, ",");
  }

  lemma PointsLineFits(key: int, targets: seq<PtsDump.Target>)
    ensures Clean(PtsDump.RecordLine(key, targets)) && WellFormed(PtsDump.RecordLine(key, targets), Points)
  {
    hide Decimal, PtsDump.TargetsText, PtsDump.TargetText, Split, Join, IsInt, AllInts, Ended;
    var parts := [Decimal(key)] + PtsDump.TargetTexts(targets);
    NumeralToken(key);
    forall i | 1 <= i < |parts| ensures AllInts(Split(parts[i], ",")) && Clean(parts[i]) { TargetIsNumbers(targets[i - 1]); }
    PtsDump.SplitRecord(key, targets);
    PtsDump.RecordJoins(Decimal(key), targets);
    JoinEnded(parts, ";");
  }

  // ----- the files

  function BlockLines(windows: seq<seq<int>>): seq<string>
    requires forall i :: 0 <= i < |windows| ==> windows[i] != []
  {
    seq(|windows|, i requires 0 <= i < |windows| => BlockLine(windows[i]))
  }

  function CallLines(windows: seq<seq<Level>>): seq<string>
    requires forall i :: 0 <= i < |windows| ==> windows[i] != []
  {
    seq(|windows|, i requires 0 <= i < |windows| => CallLine(windows[i]))
  }

  lemma FileLines(header: string, width: nat, lines: seq<string>)
    requires IsHeader(header) && AllFit(lines, Opened(header, width))
    ensures Accepted(Lines(PtsDump.Header(header, lines)))
  {
    hide AllFit, Lines, Unlines, Accepted;
    SectionAccepted(header, width, lines);
    LinesOfUnlines([header] + lines);
  }

  /** The points-to file of every table is accepted. */
  lemma PtsAccepted(keys: seq<int>, table: PtsDump.Table)
    requires forall i :: 0 <= i < |keys| ==> keys[i] in table
    ensures Accepted(Lines(PtsDump.Header("pts", PtsDump.RecordLines(keys, table))))
  {
    hide PtsDump.RecordLine, Clean, WellFormed, Accepted, Lines, Unlines;
    var lines := PtsDump.RecordLines(keys, table);
    forall i | 0 <= i < |lines| ensures Clean(lines[i]) && WellFormed(lines[i], Points) { PointsLineFits(keys[i], table[keys[i]]); }
    FileLines("pts", 0, lines);
  }

  /** The basic-block file of windows of one width is accepted. */
  lemma BlocksAccepted(windows: seq<seq<int>>, width: nat)
    requires width > 0 && forall i :: 0 <= i < |windows| ==> |windows[i]| == width
    ensures Accepted(Lines(PtsDump.Header("basicBlock", BlockLines(windows))))
  {
    hide BlockLine, Clean, WellFormed, Accepted, Lines, Unlines;
    var lines := BlockLines(windows);
    forall i | 0 <= i < |lines| ensures Clean(lines[i]) && WellFormed(lines[i], Blocks(Fields.Some(width))) { BlockLineFits(windows[i]); }
    FileLines("basicBlock", width, lines);
  }

  /** The call-graph file of windows of one width is accepted. */
  lemma CallsAccepted(windows: seq<seq<Level>>, width: nat)
    requires width > 0 && forall i :: 0 <= i < |windows| ==> |windows[i]| == width
    ensures Accepted(Lines(PtsDump.Header("callGraph", CallLines(windows))))
  {
    hide CallLine, Clean, WellFormed, Accepted, Lines, Unlines;
    var lines := CallLines(windows);
    forall i | 0 <= i < |lines| ensures Clean(lines[i]) && WellFormed(lines[i], Calls(Fields.Some(width))) { CallLineFits(windows[i]); }
    FileLines("callGraph", width, lines);
  }

  /** The block file of a history: its windows, each once and in order. */
  ghost predicate BlockFile(file: string, wins: seq<seq<int>>, pad: int, blocks: seq<int>, w: nat) {
    && Listing(wins, pad, blocks, w, BlockKey)
    && (forall i :: 0 <= i < |wins| ==> |wins[i]| == w && wins[i] != [])
    && file == PtsDump.Header("basicBlock", BlockLines(wins))
  }

  ghost predicate CallFile(file: string, wins: seq<seq<Level>>, pad: Level, calls: seq<Level>, w: nat) {
    && Listing(wins, pad, calls, w, WindowOrder.WindowKey)
    && (forall i :: 0 <= i < |wins| ==> |wins[i]| == w && wins[i] != [])
    && file == PtsDump.Header("callGraph", CallLines(wins))
  }

  /** Sorts the interned offsets and prints their windows, writing the buffer out whenever it is
      large. */
  method DumpBlocks(pool: seq<int>, offsets: set<nat>, w: nat, ghost pad: int, ghost blocks: seq<int>) returns (file: string)
    requires 0 < w && Interned(pool, offsets, pad, blocks, w)
    ensures exists wins :: BlockFile(file, wins, pad, blocks, w)
  {
    hide BlockLine, Unlines, Listing, IsWindow, ListsBy, DistinctKeys;
    BlocksDistinct(pool, offsets, w);
    var sorted := SortBlocks(pool, w, offsets);
    SortedOffsetsList(pool, offsets, pad, blocks, w, BlockKey, sorted);
    OffsetsFit(pool, offsets, pad, blocks, w, BlockKey, sorted);
    ghost var wins := Slots(pool, sorted, w);
    file := "";
    var buf := "basicBlock\n";
    ghost var lines := ["basicBlock"] + BlockLines(wins);
    PtsDump.UnlinesOne("basicBlock");
    assert lines[..1] == ["basicBlock"];
    for i := 0 to |sorted|
      invariant file + buf == Unlines(lines[..i + 1])
    {
      var line := PrintBlockWindow(pool, w, sorted[i]);
      PtsDump.LineDone(file, buf, lines[..i + 1], line);
      assert lines[..i + 2] == lines[..i + 1] + [line];
      buf := buf + line + "\n";
      if |buf| >= PtsDump.FLUSH_THRESHOLD {
        file := file + buf;
        buf := "";
      }
    }
    if buf != "" { file := file + buf; }
    assert lines[..|sorted| + 1] == lines;
    assert BlockFile(file, wins, pad, blocks, w);
  }

  lemma OffsetsFit<T(!new)>(pool: seq<T>, offsets: set<nat>, pad: T, hist: seq<T>, w: nat, key: seq<T> -> seq<int>, sorted: seq<nat>)
    requires 0 < w && Interned(pool, offsets, pad, hist, w) && ListsBy(sorted, offsets, SlotKey(pool, w, key))
    ensures forall i :: 0 <= i < |sorted| ==> sorted[i] + w <= |pool|
    ensures forall i :: 0 <= i < |sorted| ==> |Slots(pool, sorted, w)[i]| == w && Slots(pool, sorted, w)[i] != []
  {
    hide IsWindow, AscendingBy;
    forall i | 0 <= i < |sorted| ensures sorted[i] + w <= |pool| { assert sorted[i] in sorted; }
  }

  method DumpCalls(pool: seq<CgRecord>, args: seq<AbstractArg>, types: seq<PtrType>, offsets: set<nat>, w: nat,
                   ghost pad: Level, ghost calls: seq<Level>)
    returns (file: string)
    requires 0 < w && RecordsIn(pool, args) && ArgsIn(args, types)
    requires Interned(LevelsOf(pool, args, types), offsets, pad, calls, w)
    ensures exists wins :: CallFile(file, wins, pad, calls, w)
  {
    hide CallLine, Unlines, Listing, IsWindow, ListsBy, DistinctKeys, WindowOrder.WindowKey, LevelOf, RecordsIn, ArgsIn;
    ghost var levels := LevelsOf(pool, args, types);
    CallsDistinct(levels, offsets, w);
    var sorted := SortCalls(pool, args, types, w, offsets);
    SortedOffsetsList(levels, offsets, pad, calls, w, WindowOrder.WindowKey, sorted);
    OffsetsFit(levels, offsets, pad, calls, w, WindowOrder.WindowKey, sorted);
    ghost var wins := Slots(levels, sorted, w);
    file := "";
    var buf := "callGraph\n";
    ghost var lines := ["callGraph"] + CallLines(wins);
    PtsDump.UnlinesOne("callGraph");
    assert lines[..1] == ["callGraph"];
    for i := 0 to |sorted|
      invariant file + buf == Unlines(lines[..i + 1])
    {
      var line := PrintCallWindow(pool, args, types, w, sorted[i]);
      PtsDump.LineDone(file, buf, lines[..i + 1], line);
      assert lines[..i + 2] == lines[..i + 1] + [line];
      buf := buf + line + "\n";
      if |buf| >= PtsDump.FLUSH_THRESHOLD {
        file := file + buf;
        buf := "";
      }
    }
    if buf != "" { file := file + buf; }
    assert lines[..|sorted| + 1] == lines;
    assert CallFile(file, wins, pad, calls, w);
  }

  /** A history has one file of each kind. */
  lemma BlockFileDetermined(file: string, wins: seq<seq<int>>, file': string, wins': seq<seq<int>>, pad: int, blocks: seq<int>, w: nat)
    requires BlockFile(file, wins, pad, blocks, w) && BlockFile(file', wins', pad, blocks, w)
    ensures file == file'
  {
    hide BlockLine, Listing, PtsDump.Header;
    ListingDetermined(wins, wins', pad, blocks, w, BlockKey);
  }

  lemma CallFileDetermined(file: string, wins: seq<seq<Level>>, file': string, wins': seq<seq<Level>>, pad: Level, calls: seq<Level>, w: nat)
    requires CallFile(file, wins, pad, calls, w) && CallFile(file', wins', pad, calls, w)
    ensures file == file'
  {
    hide CallLine, Listing, PtsDump.Header;
    ListingDetermined(wins, wins', pad, calls, w, WindowOrder.WindowKey);
  }
}
