/** The points-to dump: how it is printed, and how the query tool reads it back. */
module PtsDump {
  import opened Fields
  import opened Text
  import opened WindowOrder
  import opened Sorting

  /** A target and its calling context. */
  type Target = (int, seq<int>)

  /** The points-to table with each set of targets listed. */
  type Table = map<int, seq<Target>>

  const FLUSH_THRESHOLD := 1024 * 1024

  // ----- printing

  function ContextText(ctx: seq<int>): string {
    if ctx == [] then "" else "," + Decimal(ctx[0]) + ContextText(ctx[1..])
  }

  function TargetsText(targets: seq<Target>): string {
    if targets == [] then "" else ";" + Decimal(targets[0].0) + ContextText(targets[0].1) + TargetsText(targets[1..])
  }

  function RecordLine(key: int, targets: seq<Target>): string { Decimal(key) + TargetsText(targets) }

  function RecordLines(keys: seq<int>, table: Table): seq<string>
    requires forall i :: 0 <= i < |keys| ==> keys[i] in table
  {
    seq(|keys|, i requires 0 <= i < |keys| => RecordLine(keys[i], table[keys[i]]))
  }

  function Header(name: string, lines: seq<string>): string { Unlines([name] + lines) }

  ghost predicate Ascending(keys: seq<int>) { forall i, j :: 0 <= i < j < |keys| ==> keys[i] < keys[j] }

  /** The keys in ascending order. */
  ghost predicate Lists(keys: seq<int>, all: set<int>) { ListsBy(keys, all, IntKey) }

  function IntKey(k: int): seq<int> { [k] }

  lemma IntOrder(a: int, b: int)
    ensures Before(IntKey(a), IntKey(b)) <==> a < b
  {
    assert IntKey(a)[1..] == [] && IntKey(b)[1..] == [];
    assert !Before([], []);
  }

  lemma ListsAscend(keys: seq<int>, all: set<int>)
    requires Lists(keys, all)
    ensures Ascending(keys)
  {
    hide Before;
    var key := IntKey;
    forall i, j | 0 <= i < j < |keys| ensures keys[i] < keys[j] {
      IntOrder(keys[i], keys[j]);
      assert Before(key(keys[i]), key(keys[j]));
      assert key(keys[i]) == IntKey(keys[i]) && key(keys[j]) == IntKey(keys[j]);
    }
  }

  method SortedKeys(all: set<int>) returns (keys: seq<int>)
    ensures Lists(keys, all) && Ascending(keys)
  {
    hide ListsBy, Ascending;
    IntsDistinct(all);
    keys := SortBy(all, IntKey);
    ListsAscend(keys, all);
  }

  lemma IntsDistinct(all: set<int>)
    ensures DistinctKeys(all, IntKey)
  {
    forall a, b | a in all && b in all && a != b ensures IntKey(a) != IntKey(b) { assert IntKey(a)[0] == a && IntKey(b)[0] == b; }
  }

  /** The order of pairs and vectors of ids: the target first, then the context. */
  function TargetKey(t: Target): seq<int> { [t.0] + t.1 }

  lemma TargetsDistinct(targets: set<Target>)
    ensures DistinctKeys(targets, TargetKey)
  {
    forall a, b | a in targets && b in targets && a != b ensures TargetKey(a) != TargetKey(b) {
      assert TargetKey(a)[0] == a.0 && TargetKey(a)[1..] == a.1 && TargetKey(b)[0] == b.0 && TargetKey(b)[1..] == b.1;
    }
  }

  /** The table with each set of targets listed in order. */
  ghost predicate ListsTable(table: Table, pts: map<int, set<Target>>) {
    table.Keys == pts.Keys && forall k :: k in pts ==> ListsBy(table[k], pts[k], TargetKey)
  }

  /** The points-to file of a table. */
  ghost predicate PtsFile(file: string, keys: seq<int>, table: Table, pts: map<int, set<Target>>) {
    && Lists(keys, pts.Keys) && ListsTable(table, pts)
    && (forall i :: 0 <= i < |keys| ==> keys[i] in table)
    && file == Header("pts", RecordLines(keys, table))
  }

  /** A table has one points-to file. */
  lemma PtsFileDetermined(file: string, keys: seq<int>, table: Table, file': string, keys': seq<int>, table': Table, pts: map<int, set<Target>>)
    requires PtsFile(file, keys, table, pts) && PtsFile(file', keys', table', pts)
    ensures file == file' && keys == keys' && table == table'
  {
    hide Header, RecordLine, Before;
    ListingIsUnique(keys, keys', IntKey);
    forall k | k in pts ensures table[k] == table'[k] { ListingIsUnique(table[k], table'[k], TargetKey); }
    assert forall k :: k in table.Keys <==> k in table;
    assert table == table';
  }

  lemma ListsKeys(keys: seq<int>, all: set<int>)
    requires Lists(keys, all)
    ensures forall i :: 0 <= i < |keys| ==> keys[i] in all
  {
    forall i | 0 <= i < |keys| ensures keys[i] in all { assert keys[i] in keys; }
  }

  lemma TargetsStep(targets: seq<Target>)
    requires targets != []
    ensures TargetsText(targets) == ";" + Decimal(targets[0].0) + ContextText(targets[0].1) + TargetsText(targets[1..])
  {
    hide Decimal, ContextText;
  }

  lemma ContextStep(ctx: seq<int>)
    requires ctx != []
    ensures ContextText(ctx) == "," + Decimal(ctx[0]) + ContextText(ctx[1..])
  {
    hide Decimal;
  }

  lemma NoTargets()
    ensures TargetsText([]) == "" && ContextText([]) == ""
  {
  }

  /** The targets of one key, each with its context. */
  method PrintTargets(targets: seq<Target>) returns (text: string)
    ensures text == TargetsText(targets)
  {
    hide Decimal, TargetsText, ContextText;
    text := "";
    NoTargets();
    assert targets[0..] == targets;
    for i := 0 to |targets|
      invariant text + TargetsText(targets[i..]) == TargetsText(targets)
    {
      var (t, ctx) := targets[i];
      TargetsStep(targets[i..]);
      assert targets[i..][1..] == targets[i + 1..];
      ghost var rest := TargetsText(targets[i + 1..]);
      Regroup(text, ";" + Decimal(t), ContextText(ctx), rest);
      text := text + (";" + Decimal(t));
      var more := PrintContext(ctx);
      text := text + more;
    }
    assert targets[|targets|..] == [];
    assert text + "" == text;
  }

  lemma Regroup(a: string, b: string, c: string, d: string)
    ensures a + (b + c + d) == (a + b) + c + d
  {
  }

  method PrintContext(ctx: seq<int>) returns (text: string)
    ensures text == ContextText(ctx)
  {
    hide Decimal, ContextText;
    text := "";
    NoTargets();
    assert ctx[0..] == ctx;
    for j := 0 to |ctx|
      invariant text + ContextText(ctx[j..]) == ContextText(ctx)
    {
      ContextStep(ctx[j..]);
      assert ctx[j..][1..] == ctx[j + 1..];
      Regroup(text, "," + Decimal(ctx[j]), ContextText(ctx[j + 1..]), "");
      text := text + ("," + Decimal(ctx[j]));
    }
    assert ctx[|ctx|..] == [];
    assert text + "" == text;
  }

  lemma LineDone(file: string, buf: string, before: seq<string>, line: string)
    requires file + buf == Unlines(before)
    ensures file + (buf + line + "\n") == Unlines(before + [line])
  {
    hide Unlines;
    UnlinesConcat(before, [line]);
    UnlinesOne(line);
    assert file + (buf + line + "\n") == file + buf + (line + "\n");
  }

  lemma UnlinesOne(line: string)
    ensures Unlines([line]) == line + "\n"
  {
    assert [line][1..] == [];
    assert Unlines([line]) == line + "\n" + Unlines([]);
    assert Unlines([]) == "";
    assert line + "\n" + "" == line + "\n";
  }

  /** The lines printed for the first keys, and the part of the table that they show. */
  ghost predicate Printed(keys: seq<int>, i: nat, table: Table, lines: seq<string>, pts: map<int, set<Target>>)
    requires i <= |keys|
  {
    && |lines| == i + 1 && lines[0] == "pts"
    && (forall j :: 0 <= j < i ==> keys[j] in table && lines[j + 1] == RecordLine(keys[j], table[keys[j]]))
    && (forall j :: i <= j < |keys| ==> keys[j] !in table)
    && (forall k :: k in table ==> k in pts && ListsBy(table[k], pts[k], TargetKey))
  }

  lemma PrintedMore(keys: seq<int>, i: nat, table: Table, lines: seq<string>, pts: map<int, set<Target>>, targets: seq<Target>)
    requires Lists(keys, pts.Keys) && i < |keys| && keys[i] in pts && Printed(keys, i, table, lines, pts)
    requires ListsBy(targets, pts[keys[i]], TargetKey)
    ensures Printed(keys, i + 1, table[keys[i] := targets], lines + [RecordLine(keys[i], targets)], pts)
  {
    hide RecordLine, ListsBy;
    ListsAscend(keys, pts.Keys);
  }

  lemma PrintedAll(keys: seq<int>, table: Table, lines: seq<string>, pts: map<int, set<Target>>)
    requires Lists(keys, pts.Keys) && Printed(keys, |keys|, table, lines, pts)
    ensures ListsTable(table, pts) && (forall i :: 0 <= i < |keys| ==> keys[i] in table)
    ensures lines == ["pts"] + RecordLines(keys, table)
  {
    hide RecordLine, AscendingBy;
    forall k ensures k in table <==> k in pts {
      if k in pts {
        assert k in pts.Keys && k in keys;
        var i :| 0 <= i < |keys| && keys[i] == k;
      }
    }
    assert forall k :: k in table.Keys <==> k in pts.Keys;
  }

  /** Prints the table in order of its keys, writing the buffer out whenever it is large. */
  method DumpPts(pts: map<int, set<Target>>) returns (file: string)
    ensures exists keys, table :: PtsFile(file, keys, table, pts)
  {
    hide Lists, Decimal, TargetsText, Unlines, ListsBy, Printed, ListsTable;
    var keys := SortedKeys(pts.Keys);
    ListsKeys(keys, pts.Keys);
    ghost var table: Table := map[];
    file := "";
    var buf := "pts\n";
    ghost var lines := ["pts"];
    UnlinesOne("pts");
    assert Printed(keys, 0, table, lines, pts) by { NothingPrinted(keys, pts); }
    for i := 0 to |keys|
      invariant file + buf == Unlines(lines) && Printed(keys, i, table, lines, pts)
    {
      var k := keys[i];
      TargetsDistinct(pts[k]);
      var targets := SortBy(pts[k], TargetKey);
      var text := PrintTargets(targets);
      PrintedMore(keys, i, table, lines, pts, targets);
      LineDone(file, buf, lines, Decimal(k) + text);
      assert buf + (Decimal(k) + text) + "\n" == buf + Decimal(k) + text + "\n";
      buf := buf + Decimal(k) + text + "\n";
      table := table[k := targets];
      lines := lines + [Decimal(k) + text];
      if |buf| >= FLUSH_THRESHOLD {
        file := file + buf;
        buf := "";
      }
    }
    if buf != "" { file := file + buf; }
    PrintedAll(keys, table, lines, pts);
    assert PtsFile(file, keys, table, pts);
  }

  lemma NothingPrinted(keys: seq<int>, pts: map<int, set<Target>>)
    ensures Printed(keys, 0, map[], ["pts"], pts)
  {
  }

  // ----- reading

  datatype PtsRecord = PtsRecord(key: int, targets: seq<int>)

  /** What is read: the records, and how many targets belong to keys that name no value; or the
      error of the first number that cannot be read. */
  datatype Outcome = Records(records: seq<PtsRecord>, unresolved: nat) | Failed

  /** A value is named by its number, or by '@' and the name of a global. */
  function ParseVid(s: string, names: string -> Option<int>): Option<int> {
    if s != "" && s[0] == '@' then names(s[1..]) else StrictInt(s)
  }

  /** The text before the first comma. */
  function BeforeComma(s: string): string { Split(s, ",")[0] }

  function TargetVids(segs: seq<string>, names: string -> Option<int>): Option<seq<int>> {
    if segs == [] then Some([])
    else if segs[0] == "" then TargetVids(segs[1..], names)
    else
      var v, rest := ParseVid(BeforeComma(segs[0]), names), TargetVids(segs[1..], names);
      if v.None? || rest.None? then None else Some([v.value] + rest.value)
  }

  /** Reads the lines in order, after some records and unresolved targets. */
  function Collect(lines: seq<string>, names: string -> Option<int>, known: int -> bool, records: seq<PtsRecord>, unresolved: nat): Outcome {
    if lines == [] then Records(records, unresolved)
    else
      var segs := Split(lines[0], ";");
      if segs[0] == "" then Collect(lines[1..], names, known, records, unresolved)
      else
        var targets, key := TargetVids(segs[1..], names), ParseVid(segs[0], names);
        if targets.None? || key.None? then Failed
        else if !known(key.value) then Collect(lines[1..], names, known, records, unresolved + |targets.value|)
        else Collect(lines[1..], names, known, records + [PtsRecord(key.value, targets.value)], unresolved)
  }

  /** The magic line is optional. */
  function DataLines(lines: seq<string>): seq<string> {
    if lines != [] && lines[0] == "pts" then lines[1..] else lines
  }

  function ReadDump(text: string, names: string -> Option<int>, known: int -> bool): Outcome {
    Collect(DataLines(Lines(text)), names, known, [], 0)
  }

  lemma CollectStep(lines: seq<string>, names: string -> Option<int>, known: int -> bool, records: seq<PtsRecord>, unresolved: nat)
    requires lines != []
    ensures var segs, rest := Split(lines[0], ";"), lines[1..];
      Collect(lines, names, known, records, unresolved) ==
      if segs[0] == "" then Collect(rest, names, known, records, unresolved)
      else
        var targets, key := TargetVids(segs[1..], names), ParseVid(segs[0], names);
        if targets.None? || key.None? then Failed
        else if !known(key.value) then Collect(rest, names, known, records, unresolved + |targets.value|)
        else Collect(rest, names, known, records + [PtsRecord(key.value, targets.value)], unresolved)
  {
    hide Split, TargetVids, ParseVid;
  }

  lemma CollectNothing(names: string -> Option<int>, known: int -> bool, records: seq<PtsRecord>, unresolved: nat)
    ensures Collect([], names, known, records, unresolved) == Records(records, unresolved)
  {
  }

  /** The reader of pts-test. */
  method ReadPts(text: string, names: string -> Option<int>, known: int -> bool) returns (r: Outcome)
    ensures r == ReadDump(text, names, known)
  {
    hide Split, Lines, Collect, TargetVids, ParseVid;
    var lines := SplitLines(text);
    if lines != [] && lines[0] == "pts" { lines := lines[1..]; }
    var records: seq<PtsRecord>, unresolved: nat := [], 0;
    assert lines[0..] == lines;
    for i := 0 to |lines|
      invariant Collect(lines[i..], names, known, records, unresolved) == ReadDump(text, names, known)
    {
      var line := lines[i];
      assert lines[i..][1..] == lines[i + 1..];
      CollectStep(lines[i..], names, known, records, unresolved);
      if line == "" {
        SplitPlain("", ";");
        continue;
      }
      var segs := SplitChar(line, ';');
      if segs[0] == "" { continue; }
      var targets := ReadTargets(segs, names);
      if targets.None? { return Failed; }
      var key := ParseVid(segs[0], names);
      if key.None? { return Failed; }
      if !known(key.value) {
        unresolved := unresolved + |targets.value|;
        continue;
      }
      records := records + [PtsRecord(key.value, targets.value)];
    }
    CollectNothing(names, known, records, unresolved);
    assert lines[|lines|..] == [];
    r := Records(records, unresolved);
  }

  lemma TargetsReadStep(segs: seq<string>, names: string -> Option<int>)
    requires segs != []
    ensures TargetVids(segs, names) ==
      if segs[0] == "" then TargetVids(segs[1..], names)
      else
        var v := ParseVid(BeforeComma(segs[0]), names);
        if v.None? then None else Prepend([v.value], TargetVids(segs[1..], names))
  {
    hide ParseVid, BeforeComma;
  }

  lemma PrependTwice(a: seq<int>, b: seq<int>, rest: Option<seq<int>>)
    ensures Prepend(a, Prepend(b, rest)) == Prepend(a + b, rest)
    ensures Prepend([], rest) == rest
  {
    if rest.Some? { assert a + (b + rest.value) == a + b + rest.value && [] + rest.value == rest.value; }
  }

  method ReadTargets(segs: seq<string>, names: string -> Option<int>) returns (targets: Option<seq<int>>)
    requires segs != []
    ensures targets == TargetVids(segs[1..], names)
  {
    hide ParseVid, BeforeComma, TargetVids;
    var out: seq<int> := [];
    PrependTwice([], [], TargetVids(segs[1..], names));
    for i := 1 to |segs|
      invariant TargetVids(segs[1..], names) == Prepend(out, TargetVids(segs[i..], names))
    {
      TargetsReadStep(segs[i..], names);
      assert segs[i..][1..] == segs[i + 1..];
      if segs[i] == "" { continue; }
      var comma := FindChar(segs[i], ',', 0);
      BeforeIs(segs[i], comma);
      var v := ParseVid(segs[i][..comma], names);
      if v.None? { return None; }
      PrependTwice(out, [v.value], TargetVids(segs[i + 1..], names));
      out := out + [v.value];
    }
    assert segs[|segs|..] == [] && TargetVids([], names) == Some([]) by { NoneLeft(names); }
    assert out + [] == out;
    targets := Some(out);
  }

  lemma NoneLeft(names: string -> Option<int>)
    ensures TargetVids([], names) == Some([])
  {
  }

  function Prepend(out: seq<int>, rest: Option<seq<int>>): Option<seq<int>> {
    if rest.None? then None else Some(out + rest.value)
  }

  lemma BeforeIs(s: string, comma: nat)
    requires comma <= |s| && ',' !in s[0..comma] && (comma < |s| ==> s[comma] == ',')
    ensures BeforeComma(s) == s[..comma]
  {
    hide Split;
    if comma < |s| {
      assert s == s[..comma] + "," + s[comma + 1..];
      SplitFirst(s[..comma], s[comma + 1..], ",");
    } else {
      assert s[..comma] == s;
      SplitPlain(s, ",");
    }
  }

  // ----- the round trip

  function Vids(targets: seq<Target>): seq<int> { seq(|targets|, i requires 0 <= i < |targets| => targets[i].0) }

  /** What is read back for the keys that name values, in their order. */
  function ReadBack(keys: seq<int>, table: Table, known: int -> bool): seq<PtsRecord>
    requires forall i :: 0 <= i < |keys| ==> keys[i] in table
  {
    if keys == [] then []
    else (if known(keys[0]) then [PtsRecord(keys[0], Vids(table[keys[0]]))] else []) + ReadBack(keys[1..], table, known)
  }

  /** The number of targets of the keys that do not. */
  function Unread(keys: seq<int>, table: Table, known: int -> bool): nat
    requires forall i :: 0 <= i < |keys| ==> keys[i] in table
  {
    if keys == [] then 0 else (if known(keys[0]) then 0 else |table[keys[0]]|) + Unread(keys[1..], table, known)
  }

  ghost predicate InRange(table: Table) {
    forall k :: k in table ==> IsInt32(k) && TargetsInRange(table[k])
  }

  ghost predicate TargetsInRange(targets: seq<Target>) { forall i :: 0 <= i < |targets| ==> IsInt32(targets[i].0) }

  function TargetText(t: Target): string { Decimal(t.0) + ContextText(t.1) }

  function TargetTexts(targets: seq<Target>): seq<string> { seq(|targets|, i requires 0 <= i < |targets| => TargetText(targets[i])) }

  lemma {:induction false} ContextHasNo(ctx: seq<int>, c: char)
    requires !IsDigit(c) && c != '-' && c != ','
    ensures c !in ContextText(ctx)
  {
    hide Decimal;
    if ctx != [] {
      ContextHasNo(ctx[1..], c);
      DecimalHasNo(ctx[0], c);
    }
  }

  lemma DecimalHasNo(n: int, c: char)
    requires !IsDigit(c) && c != '-'
    ensures c !in Decimal(n)
  {
    hide Decimal;
    DecimalIsNumeral(n);
  }

  lemma {:induction false} RecordJoins(head: string, targets: seq<Target>)
    ensures head + TargetsText(targets) == Join([head] + TargetTexts(targets), ";")
    decreases |targets|
  {
    hide Decimal, ContextText;
    var parts := [head] + TargetTexts(targets);
    if targets == [] {
      assert head + "" == head;
    } else {
      var t := TargetText(targets[0]);
      assert parts[1..] == [t] + TargetTexts(targets[1..]);
      RecordJoins(t, targets[1..]);
      var rest := TargetsText(targets[1..]);
      assert head + (";" + Decimal(targets[0].0) + ContextText(targets[0].1) + rest) == head + ";" + (t + rest);
    }
  }

  lemma SplitRecord(key: int, targets: seq<Target>)
    ensures Split(RecordLine(key, targets), ";") == [Decimal(key)] + TargetTexts(targets)
  {
    hide Decimal, ContextText, TargetsText, Split, Join;
    var parts := [Decimal(key)] + TargetTexts(targets);
    DecimalHasNo(key, ';');
    forall i | 0 <= i < |parts| ensures ';' !in parts[i] {
      if i > 0 {
        DecimalHasNo(targets[i - 1].0, ';');
        ContextHasNo(targets[i - 1].1, ';');
      }
    }
    RecordJoins(Decimal(key), targets);
    SplitOfJoin(parts, ";");
  }

  lemma ReadTarget(t: Target, names: string -> Option<int>)
    requires IsInt32(t.0)
    ensures TargetText(t) != "" && ParseVid(BeforeComma(TargetText(t)), names) == Some(t.0)
  {
    hide Decimal, Split, StrictInt;
    DecimalIsNumeral(t.0);
    DecimalHasNo(t.0, ',');
    DecimalHasNo(t.0, '@');
    StrictIntOfDecimal(t.0);
    if t.1 == [] {
      assert Decimal(t.0) + "" == Decimal(t.0);
      SplitPlain(Decimal(t.0), ",");
    } else {
      var rest := Decimal(t.1[0]) + ContextText(t.1[1..]);
      assert TargetText(t) == Decimal(t.0) + "," + rest;
      SplitFirst(Decimal(t.0), rest, ",");
    }
    assert Decimal(t.0)[0] in Decimal(t.0);
  }

  lemma {:induction false} ReadTargetTexts(targets: seq<Target>, names: string -> Option<int>)
    requires TargetsInRange(targets)
    ensures TargetVids(TargetTexts(targets), names) == Some(Vids(targets))
    decreases |targets|
  {
    hide ParseVid, BeforeComma, TargetText, TargetVids;
    var texts := TargetTexts(targets);
    if targets == [] {
      assert texts == [] && Vids(targets) == [];
      NoneLeft(names);
    } else {
      assert texts[0] == TargetText(targets[0]) && texts[1..] == TargetTexts(targets[1..]);
      TargetsReadStep(texts, names);
      ReadTarget(targets[0], names);
      ReadTargetTexts(targets[1..], names);
      assert [targets[0].0] + Vids(targets[1..]) == Vids(targets);
    }
  }

  lemma ReadRecord(key: int, targets: seq<Target>, names: string -> Option<int>)
    requires IsInt32(key) && TargetsInRange(targets)
    ensures var segs := Split(RecordLine(key, targets), ";");
      segs[0] != "" && TargetVids(segs[1..], names) == Some(Vids(targets)) && ParseVid(segs[0], names) == Some(key)
  {
    hide Decimal, Split, TargetVids, RecordLine;
    SplitRecord(key, targets);
    var segs := Split(RecordLine(key, targets), ";");
    assert segs[1..] == TargetTexts(targets);
    ReadTargetTexts(targets, names);
    DecimalIsNumeral(key);
    DecimalHasNo(key, '@');
    assert Decimal(key)[0] in Decimal(key);
    StrictIntOfDecimal(key);
  }

  lemma {:induction false} CollectRecords(keys: seq<int>, table: Table, names: string -> Option<int>, known: int -> bool,
                                          records: seq<PtsRecord>, unresolved: nat)
    requires InRange(table) && forall i :: 0 <= i < |keys| ==> keys[i] in table
    ensures Collect(RecordLines(keys, table), names, known, records, unresolved)
         == Records(records + ReadBack(keys, table, known), unresolved + Unread(keys, table, known))
    decreases |keys|
  {
    hide Collect, Split, TargetVids, ParseVid, RecordLine;
    var lines := RecordLines(keys, table);
    if keys == [] {
      CollectNothing(names, known, records, unresolved);
      assert records + [] == records;
    } else {
      var k := keys[0];
      assert lines[1..] == RecordLines(keys[1..], table);
      ReadRecord(k, table[k], names);
      CollectStep(lines, names, known, records, unresolved);
      var record, rest := PtsRecord(k, Vids(table[k])), ReadBack(keys[1..], table, known);
      if known(k) {
        CollectRecords(keys[1..], table, names, known, records + [record], unresolved);
        assert records + [record] + rest == records + ([record] + rest);
      } else {
        CollectRecords(keys[1..], table, names, known, records, unresolved + |table[k]|);
        assert records + rest == records + ([] + rest);
      }
    }
  }

  lemma RecordLineIsLine(key: int, targets: seq<Target>)
    ensures '\n' !in RecordLine(key, targets)
  {
    hide Decimal;
    DecimalHasNo(key, '\n');
    TargetsHaveNo(targets, '\n');
  }

  lemma {:induction false} TargetsHaveNo(targets: seq<Target>, c: char)
    requires !IsDigit(c) && c != '-' && c != ',' && c != ';'
    ensures c !in TargetsText(targets)
  {
    hide Decimal, ContextText;
    if targets != [] {
      DecimalHasNo(targets[0].0, c);
      ContextHasNo(targets[0].1, c);
      TargetsHaveNo(targets[1..], c);
    }
  }

  /** Every printed table of 32-bit ids is read back: the keys in order, each with its targets in
      order and without their contexts. */
  lemma PtsRoundTrip(keys: seq<int>, table: Table, names: string -> Option<int>, known: int -> bool)
    requires InRange(table) && forall i :: 0 <= i < |keys| ==> keys[i] in table
    ensures ReadDump(Header("pts", RecordLines(keys, table)), names, known)
         == Records(ReadBack(keys, table, known), Unread(keys, table, known))
  {
    hide Collect, RecordLine, ReadBack, Unread, Unlines, Lines, InRange;
    var lines := RecordLines(keys, table);
    forall i | 0 <= i < |lines| ensures '\n' !in lines[i] { RecordLineIsLine(keys[i], table[keys[i]]); }
    assert '\n' !in "pts";
    LinesOfUnlines(["pts"] + lines);
    assert (["pts"] + lines)[1..] == lines;
    CollectRecords(keys, table, names, known, [], 0);
    assert [] + ReadBack(keys, table, known) == ReadBack(keys, table, known);
  }
}
