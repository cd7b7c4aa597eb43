/** The note file as a sorted map: records that start at heading lines, a binary search
    over byte offsets, and splices that replace one record. */
module NoteFile {
  import opened Text

  datatype Option<T> = None | Some(value: T)

  const HEADING := "## "

  /** The key that `isKeyPoint` gives the end of the file: above every heading. */
  const END_KEY := "\U{FF}"

  /** The key at `pos` when a record starts there (or the file ends there). */
  function KeyPoint(buf: string, pos: nat): Option<string>
    requires pos <= |buf|
  {
    if pos == |buf| then Some(END_KEY)
    else if pos != 0 && buf[pos - 1] != '\n' then None
    else
      var line := FirstLine(buf[pos..]);
      if HEADING <= line then Some(line)
      else if pos == 0 then Some("")
      else None
  }

  // ----- the records, read by one linear scan

  /** How much of `s` belongs to the record before it. */
  function TailLength(s: string): (n: nat)
    ensures n <= |s|
  {
    if s == "" || HEADING <= s then 0 else |Chunk(s)| + TailLength(AfterLine(s))
  }

  function RecordLength(s: string): (n: nat)
    requires s != ""
    ensures 0 < n <= |s|
  {
    |Chunk(s)| + TailLength(AfterLine(s))
  }

  function Records(s: string): seq<string> {
    if s == "" then [] else [s[..RecordLength(s)]] + Records(s[RecordLength(s)..])
  }

  function KeyOf(record: string): string {
    if HEADING <= record then FirstLine(record) else ""
  }

  function Offset(rs: seq<string>, i: nat): nat
    requires i <= |rs|
  {
    if i == 0 then 0 else |rs[0]| + Offset(rs[1..], i - 1)
  }

  /** The index of the first record whose key is not below `key`. */
  function LowerBound(rs: seq<string>, key: string): (i: nat)
    ensures i <= |rs|
  {
    if rs == [] || !Less(KeyOf(rs[0]), key) then 0 else 1 + LowerBound(rs[1..], key)
  }

  lemma {:induction false} LowerBoundSplits(rs: seq<string>, key: string)
    ensures var i := LowerBound(rs, key);
      && (i < |rs| ==> !Less(KeyOf(rs[i]), key))
      && forall j :: 0 <= j < i ==> Less(KeyOf(rs[j]), key)
  {
    hide KeyOf, Less;
    if rs != [] && Less(KeyOf(rs[0]), key) {
      LowerBoundSplits(rs[1..], key);
      assert forall j :: 0 < j < LowerBound(rs, key) ==> rs[j] == rs[1..][j - 1];
    }
  }

  ghost predicate NonDecreasing(rs: seq<string>) {
    forall i, j :: 0 <= i < j < |rs| ==> !Less(KeyOf(rs[j]), KeyOf(rs[i]))
  }

  // ----- key points are exactly the ends of records

  lemma HeadingOfLine(s: string)
    ensures HEADING <= FirstLine(s) <==> HEADING <= s
  {
    hide FirstLine;
    var line := FirstLine(s);
    assert forall i :: 0 <= i < |line| ==> line[i] == s[i];
    if HEADING <= s {
      assert s[0] == '#' && s[1] == '#' && s[2] == ' ';
    }
  }

  /** A line has no key point inside, and the next line starts right after it. */
  lemma LineHasNoKeyPoint(buf: string, pos: nat)
    requires pos < |buf|
    ensures var next := pos + |Chunk(buf[pos..])|;
      && AfterLine(buf[pos..]) == buf[next..]
      && (next < |buf| ==> buf[next - 1] == '\n')
      && forall j :: pos < j < next ==> KeyPoint(buf, j).None?
  {
    hide FirstLine;
    var s := buf[pos..];
    var line := FirstLine(s);
    forall j | pos < j < pos + |Chunk(s)| ensures KeyPoint(buf, j).None? {
      assert buf[j - 1] == s[j - 1 - pos] == line[j - 1 - pos];
    }
  }

  /** From the start of a line, the next key point is where the record's tail ends. */
  lemma {:induction false} TailToKeyPoint(buf: string, pos: nat)
    requires 0 < pos <= |buf| && (pos < |buf| ==> buf[pos - 1] == '\n')
    ensures var n := TailLength(buf[pos..]);
      && KeyPoint(buf, pos + n).Some?
      && forall j :: pos <= j < pos + n ==> KeyPoint(buf, j).None?
    decreases |buf| - pos
  {
    hide FirstLine, Chunk, AfterLine;
    var s := buf[pos..];
    HeadingOfLine(s);
    if s != "" && !(HEADING <= s) {
      LineHasNoKeyPoint(buf, pos);
      TailToKeyPoint(buf, pos + |Chunk(s)|);
    }
  }

  lemma RecordToKeyPoint(buf: string, pos: nat)
    requires pos < |buf|
    ensures var n := RecordLength(buf[pos..]);
      && KeyPoint(buf, pos + n).Some?
      && forall j :: pos < j < pos + n ==> KeyPoint(buf, j).None?
  {
    hide FirstLine, Chunk, AfterLine;
    LineHasNoKeyPoint(buf, pos);
    TailToKeyPoint(buf, pos + |Chunk(buf[pos..])|);
  }

  /** The record that starts at a key point has the key of that point. */
  lemma KeyOfRecord(buf: string, pos: nat)
    requires pos < |buf| && KeyPoint(buf, pos).Some?
    ensures KeyOf(buf[pos..][..RecordLength(buf[pos..])]) == KeyPoint(buf, pos).value
  {
    var s := buf[pos..];
    var r := s[..RecordLength(s)];
    HeadingOfLine(s);
    HeadingOfLine(r);
    SameFirstLine(s, RecordLength(s));
  }

  lemma SameFirstLine(s: string, n: nat)
    requires s != "" && |Chunk(s)| <= n <= |s|
    ensures FirstLine(s[..n]) == FirstLine(s)
  {
    hide FirstLine;
    var r, a, b := s[..n], FirstLine(s), FirstLine(s[..n]);
    assert forall i :: 0 <= i < |a| ==> a[i] == s[i];
    assert forall i :: 0 <= i < |b| ==> b[i] == s[i];
    assert |a| < |s| ==> s[|a|] == '\n';
    assert |b| < n ==> r[|b|] == s[|b|] == '\n';
  }

  // ----- records by index

  function Concat(rs: seq<string>): string {
    if rs == [] then "" else rs[0] + Concat(rs[1..])
  }

  /** Successive records make up the whole buffer. */
  lemma {:induction false} RecordsConcatenate(s: string)
    ensures Concat(Records(s)) == s
    ensures Offset(Records(s), |Records(s)|) == |s|
  {
    hide RecordLength;
    if s != "" {
      var rest := s[RecordLength(s)..];
      RecordsConcatenate(rest);
      assert Records(s)[1..] == Records(rest);
      assert s == s[..RecordLength(s)] + rest;
    }
  }

  lemma {:induction false} OffsetStep(rs: seq<string>, i: nat, k: nat)
    requires i < k <= |rs|
    ensures Offset(rs, i) + |rs[i]| <= Offset(rs, k)
    ensures k == i + 1 ==> Offset(rs, i) + |rs[i]| == Offset(rs, k)
  {
    if i > 0 {
      OffsetStep(rs[1..], i - 1, k - 1);
    } else if k > 1 {
      OffsetStep(rs[1..], 0, k - 1);
    }
  }

  lemma {:induction false} Locate(rs: seq<string>, pos: nat) returns (i: nat, j: nat)
    requires pos < Offset(rs, |rs|)
    ensures i < |rs| && j < |rs[i]| && pos == Offset(rs, i) + j
  {
    if pos < |rs[0]| {
      i, j := 0, pos;
    } else {
      i, j := Locate(rs[1..], pos - |rs[0]|);
      i := i + 1;
    }
  }

  // ----- the key in force at a position

  function KeyAt(buf: string, pos: nat): string
    requires pos <= |buf|
  {
    var key := KeyPoint(buf, pos);
    if key.Some? then key.value else KeyAt(buf, pos - 1)
  }

  method ScanKeyAt(buf: string, pos: nat) returns (key: string)
    requires pos <= |buf|
    ensures key == KeyAt(buf, pos)
  {
    var p: nat := pos;
    while true
      invariant p <= |buf| && KeyAt(buf, pos) == KeyAt(buf, p)
      decreases p
    {
      var k := KeyPoint(buf, p);
      if k.Some? { return k.value; }
      p := p - 1;
    }
  }

  lemma {:induction false} KeyInsideRecord(buf: string, pos: nat, j: nat)
    requires pos < |buf| && KeyPoint(buf, pos).Some? && j < RecordLength(buf[pos..])
    ensures KeyAt(buf, pos + j) == KeyPoint(buf, pos).value
  {
    if j > 0 {
      hide RecordLength, KeyPoint;
      KeyInsideRecord(buf, pos, j - 1);
      RecordToKeyPoint(buf, pos);
    }
  }

  lemma {:induction false} KeyOfPosition(buf: string, pos: nat, i: nat, j: nat)
    requires pos <= |buf| && KeyPoint(buf, pos).Some?
    requires i < |Records(buf[pos..])| && j < |Records(buf[pos..])[i]|
    ensures var rs := Records(buf[pos..]); var p := pos + Offset(rs, i) + j;
      p < |buf| && KeyAt(buf, p) == KeyOf(rs[i])
    decreases i
  {
    hide RecordLength, KeyPoint, KeyOf, KeyAt;
    var s := buf[pos..];
    var n := RecordLength(s);
    if i == 0 {
      KeyInsideRecord(buf, pos, j);
      KeyOfRecord(buf, pos);
    } else {
      RecordToKeyPoint(buf, pos);
      assert s[n..] == buf[pos + n..];
      KeyOfPosition(buf, pos + n, i - 1, j);
    }
  }

  lemma EndKeyIsAbove(key: string)
    requires key == "" || key[0] == '#'
    ensures !Less(END_KEY, key) && END_KEY != key
  {
  }

  lemma KeyStartsWithHash(buf: string, pos: nat)
    requires pos < |buf|
    ensures KeyAt(buf, pos) == "" || KeyAt(buf, pos)[0] == '#'
  {
  }

  /** On non-decreasing headings the key in force never goes down. */
  lemma KeyAtMonotone(buf: string, p: nat, q: nat)
    requires NonDecreasing(Records(buf)) && p <= q <= |buf|
    ensures !Less(KeyAt(buf, q), KeyAt(buf, p))
  {
    hide KeyAt, KeyOf, Records, Less;
    LessIrreflexive(KeyAt(buf, p));
    if p < q {
      if q == |buf| {
        KeyStartsWithHash(buf, p);
        EndKeyIsAbove(KeyAt(buf, p));
        KeyAtEnd(buf);
      } else {
        var rs := Records(buf);
        assert buf[0..] == buf;
        RecordsConcatenate(buf);
        var i, j := Locate(rs, p);
        var k, l := Locate(rs, q);
        KeyOfPosition(buf, 0, i, j);
        KeyOfPosition(buf, 0, k, l);
        if k < i { OffsetStep(rs, k, i); }
      }
    }
  }

  lemma KeyAtEnd(buf: string)
    ensures KeyAt(buf, |buf|) == END_KEY
  {
  }

  // ----- the binary search and the record reader

  /** The byte-offset search. On any file it stops at a key point, and `found` says whether
      the record there has the key. On a file with non-decreasing headings it stops where a
      linear scan does: at the first record whose heading is not below the key. */
  method FindLowerbound(buf: string, key: string) returns (out: nat, found: bool)
    ensures out <= |buf| && KeyPoint(buf, out).Some?
    ensures found <==> out < |buf| && KeyAt(buf, out) == HEADING + key
    ensures NonDecreasing(Records(buf)) ==>
      var rs := Records(buf); var i := LowerBound(rs, HEADING + key);
      && out == Offset(rs, i)
      && (found <==> i < |rs| && KeyOf(rs[i]) == HEADING + key)
  {
    hide KeyAt, KeyOf, Records, Less, LowerBound, KeyPoint, NonDecreasing;
    var left: nat, right: nat := 0, |buf|;
    var fullKey := HEADING + key;
    KeyAtEnd(buf);
    EndKeyIsAbove(fullKey);
    while left < right
      invariant left <= right <= |buf|
      invariant left > 0 ==> Less(KeyAt(buf, left - 1), fullKey)
      invariant !Less(KeyAt(buf, right), fullKey)
      invariant NonDecreasing(Records(buf)) ==> forall p :: 0 <= p < left ==> Less(KeyAt(buf, p), fullKey)
    {
      var mid := left + (right - left) / 2;
      var midKey := ScanKeyAt(buf, mid);
      var c := Compare(midKey, fullKey);
      if c < 0 {
        if NonDecreasing(Records(buf)) {
          BelowUpTo(buf, mid, fullKey);
        }
        left := mid + 1;
      } else {
        right := mid;
      }
    }
    out := left;
    KeyChangesAtKeyPoint(buf, out);
    if NonDecreasing(Records(buf)) {
      Boundary(buf, fullKey, out);
    }
    found := false;
    if left != |buf| {
      var k := ScanKeyAt(buf, left);
      var c := Compare(k, fullKey);
      found := c == 0;
    }
  }

  lemma KeyChangesAtKeyPoint(buf: string, pos: nat)
    requires pos <= |buf| && (pos > 0 ==> KeyAt(buf, pos - 1) != KeyAt(buf, pos))
    ensures KeyPoint(buf, pos).Some?
  {
  }

  lemma BelowUpTo(buf: string, mid: nat, key: string)
    requires NonDecreasing(Records(buf)) && mid < |buf| && Less(KeyAt(buf, mid), key)
    ensures forall p :: 0 <= p <= mid ==> Less(KeyAt(buf, p), key)
  {
    hide KeyAt, Less, NonDecreasing;
    forall p | 0 <= p <= mid ensures Less(KeyAt(buf, p), key) {
      KeyAtMonotone(buf, p, mid);
      AtMostLess(KeyAt(buf, p), KeyAt(buf, mid), key);
    }
  }

  /** Where the key in force first reaches `key`, the first record not below it starts. */
  lemma Boundary(buf: string, key: string, out: nat)
    requires out <= |buf| && !Less(KeyAt(buf, out), key)
    requires forall p :: 0 <= p < out ==> Less(KeyAt(buf, p), key)
    ensures var rs := Records(buf); var i := LowerBound(rs, key);
      && out == Offset(rs, i)
      && (i < |rs| ==> KeyAt(buf, out) == KeyOf(rs[i]))
      && (i == |rs| <==> out == |buf|)
    ensures KeyPoint(buf, out).Some?
  {
    hide KeyAt, KeyOf, Records, Less, LowerBound, KeyPoint;
    var rs := Records(buf);
    var i := LowerBound(rs, key);
    assert buf[0..] == buf;
    RecordsConcatenate(buf);
    RecordsNonEmpty(buf);
    LowerBoundSplits(rs, key);
    FirstIsKeyPoint(buf);
    OffsetBounds(rs, i);
    if i < |rs| {
      OffsetStep(rs, i, |rs|);
      KeyOfPosition(buf, 0, i, 0);
    }
    if out < |buf| {
      var k, l := Locate(rs, out);
      KeyOfPosition(buf, 0, k, l);
      if i < k { OffsetStep(rs, i, k); }
    }
    OffsetIsKeyPoint(buf, 0, i);
  }

  lemma {:induction false} OffsetBounds(rs: seq<string>, i: nat)
    requires i <= |rs|
    ensures Offset(rs, i) <= Offset(rs, |rs|)
  {
    if i < |rs| { OffsetStep(rs, i, |rs|); }
  }

  lemma FirstIsKeyPoint(buf: string)
    ensures KeyPoint(buf, 0).Some?
  {
  }

  lemma {:induction false} RecordsNonEmpty(s: string)
    ensures forall i :: 0 <= i < |Records(s)| ==> Records(s)[i] != ""
  {
    if s != "" {
      RecordsNonEmpty(s[RecordLength(s)..]);
    }
  }

  lemma {:induction false} OffsetIsKeyPoint(buf: string, pos: nat, i: nat)
    requires pos <= |buf| && KeyPoint(buf, pos).Some? && i <= |Records(buf[pos..])|
    ensures var p := pos + Offset(Records(buf[pos..]), i); p <= |buf| && KeyPoint(buf, p).Some?
    decreases i
  {
    hide RecordLength, KeyPoint;
    if i > 0 {
      var n := RecordLength(buf[pos..]);
      RecordToKeyPoint(buf, pos);
      assert buf[pos..][n..] == buf[pos + n..];
      OffsetIsKeyPoint(buf, pos + n, i - 1);
    }
  }

  /** Reads the record at a key point, and refuses any other position. */
  method ReadRecord(buf: string, pos: nat) returns (r: Option<string>)
    requires pos <= |buf|
    ensures r.Some? <==> KeyPoint(buf, pos).Some?
    ensures r.Some? ==> r.value == if pos == |buf| then "" else buf[pos..][..RecordLength(buf[pos..])]
  {
    hide RecordLength, KeyPoint;
    if KeyPoint(buf, pos).None? { return None; }
    if pos == |buf| { return Some(""); }
    var end := pos + 1;
    RecordToKeyPoint(buf, pos);
    while end < |buf| && KeyPoint(buf, end).None?
      invariant pos < end <= pos + RecordLength(buf[pos..])
    {
      end := end + 1;
    }
    KeyAtEnd(buf);
    r := Some(buf[pos..end]);
  }
}
