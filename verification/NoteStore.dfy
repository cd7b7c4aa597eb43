/** The note file under its editing commands: each command keeps it a file of records with
    strictly increasing headings, changes the record of one heading, and leaves the text of
    every other record as it was. */
module NoteStore {
  import opened Text
  import opened NoteFile
  import NoteLines

  /** Each heading is above the one before; hence no heading occurs twice. */
  ghost predicate Increasing(rs: seq<string>) {
    forall i, j :: 0 <= i < j < |rs| ==> Less(KeyOf(rs[i]), KeyOf(rs[j]))
  }

  /** A note file as the tool creates it: a first line that is no heading (the path of the
      source file), whole lines, and increasing headings. */
  ghost predicate WellFormed(buf: string) {
    EndsLine(buf) && !(HEADING <= buf) && Increasing(Records(buf))
  }

  /** The file as a map from heading lines to records (the preamble has the empty key). */
  function AsMap(rs: seq<string>): map<string, string> {
    if rs == [] then map[] else AsMap(rs[1..])[KeyOf(rs[0]) := rs[0]]
  }

  /** A text that is exactly one record. */
  ghost predicate IsRecord(text: string) { HEADING <= text && EndsLine(text) && Records(text) == [text] }

  ghost predicate NoHeading(lines: seq<string>) { forall i :: 0 <= i < |lines| ==> !(HEADING <= lines[i]) }

  // ----- records of concatenated text

  lemma ChunkAppend(a: string, b: string)
    requires EndsLine(a)
    ensures Chunk(a + b) == Chunk(a) && AfterLine(a + b) == AfterLine(a) + b
    ensures AfterLine(a) == "" || EndsLine(AfterLine(a))
    ensures EndsLine(Chunk(a))
  {
    hide FirstLine;
    var x, y := FirstLine(a), FirstLine(a + b);
    assert (a + b)[..|a|] == a;
    assert forall i :: 0 <= i < |x| ==> x[i] == a[i];
    assert forall i :: 0 <= i < |y| && i < |a| ==> y[i] == a[i];
    assert a[|a| - 1] == '\n';
    assert |x| < |a| && a[|x|] == '\n';
    assert (a + b)[|x|] == '\n';
  }

  lemma HeadingAppend(a: string, b: string)
    requires EndsLine(a)
    ensures HEADING <= a + b <==> HEADING <= a
  {
    assert a[|a| - 1] == '\n';
    if HEADING <= a + b {
      assert (a + b)[0] == '#' && (a + b)[1] == '#' && (a + b)[2] == ' ';
    }
  }

  lemma {:induction false} TailAppend(a: string, b: string)
    requires a == "" || EndsLine(a)
    requires b == "" || HEADING <= b
    ensures TailLength(a + b) == TailLength(a)
    decreases |a|
  {
    hide Chunk, AfterLine;
    if a == "" {
      assert a + b == b;
    } else {
      HeadingAppend(a, b);
      if !(HEADING <= a) {
        ChunkAppend(a, b);
        TailAppend(AfterLine(a), b);
      }
    }
  }

  lemma TailStep(s: string)
    requires s != ""
    ensures TailLength(s) == if HEADING <= s then 0 else |Chunk(s)| + TailLength(AfterLine(s))
  {
  }

  lemma TailOfNothing()
    ensures TailLength("") == 0
  {
  }

  /** A record of whole lines ends with a line. */
  lemma {:induction false} TailEndsLine(a: string)
    requires a == "" || EndsLine(a)
    ensures TailLength(a) == 0 || EndsLine(a[..TailLength(a)])
    ensures a[TailLength(a)..] == "" || (EndsLine(a[TailLength(a)..]) && HEADING <= a[TailLength(a)..])
    decreases |a|
  {
    hide Chunk, AfterLine, TailLength;
    if a == "" {
      TailOfNothing();
    } else {
      TailStep(a);
      if !(HEADING <= a) {
        ChunkAppend(a, "");
        var rest := AfterLine(a);
        TailEndsLine(rest);
        ChunkThenRest(a, TailLength(rest));
        JoinEndsLine(Chunk(a), rest[..TailLength(rest)]);
      }
    }
  }

  lemma ChunkThenRest(a: string, n: nat)
    requires a != "" && n <= |AfterLine(a)|
    ensures a == Chunk(a) + AfterLine(a)
    ensures a[|Chunk(a)| + n..] == AfterLine(a)[n..]
    ensures a[..|Chunk(a)| + n] == Chunk(a) + AfterLine(a)[..n]
  {
  }

  lemma RecordEndsLine(buf: string)
    requires EndsLine(buf)
    ensures var n := RecordLength(buf);
      && EndsLine(buf[..n])
      && (buf[n..] == "" || (EndsLine(buf[n..]) && HEADING <= buf[n..]))
  {
    hide Chunk, AfterLine, TailLength, FirstLine, RecordLength, EndsLine;
    NotEmptyLine(buf);
    var head, rest := Chunk(buf), AfterLine(buf);
    ChunkAppend(buf, "");
    TailEndsLine(rest);
    ChunkThenRest(buf, TailLength(rest));
    RecordIsChunkAndTail(buf);
    Glue(head, rest, TailLength(rest));
  }

  lemma NotEmptyLine(buf: string)
    requires EndsLine(buf)
    ensures buf != ""
  {
  }

  lemma RecordIsChunkAndTail(buf: string)
    requires buf != ""
    ensures RecordLength(buf) == |Chunk(buf)| + TailLength(AfterLine(buf))
  {
    hide Chunk, AfterLine, TailLength;
  }

  lemma JoinEndsLine(a: string, b: string)
    requires EndsLine(a) && (b == "" || EndsLine(b))
    ensures EndsLine(a + b)
  {
  }

  lemma Glue(head: string, rest: string, t: nat)
    requires EndsLine(head) && t <= |rest| && (t == 0 || EndsLine(rest[..t]))
    ensures var n := |head| + t; EndsLine((head + rest)[..n]) && (head + rest)[n..] == rest[t..]
  {
    assert (head + rest)[..|head| + t] == head + rest[..t];
  }

  lemma RecordsStep(s: string)
    requires s != ""
    ensures Records(s) == [s[..RecordLength(s)]] + Records(s[RecordLength(s)..])
  {
  }

  lemma RecordLengthAppend(a: string, b: string)
    requires EndsLine(a)
    requires b == "" || HEADING <= b
    ensures RecordLength(a + b) == RecordLength(a)
  {
    hide Chunk, AfterLine, TailLength;
    ChunkAppend(a, b);
    TailAppend(AfterLine(a), b);
  }

  lemma {:induction false} RecordsAppend(a: string, b: string)
    requires a == "" || EndsLine(a)
    requires b == "" || HEADING <= b
    ensures Records(a + b) == Records(a) + Records(b)
    decreases |a|
  {
    hide Chunk, AfterLine, RecordLength;
    if a == "" {
      assert a + b == b;
    } else {
      hide Records;
      var n := RecordLength(a);
      RecordEndsLine(a);
      RecordLengthAppend(a, b);
      RecordsAppend(a[n..], b);
      RecordsStep(a);
      RecordsStep(a + b);
      assert (a + b)[..n] == a[..n] && (a + b)[n..] == a[n..] + b;
    }
  }

  lemma RecordsOfNothing()
    ensures Records("") == []
  {
  }

  lemma OneRecord(buf: string)
    requires EndsLine(buf)
    ensures Records(buf[..RecordLength(buf)]) == [buf[..RecordLength(buf)]]
  {
    hide RecordLength, Records;
    var n := RecordLength(buf);
    RecordEndsLine(buf);
    assert buf == buf[..n] + buf[n..];
    RecordLengthAppend(buf[..n], buf[n..]);
    RecordsStep(buf[..n]);
    RecordsOfNothing();
    assert buf[..n][..n] == buf[..n] && buf[..n][n..] == "";
  }

  /** Records in the order of a file: each ends its line and is one record, and all but the
      first open with a heading. */
  ghost predicate Good(rs: seq<string>) {
    && (forall i :: 0 <= i < |rs| ==> EndsLine(rs[i]) && Records(rs[i]) == [rs[i]])
    && (forall i :: 0 < i < |rs| ==> HEADING <= rs[i])
  }

  lemma {:induction false} GoodRecords(buf: string)
    requires buf == "" || EndsLine(buf)
    ensures Good(Records(buf))
    ensures buf != "" ==> Records(buf) != [] && Records(buf)[0] <= buf
    decreases |buf|
  {
    hide Records, RecordLength;
    RecordsOfNothing();
    if buf != "" {
      var n := RecordLength(buf);
      RecordsStep(buf);
      RecordEndsLine(buf);
      OneRecord(buf);
      GoodRecords(buf[n..]);
      if buf[n..] != "" { RecordOpens(buf[n..]); }
    }
  }

  lemma RecordOpens(buf: string)
    requires EndsLine(buf) && HEADING <= buf
    ensures Records(buf) != [] && HEADING <= Records(buf)[0]
  {
    hide RecordLength;
    var n := RecordLength(buf);
    RecordEndsLine(buf);
    assert buf[0] == '#' && buf[1] == '#' && buf[2] == ' ';
    assert buf[..n][n - 1] == buf[n - 1] == '\n';
  }

  lemma {:induction false} RecordsOfConcat(rs: seq<string>)
    requires Good(rs)
    ensures Records(Concat(rs)) == rs
    ensures rs != [] ==> EndsLine(Concat(rs)) && (HEADING <= Concat(rs) <==> HEADING <= rs[0])
  {
    hide Records;
    RecordsOfNothing();
    if rs != [] {
      var rest := Concat(rs[1..]);
      RecordsOfConcat(rs[1..]);
      RecordsAppend(rs[0], rest);
      HeadingAppend(rs[0], rest);
      assert [rs[0]] + rs[1..] == rs;
      if rest == "" { assert rs[0] + rest == rs[0]; }
    }
  }

  lemma {:induction false} ConcatAppend(a: seq<string>, b: seq<string>)
    ensures Concat(a + b) == Concat(a) + Concat(b)
  {
    hide Concat;
    if a == [] {
      assert a + b == b;
      ConcatNothing();
      assert "" + Concat(b) == Concat(b);
    } else {
      ConcatAppend(a[1..], b);
      assert (a + b)[1..] == a[1..] + b && (a + b)[0] == a[0];
      ConcatStep(a);
      ConcatStep(a + b);
      assert a[0] + (Concat(a[1..]) + Concat(b)) == (a[0] + Concat(a[1..])) + Concat(b);
    }
  }

  lemma ConcatNothing()
    ensures Concat([]) == ""
  {
  }

  lemma ConcatStep(rs: seq<string>)
    requires rs != []
    ensures Concat(rs) == rs[0] + Concat(rs[1..])
  {
  }

  lemma {:induction false} OffsetIsLength(rs: seq<string>, i: nat)
    requires i <= |rs|
    ensures |Concat(rs[..i])| == Offset(rs, i)
  {
    if i > 0 {
      OffsetIsLength(rs[1..], i - 1);
      assert rs[..i][1..] == rs[1..][..i - 1];
    }
  }

  /** The file before and from the record at index `i`. */
  lemma SplitAtRecord(buf: string, i: nat)
    requires i <= |Records(buf)|
    ensures var rs := Records(buf); var p := Offset(rs, i);
      p <= |buf| && buf[..p] == Concat(rs[..i]) && buf[p..] == Concat(rs[i..])
  {
    var rs := Records(buf);
    hide Records;
    RecordsConcatenate(buf);
    OffsetIsLength(rs, i);
    ConcatAppend(rs[..i], rs[i..]);
    assert rs[..i] + rs[i..] == rs;
  }

  // ----- the map of a list of records

  lemma {:induction false} AsMapConcat(a: seq<string>, b: seq<string>)
    ensures AsMap(a + b) == AsMap(b) + AsMap(a)
  {
    hide KeyOf;
    if a == [] {
      assert a + b == b;
    } else {
      AsMapConcat(a[1..], b);
      assert (a + b)[1..] == a[1..] + b;
    }
  }

  lemma {:induction false} AsMapKeys(rs: seq<string>, key: string)
    ensures key in AsMap(rs) <==> exists i :: 0 <= i < |rs| && KeyOf(rs[i]) == key
  {
    hide KeyOf;
    if rs != [] {
      AsMapKeys(rs[1..], key);
      if i :| 0 <= i < |rs| && KeyOf(rs[i]) == key {
        assert i > 0 ==> KeyOf(rs[1..][i - 1]) == key;
      }
      if i :| 0 <= i < |rs[1..]| && KeyOf(rs[1..][i]) == key {
        assert KeyOf(rs[i + 1]) == key;
      }
    }
  }

  lemma AsMapSingle(r: string)
    ensures AsMap([r]) == map[KeyOf(r) := r]
  {
    assert [r][1..] == [];
  }

  /** The position of a key in increasing records, and what lies on either side of it. */
  lemma Around(rs: seq<string>, key: string)
    requires Increasing(rs)
    ensures var i, k := LowerBound(rs, key), After(rs, key);
      && (forall j :: 0 <= j < i ==> Less(KeyOf(rs[j]), key))
      && (forall j :: k <= j < |rs| ==> Less(key, KeyOf(rs[j])))
  {
    LowerBoundSplits(rs, key);
    hide KeyOf, Less, LowerBound;
    var i, k := LowerBound(rs, key), After(rs, key);
    forall j | k <= j < |rs| ensures Less(key, KeyOf(rs[j])) {
      if i < k {
        assert Less(KeyOf(rs[i]), KeyOf(rs[j]));
      } else {
        LessTotal(key, KeyOf(rs[i]));
        if i < j { LessTransitive(key, KeyOf(rs[i]), KeyOf(rs[j])); }
      }
    }
  }

  /** Where the records above `key` begin. */
  function After(rs: seq<string>, key: string): (k: nat)
    ensures LowerBound(rs, key) <= k <= |rs| && k <= LowerBound(rs, key) + 1
  {
    var i := LowerBound(rs, key);
    if i < |rs| && KeyOf(rs[i]) == key then i + 1 else i
  }

  /** The record of `key`, if there is one. */
  function At(rs: seq<string>, key: string): (mid: seq<string>)
    ensures |mid| <= 1
  {
    rs[LowerBound(rs, key)..After(rs, key)]
  }

  ghost predicate AllBelow(rs: seq<string>, key: string) { forall j :: 0 <= j < |rs| ==> Less(KeyOf(rs[j]), key) }
  ghost predicate AllAbove(rs: seq<string>, key: string) { forall j :: 0 <= j < |rs| ==> Less(key, KeyOf(rs[j])) }
  ghost predicate HasKey(rs: seq<string>, key: string) { forall j :: 0 <= j < |rs| ==> KeyOf(rs[j]) == key }

  /** Increasing records fall into those below a key, the one that has it, and those above. */
  lemma Parts(rs: seq<string>, key: string)
    requires Increasing(rs)
    ensures var a, c := rs[..LowerBound(rs, key)], rs[After(rs, key)..];
      && rs == a + At(rs, key) + c && c == rs[After(rs, key)..|rs|]
      && AllBelow(a, key) && AllAbove(c, key) && HasKey(At(rs, key), key)
      && Increasing(a) && Increasing(c)
  {
    hide KeyOf, Less, LowerBound, After, Increasing, AllBelow, AllAbove, HasKey;
    CutInThree(rs, LowerBound(rs, key), After(rs, key));
    Sides(rs, key);
    SliceIncreasing(rs, 0, LowerBound(rs, key));
    SliceIncreasing(rs, After(rs, key), |rs|);
  }

  lemma CutInThree<T>(s: seq<T>, i: nat, k: nat)
    requires i <= k <= |s|
    ensures s == s[..i] + s[i..k] + s[k..] && s[k..] == s[k..|s|] && s[..i] == s[0..i]
  {
  }

  lemma Sides(rs: seq<string>, key: string)
    requires Increasing(rs)
    ensures AllBelow(rs[..LowerBound(rs, key)], key)
    ensures AllAbove(rs[After(rs, key)..], key)
    ensures HasKey(At(rs, key), key)
  {
    hide KeyOf, Less, LowerBound, Increasing;
    Around(rs, key);
    var i, k := LowerBound(rs, key), After(rs, key);
    var a, m, c := rs[..i], rs[i..k], rs[k..];
    assert forall j :: 0 <= j < i ==> a[j] == rs[j];
    assert forall j :: 0 <= j < k - i ==> m[j] == rs[i + j];
    assert forall j :: 0 <= j < |rs| - k ==> c[j] == rs[k + j];
  }

  lemma SliceIncreasing(rs: seq<string>, i: nat, k: nat)
    requires Increasing(rs) && i <= k <= |rs|
    ensures Increasing(rs[i..k])
  {
    hide KeyOf, Less;
    assert forall j :: 0 <= j < k - i ==> rs[i..k][j] == rs[i + j];
  }

  lemma JoinIncreasing(a: seq<string>, put: seq<string>, c: seq<string>, key: string)
    requires Increasing(a) && Increasing(c) && AllBelow(a, key) && AllAbove(c, key)
    requires |put| <= 1 && HasKey(put, key)
    ensures Increasing(a + put + c)
  {
    hide KeyOf, Less;
    var all, n := a + put + c, |a| + |put|;
    forall i, j | 0 <= i < j < |all| ensures Less(KeyOf(all[i]), KeyOf(all[j])) {
      assert all[i] == if i < |a| then a[i] else if i < n then put[i - |a|] else c[i - n];
      assert all[j] == if j < |a| then a[j] else if j < n then put[j - |a|] else c[j - n];
      if i < |a| && n <= j { LessTransitive(KeyOf(all[i]), key, KeyOf(all[j])); }
    }
  }

  /** The map of the parts, in terms of the middle one. */
  lemma JoinMap(a: seq<string>, mid: seq<string>, c: seq<string>, key: string)
    requires AllBelow(a, key) && AllAbove(c, key) && |mid| <= 1 && HasKey(mid, key)
    ensures AsMap(a + mid + c) == (AsMap(c) + (if mid == [] then map[] else map[key := mid[0]])) + AsMap(a)
    ensures key !in AsMap(a) && key !in AsMap(c)
  {
    LessIrreflexive(key);
    AsMapKeys(a, key);
    AsMapKeys(c, key);
    AsMapConcat(a + mid, c);
    AsMapConcat(a, mid);
    AsMapOfNone();
    hide KeyOf, Less, AsMap;
    if mid != [] {
      AsMapSingle(mid[0]);
      assert mid == [mid[0]];
    }
  }

  lemma AsMapOfNone()
    ensures AsMap([]) == map[]
  {
  }

  lemma Lookup(rs: seq<string>, key: string)
    requires Increasing(rs)
    ensures key in AsMap(rs) <==> At(rs, key) != []
    ensures key in AsMap(rs) ==> At(rs, key) == [AsMap(rs)[key]]
  {
    var a, mid, c := rs[..LowerBound(rs, key)], At(rs, key), rs[After(rs, key)..];
    Parts(rs, key);
    hide KeyOf, Less, LowerBound, AsMap, Increasing, AllBelow, AllAbove, HasKey, At, After;
    JoinMap(a, mid, c, key);
  }

  lemma IncreasingIsNonDecreasing(rs: seq<string>)
    requires Increasing(rs)
    ensures NonDecreasing(rs)
  {
    hide KeyOf, Less;
    forall i, j | 0 <= i < j < |rs| ensures !Less(KeyOf(rs[j]), KeyOf(rs[i])) {
      if Less(KeyOf(rs[j]), KeyOf(rs[i])) {
        LessTransitive(KeyOf(rs[i]), KeyOf(rs[j]), KeyOf(rs[i]));
        LessIrreflexive(KeyOf(rs[i]));
      }
    }
  }

  /** The records after the one with `key` is replaced, put in, or taken out. */
  function Spliced(rs: seq<string>, key: string, put: seq<string>): seq<string> {
    rs[..LowerBound(rs, key)] + put + rs[After(rs, key)..]
  }

  lemma SplicedMap(rs: seq<string>, key: string, put: seq<string>)
    requires Increasing(rs) && |put| <= 1 && HasKey(put, key)
    ensures Increasing(Spliced(rs, key, put))
    ensures AsMap(Spliced(rs, key, put)) == if put == [] then AsMap(rs) - {key} else AsMap(rs)[key := put[0]]
  {
    var a, mid, c := rs[..LowerBound(rs, key)], At(rs, key), rs[After(rs, key)..];
    Parts(rs, key);
    hide KeyOf, Less, LowerBound, AsMap, Increasing, AllBelow, AllAbove, HasKey, At, After;
    JoinIncreasing(a, put, c, key);
    JoinMap(a, mid, c, key);
    JoinMap(a, put, c, key);
    if put == [] {
      MapWithout(AsMap(a), AsMap(c), key, if mid == [] then map[] else map[key := mid[0]]);
    } else {
      MapWith(AsMap(a), AsMap(c), key, if mid == [] then map[] else map[key := mid[0]], put[0]);
    }
  }

  lemma MapWith<K, V>(a: map<K, V>, c: map<K, V>, key: K, mid: map<K, V>, value: V)
    requires key !in a && mid.Keys <= {key}
    ensures (c + map[key := value]) + a == ((c + mid) + a)[key := value]
  {
  }

  lemma MapWithout<K, V>(a: map<K, V>, c: map<K, V>, key: K, mid: map<K, V>)
    requires key !in a && key !in c && mid.Keys <= {key}
    ensures (c + map[]) + a == ((c + mid) + a) - {key}
  {
  }

  lemma SplicedGood(rs: seq<string>, key: string, put: seq<string>)
    requires Good(rs) && LowerBound(rs, key) > 0
    requires |put| <= 1 && forall i :: 0 <= i < |put| ==> IsRecord(put[i])
    ensures Good(Spliced(rs, key, put)) && Spliced(rs, key, put) != [] && Spliced(rs, key, put)[0] == rs[0]
  {
    hide LowerBound, Records, KeyOf, After;
    var i, k, all := LowerBound(rs, key), After(rs, key), Spliced(rs, key, put);
    var n := i + |put|;
    forall j | 0 <= j < |all|
      ensures EndsLine(all[j]) && Records(all[j]) == [all[j]] && (0 < j ==> HEADING <= all[j])
    {
      assert all[j] == if j < i then rs[j] else if j < n then put[j - i] else rs[j - n + k];
    }
  }

  /** The buffer after the record of a heading is replaced, put in, or taken out. */
  function SplicedText(buf: string, heading: string, put: string): string {
    var rs, key := Records(buf), HEADING + heading;
    Concat(Spliced(rs, key, if put == "" then [] else [put]))
  }

  /** Splicing a record keeps the file well formed and changes the map at its heading only. */
  lemma SpliceFile(buf: string, heading: string, put: string)
    requires WellFormed(buf) && (put == "" || (IsRecord(put) && KeyOf(put) == HEADING + heading))
    ensures var after, map0 := SplicedText(buf, heading, put), AsMap(Records(buf));
      && WellFormed(after)
      && AsMap(Records(after)) == if put == "" then map0 - {HEADING + heading} else map0[HEADING + heading := put]
  {
    var rs, key := Records(buf), HEADING + heading;
    var list := if put == "" then [] else [put];
    FirstIsBelow(buf, heading);
    GoodRecords(buf);
    HeadingOfFirst(buf);
    hide KeyOf, Less, AsMap, LowerBound, Records, IsRecord, Good, Increasing, Spliced;
    SplicedMap(rs, key, list);
    SplicedGood(rs, key, list);
    RecordsOfConcat(Spliced(rs, key, list));
  }

  /** The byte offsets of a splice cut the buffer into the three parts. */
  lemma SpliceOffsets(buf: string, key: string)
    ensures var rs := Records(buf);
      var p, n := Offset(rs, LowerBound(rs, key)), |Concat(At(rs, key))|;
      && p + n <= |buf| && buf[..p] == Concat(rs[..LowerBound(rs, key)])
      && buf[p + n..] == Concat(rs[After(rs, key)..])
  {
    var rs := Records(buf);
    var i, k := LowerBound(rs, key), After(rs, key);
    hide KeyOf, LowerBound, Records, Offset, After, Concat;
    RecordsConcatenate(buf);
    OffsetIsLength(rs, i);
    ConcatParts(rs, i, k, rs[i..k]);
    CutInThree(rs, i, k);
    CutText(buf, Concat(rs[..i]), Concat(rs[i..k]), Concat(rs[k..]));
  }

  lemma SpliceText(buf: string, heading: string, put: string)
    ensures var rs, key := Records(buf), HEADING + heading;
      SplicedText(buf, heading, put) == Concat(rs[..LowerBound(rs, key)]) + put + Concat(rs[After(rs, key)..])
  {
    var rs, key := Records(buf), HEADING + heading;
    hide KeyOf, LowerBound, Records, After;
    ConcatSingle(put);
    ConcatParts(rs, LowerBound(rs, key), After(rs, key), if put == "" then [] else [put]);
  }

  lemma ConcatParts(rs: seq<string>, i: nat, k: nat, mid: seq<string>)
    requires i <= k <= |rs|
    ensures Concat(rs[..i] + mid + rs[k..]) == Concat(rs[..i]) + Concat(mid) + Concat(rs[k..])
  {
    hide Concat;
    ConcatAppend(rs[..i] + mid, rs[k..]);
    ConcatAppend(rs[..i], mid);
  }

  lemma CutText(buf: string, a: string, m: string, c: string)
    requires buf == a + m + c
    ensures var p, q := |a|, |a| + |m|;
      p <= q <= |buf| && buf[p..q] == m && buf[..p] == a && buf[q..] == c
  {
  }

  lemma ConcatSingle(s: string)
    ensures Concat([s]) == s && Concat([]) == ""
  {
    assert [s][1..] == [] && s + "" == s;
  }

  lemma HeadingOfFirst(buf: string)
    requires EndsLine(buf) && !(HEADING <= buf)
    ensures Records(buf) != [] && !(HEADING <= Records(buf)[0])
  {
    hide Records;
    GoodRecords(buf);
  }

  lemma FirstIsBelow(buf: string, heading: string)
    requires EndsLine(buf) && !(HEADING <= buf)
    ensures LowerBound(Records(buf), HEADING + heading) > 0
  {
    HeadingOfFirst(buf);
    hide Records;
  }

  // ----- the text of one record

  lemma {:induction false} TailGrows(a: string, s: string)
    requires (a == "" || EndsLine(a)) && TailLength(a) == |a|
    ensures TailLength(a + s) == |a| + TailLength(s)
    decreases |a|
  {
    hide Chunk, AfterLine, TailLength;
    if a == "" {
      assert a + s == s;
    } else {
      TailStep(a);
      TailStep(a + s);
      HeadingAppend(a, s);
      ChunkAppend(a, s);
      ChunkThenRest(a, 0);
      TailGrows(AfterLine(a), s);
    }
  }

  /** A text belongs to the record before it exactly when none of its lines is a heading. */
  lemma {:induction false} TailIsAll(s: string)
    requires s == "" || EndsLine(s)
    ensures TailLength(s) == |s| <==> NoHeading(Lines(s))
    decreases |s|
  {
    hide Chunk, AfterLine, TailLength, Lines, FirstLine;
    if s == "" {
      LinesOfNothing();
    } else {
      var rest := AfterLine(s);
      TailStep(s);
      LinesStep(s);
      ChunkAppend(s, "");
      ChunkThenRest(s, 0);
      TailIsAll(rest);
      HeadingOfLine(s);
      NoHeadingCons(FirstLine(s), Lines(rest));
    }
  }

  lemma NoHeadingCons(line: string, lines: seq<string>)
    ensures NoHeading([line] + lines) <==> !(HEADING <= line) && NoHeading(lines)
  {
    var all := [line] + lines;
    assert all[0] == line && forall i :: 0 <= i < |lines| ==> all[i + 1] == lines[i];
  }

  lemma GrownLength(head: string, s: string)
    requires IsRecord(head)
    ensures RecordLength(head + s) == |head| + TailLength(s)
  {
    WholeRecord(head);
    hide Chunk, AfterLine, TailLength, Records, FirstLine;
    ChunkAppend(head, s);
    ChunkThenRest(head, 0);
    TailGrows(AfterLine(head), s);
  }

  lemma RecordsOfWhole(s: string)
    requires s != ""
    ensures Records(s) != [] && Records(s)[0] == s[..RecordLength(s)]
    ensures Records(s) == [s] <==> RecordLength(s) == |s|
  {
    hide RecordLength, Records;
    RecordsStep(s);
    RecordsOfNothing();
    var n := RecordLength(s);
    if n == |s| {
      assert s[..n] == s && s[n..] == "";
    } else {
      assert |s[..n]| < |s| && Records(s)[0] == s[..n];
    }
  }

  /** More lines after a record make one longer record exactly when none is a heading. */
  lemma RecordGrows(head: string, s: string)
    requires IsRecord(head) && (s == "" || EndsLine(s))
    ensures IsRecord(head + s) <==> NoHeading(Lines(s))
    ensures KeyOf(head + s) == KeyOf(head)
  {
    hide Chunk, AfterLine, TailLength, RecordLength, Lines, Records, KeyOf, FirstLine;
    HeadingAppend(head, s);
    TailIsAll(s);
    JoinEndsLine(head, s);
    SameKey(head, s);
    GrownLength(head, s);
    RecordsOfWhole(head + s);
  }

  lemma WholeRecord(head: string)
    requires head != "" && Records(head) == [head]
    ensures RecordLength(head) == |head|
  {
    hide RecordLength, Records;
    RecordsStep(head);
    assert Records(head)[0] == head[..RecordLength(head)];
  }

  lemma SameKey(head: string, s: string)
    requires EndsLine(head)
    ensures KeyOf(head + s) == KeyOf(head)
  {
    HeadingAppend(head, s);
    ChunkAppend(head, "");
    hide FirstLine;
    assert (head + s)[..|head|] == head;
    SameFirstLine(head + s, |head|) by { ChunkAppend(head, s); }
  }

  /** The heading line of a new record. */
  lemma HeadingRecord(heading: string)
    requires '\n' !in heading
    ensures var head := HEADING + heading + "\n";
      IsRecord(head) && KeyOf(head) == HEADING + heading && Chunk(head) == head
  {
    var head := HEADING + heading + "\n";
    assert '\n' !in HEADING + heading;
    FirstLineIs(HEADING + heading, "");
    assert head + "" == head;
    hide FirstLine;
    assert head[0] == '#' && head[1] == '#' && head[2] == ' ';
    assert AfterLine(head) == "" && TailLength("") == 0;
    RecordsStep(head);
    RecordsOfNothing();
    assert head[..|head|] == head && head[|head|..] == "";
  }

  /** A record is its heading line and its body. */
  lemma RecordParts(record: string)
    requires IsRecord(record)
    ensures record == Chunk(record) + AfterLine(record)
    ensures IsRecord(Chunk(record)) && KeyOf(Chunk(record)) == KeyOf(record)
    ensures AfterLine(record) == "" || EndsLine(AfterLine(record))
    ensures NoHeading(Lines(AfterLine(record)))
  {
    var head, body := Chunk(record), AfterLine(record);
    ChunkThenRest(record, 0);
    ChunkAppend(record, "");
    hide Chunk, AfterLine, TailLength, Lines, FirstLine, RecordLength, Records, KeyOf;
    HeadOfRecord(record);
    SameKey(head, body);
    RecordGrows(head, body);
  }

  lemma HeadOfRecord(record: string)
    requires HEADING <= record && EndsLine(record)
    ensures IsRecord(Chunk(record))
  {
    var line := FirstLine(record);
    HeadingOfLine(record);
    ChunkAppend(record, "");
    var heading := line[|HEADING|..];
    assert line == HEADING + heading && Chunk(record) == HEADING + heading + "\n";
    HeadingRecord(heading);
  }

  // ----- the commands

  /** A text put at a heading that is more than one record leaves another record there. */
  lemma SpliceBroken(buf: string, heading: string, put: string)
    requires WellFormed(buf) && HEADING <= put && EndsLine(put) && KeyOf(put) == HEADING + heading
    requires !IsRecord(put)
    ensures var map1 := AsMap(Records(SplicedText(buf, heading, put)));
      HEADING + heading in map1 && map1[HEADING + heading] != put
  {
    var rs, key, ps := Records(buf), HEADING + heading, Records(put);
    var a, c := rs[..LowerBound(rs, key)], rs[After(rs, key)..];
    SpliceText(buf, heading, put);
    RecordsConcatenate(put);
    RecordsOfWhole(put);
    RecordOpens(put);
    FirstRecordKey(put);
    GoodRecords(put);
    GoodRecords(buf);
    FirstIsBelow(buf, heading);
    Parts(rs, key);
    hide KeyOf, Less, AsMap, LowerBound, Records, Increasing, AllBelow, AllAbove, At, After, Concat, RecordLength;
    GoodJoin(rs, LowerBound(rs, key), ps, After(rs, key));
    RecordsOfConcat(a + ps + c);
    ConcatParts(rs, LowerBound(rs, key), After(rs, key), ps);
    JoinMap(a, [], c, key);
    AsMapConcat(a + ps, c);
    AsMapConcat(a, ps);
    AsMapFirst(ps);
  }

  lemma AsMapFirst(rs: seq<string>)
    requires rs != []
    ensures KeyOf(rs[0]) in AsMap(rs) && AsMap(rs)[KeyOf(rs[0])] == rs[0]
  {
  }

  lemma FirstRecordKey(put: string)
    requires EndsLine(put)
    ensures Records(put) != [] && KeyOf(Records(put)[0]) == KeyOf(put)
  {
    hide RecordLength, Records, KeyOf;
    var n := RecordLength(put);
    RecordsStep(put);
    RecordEndsLine(put);
    assert put == put[..n] + put[n..];
    SameKey(put[..n], put[n..]);
  }

  lemma GoodJoin(rs: seq<string>, i: nat, ps: seq<string>, k: nat)
    requires Good(rs) && Good(ps) && 0 < i <= k <= |rs| && ps != [] && HEADING <= ps[0]
    ensures Good(rs[..i] + ps + rs[k..])
  {
    hide Records;
    var all, n := rs[..i] + ps + rs[k..], i + |ps|;
    forall j | 0 <= j < |all|
      ensures EndsLine(all[j]) && Records(all[j]) == [all[j]] && (0 < j ==> HEADING <= all[j])
    {
      assert all[j] == if j < i then rs[j] else if j < n then ps[j - i] else rs[j - n + k];
    }
  }

  /** The record after a note is written: the old one, or a new heading, and the text. */
  function Written(notes: map<string, string>, heading: string, noteText: string): string {
    var key := HEADING + heading;
    (if key in notes then notes[key] else key + "\n") + (noteText + "\n")
  }

  lemma GoodAt(rs: seq<string>, i: nat)
    requires Good(rs) && 0 < i < |rs|
    ensures IsRecord(rs[i])
  {
    hide Records;
  }

  lemma AtIs(rs: seq<string>, key: string)
    requires At(rs, key) != []
    ensures var i := LowerBound(rs, key); i < |rs| && At(rs, key) == [rs[i]] && KeyOf(rs[i]) == key
  {
    hide KeyOf, LowerBound;
  }

  lemma RecordInMap(buf: string, heading: string)
    requires WellFormed(buf) && HEADING + heading in AsMap(Records(buf))
    ensures var r := AsMap(Records(buf))[HEADING + heading]; IsRecord(r) && KeyOf(r) == HEADING + heading
  {
    var rs, key := Records(buf), HEADING + heading;
    FirstIsBelow(buf, heading);
    GoodRecords(buf);
    hide KeyOf, Less, AsMap, Increasing, LowerBound, Records, Good, IsRecord, At, After;
    Lookup(rs, key);
    AtIs(rs, key);
    GoodAt(rs, LowerBound(rs, key));
  }

  lemma WrittenRecord(buf: string, heading: string, noteText: string)
    requires WellFormed(buf) && '\n' !in heading
    ensures var put := Written(AsMap(Records(buf)), heading, noteText);
      && HEADING <= put && EndsLine(put) && KeyOf(put) == HEADING + heading
      && (IsRecord(put) <==> NoHeading(Lines(noteText + "\n")))
  {
    var notes, key := AsMap(Records(buf)), HEADING + heading;
    var head := if key in notes then notes[key] else key + "\n";
    HeadingRecord(heading);
    if key in notes { RecordInMap(buf, heading); }
    hide KeyOf, AsMap, Records, Lines, Chunk;
    RecordGrows(head, noteText + "\n");
    JoinEndsLine(head, noteText + "\n");
    HeadingAppend(head, noteText + "\n");
  }

  /** Writing a note keeps the file well formed, and updates the record of its heading and
      no other, exactly when no line of the text looks like a heading. */
  lemma WriteFile(buf: string, heading: string, noteText: string)
    requires WellFormed(buf) && '\n' !in heading
    ensures var notes := AsMap(Records(buf)); var put := Written(notes, heading, noteText);
      var after := SplicedText(buf, heading, put);
      && (NoHeading(Lines(noteText + "\n")) ==> WellFormed(after))
      && (AsMap(Records(after)) == notes[HEADING + heading := put] <==> NoHeading(Lines(noteText + "\n")))
  {
    var put := Written(AsMap(Records(buf)), heading, noteText);
    WrittenRecord(buf, heading, noteText);
    hide KeyOf, AsMap, Records, Lines, SplicedText, Written;
    if IsRecord(put) {
      SpliceFile(buf, heading, put);
    } else {
      SpliceBroken(buf, heading, put);
    }
  }

  function BodyLines(record: string): seq<string> {
    if record == "" then [] else Lines(AfterLine(record))
  }

  /** The record with its body replaced by `lines`. */
  function Edited(record: string, lines: seq<string>): string {
    (if record == "" then "" else Chunk(record)) + Unlines(lines)
  }

  predicate OneLine(s: string) { '\n' !in s }

  /** A line that opens no heading when it is written out, although it may hold newlines. */
  ghost predicate Harmless(line: string) { NoHeading(Lines(line + "\n")) }

  ghost predicate AllHarmless(lines: seq<string>) { forall i :: 0 <= i < |lines| ==> Harmless(lines[i]) }

  ghost predicate AllOneLine(lines: seq<string>) { forall i :: 0 <= i < |lines| ==> OneLine(lines[i]) }

  /** Lines written out one after the other hold a heading exactly when one of them does. */
  lemma {:induction false} WrittenOut(lines: seq<string>)
    ensures NoHeading(Lines(Unlines(lines))) <==> AllHarmless(lines)
    ensures AllOneLine(lines) ==> Lines(Unlines(lines)) == lines
    decreases |lines|
  {
    hide Harmless, OneLine, Lines, Unlines, NoHeading;
    if lines == [] {
      assert Lines(Unlines([])) == [] by { LinesOfNothing(); NothingWritten(); }
      NoHeadingAtAll();
    } else {
      WrittenOut(lines[1..]);
      var head, rest := lines[0] + "\n", Unlines(lines[1..]);
      UnlinesStep(lines);
      LinesConcat(head, rest) by { UnlinesEndLine(lines[1..]); }
      NoHeadingJoin(Lines(head), Lines(rest));
      HarmlessIs(lines[0]);
      assert AllHarmless(lines) <==> Harmless(lines[0]) && AllHarmless(lines[1..]);
      if AllOneLine(lines) {
        assert OneLine(lines[0]) && AllOneLine(lines[1..]);
        LinesOfOne(lines[0]);
        assert [lines[0]] + lines[1..] == lines;
      }
    }
  }

  lemma NothingWritten()
    ensures Unlines([]) == ""
  {
  }

  lemma NoHeadingAtAll()
    ensures NoHeading([])
  {
  }

  lemma HarmlessIs(line: string)
    ensures Harmless(line) <==> NoHeading(Lines(line + "\n"))
  {
    hide Lines;
  }

  lemma UnlinesStep(lines: seq<string>)
    requires lines != []
    ensures Unlines(lines) == lines[0] + "\n" + Unlines(lines[1..])
  {
  }

  lemma LinesOfOne(line: string)
    requires OneLine(line)
    ensures Lines(line + "\n") == [line]
  {
    LinesOfUnlines([line]);
    assert [line][1..] == [] && Unlines([line]) == line + "\n" + Unlines([]);
    assert line + "\n" + "" == line + "\n";
  }

  lemma NoHeadingJoin(a: seq<string>, b: seq<string>)
    ensures NoHeading(a + b) <==> NoHeading(a) && NoHeading(b)
  {
    var all := a + b;
    assert forall i :: 0 <= i < |a| ==> all[i] == a[i];
    assert forall i :: 0 <= i < |b| ==> all[|a| + i] == b[i];
  }

  /** Text after a whole line is read as lines of its own. */
  lemma {:induction false} LinesConcat(a: string, b: string)
    requires a == "" || EndsLine(a)
    ensures Lines(a + b) == Lines(a) + Lines(b)
    decreases |a|
  {
    hide Lines, FirstLine, Chunk, AfterLine, EndsLine;
    if a == "" {
      LinesOfNothing();
      assert a + b == b && [] + Lines(b) == Lines(b);
    } else {
      ChunkAppend(a, b);
      NotEmptyLine(a);
      LinesStep(a);
      LinesStep(a + b);
      SameFirst(a, b);
      LinesConcat(AfterLine(a), b);
      assert [FirstLine(a)] + (Lines(AfterLine(a)) + Lines(b)) == [FirstLine(a)] + Lines(AfterLine(a)) + Lines(b);
    }
  }

  lemma SameFirst(a: string, b: string)
    requires EndsLine(a)
    ensures FirstLine(a + b) == FirstLine(a)
  {
    hide FirstLine;
    assert (a + b)[..|a|] == a;
    ChunkAppend(a, b);
    ChunkIsLine(a);
    SameFirstLine(a + b, |a|);
  }

  /** The lines of the text come after those that the record has, under the heading. */
  lemma WrittenLines(buf: string, heading: string, noteText: string)
    requires WellFormed(buf) && OneLine(heading)
    ensures var notes, key := AsMap(Records(buf)), HEADING + heading;
      var put := Written(notes, heading, noteText);
      && FirstLine(put) == key
      && BodyLines(put) == (if key in notes then BodyLines(notes[key]) else []) + Lines(noteText + "\n")
  {
    var notes, key := AsMap(Records(buf)), HEADING + heading;
    HeadingRecord(heading);
    NewBody(key);
    if key in notes { RecordInMap(buf, heading); }
    hide AsMap, Records, WellFormed, BodyLines, FirstLine, Lines, Chunk;
    if key in notes {
      AppendedLines(notes[key], noteText + "\n");
    } else {
      AppendedLines(key + "\n", noteText + "\n");
      assert [] + Lines(noteText + "\n") == Lines(noteText + "\n");
    }
  }

  lemma NewBody(key: string)
    requires OneLine(key)
    ensures BodyLines(key + "\n") == [] && FirstLine(key + "\n") == key && EndsLine(key + "\n")
  {
    FirstLineIs(key, "");
    assert key + "\n" + "" == key + "\n";
    hide FirstLine;
    LinesOfNothing();
    assert AfterLine(key + "\n") == "";
  }

  lemma AppendedLines(head: string, text: string)
    requires EndsLine(head)
    ensures FirstLine(head + text) == FirstLine(head)
    ensures BodyLines(head + text) == BodyLines(head) + Lines(text)
  {
    hide Lines, FirstLine, Chunk;
    SameFirst(head, text);
    ChunkAppend(head, text);
    LinesConcat(AfterLine(head), text);
  }

  /** Replacing the body of a record changes that record only, and keeps the file well formed,
      exactly when the new lines open no heading; they are read back as they are when each is
      one line. */
  lemma EditFile(buf: string, heading: string, lines: seq<string>)
    requires WellFormed(buf) && HEADING + heading in AsMap(Records(buf))
    ensures var notes := AsMap(Records(buf)); var put := Edited(notes[HEADING + heading], lines);
      var after := SplicedText(buf, heading, put);
      && (AllHarmless(lines) ==> WellFormed(after))
      && (AsMap(Records(after)) == notes[HEADING + heading := put] <==> AllHarmless(lines))
      && BodyLines(put) == Lines(Unlines(lines))
      && (AllOneLine(lines) ==> BodyLines(put) == lines)
  {
    var notes, key := AsMap(Records(buf)), HEADING + heading;
    var put := Edited(notes[key], lines);
    RecordInMap(buf, heading);
    EditedRecord(notes[key], lines);
    WrittenOut(lines);
    hide KeyOf, AsMap, Records, BodyLines, SplicedText, Edited, AllHarmless, AllOneLine, Lines, Unlines, EndsLine;
    if IsRecord(put) {
      SpliceFile(buf, heading, put);
    } else {
      SpliceBroken(buf, heading, put);
    }
  }

  lemma EditedRecord(record: string, lines: seq<string>)
    requires IsRecord(record)
    ensures var put := Edited(record, lines);
      && HEADING <= put && EndsLine(put) && KeyOf(put) == KeyOf(record)
      && BodyLines(put) == Lines(Unlines(lines))
      && (IsRecord(put) <==> AllHarmless(lines))
  {
    var head, body := Chunk(record), Unlines(lines);
    RecordParts(record);
    HeadIsChunk(record, body);
    WrittenOut(lines);
    UnlinesEndLine(lines);
    HeadingAppend(head, body);
    JoinEndsLine(head, body);
    hide KeyOf, Records, Lines, Chunk, AfterLine, Unlines, NoHeading, AllHarmless, AllOneLine;
    RecordGrows(head, body);
  }

  lemma HeadIsChunk(record: string, body: string)
    requires EndsLine(record)
    ensures Chunk(record) + body != "" && AfterLine(Chunk(record) + body) == body
  {
    ChunkAppend(record, "");
    var head := Chunk(record);
    var line := FirstLine(record);
    hide Chunk, AfterLine;
    assert head == line + "\n" by { hide FirstLine; ChunkIsLine(record); }
    FirstLineIs(line, "");
    assert head + "" == head;
    ChunkAppend(head, body);
    ChunkThenRest(head, 0);
    assert AfterLine(head) == "" && "" + body == body;
  }

  lemma ChunkIsLine(s: string)
    requires EndsLine(s)
    ensures Chunk(s) == FirstLine(s) + "\n"
  {
    hide FirstLine;
    var line := FirstLine(s);
    assert forall i :: 0 <= i < |line| ==> line[i] == s[i];
    assert s[|s| - 1] == '\n';
  }

  lemma {:induction false} UnlinesEndLine(lines: seq<string>)
    ensures Unlines(lines) == "" || EndsLine(Unlines(lines))
  {
    if lines != [] { UnlinesEndLine(lines[1..]); }
  }

  datatype Reply = Done | NoteNotFound | Refused(error: NoteLines.Error)

  /** What an edit of the lines of one record does to the file: a refusal leaves it alone, and
      success is the intended update of the map exactly when the new lines open no heading. */
  ghost predicate EditOutcome(before: string, after: string, heading: string,
                              edit: seq<string> -> NoteLines.Result<seq<string>>, r: Reply) {
    var notes, key := AsMap(Records(before)), HEADING + heading;
    if key !in notes then r == NoteNotFound && after == before
    else
      match edit(BodyLines(notes[key]))
      case Err(e) => r == Refused(e) && after == before
      case Ok(lines) =>
        && r == Done
        && (AllHarmless(lines) ==> WellFormed(after))
        && (AsMap(Records(after)) == notes[key := Edited(notes[key], lines)] <==> AllHarmless(lines))
        && BodyLines(Edited(notes[key], lines)) == Lines(Unlines(lines))
        && (AllOneLine(lines) ==> BodyLines(Edited(notes[key], lines)) == lines)
  }

  /** The edited lines are the body of the record of the heading, and no other record changes. */
  ghost predicate Becomes(before: string, after: string, heading: string, lines: seq<string>) {
    var notes, notes', key := AsMap(Records(before)), AsMap(Records(after)), HEADING + heading;
    key in notes' && BodyLines(notes'[key]) == lines && notes' == notes[key := notes'[key]]
  }

  /** An edit of the lines as it shows in the file. */
  ghost predicate Carried(before: string, after: string, heading: string, edit: NoteLines.Result<seq<string>>, r: Reply) {
    match edit
    case Err(e) => r == Refused(e) && after == before
    case Ok(lines) => r == Done && (AllHarmless(lines) && AllOneLine(lines) ==> Becomes(before, after, heading, lines))
  }

  ghost predicate Noted(text: string, heading: string) {
    WellFormed(text) && HEADING + heading in AsMap(Records(text))
  }

  function BodyOf(text: string, heading: string): seq<string>
    requires HEADING + heading in AsMap(Records(text))
  {
    BodyLines(AsMap(Records(text))[HEADING + heading])
  }

  lemma OutcomeIsCarried(before: string, after: string, heading: string, edit: NoteLines.Result<seq<string>>, r: Reply)
    requires Noted(before, heading) && EditOutcome(before, after, heading, _ => edit, r)
    ensures Carried(before, after, heading, edit, r)
  {
    hide AsMap, Records, WellFormed, AllHarmless, AllOneLine, BodyLines, Edited;
  }

  class Note {
    var text: string

    constructor (text: string)
      ensures this.text == text
    {
      this.text := text;
    }

    /** Finds the record of a heading, as every form of the command does first. */
    method Find(heading: string) returns (pos: nat, found: bool, old': string)
      ensures pos + |old'| <= |text|
      ensures WellFormed(text) ==> FoundAt(text, heading, pos, found, old')
    {
      hide WellFormed, KeyAt, LowerBound, Records, Offset, FoundAt, KeyPoint, KeyOf, RecordLength;
      pos, found := FindLowerbound(text, heading);
      old' := "";
      if found {
        var r := ReadRecord(text, pos);
        old' := r.value;
      }
      if WellFormed(text) {
        WellFormedIsNonDecreasing(text);
        SearchFinds(text, heading, pos, found, old');
      }
    }

    /** Shows the record of a heading. */
    method Show(heading: string) returns (r: Option<string>)
      ensures WellFormed(text) ==>
        var notes, key := AsMap(Records(text)), HEADING + heading;
        r == if key in notes then Some(notes[key]) else None
    {
      hide WellFormed, AsMap, Records, LowerBound, After, Concat;
      var pos, found, record := Find(heading);
      r := if found then Some(record) else None;
    }

    method Replace(pos: nat, length: nat, put: string)
      requires pos + length <= |text|
      modifies this
      ensures text == old(text[..pos] + put + text[pos + length..])
    {
      text := text[..pos] + put + text[pos + length..];
    }

    /** Writes a note: a new record, or more lines at the end of the old one. */
    method Write(heading: string, noteText: string)
      modifies this
      ensures old(WellFormed(text)) && OneLine(heading) ==>
        var notes := old(AsMap(Records(text)));
        && (NoHeading(Lines(noteText + "\n")) ==> WellFormed(text))
        && (AsMap(Records(text)) == notes[HEADING + heading := Written(notes, heading, noteText)]
            <==> NoHeading(Lines(noteText + "\n")))
    {
      hide WellFormed, AsMap, Records, Lines, NoHeading, SplicedText, LowerBound, After, Concat;
      ghost var before := text;
      var pos, found, record := Find(heading);
      var put := record;
      if !found {
        put := HEADING + heading + "\n";
      } else if !EndsLine(record) {
        put := put + "\n";
      }
      put := put + (noteText + "\n");
      Replace(pos, |record|, put);
      if WellFormed(before) && OneLine(heading) {
        if found { RecordInMap(before, heading); }
        assert put == Written(AsMap(Records(before)), heading, noteText);
        ReplaceIsSplice(before, heading, pos, found, record, put);
        WriteFile(before, heading, noteText);
      }
    }

    /** Deletes the record of a heading. */
    method Delete(heading: string) returns (r: Reply)
      modifies this
      ensures old(WellFormed(text)) ==>
        && WellFormed(text)
        && AsMap(Records(text)) == old(AsMap(Records(text))) - {HEADING + heading}
        && (r == Done <==> HEADING + heading in old(AsMap(Records(text))))
        && (r != Done ==> r == NoteNotFound && text == old(text))
    {
      hide WellFormed, AsMap, Records, SplicedText, LowerBound, After, Concat;
      ghost var before := text;
      var pos, found, record := Find(heading);
      if !found { return NoteNotFound; }
      Replace(pos, |record|, "");
      r := Done;
      if WellFormed(before) {
        ReplaceIsSplice(before, heading, pos, found, record, "");
        SpliceFile(before, heading, "");
      }
    }

    /** Proves a conjecture of the note. */
    method Prove(heading: string, con: string, prf: string) returns (r: Reply)
      modifies this
      ensures old(WellFormed(text)) ==>
        EditOutcome(old(text), text, heading, lines => NoteLines.Promoted(lines, con, prf), r)
      ensures old(Noted(text, heading)) ==>
        exists edit :: NoteLines.Promotion(old(BodyOf(text, heading)), con, prf, edit) && Carried(old(text), text, heading, edit, r)
    {
      hide WellFormed, SplicedText, AsMap, Records, BodyLines, Edited, LowerBound, After, Concat, AllHarmless, AllOneLine, Lines, Unlines;
      ghost var before := text;
      var pos, found, record := Find(heading);
      if !found { return NoteNotFound; }
      var lines := ReadBody(record);
      assert Noted(text, heading) ==> lines == BodyOf(text, heading);
      var edit := NoteLines.Promote(lines, con, prf);
      if edit.Err? { return Refused(edit.error); }
      Replace(pos, |record|, Edited(record, edit.value));
      r := Done;
      if WellFormed(before) {
        ReplaceIsSplice(before, heading, pos, found, record, Edited(record, edit.value));
        EditFile(before, heading, edit.value);
        if found { OutcomeIsCarried(before, text, heading, edit, r); }
      }
    }

    /** Adds a premise to an open conjecture of the note. */
    method AddPremise(heading: string, con: string, func: string, pp: string) returns (r: Reply)
      modifies this
      ensures old(WellFormed(text)) ==>
        EditOutcome(old(text), text, heading, lines => NoteLines.PremiseAdded(lines, con, func, pp), r)
      ensures old(Noted(text, heading)) ==>
        exists edit :: NoteLines.Addition(old(BodyOf(text, heading)), con, func, pp, edit) && Carried(old(text), text, heading, edit, r)
    {
      hide WellFormed, SplicedText, AsMap, Records, BodyLines, Edited, LowerBound, After, Concat, AllHarmless, AllOneLine, Lines, Unlines;
      ghost var before := text;
      var pos, found, record := Find(heading);
      if !found { return NoteNotFound; }
      var lines := ReadBody(record);
      assert Noted(text, heading) ==> lines == BodyOf(text, heading);
      var edit := NoteLines.AddPremise(lines, con, func, pp);
      if edit.Err? { return Refused(edit.error); }
      Replace(pos, |record|, Edited(record, edit.value));
      r := Done;
      if WellFormed(before) {
        ReplaceIsSplice(before, heading, pos, found, record, Edited(record, edit.value));
        EditFile(before, heading, edit.value);
        if found { OutcomeIsCarried(before, text, heading, edit, r); }
      }
    }

    /** Removes a premise from an open conjecture of the note. */
    method RemovePremise(heading: string, con: string, func: string, pp: string) returns (r: Reply)
      modifies this
      ensures old(WellFormed(text)) ==>
        EditOutcome(old(text), text, heading, lines => NoteLines.PremiseRemoved(lines, con, func, pp), r)
      ensures old(Noted(text, heading)) ==>
        exists edit :: NoteLines.Removal(old(BodyOf(text, heading)), con, func, pp, edit) && Carried(old(text), text, heading, edit, r)
      // `-r` only takes lines away, so the file stays well formed.
      ensures old(WellFormed(text)) ==> WellFormed(text)
    {
      hide WellFormed, SplicedText, AsMap, Records, BodyLines, Edited, LowerBound, After, Concat, AllHarmless, AllOneLine, Lines, Unlines;
      ghost var before := text;
      var pos, found, record := Find(heading);
      if !found { return NoteNotFound; }
      var lines := ReadBody(record);
      assert Noted(text, heading) ==> lines == BodyOf(text, heading);
      var edit := NoteLines.RemovePremise(lines, con, func, pp);
      if edit.Err? { return Refused(edit.error); }
      Replace(pos, |record|, Edited(record, edit.value));
      r := Done;
      if WellFormed(before) {
        RecordInMap(before, heading);
        OldLinesHarmless(record);
        RemovedIsHarmless(lines, con, func, pp);
        ReplaceIsSplice(before, heading, pos, found, record, Edited(record, edit.value));
        EditFile(before, heading, edit.value);
        if found { OutcomeIsCarried(before, text, heading, edit, r); }
      }
    }
  }

  method ReadBody(record: string) returns (lines: seq<string>)
    ensures lines == BodyLines(record)
  {
    lines := [];
    if record != "" { lines := SplitLines(AfterLine(record)); }
  }

  /** The record that a search for a heading yields. */
  ghost predicate FoundRecord(rs: seq<string>, key: string, found: bool, record: string) {
    && (found <==> key in AsMap(rs))
    && record == (if found then AsMap(rs)[key] else "")
    && At(rs, key) == (if found then [record] else [])
  }

  /** The offset that it yields, for a record of `length` characters. */
  ghost predicate CutAt(buf: string, key: string, pos: nat, length: nat) {
    var rs := Records(buf);
    && pos + length <= |buf|
    && buf[..pos] == Concat(rs[..LowerBound(rs, key)])
    && buf[pos + length..] == Concat(rs[After(rs, key)..])
  }

  ghost predicate FoundAt(buf: string, heading: string, pos: nat, found: bool, record: string) {
    FoundRecord(Records(buf), HEADING + heading, found, record) && CutAt(buf, HEADING + heading, pos, |record|)
  }

  lemma ReplaceIsSplice(buf: string, heading: string, pos: nat, found: bool, record: string, put: string)
    requires FoundAt(buf, heading, pos, found, record)
    ensures SplicedText(buf, heading, put) == buf[..pos] + put + buf[pos + |record|..]
  {
    hide AsMap, Records, LowerBound, After, SplicedText, Concat;
    SpliceText(buf, heading, put);
  }

  lemma WellFormedIsNonDecreasing(buf: string)
    requires WellFormed(buf)
    ensures NonDecreasing(Records(buf))
  {
    hide Records;
    IncreasingIsNonDecreasing(Records(buf));
  }

  lemma SearchFinds(buf: string, heading: string, pos: nat, found: bool, record: string)
    requires WellFormed(buf) && pos <= |buf|
    requires var rs, key := Records(buf), HEADING + heading; var i := LowerBound(rs, key);
      pos == Offset(rs, i) && (found <==> i < |rs| && KeyOf(rs[i]) == key)
    requires found ==> pos < |buf| && record == buf[pos..][..RecordLength(buf[pos..])]
    requires !found ==> record == ""
    ensures FoundAt(buf, heading, pos, found, record)
  {
    var rs, key := Records(buf), HEADING + heading;
    FirstIsBelow(buf, heading);
    FoundIffAt(rs, key);
    hide KeyOf, AsMap, Records, LowerBound, Offset, RecordLength, Increasing, Concat, After, At, CutAt;
    if found { RecordAtOffset(buf, LowerBound(rs, key)); }
    Lookup(rs, key);
    CutAtSearch(buf, key, record);
  }

  lemma CutAtSearch(buf: string, key: string, record: string)
    requires At(Records(buf), key) == if record == "" then [] else [record]
    ensures CutAt(buf, key, Offset(Records(buf), LowerBound(Records(buf), key)), |record|)
  {
    hide Records, LowerBound, Offset, Concat, After, At;
    ConcatSingle(record);
    SpliceOffsets(buf, key);
  }

  lemma FoundIffAt(rs: seq<string>, key: string)
    ensures var i := LowerBound(rs, key);
      if i < |rs| && KeyOf(rs[i]) == key then At(rs, key) == [rs[i]] else At(rs, key) == []
  {
    hide LowerBound, KeyOf;
  }

  lemma RecordAtOffset(buf: string, i: nat)
    requires EndsLine(buf) && 0 < i < |Records(buf)|
    ensures var rs := Records(buf); var p := Offset(rs, i);
      p < |buf| && buf[p..][..RecordLength(buf[p..])] == rs[i]
  {
    var rs := Records(buf);
    GoodRecords(buf);
    GoodTail(rs, i);
    hide Records, Offset, RecordLength, Good;
    SplitAtRecord(buf, i);
    RecordsOfConcat(rs[i..]);
    RecordsStep(buf[Offset(rs, i)..]);
  }

  lemma GoodTail(rs: seq<string>, i: nat)
    requires Good(rs) && i < |rs|
    ensures Good(rs[i..]) && rs[i..][0] == rs[i]
  {
    hide Records;
  }

  // ----- the edited lines are clean

  // ----- which edits open no heading

  /** The lines of a record open no heading. */
  lemma OldLinesHarmless(record: string)
    requires IsRecord(record)
    ensures AllHarmless(BodyLines(record)) && AllOneLine(BodyLines(record))
  {
    RecordParts(record);
    var lines := BodyLines(record);
    assert AllOneLine(lines) && NoHeading(lines);
    forall i | 0 <= i < |lines| ensures Harmless(lines[i]) {
      hide Lines, BodyLines;
      LinesOfOne(lines[i]);
    }
  }

  lemma InsertedIsHarmless(lines: seq<string>, at: nat, added: seq<string>)
    requires at <= |lines|
    ensures AllHarmless(NoteLines.Inserted(lines, at, added)) <==> AllHarmless(lines) && AllHarmless(added)
    ensures AllOneLine(NoteLines.Inserted(lines, at, added)) <==> AllOneLine(lines) && AllOneLine(added)
  {
    hide Harmless, OneLine;
    var all := NoteLines.Inserted(lines, at, added);
    assert forall i :: 0 <= i < at ==> all[i] == lines[i];
    assert forall i :: 0 <= i < |added| ==> all[at + i] == added[i];
    assert forall i :: at <= i < |lines| ==> all[|added| + i] == lines[i];
  }

  /** Proving a conjecture opens a heading only through the text of the proof. */
  lemma PromotedIsHarmless(lines: seq<string>, con: string, prf: string)
    requires AllHarmless(lines) && AllOneLine(lines) && NoteLines.Promoted(lines, con, prf).Ok?
    ensures AllHarmless(NoteLines.Promoted(lines, con, prf).value) <==> Harmless(NoteLines.ProofLine(prf))
    ensures AllOneLine(NoteLines.Promoted(lines, con, prf).value) <==> OneLine(prf)
  {
    hide Harmless, NoteLines.IndexOf, NoteLines.RunEnd, Lines;
    var c := NoteLines.IndexOf(lines, NoteLines.ConjectureLine(con), 0, |lines|);
    var theorem, proof := NoteLines.TheoremLine(con), NoteLines.ProofLine(prf);
    assert OneLine(lines[c]) && lines[c][14..] == con;
    assert OneLine(theorem) && !(HEADING <= theorem) by { assert theorem[0] == '-'; }
    assert OneLine(proof) <==> OneLine(prf) by { assert proof[11..] == prf; }
    OneLineHarmless(theorem);
    hide OneLine, NoteLines.TheoremLine, NoteLines.ProofLine, NoteLines.ConjectureLine;
    var marked := lines[c := theorem];
    assert AllHarmless(marked) && AllOneLine(marked);
    InsertedIsHarmless(marked, NoteLines.RunEnd(lines, c + 1), [proof]);
    assert AllHarmless([proof]) <==> Harmless([proof][0]);
    assert AllOneLine([proof]) <==> OneLine([proof][0]);
  }

  lemma OneLineHarmless(line: string)
    requires OneLine(line)
    ensures Harmless(line) <==> !(HEADING <= line)
  {
    LinesOfOne(line);
    hide Lines;
    assert Lines(line + "\n")[0] == line;
  }

  lemma ProofIsHarmless(prf: string)
    requires OneLine(prf)
    ensures Harmless(NoteLines.ProofLine(prf))
  {
    var proof := NoteLines.ProofLine(prf);
    assert OneLine(proof) && !(HEADING <= proof) by { assert proof[0] == ' '; }
    OneLineHarmless(proof);
  }

  /** Adding a premise opens a heading only through the names of the group and the premise. */
  lemma AddedIsHarmless(lines: seq<string>, con: string, func: string, pp: string)
    requires AllHarmless(lines) && AllOneLine(lines) && NoteLines.PremiseAdded(lines, con, func, pp).Ok?
    ensures AllHarmless(NoteLines.PremiseAdded(lines, con, func, pp).value)
      <==> Harmless(NoteLines.WhenLine(func)) && Harmless(NoteLines.ChildLine(pp))
    ensures AllOneLine(NoteLines.PremiseAdded(lines, con, func, pp).value)
      <==> OneLine(NoteLines.WhenLine(func)) && OneLine(NoteLines.ChildLine(pp))
  {
    hide Harmless, OneLine, AllHarmless, AllOneLine, NoteLines.WhenLine, NoteLines.ChildLine, NoteLines.IndexOf, NoteLines.RunEnd,
         NoteLines.OpenConjecture, NoteLines.Inserted;
    var when, child := NoteLines.WhenLine(func), NoteLines.ChildLine(pp);
    var c := NoteLines.OpenConjecture(lines, con).value;
    var w := NoteLines.IndexOf(lines, when, c + 1, |lines|);
    ListsOf(when, child);
    if w < |lines| {
      InsertedIsHarmless(lines, NoteLines.RunEnd(lines, w + 1), [child]);
      LineOf(lines, w);
    } else {
      InsertedIsHarmless(lines, NoteLines.RunEnd(lines, c + 1), [when, child]);
    }
  }

  lemma ListsOf(a: string, b: string)
    ensures AllHarmless([b]) <==> Harmless(b)
    ensures AllHarmless([a, b]) <==> Harmless(a) && Harmless(b)
    ensures AllOneLine([b]) <==> OneLine(b)
    ensures AllOneLine([a, b]) <==> OneLine(a) && OneLine(b)
  {
    hide Harmless, OneLine;
    assert [b][0] == b && [a, b][0] == a && [a, b][1] == b;
  }

  lemma LineOf(lines: seq<string>, w: nat)
    requires w < |lines| && AllHarmless(lines) && AllOneLine(lines)
    ensures Harmless(lines[w]) && OneLine(lines[w])
  {
    hide Harmless, OneLine;
  }

  /** Removing a premise opens none. */
  lemma RemovedIsHarmless(lines: seq<string>, con: string, func: string, pp: string)
    requires AllHarmless(lines) && NoteLines.PremiseRemoved(lines, con, func, pp).Ok?
    ensures AllHarmless(NoteLines.PremiseRemoved(lines, con, func, pp).value)
  {
    hide Harmless, NoteLines.WhenLine, NoteLines.ChildLine, NoteLines.IndexOf, NoteLines.RunEnd, NoteLines.OpenConjecture;
  }

  // ----- texts that open a heading

  /** A heading mark at the start of a later line of a text does. */
  lemma HeadingInside(first: string, rest: string)
    requires '\n' !in first && '\n' !in rest && HEADING <= rest
    ensures !NoHeading(Lines(first + "\n" + rest + "\n"))
  {
    hide Lines, NoHeading;
    var a, b := first + "\n", rest + "\n";
    LinesConcat(a, b);
    LinesOfOne(first);
    LinesOfOne(rest);
    assert a + b == first + "\n" + rest + "\n";
    NoHeadingCons(first, [rest]);
    NoHeadingCons(rest, []);
    assert [rest] + [] == [rest];
  }

  /** A note with such a line is not one update of a file that only names its source. */
  lemma NoteTextSplits()
    ensures WellFormed("p\n") && !NoHeading(Lines("## g" + "\n"))
    ensures var put := Written(AsMap(Records("p\n")), "f", "## g");
      AsMap(Records(SplicedText("p\n", "f", put))) != AsMap(Records("p\n"))[HEADING + "f" := put]
  {
    Preamble("p");
    LinesOfOne("## g");
    hide Lines, WellFormed, Records, AsMap, Written, SplicedText;
    WriteFile("p\n", "f", "## g");
    assert Lines("## g" + "\n")[0] == "## g";
  }

  lemma Preamble(path: string)
    requires path != "" && '\n' !in path && path[0] != '#'
    ensures WellFormed(path + "\n")
  {
    var buf := path + "\n";
    FirstLineIs(path, "");
    assert buf + "" == buf;
    hide FirstLine;
    assert AfterLine(buf) == "" && TailLength("") == 0;
    RecordsStep(buf);
    RecordsOfNothing();
    assert buf[..|buf|] == buf && buf[|buf|..] == "";
  }

  /** The text of a proof with such a line opens one too. */
  lemma ProofTextSplits()
    ensures !Harmless(NoteLines.ProofLine("x\n## g"))
  {
    var first := NoteLines.ProofLine("x");
    assert NoteLines.ProofLine("x\n## g") == first + "\n" + "## g";
    assert '\n' !in first;
    HeadingInside(first, "## g");
    hide Lines;
  }
}
