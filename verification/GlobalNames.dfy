/** The sorted index of global names, searched by prefix and by exact name. */
module GlobalNames {
  import opened Lists
  import opened Text

  /** A name of the value or struct with an id; `original` for the name in the IR itself. */
  datatype Entry = Entry(name: string, id: nat, original: bool)

  predicate Below(a: Entry, b: Entry) {
    if a.name != b.name then Less(a.name, b.name)
    else if a.id != b.id then a.id < b.id
    else !a.original && b.original
  }

  ghost predicate Sorted(entries: seq<Entry>) {
    forall i, j :: 0 <= i < j < |entries| ==> !Below(entries[j], entries[i])
  }

  /** A string of bytes. */
  predicate Bytes(s: string) { forall i :: 0 <= i < |s| ==> s[i] <= '\U{ff}' }

  ghost predicate ByteNames(entries: seq<Entry>) { forall i :: 0 <= i < |entries| ==> Bytes(entries[i].name) }

  const LAST := "\U{ff}"

  lemma BelowTransitive(a: Entry, b: Entry, c: Entry)
    requires Below(a, b) && !Below(c, b)
    ensures Below(a, c)
  {
    LessTotal(b.name, c.name);
    if a.name != b.name && b.name != c.name {
      LessTransitive(a.name, b.name, c.name);
      LessIrreflexive(a.name);
    }
  }

  /** `std::lower_bound`: the entries below the key, and the others, on either side. */
  ghost predicate Splits(entries: seq<Entry>, key: Entry, pos: nat) {
    && pos <= |entries|
    && (forall i :: 0 <= i < pos ==> Below(entries[i], key))
    && (forall i :: pos <= i < |entries| ==> !Below(entries[i], key))
  }

  method LowerBound(entries: seq<Entry>, key: Entry) returns (pos: nat)
    requires Sorted(entries)
    ensures Splits(entries, key, pos)
  {
    hide Below;
    pos := 0;
    var end := |entries|;
    while pos < end
      invariant 0 <= pos <= end <= |entries|
      invariant forall i :: 0 <= i < pos ==> Below(entries[i], key)
      invariant forall i :: end <= i < |entries| ==> !Below(entries[i], key)
    {
      var mid := (pos + end) / 2;
      if Below(entries[mid], key) {
        forall i | 0 <= i < mid ensures Below(entries[i], key) { SortedBefore(entries, i, mid, key); }
        pos := mid + 1;
      } else {
        forall i | mid <= i < |entries| ensures !Below(entries[i], key) { SortedAfter(entries, mid, i, key); }
        end := mid;
      }
    }
  }

  lemma SortedBefore(entries: seq<Entry>, i: nat, mid: nat, key: Entry)
    requires Sorted(entries) && i <= mid < |entries| && Below(entries[mid], key)
    ensures Below(entries[i], key)
  {
    hide Below;
    if i < mid { BelowAtMost(entries[i], entries[mid], key); }
  }

  lemma BelowAtMost(a: Entry, b: Entry, c: Entry)
    requires !Below(b, a) && Below(b, c)
    ensures Below(a, c)
  {
    LessTotal(a.name, b.name);
    if a.name != b.name && b.name != c.name {
      LessTransitive(a.name, b.name, c.name);
      LessIrreflexive(a.name);
    }
  }

  lemma SortedAfter(entries: seq<Entry>, mid: nat, i: nat, key: Entry)
    requires Sorted(entries) && mid <= i < |entries| && !Below(entries[mid], key)
    ensures !Below(entries[i], key)
  {
    hide Below;
    if mid < i && Below(entries[i], key) { BelowAtMost(entries[mid], entries[i], key); }
  }

  // ----- the range of a prefix

  /** The names from `prefix` on, below `prefix` followed by byte 255. */
  predicate InPrefixRange(name: string, prefix: string) {
    prefix <= name && (|name| > |prefix| ==> name[|prefix|] != '\U{ff}')
  }

  lemma {:induction false} LessThanLast(name: string, prefix: string)
    requires Bytes(name) && Bytes(prefix)
    ensures !Less(name, prefix) && Less(name, prefix + LAST) <==> InPrefixRange(name, prefix)
    decreases |prefix|
  {
    var end := prefix + LAST;
    if prefix == "" {
      assert end == LAST;
      if name != "" && name[0] == '\U{ff}' {
        assert end[1..] == "";
      }
    } else if name != "" {
      assert end[0] == prefix[0] && end[1..] == prefix[1..] + LAST;
      if name[0] == prefix[0] {
        LessThanLast(name[1..], prefix[1..]);
        assert name == [name[0]] + name[1..] && prefix == [prefix[0]] + prefix[1..];
        assert prefix <= name <==> prefix[1..] <= name[1..];
      }
    }
  }

  function PrefixFilter(prefix: string): Entry -> bool { (e: Entry) => InPrefixRange(e.name, prefix) }

  lemma InRange(e: Entry, prefix: string)
    requires Bytes(e.name) && Bytes(prefix)
    ensures !Below(e, Entry(prefix, 0, false)) && Below(e, Entry(prefix + LAST, 0, false)) <==> InPrefixRange(e.name, prefix)
  {
    LessThanLast(e.name, prefix);
    LessIrreflexive(prefix);
    LessIrreflexive(prefix + LAST);
    LessThanLast(prefix, prefix);
    LessThanLast(prefix + LAST, prefix);
  }

  /** Both ends of the range of a prefix. */
  method PrefixRange(entries: seq<Entry>, prefix: string) returns (begin: nat, end: nat)
    requires Sorted(entries) && ByteNames(entries) && Bytes(prefix)
    ensures begin <= end <= |entries|
    ensures forall i :: 0 <= i < |entries| ==> (InPrefixRange(entries[i].name, prefix) <==> begin <= i < end)
  {
    hide Sorted, Below, InPrefixRange;
    begin := LowerBound(entries, Entry(prefix, 0, false));
    end := LowerBound(entries, Entry(prefix + LAST, 0, false));
    Nested(entries, prefix, begin, end);
    forall i | 0 <= i < |entries| ensures InPrefixRange(entries[i].name, prefix) <==> begin <= i < end {
      InRange(entries[i], prefix);
    }
  }

  lemma Nested(entries: seq<Entry>, prefix: string, begin: nat, end: nat)
    requires Splits(entries, Entry(prefix, 0, false), begin) && Splits(entries, Entry(prefix + LAST, 0, false), end)
    requires Bytes(prefix)
    ensures begin <= end
  {
    if end < begin {
      var low, high := Entry(prefix, 0, false), Entry(prefix + LAST, 0, false);
      LowBelowHigh(prefix);
      assert Below(entries[end], low) && !Below(entries[end], high);
      BelowTransitive(entries[end], low, high) by { Asymmetric(low, high); }
      assert false;
    }
  }

  lemma Asymmetric(a: Entry, b: Entry)
    requires Below(a, b)
    ensures !Below(b, a)
  {
    if a.name != b.name && Less(b.name, a.name) {
      LessTransitive(a.name, b.name, a.name);
      LessIrreflexive(a.name);
    }
  }

  lemma LowBelowHigh(prefix: string)
    requires Bytes(prefix)
    ensures Below(Entry(prefix, 0, false), Entry(prefix + LAST, 0, false))
  {
    LessThanLast(prefix, prefix);
  }

  /** The listed entries are those of the range, in order. */
  method ListGlobal(entries: seq<Entry>, prefix: string) returns (listed: seq<Entry>)
    requires Sorted(entries) && ByteNames(entries) && Bytes(prefix)
    ensures listed == Filter(entries, PrefixFilter(prefix))
  {
    hide Sorted, InPrefixRange;
    var begin, end := PrefixRange(entries, prefix);
    FilterIsSlice(entries, PrefixFilter(prefix), begin, end);
    listed := entries[begin..end];
  }

  function Starts(prefix: string): Entry -> bool { (e: Entry) => prefix <= e.name }

  lemma {:induction false} FilterCongruent(entries: seq<Entry>, p: Entry -> bool, q: Entry -> bool)
    requires forall i :: 0 <= i < |entries| ==> q(entries[i]) ==> p(entries[i])
    ensures |Filter(entries, q)| <= |Filter(entries, p)|
    ensures Filter(entries, p) == Filter(entries, q) <==> forall i :: 0 <= i < |entries| ==> p(entries[i]) == q(entries[i])
  {
    hide Filter;
    if entries == [] {
      FilterNothing(p);
      FilterNothing(q);
    } else {
      var rest := entries[1..];
      FilterCongruent(rest, p, q);
      FilterStep(entries, p);
      FilterStep(entries, q);
      assert forall i :: 0 <= i < |rest| ==> rest[i] == entries[i + 1];
      assert forall i :: 1 <= i < |entries| ==> entries[i] == rest[i - 1];
      if p(entries[0]) == q(entries[0]) {
        HeadsEqual(if p(entries[0]) then [entries[0]] else [], Filter(rest, p), Filter(rest, q));
      }
    }
  }

  lemma HeadsEqual(head: seq<Entry>, a: seq<Entry>, b: seq<Entry>)
    ensures head + a == head + b <==> a == b
  {
    assert (head + a)[|head|..] == a && (head + b)[|head|..] == b;
  }

  /** Listing by prefix finds every name with the prefix exactly when none of them goes on with
      byte 255. */
  lemma PrefixListIff(entries: seq<Entry>, prefix: string)
    ensures Filter(entries, PrefixFilter(prefix)) == Filter(entries, Starts(prefix))
       <==> forall i :: 0 <= i < |entries| ==> !(prefix + LAST <= entries[i].name)
  {
    hide Filter;
    var p, q := Starts(prefix), PrefixFilter(prefix);
    FilterCongruent(entries, p, q);
    forall i | 0 <= i < |entries| ensures p(entries[i]) == q(entries[i]) <==> !(prefix + LAST <= entries[i].name) {
      LastByte(entries[i].name, prefix);
    }
  }

  lemma LastByte(name: string, prefix: string)
    ensures prefix + LAST <= name <==> prefix <= name && !InPrefixRange(name, prefix)
  {
    var end := prefix + LAST;
    if prefix <= name && |name| > |prefix| && name[|prefix|] == '\U{ff}' {
      assert name[..|end|] == end;
    }
    if end <= name {
      assert name[..|prefix|] == end[..|prefix|] == prefix;
      assert name[|prefix|] == end[|prefix|];
    }
  }

  /** A name that goes on with byte 255 is missed. */
  lemma LastByteIsMissed()
    ensures var entries := [Entry("a" + LAST, 0, true)];
      Filter(entries, PrefixFilter("a")) == [] && Filter(entries, Starts("a")) == entries
  {
    var entries := [Entry("a" + LAST, 0, true)];
    assert "a" <= "a" + LAST && ("a" + LAST)[1] == '\U{ff}';
    hide Filter;
    FilterNone(entries, PrefixFilter("a"));
    FilterAll(entries, Starts("a"));
  }

  // ----- exact names

  datatype Lookup = Found(entry: Entry) | NotFound | Ambiguous

  function Named(name: string, isValue: nat -> bool): Entry -> bool {
    (e: Entry) => e.original && e.name == name && isValue(e.id)
  }

  function Unique(matches: seq<Entry>): Lookup {
    if matches == [] then NotFound else if |matches| == 1 then Found(matches[0]) else Ambiguous
  }

  /** The one value with this name in the IR, when there is exactly one. */
  method GetGlobal(entries: seq<Entry>, name: string, isValue: nat -> bool) returns (r: Lookup)
    requires Sorted(entries) && ByteNames(entries) && Bytes(name)
    ensures r == Unique(Filter(entries, Named(name, isValue)))
  {
    hide Filter, Sorted, InPrefixRange;
    var begin, end := PrefixRange(entries, name);
    var p := Named(name, isValue);
    forall i | 0 <= i < |entries| && p(entries[i]) ensures begin <= i < end { Exact(name); }
    FilterNone(entries[..begin], p);
    r := NotFound;
    for i := begin to end
      invariant r == Unique(Filter(entries[..i], p)) && !r.Ambiguous?
    {
      var entry := entries[i];
      assert entries[..i + 1] == entries[..i] + [entry];
      FilterLast(entries[..i], entry, p);
      if !entry.original || entry.name != name { continue; }
      if isValue(entry.id) {
        if r.Found? {
          MoreMatches(entries, i + 1, p);
          return Ambiguous;
        }
        r := Found(entry);
      }
    }
    FilterNone(entries[end..], p);
    assert entries == entries[..end] + entries[end..];
    FilterAppend(entries[..end], entries[end..], p);
  }

  lemma Exact(name: string)
    ensures InPrefixRange(name, name)
  {
  }

  lemma MoreMatches(entries: seq<Entry>, n: nat, p: Entry -> bool)
    requires n <= |entries| && |Filter(entries[..n], p)| > 1
    ensures |Filter(entries, p)| > 1
  {
    hide Filter;
    assert entries == entries[..n] + entries[n..];
    FilterAppend(entries[..n], entries[n..], p);
  }
}
