/** Filtering and flattening of sequences. */
module Lists {

  function Filter<T>(s: seq<T>, p: T -> bool): seq<T> {
    if s == [] then [] else (if p(s[0]) then [s[0]] else []) + Filter(s[1..], p)
  }

  lemma FilterNothing<T>(p: T -> bool)
    ensures Filter([], p) == []
  {
  }

  lemma FilterStep<T>(s: seq<T>, p: T -> bool)
    requires s != []
    ensures Filter(s, p) == (if p(s[0]) then [s[0]] else []) + Filter(s[1..], p)
  {
  }

  lemma {:induction false} FilterAppend<T>(a: seq<T>, b: seq<T>, p: T -> bool)
    ensures Filter(a + b, p) == Filter(a, p) + Filter(b, p)
  {
    hide Filter;
    if a == [] {
      assert a + b == b;
      FilterNothing(p);
    } else {
      assert (a + b)[1..] == a[1..] + b;
      FilterAppend(a[1..], b, p);
      FilterStep(a, p);
      FilterStep(a + b, p);
    }
  }

  lemma {:induction false} FilterAll<T>(s: seq<T>, p: T -> bool)
    requires forall i :: 0 <= i < |s| ==> p(s[i])
    ensures Filter(s, p) == s
  {
    if s != [] { FilterAll(s[1..], p); }
  }

  lemma {:induction false} FilterNone<T>(s: seq<T>, p: T -> bool)
    requires forall i :: 0 <= i < |s| ==> !p(s[i])
    ensures Filter(s, p) == []
  {
    if s != [] { FilterNone(s[1..], p); }
  }

  lemma FilterOutside<T>(s: seq<T>, p: T -> bool, start: nat, end: nat)
    requires start <= end <= |s| && forall i :: start <= i < end ==> !p(s[i])
    ensures Filter(s[start..end], p) == []
  {
    hide Filter;
    FilterNone(s[start..end], p);
  }

  lemma FilterInside<T>(s: seq<T>, p: T -> bool, start: nat, end: nat)
    requires start <= end <= |s| && forall i :: start <= i < end ==> p(s[i])
    ensures Filter(s[start..end], p) == s[start..end]
  {
    hide Filter;
    FilterAll(s[start..end], p);
  }

  /** When the elements that satisfy `p` are exactly those of one range, filtering is slicing. */
  lemma FilterIsSlice<T>(s: seq<T>, p: T -> bool, start: nat, end: nat)
    requires start <= end <= |s|
    requires forall i :: 0 <= i < |s| ==> (p(s[i]) <==> start <= i < end)
    ensures Filter(s, p) == s[start..end]
  {
    hide Filter;
    FilterOutside(s, p, 0, start);
    FilterInside(s, p, start, end);
    FilterOutside(s, p, end, |s|);
    FilterMiddle(s[0..start], s[start..end], s[end..|s|], p);
    ThreeParts(s, start, end);
  }

  lemma ThreeParts<T>(s: seq<T>, start: nat, end: nat)
    requires start <= end <= |s|
    ensures s[0..start] + s[start..end] + s[end..|s|] == s
  {
  }

  lemma FilterMiddle<T>(a: seq<T>, b: seq<T>, c: seq<T>, p: T -> bool)
    requires Filter(a, p) == [] && Filter(b, p) == b && Filter(c, p) == []
    ensures Filter(a + b + c, p) == b
  {
    hide Filter;
    FilterAppend(a + b, c, p);
    FilterAppend(a, b, p);
    assert [] + b + [] == b;
  }

  lemma FilterLast<T>(s: seq<T>, x: T, p: T -> bool)
    ensures Filter(s + [x], p) == Filter(s, p) + if p(x) then [x] else []
  {
    FilterAppend(s, [x], p);
    assert [x][1..] == [] && Filter([x][1..], p) == [];
  }

  // ----- lists of lists

  /** The lists of the elements, one after the other. */
  function Flat<A, B>(s: seq<A>, f: A -> seq<B>): seq<B> {
    if s == [] then [] else f(s[0]) + Flat(s[1..], f)
  }

  lemma FlatNothing<A, B>(f: A -> seq<B>)
    ensures Flat([], f) == []
  {
  }

  lemma FlatStep<A, B>(s: seq<A>, f: A -> seq<B>)
    requires s != []
    ensures Flat(s, f) == f(s[0]) + Flat(s[1..], f)
  {
  }

  lemma {:induction false} FlatAppend<A, B>(a: seq<A>, b: seq<A>, f: A -> seq<B>)
    ensures Flat(a + b, f) == Flat(a, f) + Flat(b, f)
  {
    hide Flat;
    if a == [] {
      assert a + b == b;
      FlatNothing(f);
    } else {
      assert (a + b)[0] == a[0] && (a + b)[1..] == a[1..] + b;
      FlatAppend(a[1..], b, f);
      FlatStep(a, f);
      FlatStep(a + b, f);
    }
  }

  /** One element in the middle. */
  lemma FlatAt<A, B>(s: seq<A>, i: nat, f: A -> seq<B>)
    requires i < |s|
    ensures Flat(s[i..], f) == f(s[i]) + Flat(s[i + 1..], f)
    ensures Flat(s[..i + 1], f) == Flat(s[..i], f) + f(s[i])
    ensures Flat(s, f) == Flat(s[..i + 1], f) + Flat(s[i + 1..], f)
  {
    hide Flat;
    FlatStep(s[i..], f);
    assert s[i..][1..] == s[i + 1..];
    FlatAppend(s[..i], [s[i]], f);
    assert s[..i + 1] == s[..i] + [s[i]];
    FlatStep([s[i]], f);
    FlatNothing(f);
    assert [s[i]][1..] == [] && f(s[i]) + [] == f(s[i]);
    FlatAppend(s[..i + 1], s[i + 1..], f);
    assert s == s[..i + 1] + s[i + 1..];
  }

  lemma FlatLast<A, B>(s: seq<A>, x: A, f: A -> seq<B>)
    ensures Flat(s + [x], f) == Flat(s, f) + f(x)
  {
    hide Flat;
    FlatAppend(s, [x], f);
    FlatStep([x], f);
    FlatNothing(f);
    assert [x][1..] == [] && f(x) + [] == f(x);
  }

  lemma {:induction false} FlatMember<A, B>(s: seq<A>, y: B, f: A -> seq<B>)
    ensures y in Flat(s, f) <==> exists i :: 0 <= i < |s| && y in f(s[i])
  {
    hide Flat;
    if s == [] {
      FlatNothing(f);
    } else {
      FlatStep(s, f);
      FlatMember(s[1..], y, f);
      assert forall i :: 0 <= i < |s[1..]| ==> s[1..][i] == s[i + 1];
      if exists i :: 0 <= i < |s| && y in f(s[i]) {
        var i :| 0 <= i < |s| && y in f(s[i]);
        if i > 0 { assert y in f(s[1..][i - 1]); }
      }
    }
  }
}
