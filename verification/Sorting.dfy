/** Sets listed in the order of their keys. */
module Sorting {
  import opened WindowOrder

  ghost predicate AscendingBy<T(!new)>(s: seq<T>, key: T -> seq<int>) {
    forall i, j :: 0 <= i < j < |s| ==> Before(key(s[i]), key(s[j]))
  }

  /** The elements of a set in ascending order of their keys. */
  ghost predicate ListsBy<T(!new)>(s: seq<T>, items: set<T>, key: T -> seq<int>) {
    AscendingBy(s, key) && forall x :: x in s <==> x in items
  }

  ghost predicate DistinctKeys<T(!new)>(items: set<T>, key: T -> seq<int>) {
    forall a, b :: a in items && b in items && a != b ==> key(a) != key(b)
  }

  ghost predicate Least<T(!new)>(k: T, items: set<T>, key: T -> seq<int>) {
    k in items && forall x :: x in items ==> !Before(key(x), key(k))
  }

  ghost predicate Parted<T(!new)>(done: set<T>, rest: set<T>, key: T -> seq<int>) {
    forall x, y :: x in done && y in rest ==> Before(key(x), key(y))
  }

  /** Picking a least element that is left, as a selection does. */
  lemma PickLeast<T(!new)>(s: seq<T>, done: set<T>, rest: set<T>, k: T, key: T -> seq<int>)
    requires ListsBy(s, done, key) && Parted(done, rest, key) && DistinctKeys(rest, key) && Least(k, rest, key)
    ensures ListsBy(s + [k], done + {k}, key) && Parted(done + {k}, rest - {k}, key) && DistinctKeys(rest - {k}, key)
  {
    hide Before;
    var all := s + [k];
    forall i, j | 0 <= i < j < |all| ensures Before(key(all[i]), key(all[j])) {
      if j == |s| { assert s[i] in s && s[i] in done; }
    }
    forall y | y in rest - {k} ensures Before(key(k), key(y)) { BeforeTotal(key(k), key(y)); }
  }

  /** One more candidate for the least element. */
  lemma BetterCandidate<T(!new)>(k: T, x: T, seen: set<T>, key: T -> seq<int>)
    requires Least(k, seen, key)
    ensures Before(key(x), key(k)) ==> Least(x, seen + {x}, key)
    ensures !Before(key(x), key(k)) ==> Least(k, seen + {x}, key)
  {
    hide Before;
    BeforeIrreflexive(key(x));
    if Before(key(x), key(k)) {
      forall y | y in seen ensures !Before(key(y), key(x)) {
        if Before(key(y), key(x)) { BeforeTransitive(key(y), key(x), key(k)); }
      }
    }
  }

  lemma OnlyCandidate<T(!new)>(k: T, key: T -> seq<int>)
    ensures Least(k, {k}, key)
  {
    BeforeIrreflexive(key(k));
  }

  /** There is one ascending listing of a set. */
  lemma {:induction false} ListingIsUnique<T(!new)>(a: seq<T>, b: seq<T>, key: T -> seq<int>)
    requires AscendingBy(a, key) && AscendingBy(b, key) && forall x :: x in a <==> x in b
    ensures a == b
  {
    hide Before;
    if a == [] {
      assert forall i :: 0 <= i < |b| ==> b[i] in b;
    } else {
      assert a[0] in a;
      assert b != [];
      FirstIsSame(a, b, key);
      TailListing(a, key);
      TailListing(b, key);
      ListingIsUnique(a[1..], b[1..], key);
      assert a == [a[0]] + a[1..] && b == [b[0]] + b[1..];
    }
  }

  lemma FirstIsSame<T(!new)>(a: seq<T>, b: seq<T>, key: T -> seq<int>)
    requires AscendingBy(a, key) && AscendingBy(b, key) && a != [] && b != [] && forall x :: x in a <==> x in b
    ensures a[0] == b[0]
  {
    hide Before;
    assert a[0] in b && b[0] in a;
    var i :| 0 <= i < |b| && b[i] == a[0];
    var j :| 0 <= j < |a| && a[j] == b[0];
    BeforeIrreflexive(key(a[0]));
    if i > 0 && j > 0 { BeforeTransitive(key(a[0]), key(b[0]), key(a[0])); }
  }

  lemma TailListing<T(!new)>(a: seq<T>, key: T -> seq<int>)
    requires AscendingBy(a, key) && a != []
    ensures AscendingBy(a[1..], key)
    ensures forall x :: x in a[1..] <==> x in a && x != a[0]
  {
    hide Before;
    forall x ensures x in a[1..] <==> x in a && x != a[0] {
      if x in a[1..] {
        var i :| 0 <= i < |a[1..]| && a[1..][i] == x;
        assert a[i + 1] == x;
        BeforeIrreflexive(key(x));
      }
      if x in a && x != a[0] {
        var i :| 0 <= i < |a| && a[i] == x;
        assert a[1..][i - 1] == x;
      }
    }
  }

  method Any<T>(s: set<T>) returns (x: T)
    requires s != {}
    ensures x in s
  {
    x :| x in s;
  }

  /** Lists a set in the order of the keys. */
  method SortBy<T(!new,==)>(items: set<T>, key: T -> seq<int>) returns (sorted: seq<T>)
    requires DistinctKeys(items, key)
    ensures ListsBy(sorted, items, key)
  {
    hide ListsBy, Parted, DistinctKeys, Least, Before;
    sorted := [];
    var rest := items;
    NothingSorted(items, key);
    assert items - rest == {};
    while rest != {}
      invariant rest <= items && ListsBy(sorted, items - rest, key)
      invariant Parted(items - rest, rest, key) && DistinctKeys(rest, key)
      decreases rest
    {
      var k := LeastOf(rest, key);
      LeastIsMember(k, rest, key);
      PickLeast(sorted, items - rest, rest, k, key);
      assert items - (rest - {k}) == items - rest + {k};
      sorted := sorted + [k];
      rest := rest - {k};
    }
    assert items - rest == items;
  }

  method LeastOf<T(!new,==)>(items: set<T>, key: T -> seq<int>) returns (k: T)
    requires items != {}
    ensures Least(k, items, key)
  {
    hide Before, Least;
    k := Any(items);
    var rest := items - {k};
    OnlyCandidate(k, key);
    assert items - rest == {k};
    while rest != {}
      invariant k in items && rest <= items && Least(k, items - rest, key)
      decreases rest
    {
      var x := Any(rest);
      BetterCandidate(k, x, items - rest, key);
      assert items - (rest - {x}) == items - rest + {x};
      if Before(key(x), key(k)) { k := x; }
      rest := rest - {x};
    }
    assert items - rest == items;
  }

  lemma NothingSorted<T(!new)>(items: set<T>, key: T -> seq<int>)
    ensures ListsBy([], {}, key) && Parted({}, items, key)
  {
  }

  lemma LeastIsMember<T(!new)>(k: T, items: set<T>, key: T -> seq<int>)
    requires Least(k, items, key)
    ensures k in items
  {
  }
}
