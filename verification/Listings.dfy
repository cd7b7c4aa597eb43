/** The interned windows in the order in which they are dumped. */
module Listings {
  import opened HookSpec
  import opened Interning
  import opened WindowOrder
  import opened BlockWindows
  import opened CgPool
  import opened Sorting

  /** The windows of a history, each once, in ascending order of their keys. */
  ghost predicate Listing<T(!new)>(wins: seq<seq<T>>, pad: T, hist: seq<T>, w: nat, key: seq<T> -> seq<int>) {
    AscendingBy(wins, key) && forall win :: win in wins <==> IsWindow(pad, hist, w, win)
  }

  /** The listing of a history is one: it does not depend on the offsets in the pool. */
  lemma ListingDetermined<T(!new)>(a: seq<seq<T>>, b: seq<seq<T>>, pad: T, hist: seq<T>, w: nat, key: seq<T> -> seq<int>)
    requires Listing(a, pad, hist, w, key) && Listing(b, pad, hist, w, key)
    ensures a == b
  {
    ListingIsUnique(a, b, key);
  }

  function Slots<T>(pool: seq<T>, sorted: seq<nat>, w: nat): seq<seq<T>> {
    seq(|sorted|, i requires 0 <= i < |sorted| => Slot(pool, sorted[i], w))
  }

  function SlotKey<T>(pool: seq<T>, w: nat, key: seq<T> -> seq<int>): nat -> seq<int> {
    (a: nat) => key(Slot(pool, a, w))
  }

  /** Sorting the offsets of interned windows lists exactly the windows of the history. */
  lemma SortedOffsetsList<T(!new)>(pool: seq<T>, offsets: set<nat>, pad: T, hist: seq<T>, w: nat, key: seq<T> -> seq<int>, sorted: seq<nat>)
    requires Interned(pool, offsets, pad, hist, w) && ListsBy(sorted, offsets, SlotKey(pool, w, key))
    ensures Listing(Slots(pool, sorted, w), pad, hist, w, key)
  {
    hide Slot, IsWindow, Before;
    var wins := Slots(pool, sorted, w);
    forall win ensures win in wins <==> Kept(pool, offsets, w, win) {
      if win in wins {
        var i :| 0 <= i < |wins| && wins[i] == win;
        assert sorted[i] in sorted && Slot(pool, sorted[i], w) == win;
      }
      if Kept(pool, offsets, w, win) {
        var a :| a in offsets && Slot(pool, a, w) == win;
        var i :| 0 <= i < |sorted| && sorted[i] == a;
        assert wins[i] == win;
      }
    }
  }

  // ----- the keys of distinct windows

  function BlockKey(win: seq<int>): seq<int> { win }

  lemma BlocksDistinct(pool: seq<int>, offsets: set<nat>, w: nat)
    requires forall a, b :: a in offsets && b in offsets && a != b ==> Slot(pool, a, w) != Slot(pool, b, w)
    ensures DistinctKeys(offsets, SlotKey(pool, w, BlockKey))
  {
    hide Slot;
    var key := SlotKey(pool, w, BlockKey);
    forall a, b | a in offsets && b in offsets && a != b ensures key(a) != key(b) {
      assert BlockKey(Slot(pool, a, w)) == Slot(pool, a, w) && BlockKey(Slot(pool, b, w)) == Slot(pool, b, w);
    }
  }

  lemma CallsDistinct(pool: seq<Level>, offsets: set<nat>, w: nat)
    requires forall a :: a in offsets ==> a + w <= |pool|
    requires forall a, b :: a in offsets && b in offsets && a != b ==> Slot(pool, a, w) != Slot(pool, b, w)
    ensures DistinctKeys(offsets, SlotKey(pool, w, WindowKey))
  {
    hide WindowKey;
    forall a, b | a in offsets && b in offsets && a != b ensures WindowKey(Slot(pool, a, w)) != WindowKey(Slot(pool, b, w)) {
      WindowsDiffer(Slot(pool, a, w), Slot(pool, b, w));
      DifferUnequal(WindowKey(Slot(pool, a, w)), WindowKey(Slot(pool, b, w)));
    }
  }

  // ----- sorting the offsets

  method LeastBlock(pool: seq<int>, w: nat, offsets: set<nat>) returns (k: nat)
    requires offsets != {} && forall a :: a in offsets ==> a + w <= |pool|
    ensures Least(k, offsets, SlotKey(pool, w, BlockKey))
  {
    hide Slot, Before, Least;
    ghost var key := SlotKey(pool, w, BlockKey);
    k := Any(offsets);
    var rest := offsets - {k};
    OnlyCandidate(k, key);
    assert offsets - rest == {k};
    while rest != {}
      invariant k in offsets && rest <= offsets && Least(k, offsets - rest, key)
      decreases rest
    {
      var x := Any(rest);
      BetterCandidate(k, x, offsets - rest, key);
      assert offsets - (rest - {x}) == offsets - rest + {x};
      var less := BlockLess(pool, w, x, k);
      if less { k := x; }
      rest := rest - {x};
    }
    assert offsets - rest == offsets;
  }

  /** The offsets in the order of their block windows. */
  method SortBlocks(pool: seq<int>, w: nat, offsets: set<nat>) returns (sorted: seq<nat>)
    requires forall a :: a in offsets ==> a + w <= |pool|
    requires DistinctKeys(offsets, SlotKey(pool, w, BlockKey))
    ensures ListsBy(sorted, offsets, SlotKey(pool, w, BlockKey))
  {
    hide ListsBy, Parted, DistinctKeys, Least;
    ghost var key := SlotKey(pool, w, BlockKey);
    sorted := [];
    var rest := offsets;
    NothingSorted(offsets, key);
    assert offsets - rest == {};
    while rest != {}
      invariant rest <= offsets && ListsBy(sorted, offsets - rest, key)
      invariant Parted(offsets - rest, rest, key) && DistinctKeys(rest, key)
      decreases rest
    {
      var k := LeastBlock(pool, w, rest);
      LeastIsMember(k, rest, key);
      PickLeast(sorted, offsets - rest, rest, k, key);
      assert offsets - (rest - {k}) == offsets - rest + {k};
      sorted := sorted + [k];
      rest := rest - {k};
    }
    assert offsets - rest == offsets;
  }

  method LeastCall(pool: seq<CgRecord>, args: seq<AbstractArg>, types: seq<PtrType>, w: nat, offsets: set<nat>) returns (k: nat)
    requires offsets != {} && forall a :: a in offsets ==> a + w <= |pool|
    requires RecordsIn(pool, args) && ArgsIn(args, types)
    ensures Least(k, offsets, SlotKey(LevelsOf(pool, args, types), w, WindowKey))
  {
    hide Slot, Before, Least, LevelsOf, WindowKey, RecordsIn, ArgsIn;
    ghost var key := SlotKey(LevelsOf(pool, args, types), w, WindowKey);
    k := Any(offsets);
    var rest := offsets - {k};
    OnlyCandidate(k, key);
    assert offsets - rest == {k};
    while rest != {}
      invariant k in offsets && rest <= offsets && Least(k, offsets - rest, key)
      decreases rest
    {
      var x := Any(rest);
      BetterCandidate(k, x, offsets - rest, key);
      assert offsets - (rest - {x}) == offsets - rest + {x};
      var less := WindowLess(pool, args, types, w, x, k);
      if less { k := x; }
      rest := rest - {x};
    }
    assert offsets - rest == offsets;
  }

  /** The offsets in the order of their call windows. */
  method SortCalls(pool: seq<CgRecord>, args: seq<AbstractArg>, types: seq<PtrType>, w: nat, offsets: set<nat>) returns (sorted: seq<nat>)
    requires forall a :: a in offsets ==> a + w <= |pool|
    requires RecordsIn(pool, args) && ArgsIn(args, types)
    requires DistinctKeys(offsets, SlotKey(LevelsOf(pool, args, types), w, WindowKey))
    ensures ListsBy(sorted, offsets, SlotKey(LevelsOf(pool, args, types), w, WindowKey))
  {
    hide ListsBy, Parted, DistinctKeys, Least, LevelsOf, WindowKey, RecordsIn, ArgsIn, SlotKey;
    ghost var key := SlotKey(LevelsOf(pool, args, types), w, WindowKey);
    sorted := [];
    var rest := offsets;
    NothingSorted(offsets, key);
    assert offsets - rest == {};
    while rest != {}
      invariant rest <= offsets && ListsBy(sorted, offsets - rest, key)
      invariant Parted(offsets - rest, rest, key) && DistinctKeys(rest, key)
      decreases rest
    {
      var k := LeastCall(pool, args, types, w, rest);
      LeastIsMember(k, rest, key);
      PickLeast(sorted, offsets - rest, rest, k, key);
      assert offsets - (rest - {k}) == offsets - rest + {k};
      sorted := sorted + [k];
      rest := rest - {k};
    }
    assert offsets - rest == offsets;
  }
}
