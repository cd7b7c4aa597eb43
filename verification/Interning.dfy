/** Sliding windows kept once each: a flat pool, and the offsets of the windows in it. */
module Interning {

  function Padding<T>(pad: T, w: nat): seq<T> { seq(w, _ => pad) }

  /** The last `w` elements of a history that starts with padding. */
  function Recent<T>(pad: T, hist: seq<T>, w: nat): (r: seq<T>)
    ensures |r| == w
  {
    (Padding(pad, w) + hist)[|hist|..]
  }

  ghost predicate IsWindow<T(!new)>(pad: T, hist: seq<T>, w: nat, win: seq<T>) {
    exists n :: 0 < n <= |hist| && win == Recent(pad, hist[..n], w)
  }

  function Slot<T>(pool: seq<T>, a: nat, w: nat): seq<T> {
    if a + w <= |pool| then pool[a..a + w] else []
  }

  ghost predicate Kept<T(!new)>(pool: seq<T>, offsets: set<nat>, w: nat, win: seq<T>) {
    exists a :: a in offsets && Slot(pool, a, w) == win
  }

  /** The offsets hold pairwise distinct windows, exactly those of the history, and nothing
      else is in the pool. */
  ghost predicate Interned<T(!new)>(pool: seq<T>, offsets: set<nat>, pad: T, hist: seq<T>, w: nat) {
    && |pool| == |offsets| * w
    && (forall a :: a in offsets ==> a + w <= |pool|)
    && (forall a, b :: a in offsets && b in offsets && a != b ==> Slot(pool, a, w) != Slot(pool, b, w))
    && (forall win :: Kept(pool, offsets, w, win) <==> IsWindow(pad, hist, w, win))
  }

  /** Each new element shifts the window by one. */
  lemma RecentShift<T>(pad: T, hist: seq<T>, x: T, w: nat)
    requires w > 0
    ensures Recent(pad, hist + [x], w) == Recent(pad, hist, w)[1..] + [x]
  {
    var all := Padding(pad, w) + hist;
    assert Padding(pad, w) + (hist + [x]) == all + [x];
    assert (all + [x])[|hist| + 1..] == all[|hist|..][1..] + [x];
  }

  lemma WindowStep<T(!new)>(pad: T, hist: seq<T>, x: T, w: nat, win: seq<T>)
    ensures IsWindow(pad, hist + [x], w, win) <==> IsWindow(pad, hist, w, win) || win == Recent(pad, hist + [x], w)
  {
    var all := hist + [x];
    assert all[..|all|] == all;
    assert forall n :: 0 < n <= |hist| ==> all[..n] == hist[..n];
    hide Recent;
    if IsWindow(pad, hist, w, win) {
      var n :| 0 < n <= |hist| && win == Recent(pad, hist[..n], w);
      assert win == Recent(pad, all[..n], w);
    }
    if win == Recent(pad, all, w) {
      assert win == Recent(pad, all[..|all|], w);
    }
  }

  /** A window already kept is not stored again. */
  lemma InternOld<T(!new)>(pool: seq<T>, offsets: set<nat>, pad: T, hist: seq<T>, w: nat, x: T)
    requires Interned(pool, offsets, pad, hist, w) && Kept(pool, offsets, w, Recent(pad, hist + [x], w))
    ensures Interned(pool, offsets, pad, hist + [x], w)
  {
    hide Recent, IsWindow, Kept, Slot;
    forall win ensures Kept(pool, offsets, w, win) <==> IsWindow(pad, hist + [x], w, win) {
      WindowStep(pad, hist, x, w, win);
    }
  }

  lemma SlotGrows<T>(pool: seq<T>, more: seq<T>, a: nat, w: nat)
    requires a + w <= |pool|
    ensures Slot(pool + more, a, w) == Slot(pool, a, w)
  {
  }

  /** A new window is stored at the end of the pool; no stored window changes. */
  lemma InternNew<T(!new)>(pool: seq<T>, offsets: set<nat>, pad: T, hist: seq<T>, w: nat, x: T)
    requires w > 0
    requires Interned(pool, offsets, pad, hist, w) && !Kept(pool, offsets, w, Recent(pad, hist + [x], w))
    ensures Interned(pool + Recent(pad, hist + [x], w), offsets + {|pool|}, pad, hist + [x], w)
  {
    var added := Recent(pad, hist + [x], w);
    var pool', offsets' := pool + added, offsets + {|pool|};
    hide Recent, IsWindow, Slot;
    assert |pool| !in offsets;
    assert |offsets'| == |offsets| + 1;
    assert |offsets'| * w == |offsets| * w + w;
    forall win ensures Kept(pool', offsets', w, win) <==> IsWindow(pad, hist + [x], w, win) {
      WindowStep(pad, hist, x, w, win);
      KeptGrows(pool, offsets, w, added, win);
    }
    forall a, b | a in offsets' && b in offsets' && a != b ensures Slot(pool', a, w) != Slot(pool', b, w) {
      StillDistinct(pool, offsets, w, added, a, b);
    }
  }

  lemma StillDistinct<T(!new)>(pool: seq<T>, offsets: set<nat>, w: nat, added: seq<T>, a: nat, b: nat)
    requires |added| == w && forall c :: c in offsets ==> c + w <= |pool|
    requires !Kept(pool, offsets, w, added)
    requires a in offsets && b in offsets && a != b ==> Slot(pool, a, w) != Slot(pool, b, w)
    requires a in offsets + {|pool|} && b in offsets + {|pool|} && a != b
    ensures Slot(pool + added, a, w) != Slot(pool + added, b, w)
  {
    assert Slot(pool + added, |pool|, w) == added;
    if a in offsets { SlotGrows(pool, added, a, w); assert Slot(pool, a, w) != added; }
    if b in offsets { SlotGrows(pool, added, b, w); assert Slot(pool, b, w) != added; }
  }

  lemma KeptGrows<T(!new)>(pool: seq<T>, offsets: set<nat>, w: nat, added: seq<T>, win: seq<T>)
    requires |added| == w && forall a :: a in offsets ==> a + w <= |pool|
    ensures Kept(pool + added, offsets + {|pool|}, w, win) <==> Kept(pool, offsets, w, win) || win == added
  {
    var pool', offsets' := pool + added, offsets + {|pool|};
    assert Slot(pool', |pool|, w) == added;
    forall a | a in offsets ensures Slot(pool', a, w) == Slot(pool, a, w) { SlotGrows(pool, added, a, w); }
    hide Slot;
    if Kept(pool, offsets, w, win) {
      var a :| a in offsets && Slot(pool, a, w) == win;
      assert a in offsets';
    }
    if win == added { assert |pool| in offsets'; }
  }

  lemma InternedStart<T(!new)>(pad: T, w: nat)
    ensures Interned([], {}, pad, [], w)
  {
  }
}
