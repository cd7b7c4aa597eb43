/** The order and the hash of basic-block windows. */
module BlockWindows {
  import opened HookSpec
  import opened Interning
  import opened WindowOrder

  /** The first difference decides. */
  lemma Decides(x: seq<int>, y: seq<int>, i: nat)
    requires i < |x| == |y| && x[..i] == y[..i] && x[i] != y[i]
    ensures Before(x, y) <==> x[i] < y[i]
  {
    assert x == x[..i] + x[i..] && y == y[..i] + y[i..];
    BeforeAppend(x[..i], x[i..], y[i..]);
  }

  /** The comparison of two offsets is the order of the windows there. */
  method BlockLess(pool: seq<int>, w: nat, a: nat, b: nat) returns (r: bool)
    requires a + w <= |pool| && b + w <= |pool|
    ensures r <==> Before(Slot(pool, a, w), Slot(pool, b, w))
  {
    hide Before;
    ghost var x, y := Slot(pool, a, w), Slot(pool, b, w);
    for i := 0 to w
      invariant |x| == |y| == w && x[..i] == y[..i]
    {
      assert x[i] == pool[a + i] && y[i] == pool[b + i];
      if pool[a + i] != pool[b + i] {
        Decides(x, y, i);
        return pool[a + i] < pool[b + i];
      }
      assert x[..i + 1] == x[..i] + [x[i]] && y[..i + 1] == y[..i] + [y[i]];
    }
    assert x[..w] == x && y[..w] == y;
    BeforeIrreflexive(x);
    r := false;
  }

  /** Two windows are unordered exactly when they are equal; the order is transitive. */
  lemma BlockOrderIsTotal(x: seq<int>, y: seq<int>, z: seq<int>)
    ensures !Before(x, y) && !Before(y, x) <==> x == y
    ensures Before(x, y) && Before(y, z) ==> Before(x, z)
  {
    hide Before;
    BeforeTotal(x, y);
    BeforeIrreflexive(x);
    if Before(x, y) && Before(y, z) { BeforeTransitive(x, y, z); }
  }

  function HashBlocks(win: seq<int>): u64
    decreases |win|
  {
    if win == [] then 0 else Mix(HashBlocks(win[..|win| - 1]), win[|win| - 1])
  }

  /** The hash depends on the window only. */
  method BlockHash(pool: seq<int>, w: nat, p: nat) returns (h: u64)
    requires p + w <= |pool|
    ensures h == HashBlocks(Slot(pool, p, w))
  {
    hide Mix;
    h := 0;
    ghost var x := Slot(pool, p, w);
    for i := 0 to w
      invariant |x| == w && h == HashBlocks(x[..i])
    {
      assert x[i] == pool[p + i];
      assert x[..i + 1][..i] == x[..i];
      h := Mix(h, pool[p + i]);
    }
    assert x[..w] == x;
  }
}
