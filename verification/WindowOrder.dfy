/** The order in which windows are dumped, and their hash. */
module WindowOrder {
  import opened HookSpec

  // ----- lexicographic order of integer sequences

  predicate Before(a: seq<int>, b: seq<int>) {
    b != [] && (a == [] || a[0] < b[0] || (a[0] == b[0] && Before(a[1..], b[1..])))
  }

  lemma {:induction false} BeforeIrreflexive(a: seq<int>)
    ensures !Before(a, a)
  {
    if a != [] { BeforeIrreflexive(a[1..]); }
  }

  lemma {:induction false} BeforeTransitive(a: seq<int>, b: seq<int>, c: seq<int>)
    requires Before(a, b) && Before(b, c)
    ensures Before(a, c)
  {
    if a != [] && a[0] == b[0] == c[0] { BeforeTransitive(a[1..], b[1..], c[1..]); }
  }

  lemma {:induction false} BeforeTotal(a: seq<int>, b: seq<int>)
    ensures Before(a, b) || a == b || Before(b, a)
  {
    if a != [] && b != [] && a[0] == b[0] {
      BeforeTotal(a[1..], b[1..]);
      assert a == [a[0]] + a[1..] && b == [b[0]] + b[1..];
    }
  }

  lemma {:induction false} BeforeAppend(p: seq<int>, a: seq<int>, b: seq<int>)
    ensures Before(p + a, p + b) == Before(a, b)
  {
    if p == [] {
      assert p + a == a && p + b == b;
    } else {
      BeforeAppend(p[1..], a, b);
      assert (p + a)[1..] == p[1..] + a && (p + b)[1..] == p[1..] + b;
    }
  }

  /** Somewhere within both, the two differ. */
  ghost predicate Differ(a: seq<int>, b: seq<int>) {
    a != [] && b != [] && (a[0] != b[0] || Differ(a[1..], b[1..]))
  }

  lemma {:induction false} DifferAppend(a: seq<int>, b: seq<int>, x: seq<int>, y: seq<int>)
    requires Differ(a, b)
    ensures Differ(a + x, b + y) && Before(a + x, b + y) == Before(a, b)
  {
    assert (a + x)[1..] == a[1..] + x && (b + y)[1..] == b[1..] + y;
    if a[0] == b[0] { DifferAppend(a[1..], b[1..], x, y); }
  }

  lemma {:induction false} DifferPrefix(p: seq<int>, a: seq<int>, b: seq<int>)
    requires Differ(a, b)
    ensures Differ(p + a, p + b)
  {
    if p == [] {
      assert p + a == a && p + b == b;
    } else {
      DifferPrefix(p[1..], a, b);
      assert (p + a)[1..] == p[1..] + a && (p + b)[1..] == p[1..] + b;
    }
  }

  lemma {:induction false} DifferUnequal(a: seq<int>, b: seq<int>)
    requires Differ(a, b)
    ensures a != b
  {
    if a == b && a[0] == b[0] { DifferUnequal(a[1..], b[1..]); }
  }

  // ----- keys

  function KindOf(a: ArgValue): int {
    match a case PosNum => 0 case ZeroNum => 1 case NegNum => 2 case NullPtr => 3 case Ptr(_) => 4
  }

  function TypesKey(types: seq<PtrType>): seq<int> {
    if types == [] then [] else [types[0].vid, types[0].size] + TypesKey(types[1..])
  }

  function ArgKey(a: ArgValue): seq<int> {
    [KindOf(a)] + if a.Ptr? then [|a.types|] + TypesKey(a.types) else []
  }

  function ArgsKey(args: seq<ArgValue>): seq<int> {
    if args == [] then [] else ArgKey(args[0]) + ArgsKey(args[1..])
  }

  function LevelKey(l: Level): seq<int> { [|l.args|] + ArgsKey(l.args) }

  function LevelsKey(win: seq<Level>): seq<int> {
    if win == [] then [] else LevelKey(win[0]) + LevelsKey(win[1..])
  }

  function Vids(win: seq<Level>): seq<int> {
    if win == [] then [] else [win[0].vid] + Vids(win[1..])
  }

  /** All function ids of a window come before any of its arguments. */
  function WindowKey(win: seq<Level>): seq<int> { Vids(win) + LevelsKey(win) }

  lemma {:induction false} TypesDiffer(x: seq<PtrType>, y: seq<PtrType>)
    requires |x| == |y| && x != y
    ensures Differ(TypesKey(x), TypesKey(y))
  {
    if x[0] == y[0] {
      assert x == [x[0]] + x[1..] && y == [y[0]] + y[1..];
      TypesDiffer(x[1..], y[1..]);
      DifferPrefix([x[0].vid, x[0].size], TypesKey(x[1..]), TypesKey(y[1..]));
    } else {
      assert Differ([x[0].vid, x[0].size], [y[0].vid, y[0].size]) by {
        assert [x[0].vid, x[0].size][1..] == [x[0].size] && [y[0].vid, y[0].size][1..] == [y[0].size];
      }
      DifferAppend([x[0].vid, x[0].size], [y[0].vid, y[0].size], TypesKey(x[1..]), TypesKey(y[1..]));
    }
  }

  lemma ArgDiffer(x: ArgValue, y: ArgValue)
    requires x != y
    ensures Differ(ArgKey(x), ArgKey(y))
  {
    if x.Ptr? && y.Ptr? {
      var p, q := [|x.types|] + TypesKey(x.types), [|y.types|] + TypesKey(y.types);
      if |x.types| == |y.types| {
        TypesDiffer(x.types, y.types);
        DifferPrefix([|x.types|], TypesKey(x.types), TypesKey(y.types));
      }
      DifferPrefix([4], p, q);
    }
  }

  lemma {:induction false} ArgsDiffer(x: seq<ArgValue>, y: seq<ArgValue>)
    requires |x| == |y| && x != y
    ensures Differ(ArgsKey(x), ArgsKey(y))
  {
    hide ArgKey;
    if x[0] == y[0] {
      assert x == [x[0]] + x[1..] && y == [y[0]] + y[1..];
      ArgsDiffer(x[1..], y[1..]);
      DifferPrefix(ArgKey(x[0]), ArgsKey(x[1..]), ArgsKey(y[1..]));
    } else {
      ArgDiffer(x[0], y[0]);
      DifferAppend(ArgKey(x[0]), ArgKey(y[0]), ArgsKey(x[1..]), ArgsKey(y[1..]));
    }
  }

  lemma LevelDiffer(x: Level, y: Level)
    requires x.args != y.args
    ensures Differ(LevelKey(x), LevelKey(y))
  {
    hide ArgsKey;
    if |x.args| == |y.args| {
      ArgsDiffer(x.args, y.args);
      DifferPrefix([|x.args|], ArgsKey(x.args), ArgsKey(y.args));
    }
  }

  lemma {:induction false} VidsDiffer(x: seq<Level>, y: seq<Level>)
    requires |x| == |y|
    ensures Vids(x) != Vids(y) ==> Differ(Vids(x), Vids(y))
    ensures |Vids(x)| == |x| && forall i :: 0 <= i < |x| ==> Vids(x)[i] == x[i].vid
  {
    if x != [] {
      VidsDiffer(x[1..], y[1..]);
      if x[0].vid == y[0].vid && Vids(x) != Vids(y) {
        DifferPrefix([x[0].vid], Vids(x[1..]), Vids(y[1..]));
      }
    }
  }

  lemma {:induction false} LevelsDiffer(x: seq<Level>, y: seq<Level>)
    requires |x| == |y| && x != y && forall i :: 0 <= i < |x| ==> x[i].vid == y[i].vid
    ensures Differ(LevelsKey(x), LevelsKey(y))
  {
    hide LevelKey;
    if x[0].args == y[0].args {
      assert x == [x[0]] + x[1..] && y == [y[0]] + y[1..];
      LevelsDiffer(x[1..], y[1..]);
      assert x[0] == y[0];
      DifferPrefix(LevelKey(x[0]), LevelsKey(x[1..]), LevelsKey(y[1..]));
    } else {
      LevelDiffer(x[0], y[0]);
      DifferAppend(LevelKey(x[0]), LevelKey(y[0]), LevelsKey(x[1..]), LevelsKey(y[1..]));
    }
  }

  /** Windows of one length have equal keys only when they are equal. */
  lemma WindowsDiffer(x: seq<Level>, y: seq<Level>)
    requires |x| == |y| && x != y
    ensures Differ(WindowKey(x), WindowKey(y))
  {
    hide Vids, LevelsKey;
    VidsDiffer(x, y);
    VidsDiffer(y, x);
    if Vids(x) == Vids(y) {
      LevelsDiffer(x, y);
      DifferPrefix(Vids(x), LevelsKey(x), LevelsKey(y));
    } else {
      DifferAppend(Vids(x), Vids(y), LevelsKey(x), LevelsKey(y));
    }
  }

  predicate WindowBefore(x: seq<Level>, y: seq<Level>) { Before(WindowKey(x), WindowKey(y)) }

  /** The comparator is a strict total order on windows of one length: exactly one of
      below, equal, above holds, and it is transitive. */
  lemma WindowOrderIsTotal(x: seq<Level>, y: seq<Level>, z: seq<Level>)
    requires |x| == |y|
    ensures !(WindowBefore(x, y) && WindowBefore(y, x))
    ensures !WindowBefore(x, y) && !WindowBefore(y, x) <==> x == y
    ensures WindowBefore(x, y) && WindowBefore(y, z) ==> WindowBefore(x, z)
  {
    hide WindowKey, Before;
    var a, b, c := WindowKey(x), WindowKey(y), WindowKey(z);
    BeforeIrreflexive(a);
    BeforeTotal(a, b);
    if Before(a, b) && Before(b, a) { BeforeTransitive(a, b, a); }
    if Before(a, b) && Before(b, c) { BeforeTransitive(a, b, c); }
    if x != y { WindowsDiffer(x, y); DifferUnequal(a, b); }
  }

  // ----- the hash

  /** One step of the 64-bit polynomial hash; a signed id is taken modulo 2^64. */
  function Mix(h: u64, x: int): u64 { (h * 131 + x) % 0x1_0000_0000_0000_0000 }

  function HashTypes(h: u64, types: seq<PtrType>): u64
    decreases |types|
  {
    if types == [] then h
    else
      var last := types[|types| - 1];
      Mix(Mix(HashTypes(h, types[..|types| - 1]), last.vid), last.size)
  }

  function HashArg(h: u64, a: ArgValue): u64 {
    if a.Ptr? then HashTypes(Mix(h, KindOf(a)), a.types) else Mix(h, KindOf(a))
  }

  function HashArgs(h: u64, args: seq<ArgValue>): u64
    decreases |args|
  {
    if args == [] then h else HashArg(HashArgs(h, args[..|args| - 1]), args[|args| - 1])
  }

  function HashWindow(h: u64, win: seq<Level>): u64
    decreases |win|
  {
    if win == [] then h
    else
      var last := win[|win| - 1];
      HashArgs(Mix(HashWindow(h, win[..|win| - 1]), last.vid), last.args)
  }
}
