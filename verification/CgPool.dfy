/** Call-context windows as offsets into flat pools: what they denote, that growing pools
    never changes what a stored offset denotes, and the comparisons and hash over offsets. */
module CgPool {
  import opened HookSpec
  import opened Interning
  import opened WindowOrder

  datatype ArgKind = POS_NUM | ZERO_NUM | NEG_NUM | NULL_PTR | PTR

  /** A half-open range of one of the pools. */
  datatype Slice = Slice(start: nat, end: nat)

  const UNINITIALIZED := Slice(0xFFFF_FFFF_FFFF_FFFF, 0)

  datatype AbstractArg = AbstractArg(kind: ArgKind, vals: Slice)

  datatype CgRecord = CgRecord(vid: int, args: Slice)

  // ----- what records denote

  predicate In(s: Slice, n: nat) { s.start <= s.end <= n }

  function Cut<T>(pool: seq<T>, s: Slice): seq<T> { Range(pool, s.start, s.end) }

  function ValueOf(a: AbstractArg, types: seq<PtrType>): ArgValue {
    match a.kind
    case POS_NUM => PosNum
    case ZERO_NUM => ZeroNum
    case NEG_NUM => NegNum
    case NULL_PTR => NullPtr
    case PTR => Ptr(Cut(types, a.vals))
  }

  function ValuesOf(args: seq<AbstractArg>, types: seq<PtrType>): (v: seq<ArgValue>)
    ensures |v| == |args|
  {
    seq(|args|, i requires 0 <= i < |args| => ValueOf(args[i], types))
  }

  function LevelOf(r: CgRecord, args: seq<AbstractArg>, types: seq<PtrType>): Level {
    Level(r.vid, ValuesOf(Cut(args, r.args), types))
  }

  function LevelsOf(rs: seq<CgRecord>, args: seq<AbstractArg>, types: seq<PtrType>): (l: seq<Level>)
    ensures |l| == |rs|
  {
    seq(|rs|, i requires 0 <= i < |rs| => LevelOf(rs[i], args, types))
  }

  ghost predicate ArgsIn(args: seq<AbstractArg>, types: seq<PtrType>) {
    forall i :: 0 <= i < |args| && args[i].kind.PTR? ==> In(args[i].vals, |types|)
  }

  ghost predicate RecordsIn(rs: seq<CgRecord>, args: seq<AbstractArg>) {
    forall i :: 0 <= i < |rs| ==> In(rs[i].args, |args|)
  }

  // ----- pools only grow

  lemma CutGrows<T>(pool: seq<T>, more: seq<T>, s: Slice)
    requires In(s, |pool|)
    ensures Cut(pool + more, s) == Cut(pool, s)
  {
  }

  lemma ValuesGrow(args: seq<AbstractArg>, types: seq<PtrType>, more: seq<PtrType>)
    requires ArgsIn(args, types)
    ensures ValuesOf(args, types + more) == ValuesOf(args, types)
    ensures ArgsIn(args, types + more)
  {
    hide Cut;
    forall i | 0 <= i < |args| ensures ValueOf(args[i], types + more) == ValueOf(args[i], types) {
      if args[i].kind.PTR? { CutGrows(types, more, args[i].vals); }
    }
  }

  lemma CutArgsIn(args: seq<AbstractArg>, types: seq<PtrType>, s: Slice)
    requires ArgsIn(args, types) && In(s, |args|)
    ensures ArgsIn(Cut(args, s), types)
  {
  }

  /** Growing the argument and type pools changes no level. */
  lemma LevelsGrow(rs: seq<CgRecord>, args: seq<AbstractArg>, types: seq<PtrType>,
                   moreArgs: seq<AbstractArg>, moreTypes: seq<PtrType>)
    requires RecordsIn(rs, args) && ArgsIn(args, types)
    ensures LevelsOf(rs, args + moreArgs, types + moreTypes) == LevelsOf(rs, args, types)
    ensures RecordsIn(rs, args + moreArgs)
  {
    hide ValuesOf, Cut, ArgsIn;
    forall i | 0 <= i < |rs|
      ensures LevelOf(rs[i], args + moreArgs, types + moreTypes) == LevelOf(rs[i], args, types)
    {
      CutGrows(args, moreArgs, rs[i].args);
      CutArgsIn(args, types, rs[i].args);
      ValuesGrow(Cut(args, rs[i].args), types, moreTypes);
    }
  }

  lemma LevelsConcat(a: seq<CgRecord>, b: seq<CgRecord>, args: seq<AbstractArg>, types: seq<PtrType>)
    ensures LevelsOf(a + b, args, types) == LevelsOf(a, args, types) + LevelsOf(b, args, types)
  {
    hide LevelOf;
  }

  lemma ValuesConcat(a: seq<AbstractArg>, b: seq<AbstractArg>, types: seq<PtrType>)
    ensures ValuesOf(a + b, types) == ValuesOf(a, types) + ValuesOf(b, types)
  {
    hide ValueOf;
  }

  // ----- comparing stored arguments

  /** Compares two ranges of types of the same length: negative, zero or positive. */
  method CompareTypes(types: seq<PtrType>, x: Slice, y: Slice) returns (c: int)
    requires In(x, |types|) && In(y, |types|) && x.end - x.start == y.end - y.start
    ensures c == 0 <==> Cut(types, x) == Cut(types, y)
    ensures c < 0 <==> Before(TypesKey(Cut(types, x)), TypesKey(Cut(types, y)))
  {
    hide TypesKey;
    ghost var a, b := types[x.start..x.end], types[y.start..y.end];
    for k := 0 to x.end - x.start
      invariant a[..k] == b[..k]
    {
      var p, q := types[x.start + k], types[y.start + k];
      assert p == a[k] && q == b[k];
      if p.vid != q.vid || p.size != q.size {
        c := if p.vid != q.vid then (if p.vid < q.vid then -1 else 1) else (if p.size < q.size then -1 else 1);
        TypesDecide(a, b, k);
        return;
      }
      assert a[..k + 1] == a[..k] + [p] && b[..k + 1] == b[..k] + [q];
    }
    assert a[..|a|] == a && b[..|b|] == b;
    BeforeIrreflexive(TypesKey(a));
    c := 0;
  }

  /** The first difference decides. */
  lemma {:induction false} TypesDecide(a: seq<PtrType>, b: seq<PtrType>, k: nat)
    requires |a| == |b| && k < |a| && a[..k] == b[..k] && a[k] != b[k]
    ensures a != b
    ensures Before(TypesKey(a), TypesKey(b)) <==> a[k].vid < b[k].vid || (a[k].vid == b[k].vid && a[k].size < b[k].size)
  {
    var p, q := [a[0].vid, a[0].size], [b[0].vid, b[0].size];
    assert TypesKey(a) == p + TypesKey(a[1..]) && TypesKey(b) == q + TypesKey(b[1..]);
    if k == 0 {
      assert p[1..] == [a[0].size] && q[1..] == [b[0].size];
      assert p[1..][1..] == [] && q[1..][1..] == [];
      assert Differ(p, q);
      DifferAppend(p, q, TypesKey(a[1..]), TypesKey(b[1..]));
    } else {
      assert a[0] == a[..k][0] == b[..k][0] == b[0];
      assert a[1..][..k - 1] == a[..k][1..] && b[1..][..k - 1] == b[..k][1..];
      TypesDecide(a[1..], b[1..], k - 1);
      BeforeAppend(p, TypesKey(a[1..]), TypesKey(b[1..]));
    }
  }

  function KindIndex(k: ArgKind): int {
    match k case POS_NUM => 0 case ZERO_NUM => 1 case NEG_NUM => 2 case NULL_PTR => 3 case PTR => 4
  }

  method CompareArg(types: seq<PtrType>, x: AbstractArg, y: AbstractArg) returns (c: int)
    requires x.kind.PTR? ==> In(x.vals, |types|)
    requires y.kind.PTR? ==> In(y.vals, |types|)
    ensures c == 0 <==> ValueOf(x, types) == ValueOf(y, types)
    ensures c < 0 <==> Before(ArgKey(ValueOf(x, types)), ArgKey(ValueOf(y, types)))
  {
    hide TypesKey;
    if x.kind != y.kind {
      return if KindIndex(x.kind) < KindIndex(y.kind) then -1 else 1;
    }
    c := 0;
    if x.kind.PTR? {
      var n, m := x.vals.end - x.vals.start, y.vals.end - y.vals.start;
      ghost var a, b := Cut(types, x.vals), Cut(types, y.vals);
      BeforeAppend([4], [n] + TypesKey(a), [m] + TypesKey(b));
      if n != m {
        return if n < m then -1 else 1;
      }
      BeforeAppend([n], TypesKey(a), TypesKey(b));
      c := CompareTypes(types, x.vals, y.vals);
    }
  }

  method CompareArgs(types: seq<PtrType>, args: seq<AbstractArg>, x: Slice, y: Slice) returns (c: int)
    requires In(x, |args|) && In(y, |args|) && ArgsIn(args, types)
    ensures c == 0 <==> ValuesOf(Cut(args, x), types) == ValuesOf(Cut(args, y), types)
    ensures c < 0 <==> Before(LevelKey(Level(0, ValuesOf(Cut(args, x), types))), LevelKey(Level(0, ValuesOf(Cut(args, y), types))))
  {
    hide ArgsKey, ArgKey, ValueOf;
    var n, m := x.end - x.start, y.end - y.start;
    ghost var a, b := ValuesOf(Cut(args, x), types), ValuesOf(Cut(args, y), types);
    assert |a| == n && |b| == m;
    if n != m {
      return if n < m then -1 else 1;
    }
    BeforeAppend([n], ArgsKey(a), ArgsKey(b));
    for j := 0 to n
      invariant a[..j] == b[..j]
    {
      c := CompareArg(types, args[x.start + j], args[y.start + j]);
      assert a[j] == ValueOf(args[x.start + j], types) && b[j] == ValueOf(args[y.start + j], types);
      if c != 0 {
        ArgsDecide(a, b, j);
        return;
      }
      assert a[..j + 1] == a[..j] + [a[j]] && b[..j + 1] == b[..j] + [b[j]];
    }
    assert a[..|a|] == a && b[..|b|] == b;
    BeforeIrreflexive(ArgsKey(a));
    c := 0;
  }

  lemma {:induction false} ArgsDecide(a: seq<ArgValue>, b: seq<ArgValue>, j: nat)
    requires |a| == |b| && j < |a| && a[..j] == b[..j] && a[j] != b[j]
    ensures a != b
    ensures Before(ArgsKey(a), ArgsKey(b)) <==> Before(ArgKey(a[j]), ArgKey(b[j]))
  {
    hide ArgKey;
    assert ArgsKey(a) == ArgKey(a[0]) + ArgsKey(a[1..]) && ArgsKey(b) == ArgKey(b[0]) + ArgsKey(b[1..]);
    if j == 0 {
      ArgDiffer(a[0], b[0]);
      DifferAppend(ArgKey(a[0]), ArgKey(b[0]), ArgsKey(a[1..]), ArgsKey(b[1..]));
    } else {
      assert a[0] == a[..j][0] == b[..j][0] == b[0];
      assert a[1..][..j - 1] == a[..j][1..] && b[1..][..j - 1] == b[..j][1..];
      ArgsDecide(a[1..], b[1..], j - 1);
      BeforeAppend(ArgKey(a[0]), ArgsKey(a[1..]), ArgsKey(b[1..]));
    }
  }

  /** The order functor over stored windows. */
  method WindowLess(pool: seq<CgRecord>, args: seq<AbstractArg>, types: seq<PtrType>, w: nat, a: nat, b: nat) returns (r: bool)
    requires a + w <= |pool| && b + w <= |pool| && RecordsIn(pool, args) && ArgsIn(args, types)
    ensures r <==> WindowBefore(Slot(LevelsOf(pool, args, types), a, w), Slot(LevelsOf(pool, args, types), b, w))
  {
    hide Vids, LevelsKey, LevelKey, LevelOf, ValuesOf, Before;
    ghost var x, y := Slot(LevelsOf(pool, args, types), a, w), Slot(LevelsOf(pool, args, types), b, w);
    for i := 0 to w
      invariant forall j :: 0 <= j < i ==> x[j].vid == y[j].vid
    {
      SlotAt(pool, args, types, a, w, i);
      SlotAt(pool, args, types, b, w, i);
      if pool[a + i].vid != pool[b + i].vid {
        VidsDecide(x, y, i);
        return pool[a + i].vid < pool[b + i].vid;
      }
    }
    SameVids(x, y);
    BeforeAppend(Vids(x), LevelsKey(x), LevelsKey(y));
    for i := 0 to w
      invariant forall j :: 0 <= j < i ==> x[j].args == y[j].args
    {
      SlotAt(pool, args, types, a, w, i);
      SlotAt(pool, args, types, b, w, i);
      var c := CompareArgs(types, args, pool[a + i].args, pool[b + i].args);
      if c != 0 {
        LevelsDecide(x, y, i);
        LevelKeyOfArgs(x[i]);
        LevelKeyOfArgs(y[i]);
        return c < 0;
      }
    }
    SameLevels(x, y);
    BeforeIrreflexive(LevelsKey(x));
    r := false;
  }

  lemma LevelKeyOfArgs(l: Level)
    ensures LevelKey(l) == LevelKey(Level(0, l.args))
  {
  }

  lemma SlotAt(pool: seq<CgRecord>, args: seq<AbstractArg>, types: seq<PtrType>, a: nat, w: nat, i: nat)
    requires a + w <= |pool| && i < w
    ensures var win := Slot(LevelsOf(pool, args, types), a, w);
      |win| == w && win[i] == Level(pool[a + i].vid, ValuesOf(Cut(args, pool[a + i].args), types))
  {
    hide ValuesOf, Cut;
  }

  lemma {:induction false} VidsDecide(x: seq<Level>, y: seq<Level>, i: nat)
    requires |x| == |y| && i < |x| && x[i].vid != y[i].vid && forall j :: 0 <= j < i ==> x[j].vid == y[j].vid
    ensures WindowBefore(x, y) <==> x[i].vid < y[i].vid
  {
    hide LevelsKey;
    VidsDecide'(x, y, i);
    VidsDiffer(x, y);
    VidsDiffer(y, x);
    DifferAppend(Vids(x), Vids(y), LevelsKey(x), LevelsKey(y));
  }

  lemma {:induction false} VidsDecide'(x: seq<Level>, y: seq<Level>, i: nat)
    requires |x| == |y| && i < |x| && x[i].vid != y[i].vid && forall j :: 0 <= j < i ==> x[j].vid == y[j].vid
    ensures Before(Vids(x), Vids(y)) <==> x[i].vid < y[i].vid
  {
    assert Vids(x)[1..] == Vids(x[1..]) && Vids(y)[1..] == Vids(y[1..]);
    if i > 0 {
      assert forall j :: 0 <= j < i - 1 ==> x[1..][j] == x[j + 1] && y[1..][j] == y[j + 1];
      VidsDecide'(x[1..], y[1..], i - 1);
    }
  }

  lemma SameVids(x: seq<Level>, y: seq<Level>)
    requires |x| == |y| && forall j :: 0 <= j < |x| ==> x[j].vid == y[j].vid
    ensures Vids(x) == Vids(y)
  {
    hide Vids;
    VidsDiffer(x, y);
    VidsDiffer(y, x);
  }

  lemma {:induction false} LevelsDecide(x: seq<Level>, y: seq<Level>, i: nat)
    requires |x| == |y| && i < |x| && x[i].args != y[i].args && forall j :: 0 <= j < i ==> x[j].args == y[j].args
    ensures Before(LevelsKey(x), LevelsKey(y)) <==> Before(LevelKey(x[i]), LevelKey(y[i]))
  {
    if i == 0 {
      LevelDiffer(x[0], y[0]);
      hide LevelKey;
      DifferAppend(LevelKey(x[0]), LevelKey(y[0]), LevelsKey(x[1..]), LevelsKey(y[1..]));
    } else {
      assert LevelKey(x[0]) == LevelKey(y[0]);
      hide LevelKey;
      assert forall j :: 0 <= j < i - 1 ==> x[1..][j] == x[j + 1] && y[1..][j] == y[j + 1];
      LevelsDecide(x[1..], y[1..], i - 1);
      BeforeAppend(LevelKey(x[0]), LevelsKey(x[1..]), LevelsKey(y[1..]));
    }
  }

  lemma {:induction false} SameLevels(x: seq<Level>, y: seq<Level>)
    requires |x| == |y| && forall j :: 0 <= j < |x| ==> x[j].args == y[j].args
    ensures LevelsKey(x) == LevelsKey(y)
  {
    if x != [] {
      assert LevelKey(x[0]) == LevelKey(y[0]);
      SameLevels(x[1..], y[1..]);
    }
  }

  // ----- equality and hash of stored windows

  method SameTypes(types: seq<PtrType>, x: Slice, y: Slice) returns (r: bool)
    requires In(x, |types|) && In(y, |types|)
    ensures r <==> Cut(types, x) == Cut(types, y)
  {
    ghost var a, b := types[x.start..x.end], types[y.start..y.end];
    if x.end - x.start != y.end - y.start { return false; }
    for k := 0 to x.end - x.start
      invariant a[..k] == b[..k]
    {
      var p, q := types[x.start + k], types[y.start + k];
      assert p == a[k] && q == b[k];
      if p.vid != q.vid || p.size != q.size { return false; }
      assert a[..k + 1] == a[..k] + [p] && b[..k + 1] == b[..k] + [q];
    }
    assert a[..|a|] == a && b[..|b|] == b;
    r := true;
  }

  method SameArgs(types: seq<PtrType>, args: seq<AbstractArg>, x: Slice, y: Slice) returns (r: bool)
    requires In(x, |args|) && In(y, |args|) && ArgsIn(args, types)
    ensures r <==> ValuesOf(Cut(args, x), types) == ValuesOf(Cut(args, y), types)
  {
    ghost var a, b := ValuesOf(Cut(args, x), types), ValuesOf(Cut(args, y), types);
    assert |a| == x.end - x.start && |b| == y.end - y.start;
    if x.end - x.start != y.end - y.start { return false; }
    for j := 0 to x.end - x.start
      invariant forall i :: 0 <= i < j ==> a[i] == b[i]
    {
      var p, q := args[x.start + j], args[y.start + j];
      assert a[j] == ValueOf(p, types) && b[j] == ValueOf(q, types);
      if p.kind != q.kind { return false; }
      if p.kind.PTR? {
        var same := SameTypes(types, p.vals, q.vals);
        if !same { return false; }
      }
    }
    r := true;
  }

  /** The equality functor over stored windows. */
  method WindowSame(pool: seq<CgRecord>, args: seq<AbstractArg>, types: seq<PtrType>, w: nat, a: nat, b: nat) returns (r: bool)
    requires a + w <= |pool| && b + w <= |pool| && RecordsIn(pool, args) && ArgsIn(args, types)
    ensures r <==> Slot(LevelsOf(pool, args, types), a, w) == Slot(LevelsOf(pool, args, types), b, w)
  {
    hide LevelOf, ValuesOf;
    ghost var x, y := Slot(LevelsOf(pool, args, types), a, w), Slot(LevelsOf(pool, args, types), b, w);
    for i := 0 to w
      invariant forall j :: 0 <= j < i ==> x[j] == y[j]
    {
      SlotAt(pool, args, types, a, w, i);
      SlotAt(pool, args, types, b, w, i);
      if pool[a + i].vid != pool[b + i].vid { return false; }
      var same := SameArgs(types, args, pool[a + i].args, pool[b + i].args);
      if !same { return false; }
    }
    r := true;
  }

  /** The hash functor over stored windows: it depends on the window alone, so windows that
      the equality functor identifies have equal hashes. */
  method WindowHash(pool: seq<CgRecord>, args: seq<AbstractArg>, types: seq<PtrType>, w: nat, p: nat) returns (h: u64)
    requires p + w <= |pool| && RecordsIn(pool, args) && ArgsIn(args, types)
    ensures h == HashWindow(0, Slot(LevelsOf(pool, args, types), p, w))
  {
    hide LevelOf, ValuesOf, HashArgs, Mix;
    h := 0;
    ghost var x := Slot(LevelsOf(pool, args, types), p, w);
    for i := 0 to w
      invariant |x| == w && h == HashWindow(0, x[..i])
    {
      SlotAt(pool, args, types, p, w, i);
      var lvl := pool[p + i];
      h := Mix(h, lvl.vid);
      h := HashArgSlice(h, types, args, lvl.args);
      assert x[..i + 1][..i] == x[..i];
    }
    assert x[..w] == x;
  }

  method HashArgSlice(h0: u64, types: seq<PtrType>, args: seq<AbstractArg>, s: Slice) returns (h: u64)
    requires In(s, |args|) && ArgsIn(args, types)
    ensures h == HashArgs(h0, ValuesOf(Cut(args, s), types))
  {
    hide HashTypes, Mix;
    h := h0;
    ghost var x := ValuesOf(Cut(args, s), types);
    for j := s.start to s.end
      invariant h == HashArgs(h0, x[..j - s.start])
    {
      var a := args[j];
      assert x[j - s.start] == ValueOf(a, types);
      assert x[..j + 1 - s.start][..j - s.start] == x[..j - s.start];
      h := Mix(h, KindIndex(a.kind));
      if a.kind.PTR? { h := HashTypeSlice(h, types, a.vals); }
    }
    assert x[..|x|] == x;
  }

  method HashTypeSlice(h0: u64, types: seq<PtrType>, s: Slice) returns (h: u64)
    requires In(s, |types|)
    ensures h == HashTypes(h0, Cut(types, s))
  {
    hide Mix;
    h := h0;
    ghost var x := types[s.start..s.end];
    for k := s.start to s.end
      invariant h == HashTypes(h0, x[..k - s.start])
    {
      assert x[k - s.start] == types[k];
      assert x[..k + 1 - s.start][..k - s.start] == x[..k - s.start];
      h := Mix(h, types[k].vid);
      h := Mix(h, types[k].size);
    }
    assert x[..|x|] == x;
  }
}
