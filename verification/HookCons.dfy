/** The types recorded at an address: those of its constructions that no later construction
    at the same address covers. */
module HookCons {
  import opened HookSpec

  /** The constructions of a trace at one address, in order. */
  function Constructions(trace: seq<Record>, addr: u64): seq<PtrType>
    decreases |trace|
  {
    if trace == [] then []
    else
      var last := trace[|trace| - 1];
      Constructions(trace[..|trace| - 1], addr)
      + if last.action.Cons? && last.ptr == addr then [PtrType(last.vid, last.size)] else []
  }

  ghost predicate AllBelow(types: seq<PtrType>, size: u64) {
    forall i :: 0 <= i < |types| ==> types[i].size < size
  }

  /** The constructions whose size exceeds that of every later one. */
  ghost function Uncovered(h: seq<PtrType>): seq<PtrType> {
    if h == [] then []
    else (if AllBelow(h[1..], h[0].size) then [h[0]] else []) + Uncovered(h[1..])
  }

  ghost predicate Decreasing(types: seq<PtrType>) {
    forall i, j :: 0 <= i < j < |types| ==> types[i].size > types[j].size
  }

  lemma {:induction false} BiggerOfAppend(a: seq<PtrType>, b: seq<PtrType>, size: u64)
    ensures Bigger(a + b, size) == Bigger(a, size) + Bigger(b, size)
  {
    if a == [] {
      assert a + b == b;
    } else {
      assert (a + b)[1..] == a[1..] + b;
      BiggerOfAppend(a[1..], b, size);
    }
  }

  lemma {:induction false} UncoveredStep(h: seq<PtrType>, x: PtrType)
    ensures Uncovered(h + [x]) == Bigger(Uncovered(h), x.size) + [x]
  {
    hide Uncovered, Bigger, AllBelow;
    BiggerOfOne(x, x.size);
    NothingUncovered();
    if h == [] {
      UncoveredOne(x);
      assert h + [x] == [x] && [] + [x] == [x];
    } else {
      var first, rest := h[0], h[1..];
      assert h == [first] + rest && h + [x] == [first] + (rest + [x]);
      UncoveredFirst(first, rest);
      UncoveredFirst(first, rest + [x]);
      UncoveredStep(rest, x);
      BelowAppend(rest, x, first.size);
      var kept := if AllBelow(rest, first.size) then [first] else [];
      BiggerOfAppend(kept, Uncovered(rest), x.size);
      BiggerOfOne(first, x.size);
      var kept' := Bigger(kept, x.size);
      assert kept' + (Bigger(Uncovered(rest), x.size) + [x]) == kept' + Bigger(Uncovered(rest), x.size) + [x];
    }
  }

  lemma UncoveredOne(x: PtrType)
    ensures Uncovered([x]) == [x]
  {
    assert [x][1..] == [];
  }

  lemma UncoveredFirst(first: PtrType, rest: seq<PtrType>)
    ensures Uncovered([first] + rest) == (if AllBelow(rest, first.size) then [first] else []) + Uncovered(rest)
  {
    assert ([first] + rest)[1..] == rest;
  }

  lemma BelowAppend(types: seq<PtrType>, x: PtrType, size: u64)
    ensures AllBelow(types + [x], size) <==> AllBelow(types, size) && x.size < size
  {
    var all := types + [x];
    assert all[|types|] == x && forall i :: 0 <= i < |types| ==> all[i] == types[i];
  }

  lemma BiggerOfOne(x: PtrType, size: u64)
    ensures Bigger([], size) == [] && Bigger([x], size) == if x.size <= size then [] else [x]
  {
    assert [x][1..] == [];
  }

  lemma {:induction false} UncoveredDecreases(h: seq<PtrType>)
    ensures Decreasing(Uncovered(h))
    ensures forall size :: AllBelow(h, size) ==> AllBelow(Uncovered(h), size)
  {
    if h != [] {
      UncoveredDecreases(h[1..]);
      forall size | AllBelow(h, size) ensures AllBelow(Uncovered(h), size) {
        assert AllBelow(h[1..], size);
      }
    }
  }

  lemma ConsStep(s: CgState, r: Record, addr: u64)
    ensures TypesAt(StepCg(s, r).cons, addr) ==
      if r.action.Cons? && r.ptr == addr then Bigger(TypesAt(s.cons, addr), r.size) + [PtrType(r.vid, r.size)]
      else TypesAt(s.cons, addr)
  {
    hide Bigger, AllTypes, PopContext, ArgOf;
  }

  /** The type list kept at an address holds exactly the uncovered constructions of the trace
      there, in order; so it is strictly decreasing in size. */
  lemma {:induction false} TypesAreUncovered(trace: seq<Record>, c: Config, addr: u64)
    requires c.cgMode
    ensures TypesAt(Run(trace, c).cg.cons, addr) == Uncovered(Constructions(trace, addr))
    ensures Decreasing(TypesAt(Run(trace, c).cg.cons, addr))
    decreases |trace|
  {
    hide StepPtr, StepCg, Bigger, Uncovered, Decreasing;
    if trace == [] {
      NothingUncovered();
    } else {
      var init, last := trace[..|trace| - 1], trace[|trace| - 1];
      TypesAreUncovered(init, c, addr);
      ConsStep(Run(init, c).cg, last, addr);
      if last.action.Cons? && last.ptr == addr {
        UncoveredStep(Constructions(init, addr), PtrType(last.vid, last.size));
      } else {
        assert Constructions(init, addr) + [] == Constructions(init, addr);
      }
    }
    UncoveredDecreases(Constructions(trace, addr));
  }

  lemma NothingUncovered()
    ensures Uncovered([]) == []
  {
  }

  /** A pointer argument shows the uncovered constructions at its address when it is passed. */
  lemma ArgumentSnapshot(trace: seq<Record>, c: Config, r: Record)
    requires c.cgMode && r.action.Arg?
    ensures var args := Run(trace + [r], c).cg.pending;
      && args != [] && args[..|args| - 1] == Run(trace, c).cg.pending
      && (r.size == 1 && r.ptr != 0 ==> args[|args| - 1] == Ptr(Uncovered(Constructions(trace, r.ptr))))
  {
    RunStep(trace, r, c);
    TypesAreUncovered(trace, c, r.ptr);
  }
}
