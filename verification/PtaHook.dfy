/** The hook runtime: one state machine over the records of an instrumented program. Its
    pools, offsets and stacks always denote what the trace alone determines. */
module PtaHook {
  import opened HookSpec
  import opened Interning
  import opened CgPool

  const NO_VID := -1
  const NO_LEVEL := Level(NO_VID, [])

  ghost predicate ScopesIn(scopes: seq<Scope>, n: nat) {
    forall i :: 0 <= i < |scopes| ==> scopes[i].start <= scopes[i].end <= n
  }

  ghost predicate ContextDenotes(context: seq<(int, Slice)>, types: seq<PtrType>, spec: seq<(int, seq<PtrType>)>) {
    && |context| == |spec|
    && forall i :: 0 <= i < |context| ==>
      In(context[i].1, |types|) && spec[i] == (context[i].0, Cut(types, context[i].1))
  }

  /** The call-graph fields of the runtime denote a call-graph state. */
  ghost predicate CgDenotes(pending: seq<AbstractArg>, cons: map<u64, seq<PtrType>>, context: seq<(int, Slice)>,
                            recent: seq<CgRecord>, pool: seq<CgRecord>, coverage: set<nat>,
                            args: seq<AbstractArg>, types: seq<PtrType>, w: nat, s: CgState) {
    && ArgsIn(pending, types) && ValuesOf(pending, types) == s.pending
    && cons == s.cons
    && ContextDenotes(context, types, s.context)
    && ArgsIn(args, types) && RecordsIn(recent, args) && RecordsIn(pool, args)
    && LevelsOf(recent, args, types) == Recent(NO_LEVEL, s.calls, w)
    && Interned(LevelsOf(pool, args, types), coverage, NO_LEVEL, s.calls, w)
  }

  class PtaHook {
    const c: Config
    var ptrToVid: map<u64, Region>
    var pts: map<int, set<(int, seq<int>)>>
    var scopeStack: seq<Scope>
    var scopeAllocaPool: seq<u64>
    var bbRecent: seq<int>
    var bbCoverage: set<nat>
    var allocaPool: seq<int>
    var cgRecent: seq<CgRecord>
    var cgCoverage: set<nat>
    var cgPool: seq<CgRecord>
    var pendingArgs: seq<AbstractArg>
    var callContext: seq<(int, Slice)>
    var consMap: map<u64, seq<PtrType>>
    var argPool: seq<AbstractArg>
    var ptrTypePool: seq<PtrType>

    /** The records consumed so far. */
    ghost var trace: seq<Record>

    ghost function PtrFields(): PtrState
      reads `ptrToVid, `scopeAllocaPool, `scopeStack, `pts
    {
      PtrState(ptrToVid, scopeAllocaPool, scopeStack, pts)
    }

    ghost predicate BbDenotes(blocks: seq<int>)
      reads `bbRecent, `allocaPool, `bbCoverage
    {
      bbRecent == Recent(NO_VID, blocks, c.bbWidth) && Interned(allocaPool, bbCoverage, NO_VID, blocks, c.bbWidth)
    }

    ghost predicate CgFieldsDenote(s: CgState)
      reads `pendingArgs, `consMap, `callContext, `cgRecent, `cgPool, `cgCoverage, `argPool, `ptrTypePool
    {
      CgDenotes(pendingArgs, consMap, callContext, cgRecent, cgPool, cgCoverage, argPool, ptrTypePool, c.cgWidth, s)
    }

    ghost predicate Denotes(s: State)
      reads this
    {
      && c.bbWidth > 0 && c.cgWidth > 0
      && PtrFields() == s.ptr && ScopesIn(scopeStack, |scopeAllocaPool|)
      && BbDenotes(s.blocks)
      && CgFieldsDenote(s.cg)
    }

    ghost predicate Valid()
      reads this
    {
      Denotes(Run(trace, c))
    }

    constructor (config: Config)
      requires config.bbWidth > 0 && config.cgWidth > 0
      ensures Valid() && trace == [] && c == config
    {
      c := config;
      ptrToVid, pts, scopeStack, scopeAllocaPool := map[], map[], [], [];
      bbRecent, bbCoverage, allocaPool := seq(config.bbWidth, _ => NO_VID), {}, [];
      cgRecent := seq(config.cgWidth, _ => CgRecord(NO_VID, Slice(0, 0)));
      cgCoverage, cgPool, pendingArgs, callContext, consMap := {}, [], [], [], map[];
      argPool, ptrTypePool := [], [];
      trace := [];
      new;
      InternedStart(NO_VID, c.bbWidth);
      InternedStart(NO_LEVEL, c.cgWidth);
      assert Padding(NO_VID, c.bbWidth) + [] == bbRecent;
      assert Padding(NO_LEVEL, c.cgWidth) + [] == LevelsOf(cgRecent, [], []);
      assert LevelsOf(cgPool, argPool, ptrTypePool) == [];
      assert ValuesOf(pendingArgs, ptrTypePool) == [];
    }

    // ----- points-to table

    /** Erases the allocas of the top scope and pops it. */
    method PopTop()
      requires scopeStack != [] && ScopesIn(scopeStack, |scopeAllocaPool|)
      modifies `ptrToVid, `scopeStack
      ensures PtrFields() == PopScope(old(PtrFields())) && ScopesIn(scopeStack, |scopeAllocaPool|)
    {
      var top := scopeStack[|scopeStack| - 1];
      ghost var live := ptrToVid;
      for k := top.start to top.end
        invariant ptrToVid == Erase(live, scopeAllocaPool[top.start..k])
        invariant scopeStack == old(scopeStack)
      {
        ptrToVid := ptrToVid - {scopeAllocaPool[k]};
        assert scopeAllocaPool[top.start..k + 1] == scopeAllocaPool[top.start..k] + [scopeAllocaPool[k]];
      }
      scopeStack := scopeStack[..|scopeStack| - 1];
    }

    method Alloca(r: Record)
      requires scopeStack != [] && ScopesIn(scopeStack, |scopeAllocaPool|) && r.action.Alloca?
      modifies `ptrToVid, `scopeStack, `scopeAllocaPool
      ensures PtrFields() == StepPtr(old(PtrFields()), r, c.k) && ScopesIn(scopeStack, |scopeAllocaPool|)
    {
      ptrToVid := ptrToVid[r.ptr := Region.Region(r.vid, r.size)];
      var newEnd := |scopeAllocaPool|;
      scopeAllocaPool := scopeAllocaPool + [r.ptr];
      var n := |scopeStack| - 1;
      scopeStack := scopeStack[n := scopeStack[n].(end := newEnd)];
    }

    /** `upper_bound` and one step back: the greatest base that is not above the address. */
    method FindFloor(addr: u64) returns (found: bool, base: u64)
      ensures found ==> IsFloor(ptrToVid.Keys, addr, base)
      ensures !found ==> forall b :: b in ptrToVid ==> addr < b
    {
      found, base := false, 0;
      var rest := ptrToVid.Keys;
      while rest != {}
        invariant rest <= ptrToVid.Keys
        invariant found ==> base in ptrToVid && base <= addr
        invariant forall b :: b in ptrToVid && b !in rest && b <= addr ==> found && b <= base
        decreases rest
      {
        var b :| b in rest;
        if b <= addr && (!found || base < b) { found, base := true, b; }
        rest := rest - {b};
      }
    }

    method Probe(r: Record)
      requires r.action.Probe?
      modifies `pts
      ensures PtrFields() == StepPtr(old(PtrFields()), r, c.k)
    {
      var found, base := FindFloor(r.ptr);
      if !found {
        assert forall vid :: !Hits(ptrToVid, r.ptr, vid);
        return;
      }
      var region := ptrToVid[base];
      if r.ptr < EndOf(base, region.size) {
        var n := if |scopeStack| < c.k then |scopeStack| else c.k;
        var context := [];
        for j := 0 to n
          invariant |context| == j && forall i :: 0 <= i < j ==> context[i] == scopeStack[i].vid
        {
          context := context + [scopeStack[j].vid];
        }
        assert context == Context(scopeStack, c.k);
        ProbeRecords(PtrFields(), r, c.k, base);
        pts := pts[r.vid := (if r.vid in pts then pts[r.vid] else {}) + {(region.vid, context)}];
      } else {
        ProbeMisses(PtrFields(), r, c.k, base);
      }
    }

    method BeginPtrScope(vid: int)
      requires ScopesIn(scopeStack, |scopeAllocaPool|)
      modifies `scopeStack
      ensures scopeStack == old(scopeStack) + [Scope(vid, |scopeAllocaPool|, |scopeAllocaPool|)]
      ensures ScopesIn(scopeStack, |scopeAllocaPool|)
    {
      var cur := |scopeAllocaPool|;
      scopeStack := scopeStack + [Scope(vid, cur, cur)];
    }

    method LandPtr(vid: int)
      requires ScopesIn(scopeStack, |scopeAllocaPool|)
      modifies `ptrToVid, `scopeStack
      ensures PtrFields() == PopUntil(old(PtrFields()), vid) && ScopesIn(scopeStack, |scopeAllocaPool|)
    {
      while scopeStack != [] && scopeStack[|scopeStack| - 1].vid != vid
        invariant ScopesIn(scopeStack, |scopeAllocaPool|)
        invariant scopeAllocaPool == old(scopeAllocaPool) && pts == old(pts)
        invariant PopUntil(PtrFields(), vid) == PopUntil(old(PtrFields()), vid)
        decreases |scopeStack|
      {
        PopTop();
      }
    }

    // ----- basic blocks

    /** Whether a stored window has the contents of the one at `p`. */
    method FindBlocks(p: nat) returns (found: bool)
      requires p + c.bbWidth <= |allocaPool| && forall a :: a in bbCoverage ==> a + c.bbWidth <= |allocaPool|
      ensures found <==> Kept(allocaPool, bbCoverage, c.bbWidth, Slot(allocaPool, p, c.bbWidth))
    {
      found := false;
      var rest := bbCoverage;
      while rest != {} && !found
        invariant rest <= bbCoverage
        invariant !found ==> forall a :: a in bbCoverage && a !in rest ==> Slot(allocaPool, a, c.bbWidth) != Slot(allocaPool, p, c.bbWidth)
        invariant found ==> Kept(allocaPool, bbCoverage, c.bbWidth, Slot(allocaPool, p, c.bbWidth))
        decreases rest
      {
        var a :| a in rest;
        found := SameBlocks(allocaPool, a, p, c.bbWidth);
        rest := rest - {a};
      }
    }

    method BasicBlock(size: u64, ghost blocks: seq<int>)
      requires c.bbWidth > 0 && BbDenotes(blocks)
      modifies `bbRecent, `bbCoverage, `allocaPool
      ensures BbDenotes(blocks + [ToVid(size)])
    {
      hide Recent;
      var bbVid := ToVid(size);
      RecentShift(NO_VID, blocks, bbVid, c.bbWidth);
      bbRecent := bbRecent[1..] + [bbVid];
      var allocaSize := |allocaPool|;
      ghost var before := allocaPool;
      for j := 0 to c.bbWidth
        invariant bbRecent == old(bbRecent)[1..] + [bbVid] && bbCoverage == old(bbCoverage)
        invariant allocaPool == before + bbRecent[..j]
      {
        allocaPool := allocaPool + [bbRecent[j]];
      }
      assert bbRecent[..c.bbWidth] == bbRecent && |bbRecent| == c.bbWidth;
      SlotAtEnd(before, bbRecent, bbCoverage, c.bbWidth);
      var found := FindBlocks(allocaSize);
      if !found {
        bbCoverage := bbCoverage + {allocaSize};
        InternNew(before, old(bbCoverage), NO_VID, blocks, c.bbWidth, bbVid);
      } else {
        allocaPool := allocaPool[..allocaSize];
        assert allocaPool == before;
        InternOld(before, old(bbCoverage), NO_VID, blocks, c.bbWidth, bbVid);
      }
    }

    // ----- call contexts

    method PushArg(r: Record, ghost s: CgState)
      requires CgFieldsDenote(s) && r.action.Arg?
      modifies `pendingArgs, `ptrTypePool
      ensures CgFieldsDenote(StepCg(s, r))
    {
      var a: AbstractArg;
      if r.size == 1 {
        if r.ptr == 0 {
          a := AbstractArg(NULL_PTR, UNINITIALIZED);
        } else {
          var start := |ptrTypePool|;
          GrowPools(pendingArgs, consMap, callContext, cgRecent, cgPool, cgCoverage, argPool, ptrTypePool, [], TypesAt(consMap, r.ptr), c.cgWidth, s);
          if r.ptr in consMap { ptrTypePool := ptrTypePool + consMap[r.ptr]; }
          a := AbstractArg(PTR, Slice(start, |ptrTypePool|));
          assert Cut(ptrTypePool, a.vals) == TypesAt(consMap, r.ptr);
          assert argPool + [] == argPool;
        }
      } else {
        // the scalar is read as a signed 64-bit number
        var v := if r.ptr < 0x8000_0000_0000_0000 then r.ptr as int else r.ptr - 0x1_0000_0000_0000_0000;
        a := AbstractArg(if v > 0 then POS_NUM else if v < 0 then NEG_NUM else ZERO_NUM, UNINITIALIZED);
      }
      assert ValueOf(a, ptrTypePool) == ArgOf(r, s.cons);
      hide ValueOf, ArgOf;
      ValuesConcat(pendingArgs, [a], ptrTypePool);
      assert ValuesOf([a], ptrTypePool) == [ValueOf(a, ptrTypePool)];
      pendingArgs := pendingArgs + [a];
    }

    method ClearArgs(r: Record, ghost s: CgState)
      requires CgFieldsDenote(s) && r.action.ArgClear?
      modifies `pendingArgs
      ensures CgFieldsDenote(StepCg(s, r))
    {
      pendingArgs := [];
      assert ValuesOf(pendingArgs, ptrTypePool) == [];
    }

    method Construct(r: Record, ghost s: CgState)
      requires CgFieldsDenote(s) && r.action.Cons?
      modifies `consMap
      ensures CgFieldsDenote(StepCg(s, r))
    {
      var types := if r.ptr in consMap then consMap[r.ptr] else [];
      var kept := DropCovered(types, r.size);
      consMap := consMap[r.ptr := kept + [PtrType(r.vid, r.size)]];
    }

    method FindWindow(p: nat) returns (found: bool)
      requires p + c.cgWidth <= |cgPool| && forall a :: a in cgCoverage ==> a + c.cgWidth <= |cgPool|
      requires RecordsIn(cgPool, argPool) && ArgsIn(argPool, ptrTypePool)
      ensures var levels := LevelsOf(cgPool, argPool, ptrTypePool);
        found <==> Kept(levels, cgCoverage, c.cgWidth, Slot(levels, p, c.cgWidth))
    {
      hide RecordsIn, ArgsIn, LevelsOf, Slot;
      found := false;
      var rest := cgCoverage;
      ghost var levels := LevelsOf(cgPool, argPool, ptrTypePool);
      while rest != {} && !found
        invariant rest <= cgCoverage
        invariant !found ==> forall a :: a in cgCoverage && a !in rest ==> Slot(levels, a, c.cgWidth) != Slot(levels, p, c.cgWidth)
        invariant found ==> Kept(levels, cgCoverage, c.cgWidth, Slot(levels, p, c.cgWidth))
        decreases rest
      {
        var a :| a in rest;
        found := WindowSame(cgPool, argPool, ptrTypePool, c.cgWidth, a, p);
        rest := rest - {a};
      }
    }

    /** Copies a range of the type pool to its end. */
    method CopyRange(vals: Slice)
      requires In(vals, |ptrTypePool|)
      modifies `ptrTypePool
      ensures ptrTypePool == old(ptrTypePool) + Cut(old(ptrTypePool), vals)
    {
      ghost var before := ptrTypePool;
      for k := vals.start to vals.end
        invariant ptrTypePool == before + before[vals.start..k]
      {
        assert ptrTypePool[k] == before[k];
        assert before[vals.start..k + 1] == before[vals.start..k] + [before[k]];
        ptrTypePool := ptrTypePool + [ptrTypePool[k]];
      }
    }

    /** Copies the types of the pending pointer arguments to the end of the type pool. */
    method CopyTypes(ghost s: CgState)
      requires CgFieldsDenote(s)
      modifies `ptrTypePool
      ensures CgFieldsDenote(s)
      ensures ptrTypePool == old(ptrTypePool) + AllTypes(s.pending)
    {
      hide AllTypes, LevelsOf, Recent, Interned, ContextDenotes;
      ghost var before := ptrTypePool;
      ghost var copied := [];
      assert s.pending[0..] == s.pending;
      for i := 0 to |pendingArgs|
        invariant ptrTypePool == before + copied
        invariant copied + AllTypes(s.pending[i..]) == AllTypes(s.pending)
      {
        var a := pendingArgs[i];
        assert s.pending[i] == ValueOf(a, before);
        AllTypesStep(s.pending[i..]);
        assert s.pending[i..][1..] == s.pending[i + 1..];
        if a.kind.PTR? {
          CutGrows(before, copied, a.vals);
          CopyRange(a.vals);
          copied := copied + Cut(before, a.vals);
        }
      }
      assert s.pending[|pendingArgs|..] == [];
      NoTypes();
      GrowPools(pendingArgs, consMap, callContext, cgRecent, cgPool, cgCoverage, argPool, before, [], AllTypes(s.pending), c.cgWidth, s);
      assert argPool + [] == argPool && copied + [] == copied;
    }

    method BeginCgScope(r: Record, ghost s: CgState)
      requires c.cgWidth > 0 && CgFieldsDenote(s) && r.action.BeginScope?
      modifies `callContext, `ptrTypePool, `argPool, `pendingArgs, `cgRecent, `cgPool, `cgCoverage
      ensures CgFieldsDenote(StepCg(s, r))
    {
      var ctxStart := |ptrTypePool|;
      CopyTypes(s);
      ghost var context := callContext;
      callContext := callContext + [(r.vid, Slice(ctxStart, |ptrTypePool|))];
      assert Cut(ptrTypePool, Slice(ctxStart, |ptrTypePool|)) == AllTypes(s.pending);
      var rec := CgRecord(r.vid, Slice(|argPool|, |argPool| + |pendingArgs|));
      ghost var level := Level(r.vid, s.pending);
      GrowPools(pendingArgs, consMap, context, cgRecent, cgPool, cgCoverage, argPool, ptrTypePool, pendingArgs, [], c.cgWidth, s);
      assert ptrTypePool + [] == ptrTypePool;
      argPool := argPool + pendingArgs;
      assert Cut(argPool, rec.args) == pendingArgs;
      assert LevelOf(rec, argPool, ptrTypePool) == level;
      pendingArgs := [];
      assert ValuesOf(pendingArgs, ptrTypePool) == [];
      RecordWindow(rec, level, s.calls);
    }

    /** Shifts the window of recent calls and stores it unless it is stored already. */
    method RecordWindow(rec: CgRecord, ghost level: Level, ghost calls: seq<Level>)
      requires c.cgWidth > 0 && ArgsIn(argPool, ptrTypePool) && RecordsIn(cgRecent, argPool) && RecordsIn(cgPool, argPool)
      requires In(rec.args, |argPool|) && LevelOf(rec, argPool, ptrTypePool) == level
      requires LevelsOf(cgRecent, argPool, ptrTypePool) == Recent(NO_LEVEL, calls, c.cgWidth)
      requires Interned(LevelsOf(cgPool, argPool, ptrTypePool), cgCoverage, NO_LEVEL, calls, c.cgWidth)
      modifies `cgRecent, `cgPool, `cgCoverage
      ensures RecordsIn(cgRecent, argPool) && RecordsIn(cgPool, argPool)
      ensures LevelsOf(cgRecent, argPool, ptrTypePool) == Recent(NO_LEVEL, calls + [level], c.cgWidth)
      ensures Interned(LevelsOf(cgPool, argPool, ptrTypePool), cgCoverage, NO_LEVEL, calls + [level], c.cgWidth)
    {
      hide Recent, LevelOf;
      ghost var before, levels := cgPool, LevelsOf(cgPool, argPool, ptrTypePool);
      ShiftLevels(cgRecent, rec, argPool, ptrTypePool);
      RecentShift(NO_LEVEL, calls, level, c.cgWidth);
      cgRecent := cgRecent[1..] + [rec];
      ghost var win := LevelsOf(cgRecent, argPool, ptrTypePool);
      var poolSize := |cgPool|;
      for j := 0 to c.cgWidth
        invariant |cgRecent| == c.cgWidth && cgRecent == old(cgRecent)[1..] + [rec] && cgCoverage == old(cgCoverage)
        invariant cgPool == before + cgRecent[..j]
      {
        cgPool := cgPool + [cgRecent[j]];
      }
      assert cgRecent[..c.cgWidth] == cgRecent;
      RecordsInConcat(before, cgRecent, argPool);
      hide RecordsIn, ArgsIn, LevelsOf, Interned;
      LevelsConcat(before, cgRecent, argPool, ptrTypePool);
      InternedFits(levels, cgCoverage, NO_LEVEL, calls, c.cgWidth);
      SlotAtEnd(levels, win, cgCoverage, c.cgWidth);
      var found := FindWindow(poolSize);
      if !found {
        cgCoverage := cgCoverage + {poolSize};
        InternNew(levels, old(cgCoverage), NO_LEVEL, calls, c.cgWidth, level);
      } else {
        cgPool := cgPool[..poolSize];
        assert cgPool == before;
        InternOld(levels, old(cgCoverage), NO_LEVEL, calls, c.cgWidth, level);
      }
    }

    method EndCgScope(r: Record, ghost s: CgState)
      requires CgFieldsDenote(s) && r.action.EndScope? && s.context != []
      modifies `callContext
      ensures CgFieldsDenote(StepCg(s, r))
    {
      callContext := callContext[..|callContext| - 1];
    }

    method LandCg(r: Record, ghost s: CgState)
      requires CgFieldsDenote(s) && r.action.Landing?
      modifies `callContext
      ensures CgFieldsDenote(StepCg(s, r))
    {
      ghost var spec := s.context;
      while callContext != [] && callContext[|callContext| - 1].0 != r.vid
        invariant ContextDenotes(callContext, ptrTypePool, spec)
        invariant PopContext(spec, r.vid) == PopContext(s.context, r.vid)
        decreases |callContext|
      {
        callContext := callContext[..|callContext| - 1];
        spec := spec[..|spec| - 1];
      }
    }

    // ----- one record, and a whole buffer

    method Consume(r: Record)
      requires Valid() && Legal(Run(trace, c), r, c)
      modifies this
      ensures Valid() && trace == old(trace) + [r]
    {
      hide PopUntil, StepProbe, StepPtr, StepCg, CgFieldsDenote, BbDenotes, PopScope;
      ghost var s := Run(trace, c);
      if c.ptrMode { ConsumePtr(r); }
      if c.bbMode && r.action.BasicBlock? { BasicBlock(r.size, s.blocks); }
      if c.cgMode { ConsumeCg(r, s.cg); }
      RunStep(trace, r, c);
      trace := trace + [r];
    }

    method ConsumePtr(r: Record)
      requires ScopesIn(scopeStack, |scopeAllocaPool|)
      requires r.action.EndScope? || r.action.Alloca? ==> scopeStack != []
      modifies `ptrToVid, `scopeStack, `scopeAllocaPool, `pts
      ensures PtrFields() == StepPtr(old(PtrFields()), r, c.k) && ScopesIn(scopeStack, |scopeAllocaPool|)
    {
      hide PopUntil, StepProbe, PopScope;
      match r.action
      case Alloca => Alloca(r);
      case HeapAlloca => ptrToVid := ptrToVid[r.ptr := Region.Region(r.vid, r.size)];
      case Region => ptrToVid := ptrToVid[r.ptr := Region.Region(r.vid, r.size)];
      case HeapFree => ptrToVid := ptrToVid - {r.ptr};
      case Probe => Probe(r);
      case BeginScope => BeginPtrScope(r.vid);
      case EndScope => PopTop();
      case Landing => LandPtr(r.vid);
      case _ =>
    }

    method ConsumeCg(r: Record, ghost s: CgState)
      requires c.cgWidth > 0 && CgFieldsDenote(s)
      requires r.action.EndScope? ==> s.context != []
      modifies `pendingArgs, `ptrTypePool, `consMap, `callContext, `argPool, `cgRecent, `cgPool, `cgCoverage
      ensures CgFieldsDenote(StepCg(s, r))
    {
      hide CgFieldsDenote;
      match r.action
      case Arg => PushArg(r, s);
      case ArgClear => ClearArgs(r, s);
      case Cons => Construct(r, s);
      case BeginScope => BeginCgScope(r, s);
      case EndScope => EndCgScope(r, s);
      case Landing => LandCg(r, s);
      case _ =>
    }
  }

  method SameBlocks(pool: seq<int>, a: nat, b: nat, w: nat) returns (r: bool)
    requires a + w <= |pool| && b + w <= |pool|
    ensures r <==> Slot(pool, a, w) == Slot(pool, b, w)
  {
    for i := 0 to w
      invariant forall j :: 0 <= j < i ==> Slot(pool, a, w)[j] == Slot(pool, b, w)[j]
    {
      assert Slot(pool, a, w)[i] == pool[a + i] && Slot(pool, b, w)[i] == pool[b + i];
      if pool[a + i] != pool[b + i] { return false; }
    }
    r := true;
  }

  /** A window appended to a pool is found there, and elsewhere exactly as before. */
  lemma SlotAtEnd<T(!new)>(pool: seq<T>, added: seq<T>, offsets: set<nat>, w: nat)
    requires |added| == w && forall a :: a in offsets ==> a + w <= |pool|
    ensures Slot(pool + added, |pool|, w) == added
    ensures Kept(pool + added, offsets, w, added) <==> Kept(pool, offsets, w, added)
  {
    forall a | a in offsets ensures Slot(pool + added, a, w) == Slot(pool, a, w) { SlotGrows(pool, added, a, w); }
    hide Slot;
    if Kept(pool, offsets, w, added) {
      var a :| a in offsets && Slot(pool, a, w) == added;
      assert Slot(pool + added, a, w) == added;
    }
  }

  lemma ProbeRecords(s: PtrState, r: Record, k: nat, base: u64)
    requires IsFloor(s.live.Keys, r.ptr, base) && r.ptr < EndOf(base, s.live[base].size)
    ensures StepProbe(s, r, k) == s.(pts := TableWith(s.pts, r.vid, (s.live[base].vid, Context(s.scopes, k))))
  {
    hide EndOf, Context;
    assert Hits(s.live, r.ptr, s.live[base].vid);
    forall vid | Hits(s.live, r.ptr, vid) ensures vid == s.live[base].vid { HitsIsUnique(s.live, r.ptr, vid, s.live[base].vid); }
  }

  lemma ProbeMisses(s: PtrState, r: Record, k: nat, base: u64)
    requires IsFloor(s.live.Keys, r.ptr, base) && r.ptr >= EndOf(base, s.live[base].size)
    ensures StepProbe(s, r, k) == s
  {
    hide EndOf, Context;
    forall vid ensures !Hits(s.live, r.ptr, vid) {}
  }

  method DropCovered(types: seq<PtrType>, size: u64) returns (kept: seq<PtrType>)
    ensures kept == Bigger(types, size)
  {
    hide Bigger;
    kept := [];
    assert types[0..] == types;
    for i := 0 to |types|
      invariant kept + Bigger(types[i..], size) == Bigger(types, size)
    {
      assert types[i..][1..] == types[i + 1..];
      BiggerStep(types[i..], size);
      if types[i].size > size { kept := kept + [types[i]]; }
    }
    BiggerOfNothing(size);
    assert types[|types|..] == [];
  }

  lemma AllTypesStep(args: seq<ArgValue>)
    requires args != []
    ensures AllTypes(args) == (if args[0].Ptr? then args[0].types else []) + AllTypes(args[1..])
  {
  }

  lemma NoTypes()
    ensures AllTypes([]) == []
  {
  }

  lemma BiggerStep(types: seq<PtrType>, size: u64)
    requires types != []
    ensures Bigger(types, size) == (if types[0].size <= size then [] else [types[0]]) + Bigger(types[1..], size)
  {
  }

  lemma BiggerOfNothing(size: u64)
    ensures Bigger([], size) == []
  {
  }

  /** Growing the pools leaves everything the call-graph fields denote as it was. */
  lemma GrowPools(pending: seq<AbstractArg>, cons: map<u64, seq<PtrType>>, context: seq<(int, Slice)>,
                  recent: seq<CgRecord>, pool: seq<CgRecord>, coverage: set<nat>,
                  args: seq<AbstractArg>, types: seq<PtrType>,
                  moreArgs: seq<AbstractArg>, moreTypes: seq<PtrType>, w: nat, s: CgState)
    requires CgDenotes(pending, cons, context, recent, pool, coverage, args, types, w, s)
    requires ArgsIn(moreArgs, types + moreTypes)
    ensures CgDenotes(pending, cons, context, recent, pool, coverage, args + moreArgs, types + moreTypes, w, s)
  {
    ValuesGrow(pending, types, moreTypes);
    ValuesGrow(args, types, moreTypes);
    LevelsGrow(recent, args, types, moreArgs, moreTypes);
    LevelsGrow(pool, args, types, moreArgs, moreTypes);
    hide ValuesOf, LevelsOf, Interned, Recent, RecordsIn;
    forall i | 0 <= i < |context| ensures Cut(types + moreTypes, context[i].1) == Cut(types, context[i].1) {
      CutGrows(types, moreTypes, context[i].1);
    }
  }

  lemma RecordsInConcat(a: seq<CgRecord>, b: seq<CgRecord>, args: seq<AbstractArg>)
    requires RecordsIn(a, args) && RecordsIn(b, args)
    ensures RecordsIn(a + b, args)
  {
  }

  lemma InternedFits<T(!new)>(pool: seq<T>, offsets: set<nat>, pad: T, hist: seq<T>, w: nat)
    requires Interned(pool, offsets, pad, hist, w)
    ensures forall a :: a in offsets ==> a + w <= |pool|
  {
  }

  lemma ShiftLevels(recent: seq<CgRecord>, rec: CgRecord, args: seq<AbstractArg>, types: seq<PtrType>)
    requires recent != []
    ensures LevelsOf(recent[1..] + [rec], args, types) == LevelsOf(recent, args, types)[1..] + [LevelOf(rec, args, types)]
  {
    hide LevelOf;
  }
}
