/** What two modules share when they have the same term: everything the hasher reads of them,
    item by item in order, and nothing else. */
module IrReading {
  import opened StructuralHash
  import opened IrModule

  // ----- what is left out

  /** Of one instruction, a debug call is left out. */
  lemma KeptOfOne(i: Instruction)
    ensures Kept([i]) == if i.details.Call? && i.details.called.Some? && "llvm.dbg." <= i.details.called.value then [] else [i]
  {
    assert [i][1..] == [] && Kept([]) == [];
  }

  /** What is kept of two lists is what is kept of each, in order. */
  lemma {:induction false} KeptOfBoth(a: seq<Instruction>, b: seq<Instruction>)
    ensures Kept(a + b) == Kept(a) + Kept(b)
  {
    hide IsDebugCall;
    if a == [] {
      assert a + b == b;
    } else {
      KeptOfBoth(a[1..], b);
      assert (a + b)[1..] == a[1..] + b;
      var head := if IsDebugCall(a[0]) then [] else [a[0]];
      assert head + (Kept(a[1..]) + Kept(b)) == head + Kept(a[1..]) + Kept(b);
    }
  }

  /** Of one function, a debug function is left out. */
  lemma FunctionsOfOne(f: Function)
    ensures KeptFunctions([f]) == if "llvm.dbg." <= f.name then [] else [f]
  {
    assert [f][1..] == [] && KeptFunctions([]) == [];
  }

  lemma {:induction false} FunctionsOfBoth(a: seq<Function>, b: seq<Function>)
    ensures KeptFunctions(a + b) == KeptFunctions(a) + KeptFunctions(b)
  {
    hide IsDebugFunction;
    if a == [] {
      assert a + b == b;
    } else {
      FunctionsOfBoth(a[1..], b);
      assert (a + b)[1..] == a[1..] + b;
      var head := if IsDebugFunction(a[0]) then [] else [a[0]];
      assert head + (KeptFunctions(a[1..]) + KeptFunctions(b)) == head + KeptFunctions(a[1..]) + KeptFunctions(b);
    }
  }

  // ----- terms of the same shape

  lemma SplitHead(a: seq<Term>, x: seq<Term>, b: seq<Term>, y: seq<Term>)
    requires a + x == b + y && |a| == |b|
    ensures a == b && x == y
  {
    assert a == (a + x)[..|a|] && b == (b + y)[..|b|];
    assert x == (a + x)[|a|..] && y == (b + y)[|b|..];
  }

  ghost predicate All(parts: seq<Term>, p: Term -> bool) { forall i :: 0 <= i < |parts| ==> p(parts[i]) }

  ghost predicate No(parts: seq<Term>, p: Term -> bool) { forall i :: 0 <= i < |parts| ==> !p(parts[i]) }

  /** How many parts of one sort come first. */
  function Lead(parts: seq<Term>, p: Term -> bool): nat {
    if parts == [] || !p(parts[0]) then 0 else 1 + Lead(parts[1..], p)
  }

  lemma {:induction false} LeadIs(a: seq<Term>, x: seq<Term>, p: Term -> bool)
    requires All(a, p) && No(x, p)
    ensures Lead(a + x, p) == |a|
  {
    if a == [] {
      assert a + x == x;
    } else {
      LeadIs(a[1..], x, p);
      assert (a + x)[1..] == a[1..] + x;
    }
  }

  /** The parts of one sort that come first. */
  lemma SplitBy(a: seq<Term>, x: seq<Term>, b: seq<Term>, y: seq<Term>, p: Term -> bool)
    requires All(a, p) && All(b, p) && No(x, p) && No(y, p) && a + x == b + y
    ensures a == b && x == y
  {
    LeadIs(a, x, p);
    LeadIs(b, y, p);
    SplitHead(a, x, b, y);
  }

  lemma SameMixed(final: bool, seed: Word, parts: seq<Term>, final': bool, seed': Word, parts': seq<Term>)
    ensures Mixed(final, seed, parts) == Mixed(final', seed', parts') <==> final == final' && seed == seed' && parts == parts'
  {
  }

  lemma WordsTell(ws: seq<Word>, vs: seq<Word>)
    requires Words(ws) == Words(vs)
    ensures ws == vs
  {
    assert |Words(ws)| == |ws| && |Words(vs)| == |vs|;
    forall i | 0 <= i < |ws| ensures ws[i] == vs[i] { assert Words(ws)[i] == Words(vs)[i]; }
  }

  lemma TypesTell(ts: seq<TypeId>, us: seq<TypeId>)
    requires Types(ts) == Types(us)
    ensures ts == us
  {
    assert |Types(ts)| == |ts| && |Types(us)| == |us|;
    forall i | 0 <= i < |ts| ensures ts[i] == us[i] { assert Types(ts)[i] == Types(us)[i]; }
  }

  lemma FlagTells(a: bool, b: bool)
    requires Flag(a) == Flag(b)
    ensures a == b
  {
  }

  // ----- types

  ghost predicate SameTypeKind(k: TypeKind, l: TypeKind) {
    || (k.Integer? && l.Integer?)
    || (k.Pointer? && l.Pointer?)
    || (k.Callable? && l.Callable?)
    || (k.Struct? && l.Struct?)
    || (k.Array? && l.Array?)
    || (k.Vector? && l.Vector?)
    || (k.Plain? && l.Plain?)
  }

  lemma PointerPartsTell(e: Option<TypeId>, f: Option<TypeId>)
    requires PointerParts(e) == PointerParts(f)
    ensures e == f
  {
    hide Flag;
    var a, b := PointerParts(e), PointerParts(f);
    assert a[0] == b[0];
    FlagTells(e.None?, f.None?);
    if e.Some? { assert a[1] == Type(e.value) && b[1] == Type(f.value); }
  }

  lemma KindTells(k: TypeKind, l: TypeKind)
    requires SameTypeKind(k, l) && KindParts(k) == KindParts(l)
    ensures k == l
  {
    hide Flag, Count, Types, PointerParts;
    var a, b := KindParts(k), KindParts(l);
    match k
    case Integer(width) => assert a[0] == b[0];
    case Pointer(space, element) =>
      assert a[0] == b[0];
      PointerPartsTell(element, l.element);
    case Callable(varArg, result, params) =>
      SplitHead([Flag(varArg), Type(result)], Types(params), [Flag(l.varArg), Type(l.result)], Types(l.params));
      assert [Flag(varArg), Type(result)][0] == [Flag(l.varArg), Type(l.result)][0];
      assert [Flag(varArg), Type(result)][1] == [Flag(l.varArg), Type(l.result)][1];
      FlagTells(varArg, l.varArg);
      TypesTell(params, l.params);
    case Struct(packed, elements) =>
      var n, n' := Word(Count(|elements|)), Word(Count(|l.elements|));
      SplitHead([Flag(packed), n], Types(elements), [Flag(l.packed), n'], Types(l.elements));
      assert [Flag(packed), n][0] == [Flag(l.packed), n'][0];
      FlagTells(packed, l.packed);
      TypesTell(elements, l.elements);
    case Array(count, item) => assert a[0] == b[0] && a[1] == b[1];
    case Vector(minimum, scalable, item) =>
      assert a[0] == b[0] && a[1] == b[1] && a[2] == b[2];
      FlagTells(scalable, l.scalable);
    case Plain =>
  }

  /** Types of the same kind have the same term exactly when they are the same. */
  lemma NodeTells(node: TypeNode, other: TypeNode)
    requires SameTypeKind(node.kind, other.kind)
    ensures NodeTerm(node) == NodeTerm(other) <==> node == other
  {
    hide KindParts;
    if NodeTerm(node) == NodeTerm(other) {
      SameMixed(true, node.id, KindParts(node.kind), true, other.id, KindParts(other.kind));
      KindTells(node.kind, other.kind);
    }
  }

  // ----- constants and operands

  lemma IntTells(width: Word, words: seq<Word>, width': Word, words': seq<Word>)
    requires IntTerm(width, words) == IntTerm(width', words')
    ensures width == width' && words == words'
  {
    hide Words, Count;
    var a, b := [Word(width), Word(Count(|words|))], [Word(width'), Word(Count(|words'|))];
    SplitHead(a, Words(words), b, Words(words'));
    assert a[0] == b[0];
    WordsTell(words, words');
  }

  /** Constants have the same term exactly when they are the same. */
  lemma {:induction false} ConstantTells(c: Constant, d: Constant)
    requires ConstantTerm(c) == ConstantTerm(d)
    ensures c == d
    decreases c
  {
    SameSort(c, d);
    match c
    case Expr(opcode, t, operands) =>
      ExprParts(opcode, t, operands, d.opcode, d.t, d.operands);
      forall i | 0 <= i < |operands| ensures operands[i] == d.operands[i] { ConstantTells(operands[i], d.operands[i]); }
    case Aggregate(t, operands) =>
      AggregateParts(t, operands, d.t, d.operands);
      forall i | 0 <= i < |operands| ensures operands[i] == d.operands[i] { ConstantTells(operands[i], d.operands[i]); }
    case _ => LeafTells(c, d);
  }

  lemma SameSort(c: Constant, d: Constant)
    requires ConstantTerm(c).seed == ConstantTerm(d).seed
    ensures c.Expr? == d.Expr? && c.Aggregate? == d.Aggregate?
  {
    hide IntTerm, Words;
  }

  lemma LeafTells(c: Constant, d: Constant)
    requires ConstantTerm(c) == ConstantTerm(d) && !c.Expr? && !c.Aggregate? && !d.Expr? && !d.Aggregate?
    ensures c == d
  {
    hide IntTerm, Words;
    var a, b := ConstantTerm(c).parts, ConstantTerm(d).parts;
    assert ConstantTerm(c).seed == ConstantTerm(d).seed && a == b;
    match c
    case IntConst(width, words) =>
      assert a[0] == b[0];
      IntTells(width, words, d.width, d.words);
    case FloatConst(width, words) =>
      assert a[0] == b[0];
      IntTells(width, words, d.width, d.words);
    case DataSequence(element, count, bytes) =>
      var x, y := [Type(element), Word(count)], [Type(d.element), Word(d.count)];
      SplitHead(x, Words(bytes), y, Words(d.bytes));
      assert x[0] == y[0] && x[1] == y[1];
      WordsTell(bytes, d.bytes);
    case BlockAddress(owner, block) => assert a[0] == b[0] && a[1] == b[1];
    case OtherConst(t, kind) => assert a[0] == b[0] && a[1] == b[1];
    case _ => assert a[0] == b[0];
  }

  lemma ExprParts(opcode: Word, t: TypeId, cs: seq<Constant>, opcode': Word, t': TypeId, ds: seq<Constant>)
    requires ConstantTerm(Expr(opcode, t, cs)) == ConstantTerm(Expr(opcode', t', ds))
    ensures opcode == opcode' && t == t' && |cs| == |ds|
    ensures forall i :: 0 <= i < |cs| ==> ConstantTerm(cs[i]) == ConstantTerm(ds[i])
  {
    var a, b := [Word(opcode), Type(t)], [Word(opcode'), Type(t')];
    assert ConstantTerm(Expr(opcode, t, cs)).parts == a + ConstantTerms(cs);
    assert ConstantTerm(Expr(opcode', t', ds)).parts == b + ConstantTerms(ds);
    SplitHead(a, ConstantTerms(cs), b, ConstantTerms(ds));
    assert a[0] == b[0] && a[1] == b[1];
    ConstantsTell(cs, ds);
  }

  lemma AggregateParts(t: TypeId, cs: seq<Constant>, t': TypeId, ds: seq<Constant>)
    requires ConstantTerm(Aggregate(t, cs)) == ConstantTerm(Aggregate(t', ds))
    ensures t == t' && |cs| == |ds|
    ensures forall i :: 0 <= i < |cs| ==> ConstantTerm(cs[i]) == ConstantTerm(ds[i])
  {
    var a, b := [Type(t)], [Type(t')];
    assert ConstantTerm(Aggregate(t, cs)).parts == a + ConstantTerms(cs);
    assert ConstantTerm(Aggregate(t', ds)).parts == b + ConstantTerms(ds);
    SplitHead(a, ConstantTerms(cs), b, ConstantTerms(ds));
    assert a[0] == b[0];
    ConstantsTell(cs, ds);
  }

  lemma ConstantsTell(cs: seq<Constant>, ds: seq<Constant>)
    requires ConstantTerms(cs) == ConstantTerms(ds)
    ensures |cs| == |ds| && forall i :: 0 <= i < |cs| ==> ConstantTerm(cs[i]) == ConstantTerm(ds[i])
  {
    hide ConstantTerm;
    assert |ConstantTerms(cs)| == |cs| && |ConstantTerms(ds)| == |ds|;
    forall i | 0 <= i < |cs| ensures ConstantTerm(cs[i]) == ConstantTerm(ds[i]) {
      assert ConstantTerms(cs)[i] == ConstantTerms(ds)[i];
    }
  }

  /** Operands have the same term exactly when they are the same. */
  lemma OperandTells(o: Operand, p: Operand)
    requires OperandTerm(o) == OperandTerm(p)
    ensures o == p
  {
    SeedOfConstant(o);
    SeedOfConstant(p);
    hide ConstantTerm;
    var a, b := OperandTerm(o).parts, OperandTerm(p).parts;
    assert OperandTerm(o).seed == OperandTerm(p).seed && a == b;
    match o
    case Const(c) => ConstantTells(c, p.c);
    case BlockOperand(v) => assert a[0] == b[0];
    case _ => assert a[0] == b[0] && a[1] == b[1];
  }

  lemma SeedOfConstant(o: Operand)
    ensures OperandTerm(o).Mixed?
    ensures o.Const? ==> ConstantTerm(o.c).seed !in {2, 3, 4, 16}
  {
    hide IntTerm, Words;
  }

  // ----- instructions

  /** The details of two instructions of one kind agree in what is read of them. */
  ghost predicate ReadAlike(d: Details, e: Details) {
    || (d.Compare? && e.Compare? && d.comparison == e.comparison)
    || (d.ElementPointer? && e.ElementPointer? && d.inBounds == e.inBounds && d.source == e.source)
    || (d.Load? && e.Load? && d.ordering == e.ordering && d.volatile == e.volatile)
    || (d.Store? && e.Store? && d.ordering == e.ordering && d.volatile == e.volatile)
    || (d.AtomicRmw? && e.AtomicRmw? && d.operation == e.operation && d.ordering == e.ordering)
    || (d.CompareExchange? && e.CompareExchange? && d.success == e.success && d.failure == e.failure)
    || (d.Call? && e.Call? && d.convention == e.convention && d.tail == e.tail)
    || (d.NoDetails? && e.NoDetails?)
  }

  ghost predicate SameKind(d: Details, e: Details) {
    || (d.Compare? && e.Compare?)
    || (d.ElementPointer? && e.ElementPointer?)
    || (d.Load? && e.Load?)
    || (d.Store? && e.Store?)
    || (d.AtomicRmw? && e.AtomicRmw?)
    || (d.CompareExchange? && e.CompareExchange?)
    || (d.Call? && e.Call?)
    || (d.NoDetails? && e.NoDetails?)
  }

  /** Details of two kinds, which no opcode has, agree when the same words are read of them. */
  ghost predicate DetailsAgree(d: Details, e: Details) {
    if SameKind(d, e) then ReadAlike(d, e) else DetailParts(d) == DetailParts(e)
  }

  lemma DetailsTell(d: Details, e: Details)
    ensures DetailParts(d) == DetailParts(e) <==> DetailsAgree(d, e)
  {
    hide Flag;
    var a, b := DetailParts(d), DetailParts(e);
    if SameKind(d, e) && a == b {
      match d
      case NoDetails =>
      case Compare(_) => assert a[0] == b[0];
      case ElementPointer(inBounds, _) =>
        assert a[0] == b[0] && a[1] == b[1];
        FlagTells(inBounds, e.inBounds);
      case Load(_, volatile) =>
        assert a[0] == b[0] && a[1] == b[1];
        FlagTells(volatile, e.volatile);
      case Store(_, volatile) =>
        assert a[0] == b[0] && a[1] == b[1];
        FlagTells(volatile, e.volatile);
      case AtomicRmw(_, _) => assert a[0] == b[0] && a[1] == b[1];
      case CompareExchange(_, _) => assert a[0] == b[0] && a[1] == b[1];
      case Call(_, tail, _) =>
        assert a[0] == b[0];
        if tail.Some? { assert a[1] == b[1]; }
    }
  }

  ghost predicate SameInstruction(i: Instruction, j: Instruction) {
    i.opcode == j.opcode && i.t == j.t && DetailsAgree(i.details, j.details) && i.operands == j.operands
  }

  predicate IsMixed(t: Term) { t.Mixed? }

  lemma DetailsAreLeaves(d: Details)
    ensures No(DetailParts(d), IsMixed)
  {
  }

  lemma OperandsTell(os: seq<Operand>, ps: seq<Operand>)
    ensures All(Map(os, OperandTerm), IsMixed)
    ensures Map(os, OperandTerm) == Map(ps, OperandTerm) <==> os == ps
  {
    hide OperandTerm;
    forall i | 0 <= i < |os| ensures IsMixed(Map(os, OperandTerm)[i]) { SeedOfConstant(os[i]); }
    if Map(os, OperandTerm) == Map(ps, OperandTerm) {
      assert |Map(os, OperandTerm)| == |os| && |Map(ps, OperandTerm)| == |ps|;
      forall i | 0 <= i < |os| ensures os[i] == ps[i] {
        assert Map(os, OperandTerm)[i] == Map(ps, OperandTerm)[i];
        OperandTells(os[i], ps[i]);
      }
    }
  }

  /** Instructions have the same term exactly when they agree in opcode, type, details and
      operands. */
  lemma InstructionTells(i: Instruction, j: Instruction)
    ensures InstructionTerm(i) == InstructionTerm(j) <==> SameInstruction(i, j)
  {
    hide Count, Map, DetailParts, DetailsAgree, OperandTerm, All, No;
    DetailsTell(i.details, j.details);
    OperandsTell(i.operands, j.operands);
    if InstructionTerm(i) == InstructionTerm(j) {
      var a, b := [Type(i.t), Word(Count(|i.operands|))], [Type(j.t), Word(Count(|j.operands|))];
      var x, y := Map(i.operands, OperandTerm), Map(j.operands, OperandTerm);
      var d, e := DetailParts(i.details), DetailParts(j.details);
      SameMixed(true, i.opcode, a + d + x, true, j.opcode, b + e + y);
      assert a + (d + x) == a + d + x && b + (e + y) == b + e + y;
      SplitHead(a, d + x, b, e + y);
      assert a[0] == b[0];
      DetailsAreLeaves(i.details);
      DetailsAreLeaves(j.details);
      OperandsTell(j.operands, i.operands);
      LeavesFirst(d, x, e, y);
    }
  }

  lemma LeavesFirst(d: seq<Term>, x: seq<Term>, e: seq<Term>, y: seq<Term>)
    requires No(d, IsMixed) && No(e, IsMixed) && All(x, IsMixed) && All(y, IsMixed) && d + x == e + y
    ensures d == e && x == y
  {
    var leaf := (t: Term) => !IsMixed(t);
    assert All(d, leaf) && All(e, leaf) && No(x, leaf) && No(y, leaf);
    SplitBy(d, x, e, y, leaf);
  }

  // ----- blocks and functions

  ghost predicate SameBlock(b: Block, c: Block) {
    var xs, ys := Kept(b.instructions), Kept(c.instructions);
    |xs| == |ys| && forall k :: 0 <= k < |xs| ==> SameInstruction(xs[k], ys[k])
  }

  ghost predicate SameFunction(f: Function, g: Function) {
    && f.t == g.t && f.linkage == g.linkage && f.visibility == g.visibility && f.declaration == g.declaration
    && |f.blocks| == |g.blocks|
    && forall k :: 0 <= k < |f.blocks| ==> SameBlock(f.blocks[k], g.blocks[k])
  }

  /** Lists of items have the same terms exactly when their items have, one by one. */
  lemma MapTells<T>(s: seq<T>, s': seq<T>, f: T -> Term)
    ensures Map(s, f) == Map(s', f) <==> |s| == |s'| && forall i :: 0 <= i < |s| ==> f(s[i]) == f(s'[i])
  {
    var a, b := Map(s, f), Map(s', f);
    assert |a| == |s| && |b| == |s'|;
    if a == b {
      forall i | 0 <= i < |s| ensures f(s[i]) == f(s'[i]) { assert a[i] == f(s[i]) && b[i] == f(s'[i]); }
    }
    if |s| == |s'| && forall i :: 0 <= i < |s| ==> f(s[i]) == f(s'[i]) {
      assert forall i :: 0 <= i < |s| ==> a[i] == b[i];
    }
  }

  lemma BlockTells(b: Block, c: Block)
    ensures |BlockParts(b)| == 2
    ensures BlockParts(b) == BlockParts(c) <==> SameBlock(b, c)
  {
    hide Count, Kept, InstructionTerm, SameInstruction, Map;
    var xs, ys := Kept(b.instructions), Kept(c.instructions);
    MapTells(xs, ys, InstructionTerm);
    forall k | 0 <= k < |xs| && k < |ys| ensures InstructionTerm(xs[k]) == InstructionTerm(ys[k]) <==> SameInstruction(xs[k], ys[k]) {
      InstructionTells(xs[k], ys[k]);
    }
    if BlockParts(b) == BlockParts(c) { assert BlockParts(b)[1] == BlockParts(c)[1]; }
  }

  lemma BlockPartsFirst(blocks: seq<Block>)
    requires blocks != []
    ensures AllBlockParts(blocks) == BlockParts(blocks[0]) + AllBlockParts(blocks[1..])
    ensures AllBlockParts(blocks) != []
  {
    BlockTells(blocks[0], blocks[0]);
    hide BlockParts;
  }

  lemma NoBlockParts()
    ensures AllBlockParts([]) == []
  {
  }

  lemma {:induction false} BlocksTell(bs: seq<Block>, cs: seq<Block>)
    ensures AllBlockParts(bs) == AllBlockParts(cs) <==>
      |bs| == |cs| && forall k :: 0 <= k < |bs| ==> SameBlock(bs[k], cs[k])
  {
    hide AllBlockParts, BlockParts, SameBlock;
    NoBlockParts();
    if bs != [] { BlockPartsFirst(bs); }
    if cs != [] { BlockPartsFirst(cs); }
    if bs != [] && cs != [] {
      BlocksTell(bs[1..], cs[1..]);
      BlockTells(bs[0], cs[0]);
      BlockTells(cs[0], bs[0]);
      assert forall k :: 0 <= k < |bs| - 1 ==> bs[1..][k] == bs[k + 1];
      assert forall k :: 0 <= k < |cs| - 1 ==> cs[1..][k] == cs[k + 1];
      if AllBlockParts(bs) == AllBlockParts(cs) {
        SplitHead(BlockParts(bs[0]), AllBlockParts(bs[1..]), BlockParts(cs[0]), AllBlockParts(cs[1..]));
        forall k | 0 <= k < |bs| ensures SameBlock(bs[k], cs[k]) {
          if k > 0 { assert SameBlock(bs[1..][k - 1], cs[1..][k - 1]); }
        }
      }
      if |bs| == |cs| && forall k :: 0 <= k < |bs| ==> SameBlock(bs[k], cs[k]) {
        forall k | 0 <= k < |bs| - 1 ensures SameBlock(bs[1..][k], cs[1..][k]) { assert SameBlock(bs[k + 1], cs[k + 1]); }
      }
    }
  }

  /** Functions have the same term exactly when they agree in type, linkage, visibility and
      being declarations, and in the instructions kept of each block. */
  lemma FunctionTells(f: Function, g: Function)
    ensures FunctionTerm(f) == FunctionTerm(g) <==> SameFunction(f, g)
  {
    hide Flag, AllBlockParts, SameBlock;
    BlocksTell(f.blocks, g.blocks);
    if FunctionTerm(f) == FunctionTerm(g) {
      var a := [Type(f.t), Word(f.linkage), Word(f.visibility), Flag(f.declaration)];
      var b := [Type(g.t), Word(g.linkage), Word(g.visibility), Flag(g.declaration)];
      SameMixed(true, 0xf0f0f0f0, a + AllBlockParts(f.blocks), true, 0xf0f0f0f0, b + AllBlockParts(g.blocks));
      SplitHead(a, AllBlockParts(f.blocks), b, AllBlockParts(g.blocks));
      assert a[0] == b[0] && a[1] == b[1] && a[2] == b[2] && a[3] == b[3];
      FlagTells(f.declaration, g.declaration);
    }
  }

  // ----- globals, aliases and ifuncs

  ghost predicate SameGlobal(g: GlobalVariable, h: GlobalVariable) {
    && g.t == h.t && g.linkage == h.linkage && g.constant == h.constant && g.threadLocal == h.threadLocal
    && g.initializer == h.initializer
  }

  ghost predicate SameAlias(a: Alias, b: Alias) { a.t == b.t && a.linkage == b.linkage && a.aliasee == b.aliasee }

  ghost predicate SameIFunc(f: IFunc, g: IFunc) { f.t == g.t && f.resolver == g.resolver }

  lemma GlobalTells(g: GlobalVariable, h: GlobalVariable)
    ensures GlobalTerm(g) == GlobalTerm(h) <==> SameGlobal(g, h)
  {
    hide Flag, ConstantTerm;
    if GlobalTerm(g) == GlobalTerm(h) {
      var a, b := GlobalTerm(g).parts, GlobalTerm(h).parts;
      assert a[0] == b[0] && a[1] == b[1] && a[2] == b[2] && a[3] == b[3] && a[4] == b[4];
      FlagTells(g.constant, h.constant);
      FlagTells(g.threadLocal, h.threadLocal);
      FlagTells(g.initializer.Some?, h.initializer.Some?);
      if g.initializer.Some? {
        assert a[5] == b[5];
        ConstantTells(g.initializer.value, h.initializer.value);
      }
    }
  }

  lemma AliasTells(a: Alias, b: Alias)
    ensures AliasTerm(a) == AliasTerm(b) <==> SameAlias(a, b)
  {
    hide ConstantTerm;
    if AliasTerm(a) == AliasTerm(b) {
      var x, y := AliasTerm(a).parts, AliasTerm(b).parts;
      assert x[0] == y[0] && x[1] == y[1] && x[2] == y[2];
      ConstantTells(a.aliasee, b.aliasee);
    }
  }

  lemma IFuncTells(f: IFunc, g: IFunc)
    ensures IFuncTerm(f) == IFuncTerm(g) <==> SameIFunc(f, g)
  {
    hide ConstantTerm;
    if IFuncTerm(f) == IFuncTerm(g) {
      var x, y := IFuncTerm(f).parts, IFuncTerm(g).parts;
      assert x[0] == y[0] && x[1] == y[1];
      ConstantTells(f.resolver, g.resolver);
    }
  }

  // ----- modules

  /** The modules agree in every item that the hasher reads, in order. */
  ghost predicate SameModule(m: Module, n: Module) {
    && |m.globals| == |n.globals| && (forall i :: 0 <= i < |m.globals| ==> SameGlobal(m.globals[i], n.globals[i]))
    && |m.aliases| == |n.aliases| && (forall i :: 0 <= i < |m.aliases| ==> SameAlias(m.aliases[i], n.aliases[i]))
    && |m.ifuncs| == |n.ifuncs| && (forall i :: 0 <= i < |m.ifuncs| ==> SameIFunc(m.ifuncs[i], n.ifuncs[i]))
    && var fs, gs := KeptFunctions(m.functions), KeptFunctions(n.functions);
       |fs| == |gs| && forall i :: 0 <= i < |fs| ==> SameFunction(fs[i], gs[i])
  }

  function HasSeed(seed: Word): Term -> bool { (t: Term) => t.Mixed? && t.seed == seed }

  lemma MapSeeded<T>(s: seq<T>, f: T -> Term, seed: Word, other: Word)
    requires seed != other && forall x :: f(x).Mixed? && f(x).seed == seed
    ensures All(Map(s, f), HasSeed(seed)) && No(Map(s, f), HasSeed(other))
  {
  }

  lemma NoAppend(a: seq<Term>, b: seq<Term>, p: Term -> bool)
    requires No(a, p) && No(b, p)
    ensures No(a + b, p)
  {
  }

  /** The four lists of a module can be told apart by the seeds of their items. */
  lemma SplitModule(m: Module, n: Module)
    requires ModuleTerm(m) == ModuleTerm(n)
    ensures Map(m.globals, GlobalTerm) == Map(n.globals, GlobalTerm)
    ensures Map(m.aliases, AliasTerm) == Map(n.aliases, AliasTerm)
    ensures Map(m.ifuncs, IFuncTerm) == Map(n.ifuncs, IFuncTerm)
    ensures Map(KeptFunctions(m.functions), FunctionTerm) == Map(KeptFunctions(n.functions), FunctionTerm)
  {
    hide KeptFunctions, GlobalTerm, AliasTerm, IFuncTerm, FunctionTerm, All, No, Map, HasSeed;
    var a1, a2, a3, a4 := ItemTerms(m);
    var b1, b2, b3, b4 := ItemTerms(n);
    SameMixed(true, 0x9e3779b97f4a7c15, a1 + a2 + a3 + a4, true, 0x9e3779b97f4a7c15, b1 + b2 + b3 + b4);
    assert a1 + (a2 + (a3 + a4)) == a1 + a2 + a3 + a4 && b1 + (b2 + (b3 + b4)) == b1 + b2 + b3 + b4;
    SplitBy(a1, a2 + (a3 + a4), b1, b2 + (b3 + b4), HasSeed(0x6060));
    SplitBy(a2, a3 + a4, b2, b3 + b4, HasSeed(0xa1a1));
    SplitBy(a3, a4, b3, b4, HasSeed(0x1f1f));
  }

  lemma ItemTerms(m: Module) returns (a1: seq<Term>, a2: seq<Term>, a3: seq<Term>, a4: seq<Term>)
    ensures a1 == Map(m.globals, GlobalTerm) && a2 == Map(m.aliases, AliasTerm)
    ensures a3 == Map(m.ifuncs, IFuncTerm) && a4 == Map(KeptFunctions(m.functions), FunctionTerm)
    ensures All(a1, HasSeed(0x6060)) && All(a2, HasSeed(0xa1a1)) && All(a3, HasSeed(0x1f1f))
    ensures No(a2 + (a3 + a4), HasSeed(0x6060)) && No(a3 + a4, HasSeed(0xa1a1)) && No(a4, HasSeed(0x1f1f))
  {
    hide KeptFunctions, All, No, Map, ConstantTerm, AllBlockParts, Flag;
    a1, a2, a3, a4 := Map(m.globals, GlobalTerm), Map(m.aliases, AliasTerm), Map(m.ifuncs, IFuncTerm), Map(KeptFunctions(m.functions), FunctionTerm);
    MapSeeded(m.globals, GlobalTerm, 0x6060, 0);
    MapSeeded(m.aliases, AliasTerm, 0xa1a1, 0x6060);
    MapSeeded(m.ifuncs, IFuncTerm, 0x1f1f, 0x6060);
    MapSeeded(m.ifuncs, IFuncTerm, 0x1f1f, 0xa1a1);
    MapSeeded(KeptFunctions(m.functions), FunctionTerm, 0xf0f0f0f0, 0x6060);
    MapSeeded(KeptFunctions(m.functions), FunctionTerm, 0xf0f0f0f0, 0xa1a1);
    MapSeeded(KeptFunctions(m.functions), FunctionTerm, 0xf0f0f0f0, 0x1f1f);
    NoAppend(a3, a4, HasSeed(0x6060));
    NoAppend(a2, a3 + a4, HasSeed(0x6060));
    NoAppend(a3, a4, HasSeed(0xa1a1));
  }

  /** Modules have the same term exactly when they agree in everything that is read. */
  lemma ModuleTells(m: Module, n: Module)
    ensures ModuleTerm(m) == ModuleTerm(n) <==> SameModule(m, n)
  {
    hide Map, KeptFunctions, GlobalTerm, AliasTerm, IFuncTerm, FunctionTerm, SameGlobal, SameAlias, SameIFunc, SameFunction;
    if ModuleTerm(m) == ModuleTerm(n) { SplitModule(m, n); }
    MapTells(m.globals, n.globals, GlobalTerm);
    MapTells(m.aliases, n.aliases, AliasTerm);
    MapTells(m.ifuncs, n.ifuncs, IFuncTerm);
    MapTells(KeptFunctions(m.functions), KeptFunctions(n.functions), FunctionTerm);
    forall g, h ensures GlobalTerm(g) == GlobalTerm(h) <==> SameGlobal(g, h) { GlobalTells(g, h); }
    forall a, b ensures AliasTerm(a) == AliasTerm(b) <==> SameAlias(a, b) { AliasTells(a, b); }
    forall f, g ensures IFuncTerm(f) == IFuncTerm(g) <==> SameIFunc(f, g) { IFuncTells(f, g); }
    forall f, g ensures FunctionTerm(f) == FunctionTerm(g) <==> SameFunction(f, g) { FunctionTells(f, g); }
  }
}
