/** The structural hash does not depend on names, nor on which types and values carry them. */
module IrRenaming {
  import opened StructuralHash
  import opened IrModule

  // ----- renaming a module

  function RenameConstant(c: Constant, r: Renaming): Constant {
    match c
    case Global(v) => Global(r.values(v))
    case IntConst(_, _) => c
    case FloatConst(_, _) => c
    case NullPointer(t) => NullPointer(r.types(t))
    case Poison(t) => Poison(r.types(t))
    case Undef(t) => Undef(r.types(t))
    case AggregateZero(t) => AggregateZero(r.types(t))
    case Expr(opcode, t, operands) =>
      Expr(opcode, r.types(t), seq(|operands|, i requires 0 <= i < |operands| => RenameConstant(operands[i], r)))
    case DataSequence(element, count, bytes) => DataSequence(r.types(element), count, bytes)
    case Aggregate(t, operands) =>
      Aggregate(r.types(t), seq(|operands|, i requires 0 <= i < |operands| => RenameConstant(operands[i], r)))
    case BlockAddress(owner, block) => BlockAddress(r.values(owner), r.values(block))
    case OtherConst(t, kind) => OtherConst(r.types(t), kind)
  }

  function RenameOperand(o: Operand, r: Renaming): Operand {
    match o
    case Const(c) => Const(RenameConstant(c, r))
    case ArgumentOperand(v, t) => ArgumentOperand(r.values(v), r.types(t))
    case InstructionOperand(v, t) => InstructionOperand(r.values(v), r.types(t))
    case BlockOperand(v) => BlockOperand(r.values(v))
    case OtherOperand(v, t) => OtherOperand(r.values(v), r.types(t))
  }

  function RenameDetails(d: Details, r: Renaming, names: string -> string): Details {
    match d
    case ElementPointer(inBounds, source) => ElementPointer(inBounds, r.types(source))
    case Call(convention, tail, called) => Call(convention, tail, if called.Some? then Some(names(called.value)) else None)
    case _ => d
  }

  function RenameInstruction(i: Instruction, r: Renaming, names: string -> string): Instruction {
    Instruction(r.values(i.id), i.opcode, r.types(i.t), RenameDetails(i.details, r, names),
                Map(i.operands, o => RenameOperand(o, r)))
  }

  function RenameBlock(b: Block, r: Renaming, names: string -> string): Block {
    Block(r.values(b.id), Map(b.instructions, i => RenameInstruction(i, r, names)))
  }

  function RenameFunction(f: Function, r: Renaming, names: string -> string): Function {
    Function(r.values(f.id), names(f.name), r.types(f.t), f.linkage, f.visibility, f.declaration,
             Map(f.arguments, r.values), Map(f.blocks, b => RenameBlock(b, r, names)))
  }

  function RenameGlobal(g: GlobalVariable, r: Renaming): GlobalVariable {
    GlobalVariable(r.values(g.id), r.types(g.t), g.linkage, g.constant, g.threadLocal,
                   if g.initializer.Some? then Some(RenameConstant(g.initializer.value, r)) else None)
  }

  function RenameAlias(a: Alias, r: Renaming): Alias {
    Alias(r.values(a.id), r.types(a.t), a.linkage, RenameConstant(a.aliasee, r))
  }

  function RenameIFunc(f: IFunc, r: Renaming): IFunc { IFunc(r.values(f.id), r.types(f.t), RenameConstant(f.resolver, r)) }

  function RenameModule(m: Module, r: Renaming, names: string -> string): Module {
    Module(Map(m.globals, g => RenameGlobal(g, r)), Map(m.aliases, a => RenameAlias(a, r)),
           Map(m.ifuncs, f => RenameIFunc(f, r)), Map(m.functions, f => RenameFunction(f, r, names)))
  }

  // ----- lists of terms

  lemma OneRenamed(final: bool, seed: Word, a: Term, r: Renaming)
    ensures RenameTerm(Mixed(final, seed, [a]), r) == Mixed(final, seed, [RenameTerm(a, r)])
  {
    hide RenameTerm;
    RenameOver(final, seed, [a], r);
    RenameOne(a, r);
  }

  lemma TwoRenamed(final: bool, seed: Word, a: Term, b: Term, r: Renaming)
    ensures RenameTerm(Mixed(final, seed, [a, b]), r) == Mixed(final, seed, [RenameTerm(a, r), RenameTerm(b, r)])
  {
    hide RenameTerm;
    RenameOver(final, seed, [a, b], r);
    RenameTwo(a, b, r);
  }

  lemma ThreeRenamed(final: bool, seed: Word, a: Term, b: Term, c: Term, r: Renaming)
    ensures RenameTerm(Mixed(final, seed, [a, b, c]), r) == Mixed(final, seed, [RenameTerm(a, r), RenameTerm(b, r), RenameTerm(c, r)])
  {
    hide RenameTerm;
    RenameOver(final, seed, [a, b, c], r);
    RenameThree(a, b, c, r);
  }

  /** A head of parts followed by a list. */
  lemma HeadRenamed(final: bool, seed: Word, head: seq<Term>, rest: seq<Term>, r: Renaming)
    ensures RenameTerm(Mixed(final, seed, head + rest), r) == Mixed(final, seed, RenameTerms(head, r) + RenameTerms(rest, r))
  {
    hide RenameTerm, RenameTerms;
    RenameOver(final, seed, head + rest, r);
    RenameAppend(head, rest, r);
  }

  lemma IdTermRenamed(v: ValueId, r: Renaming)
    ensures RenameTerm(Id(v), r) == Id(r.values(v))
  {
  }

  lemma WordsRenamed(ws: seq<Word>, r: Renaming)
    ensures RenameTerms(Words(ws), r) == Words(ws)
  {
  }

  lemma IntTermRenamed(width: Word, words: seq<Word>, r: Renaming)
    ensures RenameTerm(IntTerm(width, words), r) == IntTerm(width, words)
  {
    hide RenameTerm, RenameTerms, Words, Count;
    WordsRenamed(words, r);
    WordRenamed(width, r);
    WordRenamed(Count(|words|), r);
    RenameTwo(Word(width), Word(Count(|words|)), r);
    HeadRenamed(true, 0x11, [Word(width), Word(Count(|words|))], Words(words), r);
  }

  lemma MapRenamed<A>(s: seq<A>, s': seq<A>, f: A -> Term, r: Renaming)
    requires |s'| == |s| && forall i :: 0 <= i < |s| ==> f(s'[i]) == RenameTerm(f(s[i]), r)
    ensures Map(s', f) == RenameTerms(Map(s, f), r)
  {
    hide RenameTerm;
  }

  // ----- constants and operands

  function RenameConstants(cs: seq<Constant>, r: Renaming): seq<Constant> {
    seq(|cs|, i requires 0 <= i < |cs| => RenameConstant(cs[i], r))
  }

  lemma ConstantsRenamed(cs: seq<Constant>, r: Renaming)
    requires forall i :: 0 <= i < |cs| ==> ConstantTerm(RenameConstant(cs[i], r)) == RenameTerm(ConstantTerm(cs[i]), r)
    ensures ConstantTerms(RenameConstants(cs, r)) == RenameTerms(ConstantTerms(cs), r)
  {
    hide ConstantTerm, RenameConstant, RenameTerm;
  }

  lemma ExprUnfold(opcode: Word, t: TypeId, cs: seq<Constant>, r: Renaming)
    ensures ConstantTerm(Expr(opcode, t, cs)) == Mixed(true, 11, [Word(opcode), Type(t)] + ConstantTerms(cs))
    ensures RenameConstant(Expr(opcode, t, cs), r) == Expr(opcode, r.types(t), RenameConstants(cs, r))
  {
    assert ConstantTerm(Expr(opcode, t, cs)).parts == [Word(opcode), Type(t)] + ConstantTerms(cs);
    assert RenameConstant(Expr(opcode, t, cs), r).operands == RenameConstants(cs, r);
  }

  lemma AggregateUnfold(t: TypeId, cs: seq<Constant>, r: Renaming)
    ensures ConstantTerm(Aggregate(t, cs)) == Mixed(true, 13, [Type(t)] + ConstantTerms(cs))
    ensures RenameConstant(Aggregate(t, cs), r) == Aggregate(r.types(t), RenameConstants(cs, r))
  {
    assert ConstantTerm(Aggregate(t, cs)).parts == [Type(t)] + ConstantTerms(cs);
    assert RenameConstant(Aggregate(t, cs), r).operands == RenameConstants(cs, r);
  }

  lemma {:induction false} ConstantRenamed(c: Constant, r: Renaming)
    ensures ConstantTerm(RenameConstant(c, r)) == RenameTerm(ConstantTerm(c), r)
  {
    if c.Expr? || c.Aggregate? {
      forall i | 0 <= i < |c.operands| ensures ConstantTerm(RenameConstant(c.operands[i], r)) == RenameTerm(ConstantTerm(c.operands[i]), r) {
        ConstantRenamed(c.operands[i], r);
      }
      NestedRenamed(c, r);
    } else {
      LeafRenamed(c, r);
    }
  }

  lemma NestedRenamed(c: Constant, r: Renaming)
    requires c.Expr? || c.Aggregate?
    requires forall i :: 0 <= i < |c.operands| ==> ConstantTerm(RenameConstant(c.operands[i], r)) == RenameTerm(ConstantTerm(c.operands[i]), r)
    ensures ConstantTerm(RenameConstant(c, r)) == RenameTerm(ConstantTerm(c), r)
  {
    hide ConstantTerm, RenameConstant, RenameTerm, RenameTerms, ConstantTerms, RenameConstants;
    ConstantsRenamed(c.operands, r);
    TypeTermRenamed(c.t, r);
    var rest := ConstantTerms(c.operands);
    match c
    case Expr(opcode, t, operands) =>
      ExprUnfold(opcode, t, operands, r);
      ExprUnfold(opcode, r.types(t), RenameConstants(operands, r), r);
      WordRenamed(opcode, r);
      RenameTwo(Word(opcode), Type(t), r);
      HeadRenamed(true, 11, [Word(opcode), Type(t)], rest, r);
    case Aggregate(t, operands) =>
      AggregateUnfold(t, operands, r);
      AggregateUnfold(r.types(t), RenameConstants(operands, r), r);
      RenameOne(Type(t), r);
      HeadRenamed(true, 13, [Type(t)], rest, r);
  }

  lemma LeafRenamed(c: Constant, r: Renaming)
    requires !c.Expr? && !c.Aggregate?
    ensures ConstantTerm(RenameConstant(c, r)) == RenameTerm(ConstantTerm(c), r)
  {
    hide RenameTerm, RenameTerms, IntTerm, Words;
    match c
    case Global(v) => IdTermRenamed(v, r); OneRenamed(true, 1, Id(v), r);
    case IntConst(width, words) => IntTermRenamed(width, words, r); OneRenamed(true, 5, IntTerm(width, words), r);
    case FloatConst(width, words) => IntTermRenamed(width, words, r); OneRenamed(true, 6, IntTerm(width, words), r);
    case NullPointer(t) => TypeTermRenamed(t, r); OneRenamed(true, 7, Type(t), r);
    case Undef(t) => TypeTermRenamed(t, r); OneRenamed(true, 8, Type(t), r);
    case Poison(t) => TypeTermRenamed(t, r); OneRenamed(true, 9, Type(t), r);
    case AggregateZero(t) => TypeTermRenamed(t, r); OneRenamed(true, 10, Type(t), r);
    case DataSequence(element, count, bytes) =>
      TypeTermRenamed(element, r);
      WordRenamed(count, r);
      RenameTwo(Type(element), Word(count), r);
      WordsRenamed(bytes, r);
      HeadRenamed(true, 12, [Type(element), Word(count)], Words(bytes), r);
    case BlockAddress(owner, block) =>
      IdTermRenamed(owner, r);
      IdTermRenamed(block, r);
      TwoRenamed(true, 14, Id(owner), Id(block), r);
    case OtherConst(t, kind) =>
      TypeTermRenamed(t, r);
      WordRenamed(kind, r);
      TwoRenamed(true, 15, Type(t), Word(kind), r);
  }

  lemma OperandRenamed(o: Operand, r: Renaming)
    ensures OperandTerm(RenameOperand(o, r)) == RenameTerm(OperandTerm(o), r)
  {
    hide RenameTerm, ConstantTerm, RenameConstant;
    if o.Const? {
      ConstantRenamed(o.c, r);
    } else {
      IdTermRenamed(o.v, r);
      if o.BlockOperand? {
        OneRenamed(true, 3, Id(o.v), r);
      } else {
        TypeTermRenamed(o.t, r);
        TwoRenamed(true, if o.ArgumentOperand? then 2 else if o.InstructionOperand? then 4 else 16, Id(o.v), Type(o.t), r);
      }
    }
  }

  // ----- instructions and functions

  lemma DetailsRenamed(d: Details, r: Renaming, names: string -> string)
    ensures DetailParts(RenameDetails(d, r, names)) == RenameTerms(DetailParts(d), r)
  {
    hide RenameTerm, RenameTerms, Flag;
    match d
    case Compare(p) => WordRenamed(p, r); RenameOne(Word(p), r);
    case ElementPointer(inBounds, source) =>
      FlagRenamed(inBounds, r);
      TypeTermRenamed(source, r);
      RenameTwo(Flag(inBounds), Type(source), r);
    case Load(ordering, volatile) => PairRenamed(ordering, volatile, r);
    case Store(ordering, volatile) => PairRenamed(ordering, volatile, r);
    case AtomicRmw(a, b) => WordsPairRenamed(a, b, r);
    case CompareExchange(a, b) => WordsPairRenamed(a, b, r);
    case Call(convention, tail, _) =>
      WordRenamed(convention, r);
      RenameOne(Word(convention), r);
      if tail.Some? {
        WordRenamed(tail.value, r);
        RenameOne(Word(tail.value), r);
        RenameAppend([Word(convention)], [Word(tail.value)], r);
      } else {
        assert [Word(convention)] + [] == [Word(convention)];
      }
    case NoDetails => RenameOne(Word(0), r);
  }

  lemma PairRenamed(ordering: Word, volatile: bool, r: Renaming)
    ensures RenameTerms([Word(ordering), Flag(volatile)], r) == [Word(ordering), Flag(volatile)]
  {
    hide RenameTerm, RenameTerms, Flag;
    WordRenamed(ordering, r);
    FlagRenamed(volatile, r);
    RenameTwo(Word(ordering), Flag(volatile), r);
  }

  lemma WordsPairRenamed(a: Word, b: Word, r: Renaming)
    ensures RenameTerms([Word(a), Word(b)], r) == [Word(a), Word(b)]
  {
    hide RenameTerm, RenameTerms;
    WordRenamed(a, r);
    WordRenamed(b, r);
    RenameTwo(Word(a), Word(b), r);
  }

  lemma OperandsRenamed(operands: seq<Operand>, r: Renaming)
    ensures Map(Map(operands, o => RenameOperand(o, r)), OperandTerm) == RenameTerms(Map(operands, OperandTerm), r)
  {
    hide OperandTerm, RenameOperand, RenameTerm;
    var operands' := Map(operands, o => RenameOperand(o, r));
    forall i | 0 <= i < |operands| ensures OperandTerm(operands'[i]) == RenameTerm(OperandTerm(operands[i]), r) {
      OperandRenamed(operands[i], r);
    }
    MapRenamed(operands, operands', OperandTerm, r);
  }

  lemma InstructionRenamed(i: Instruction, r: Renaming, names: string -> string)
    ensures InstructionTerm(RenameInstruction(i, r, names)) == RenameTerm(InstructionTerm(i), r)
  {
    hide RenameTerm, RenameTerms, OperandTerm, RenameOperand, DetailParts, RenameDetails, Count;
    var i' := RenameInstruction(i, r, names);
    assert |i'.operands| == |i.operands|;
    hide Map;
    var head, details, rest := [Type(i.t), Word(Count(|i.operands|))], DetailParts(i.details), Map(i.operands, OperandTerm);
    TypeTermRenamed(i.t, r);
    WordRenamed(Count(|i.operands|), r);
    RenameTwo(Type(i.t), Word(Count(|i.operands|)), r);
    DetailsRenamed(i.details, r, names);
    RenameAppend(head, details, r);
    OperandsRenamed(i.operands, r);
    HeadRenamed(true, i.opcode, head + details, rest, r);
  }

  /** Renaming keeps debug names apart from all others. */
  ghost predicate KeepsDebug(names: string -> string) { forall n :: IsDebugName(names(n)) <==> IsDebugName(n) }

  lemma {:induction false} KeptRenamed(instructions: seq<Instruction>, r: Renaming, names: string -> string)
    requires KeepsDebug(names)
    ensures Kept(Map(instructions, i => RenameInstruction(i, r, names))) == Map(Kept(instructions), i => RenameInstruction(i, r, names))
  {
    hide IsDebugName;
    var f := i => RenameInstruction(i, r, names);
    var renamed := Map(instructions, f);
    if instructions != [] {
      assert renamed[0] == f(instructions[0]) && renamed[1..] == Map(instructions[1..], f);
      assert IsDebugCall(renamed[0]) <==> IsDebugCall(instructions[0]);
      KeptRenamed(instructions[1..], r, names);
      var rest := Kept(instructions[1..]);
      assert Map([instructions[0]] + rest, f) == [f(instructions[0])] + Map(rest, f);
      assert [] + rest == rest && [] + Map(rest, f) == Map(rest, f);
    }
  }

  lemma InstructionsRenamed(instructions: seq<Instruction>, r: Renaming, names: string -> string)
    ensures Map(Map(instructions, i => RenameInstruction(i, r, names)), InstructionTerm) == RenameTerms(Map(instructions, InstructionTerm), r)
  {
    hide InstructionTerm, RenameInstruction, RenameTerm;
    var renamed := Map(instructions, i => RenameInstruction(i, r, names));
    forall i | 0 <= i < |instructions| ensures InstructionTerm(renamed[i]) == RenameTerm(InstructionTerm(instructions[i]), r) {
      InstructionRenamed(instructions[i], r, names);
    }
    MapRenamed(instructions, renamed, InstructionTerm, r);
  }

  lemma BlockRenamed(b: Block, r: Renaming, names: string -> string)
    requires KeepsDebug(names)
    ensures BlockParts(RenameBlock(b, r, names)) == RenameTerms(BlockParts(b), r)
  {
    hide RenameTerm, RenameTerms, InstructionTerm, RenameInstruction, Count, Kept;
    var kept := Kept(b.instructions);
    KeptRenamed(b.instructions, r, names);
    InstructionsRenamed(kept, r, names);
    assert |Map(kept, i => RenameInstruction(i, r, names))| == |kept|;
    hide Map;
    WordRenamed(Count(|kept|), r);
    RenameOver(false, 0, Map(kept, InstructionTerm), r);
    RenameTwo(Word(Count(|kept|)), Mixed(false, 0, Map(kept, InstructionTerm)), r);
  }

  lemma {:induction false} BlocksRenamed(blocks: seq<Block>, r: Renaming, names: string -> string)
    requires KeepsDebug(names)
    ensures AllBlockParts(Map(blocks, b => RenameBlock(b, r, names))) == RenameTerms(AllBlockParts(blocks), r)
  {
    hide BlockParts, RenameBlock, RenameTerm;
    var f := b => RenameBlock(b, r, names);
    var renamed := Map(blocks, f);
    if blocks == [] {
      assert renamed == [];
    } else {
      assert renamed[0] == f(blocks[0]) && renamed[1..] == Map(blocks[1..], f);
      BlockRenamed(blocks[0], r, names);
      BlocksRenamed(blocks[1..], r, names);
      RenameAppend(BlockParts(blocks[0]), AllBlockParts(blocks[1..]), r);
    }
  }

  lemma FunctionRenamed(f: Function, r: Renaming, names: string -> string)
    requires KeepsDebug(names)
    ensures FunctionTerm(RenameFunction(f, r, names)) == RenameTerm(FunctionTerm(f), r)
  {
    hide RenameTerm, RenameTerms, AllBlockParts, Map, RenameBlock, Flag;
    TypeTermRenamed(f.t, r);
    WordRenamed(f.linkage, r);
    WordRenamed(f.visibility, r);
    FlagRenamed(f.declaration, r);
    var a, b, rest := [Type(f.t), Word(f.linkage)], [Word(f.visibility), Flag(f.declaration)], AllBlockParts(f.blocks);
    RenameTwo(Type(f.t), Word(f.linkage), r);
    RenameTwo(Word(f.visibility), Flag(f.declaration), r);
    RenameAppend(a, b, r);
    assert a + b == [Type(f.t), Word(f.linkage), Word(f.visibility), Flag(f.declaration)];
    BlocksRenamed(f.blocks, r, names);
    HeadRenamed(true, 0xf0f0f0f0, a + b, rest, r);
    assert [Type(r.types(f.t)), Word(f.linkage)] + b == [Type(r.types(f.t)), Word(f.linkage), Word(f.visibility), Flag(f.declaration)];
  }

  lemma {:induction false} KeptFunctionsRenamed(functions: seq<Function>, r: Renaming, names: string -> string)
    requires KeepsDebug(names)
    ensures KeptFunctions(Map(functions, f => RenameFunction(f, r, names))) == Map(KeptFunctions(functions), f => RenameFunction(f, r, names))
  {
    hide IsDebugName;
    var f := f => RenameFunction(f, r, names);
    var renamed := Map(functions, f);
    if functions != [] {
      assert renamed[0] == f(functions[0]) && renamed[1..] == Map(functions[1..], f);
      assert IsDebugFunction(renamed[0]) <==> IsDebugFunction(functions[0]);
      KeptFunctionsRenamed(functions[1..], r, names);
      var rest := KeptFunctions(functions[1..]);
      assert Map([functions[0]] + rest, f) == [f(functions[0])] + Map(rest, f);
      assert [] + rest == rest && [] + Map(rest, f) == Map(rest, f);
    }
  }

  lemma FunctionsRenamed(functions: seq<Function>, r: Renaming, names: string -> string)
    requires KeepsDebug(names)
    ensures Map(KeptFunctions(Map(functions, f => RenameFunction(f, r, names))), FunctionTerm)
         == RenameTerms(Map(KeptFunctions(functions), FunctionTerm), r)
  {
    hide FunctionTerm, RenameFunction, RenameTerm, KeptFunctions;
    KeptFunctionsRenamed(functions, r, names);
    var kept := KeptFunctions(functions);
    var renamed := Map(kept, f => RenameFunction(f, r, names));
    forall i | 0 <= i < |kept| ensures FunctionTerm(renamed[i]) == RenameTerm(FunctionTerm(kept[i]), r) {
      FunctionRenamed(kept[i], r, names);
    }
    MapRenamed(kept, renamed, FunctionTerm, r);
  }

  // ----- globals

  lemma GlobalRenamed(g: GlobalVariable, r: Renaming)
    ensures GlobalTerm(RenameGlobal(g, r)) == RenameTerm(GlobalTerm(g), r)
  {
    hide RenameTerm, RenameTerms, Flag, ConstantTerm, RenameConstant;
    TypeTermRenamed(g.t, r);
    WordRenamed(g.linkage, r);
    FlagRenamed(g.constant, r);
    FlagRenamed(g.threadLocal, r);
    FlagRenamed(g.initializer.Some?, r);
    var a, b := [Type(g.t), Word(g.linkage)], [Flag(g.constant), Flag(g.threadLocal), Flag(g.initializer.Some?)];
    var rest := if g.initializer.Some? then [ConstantTerm(g.initializer.value)] else [];
    RenameTwo(Type(g.t), Word(g.linkage), r);
    RenameThree(Flag(g.constant), Flag(g.threadLocal), Flag(g.initializer.Some?), r);
    RenameAppend(a, b, r);
    assert a + b == [Type(g.t), Word(g.linkage), Flag(g.constant), Flag(g.threadLocal), Flag(g.initializer.Some?)];
    if g.initializer.Some? {
      ConstantRenamed(g.initializer.value, r);
      RenameOne(ConstantTerm(g.initializer.value), r);
    } else {
      RenameOne(Word(0), r);
    }
    HeadRenamed(true, 0x6060, a + b, rest, r);
    assert [Type(r.types(g.t)), Word(g.linkage)] + b
        == [Type(r.types(g.t)), Word(g.linkage), Flag(g.constant), Flag(g.threadLocal), Flag(g.initializer.Some?)];
  }

  lemma AliasRenamed(a: Alias, r: Renaming)
    ensures AliasTerm(RenameAlias(a, r)) == RenameTerm(AliasTerm(a), r)
  {
    hide RenameTerm, ConstantTerm, RenameConstant;
    TypeTermRenamed(a.t, r);
    WordRenamed(a.linkage, r);
    ConstantRenamed(a.aliasee, r);
    ThreeRenamed(true, 0xa1a1, Type(a.t), Word(a.linkage), ConstantTerm(a.aliasee), r);
  }

  lemma IFuncRenamed(f: IFunc, r: Renaming)
    ensures IFuncTerm(RenameIFunc(f, r)) == RenameTerm(IFuncTerm(f), r)
  {
    hide RenameTerm, ConstantTerm, RenameConstant;
    TypeTermRenamed(f.t, r);
    ConstantRenamed(f.resolver, r);
    TwoRenamed(true, 0x1f1f, Type(f.t), ConstantTerm(f.resolver), r);
  }

  lemma GlobalsRenamed(m: Module, r: Renaming, names: string -> string)
    ensures Map(RenameModule(m, r, names).globals, GlobalTerm) == RenameTerms(Map(m.globals, GlobalTerm), r)
    ensures Map(RenameModule(m, r, names).aliases, AliasTerm) == RenameTerms(Map(m.aliases, AliasTerm), r)
    ensures Map(RenameModule(m, r, names).ifuncs, IFuncTerm) == RenameTerms(Map(m.ifuncs, IFuncTerm), r)
  {
    hide RenameTerm, GlobalTerm, AliasTerm, IFuncTerm, RenameGlobal, RenameAlias, RenameIFunc, RenameFunction;
    var m' := RenameModule(m, r, names);
    forall i | 0 <= i < |m.globals| ensures GlobalTerm(m'.globals[i]) == RenameTerm(GlobalTerm(m.globals[i]), r) {
      GlobalRenamed(m.globals[i], r);
    }
    MapRenamed(m.globals, m'.globals, GlobalTerm, r);
    forall i | 0 <= i < |m.aliases| ensures AliasTerm(m'.aliases[i]) == RenameTerm(AliasTerm(m.aliases[i]), r) {
      AliasRenamed(m.aliases[i], r);
    }
    MapRenamed(m.aliases, m'.aliases, AliasTerm, r);
    forall i | 0 <= i < |m.ifuncs| ensures IFuncTerm(m'.ifuncs[i]) == RenameTerm(IFuncTerm(m.ifuncs[i]), r) {
      IFuncRenamed(m.ifuncs[i], r);
    }
    MapRenamed(m.ifuncs, m'.ifuncs, IFuncTerm, r);
  }

  /** The term of a renamed module is the renamed term. */
  lemma ModuleRenamed(m: Module, r: Renaming, names: string -> string)
    requires KeepsDebug(names)
    ensures ModuleTerm(RenameModule(m, r, names)) == RenameTerm(ModuleTerm(m), r)
  {
    hide RenameTerm, RenameTerms, KeepsDebug;
    GlobalsRenamed(m, r, names);
    FunctionsRenamed(m.functions, r, names);
    hide Map;
    var a, b, c := Map(m.globals, GlobalTerm), Map(m.aliases, AliasTerm), Map(m.ifuncs, IFuncTerm);
    RenameAppend(a, b, r);
    RenameAppend(a + b, c, r);
    HeadRenamed(true, 0x9e3779b97f4a7c15, a + b + c, Map(KeptFunctions(m.functions), FunctionTerm), r);
  }

  // ----- numbering

  lemma MapAppend<A, B>(a: seq<A>, b: seq<A>, f: A -> B)
    ensures Map(a + b, f) == Map(a, f) + Map(b, f)
  {
  }

  lemma {:induction false} BlockIdsRenamed(blocks: seq<Block>, r: Renaming, names: string -> string)
    requires KeepsDebug(names)
    ensures BlockIds(Map(blocks, b => RenameBlock(b, r, names))) == Map(BlockIds(blocks), r.values)
  {
    hide InstructionIds, RenameInstruction, KeepsDebug;
    var f := b => RenameBlock(b, r, names);
    var renamed := Map(blocks, f);
    if blocks != [] {
      assert renamed[0] == f(blocks[0]) && renamed[1..] == Map(blocks[1..], f);
      InstructionIdsRenamed(blocks[0].instructions, r, names);
      BlockIdsRenamed(blocks[1..], r, names);
      var id, ids, rest := blocks[0].id, InstructionIds(blocks[0].instructions), BlockIds(blocks[1..]);
      MapAppend([id] + ids, rest, r.values);
      MapAppend([id], ids, r.values);
      assert Map([id], r.values) == [r.values(id)];
    }
  }

  lemma InstructionIdsRenamed(instructions: seq<Instruction>, r: Renaming, names: string -> string)
    requires KeepsDebug(names)
    ensures InstructionIds(Map(instructions, i => RenameInstruction(i, r, names))) == Map(InstructionIds(instructions), r.values)
  {
    hide Kept, KeepsDebug;
    KeptRenamed(instructions, r, names);
  }

  lemma FunctionIdsRenamed(f: Function, r: Renaming, names: string -> string)
    requires KeepsDebug(names)
    ensures FunctionIds(RenameFunction(f, r, names)) == Map(FunctionIds(f), r.values)
  {
    hide BlockIds, RenameBlock, KeepsDebug;
    BlockIdsRenamed(f.blocks, r, names);
    MapAppend([f.id] + f.arguments, BlockIds(f.blocks), r.values);
    MapAppend([f.id], f.arguments, r.values);
    assert Map([f.id], r.values) == [r.values(f.id)];
  }

  lemma {:induction false} AllFunctionIdsRenamed(functions: seq<Function>, r: Renaming, names: string -> string)
    requires KeepsDebug(names)
    ensures AllFunctionIds(Map(functions, f => RenameFunction(f, r, names))) == Map(AllFunctionIds(functions), r.values)
  {
    hide FunctionIds, RenameFunction, KeepsDebug;
    var f := f => RenameFunction(f, r, names);
    var renamed := Map(functions, f);
    if functions != [] {
      assert renamed[0] == f(functions[0]) && renamed[1..] == Map(functions[1..], f);
      FunctionIdsRenamed(functions[0], r, names);
      AllFunctionIdsRenamed(functions[1..], r, names);
      MapAppend(FunctionIds(functions[0]), AllFunctionIds(functions[1..]), r.values);
    }
  }

  lemma OrderRenamed(m: Module, r: Renaming, names: string -> string)
    requires KeepsDebug(names)
    ensures Order(RenameModule(m, r, names)) == Map(Order(m), r.values)
  {
    hide KeptFunctions, AllFunctionIds, RenameFunction, KeepsDebug;
    var gs, as_, fs := Map(m.globals, (g: GlobalVariable) => g.id), Map(m.aliases, (a: Alias) => a.id), Map(m.ifuncs, (f: IFunc) => f.id);
    KeptFunctionsRenamed(m.functions, r, names);
    AllFunctionIdsRenamed(KeptFunctions(m.functions), r, names);
    var m' := RenameModule(m, r, names);
    assert Map(m'.globals, (g: GlobalVariable) => g.id) == Map(gs, r.values);
    assert Map(m'.aliases, (a: Alias) => a.id) == Map(as_, r.values);
    assert Map(m'.ifuncs, (f: IFunc) => f.id) == Map(fs, r.values);
    MapAppend(gs + as_ + fs, AllFunctionIds(KeptFunctions(m.functions)), r.values);
    MapAppend(gs + as_, fs, r.values);
    MapAppend(gs, as_, r.values);
  }

  ghost predicate Injective(f: ValueId -> ValueId) { forall a, b :: f(a) == f(b) ==> a == b }

  lemma {:induction false} NumbersRenamed(order: seq<ValueId>, f: ValueId -> ValueId, v: ValueId)
    requires Injective(f)
    ensures f(v) in Numbers(Map(order, f)) <==> v in Numbers(order)
    ensures v in Numbers(order) ==> Numbers(Map(order, f))[f(v)] == Numbers(order)[v]
    decreases |order|
  {
    hide Count;
    var renamed := Map(order, f);
    if order != [] {
      var n := |order| - 1;
      assert renamed[..n] == Map(order[..n], f) && renamed[n] == f(order[n]);
      NumbersRenamed(order[..n], f, v);
      NumbersStep(order[..n], order[n]);
      NumbersStep(renamed[..n], renamed[n]);
      assert order == order[..n] + [order[n]] && renamed == renamed[..n] + [renamed[n]];
      assert f(v) == f(order[n]) <==> v == order[n];
    } else {
      assert renamed == [];
    }
  }

  /** Two modules whose values and types correspond one to one, whatever they are called, have
      the same structural hash; the types may be recursive. */
  lemma RenamingKeepsHash(mixer: Mixer, types: map<TypeId, TypeNode>, types': map<TypeId, TypeNode>, m: Module,
                          r: Renaming, names: string -> string, scope: set<TypeId>)
    requires KeepsDebug(names) && Injective(r.values)
    requires TypesRenamed(types, types', r, scope) && Over(ModuleTerm(m), scope)
    ensures HashOf(mixer, types', RenameModule(m, r, names)) == HashOf(mixer, types, m)
  {
    hide Eval, Over, TypesRenamed, Numbers, Order, ModuleTerm, RenameModule, Map, KeepsDebug, Injective;
    var m' := RenameModule(m, r, names);
    var ids, ids' := Numbers(Order(m)), Numbers(Order(m'));
    OrderRenamed(m, r, names);
    forall v ensures IdOf(ids, v) == IdOf(ids', r.values(v)) {
      NumbersRenamed(Order(m), r.values, v);
    }
    ModuleRenamed(m, r, names);
    var env, env' := Env(mixer, types, ids), Env(mixer, types', ids');
    assert Renamed(env, env', r, scope);
    assert SameMemo(r, scope, map[], map[]) && SameVisits(r, scope, {}, {});
    EvalRenamed(env, env', r, scope, {}, {}, map[], map[], ModuleTerm(m));
  }
}
