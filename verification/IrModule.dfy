/** What the hasher reads of a module, and the term it hashes. */
module IrModule {
  import opened StructuralHash

  datatype Constant =
    | Global(v: ValueId)
    | IntConst(width: Word, words: seq<Word>)
    | FloatConst(width: Word, words: seq<Word>)
    | NullPointer(t: TypeId)
    | Poison(t: TypeId)
    | Undef(t: TypeId)
    | AggregateZero(t: TypeId)
    | Expr(opcode: Word, t: TypeId, operands: seq<Constant>)
    | DataSequence(element: TypeId, count: Word, bytes: seq<Word>)
    | Aggregate(t: TypeId, operands: seq<Constant>)
    | BlockAddress(owner: ValueId, block: ValueId)
    | OtherConst(t: TypeId, kind: Word)

  datatype Operand =
    | Const(c: Constant)
    | ArgumentOperand(v: ValueId, t: TypeId)
    | InstructionOperand(v: ValueId, t: TypeId)
    | BlockOperand(v: ValueId)
    | OtherOperand(v: ValueId, t: TypeId)

  /** What is read of some kinds of instruction only. A call has the name of the function it
      names directly; an invoke has no tail kind. */
  datatype Details =
    | Compare(comparison: Word)
    | ElementPointer(inBounds: bool, source: TypeId)
    | Load(ordering: Word, volatile: bool)
    | Store(ordering: Word, volatile: bool)
    | AtomicRmw(operation: Word, ordering: Word)
    | CompareExchange(success: Word, failure: Word)
    | Call(convention: Word, tail: Option<Word>, called: Option<string>)
    | NoDetails

  datatype Instruction = Instruction(id: ValueId, opcode: Word, t: TypeId, details: Details, operands: seq<Operand>)

  datatype Block = Block(id: ValueId, instructions: seq<Instruction>)

  datatype Function = Function(id: ValueId, name: string, t: TypeId, linkage: Word, visibility: Word, declaration: bool,
                               arguments: seq<ValueId>, blocks: seq<Block>)

  datatype GlobalVariable = GlobalVariable(id: ValueId, t: TypeId, linkage: Word, constant: bool, threadLocal: bool,
                                           initializer: Option<Constant>)

  datatype Alias = Alias(id: ValueId, t: TypeId, linkage: Word, aliasee: Constant)

  datatype IFunc = IFunc(id: ValueId, t: TypeId, resolver: Constant)

  datatype Module = Module(globals: seq<GlobalVariable>, aliases: seq<Alias>, ifuncs: seq<IFunc>, functions: seq<Function>)

  // ----- debug information

  const DebugPrefix := "llvm.dbg."

  predicate IsDebugName(name: string) { DebugPrefix <= name }

  predicate IsDebugFunction(f: Function) { IsDebugName(f.name) }

  predicate IsDebugCall(i: Instruction) {
    i.details.Call? && i.details.called.Some? && IsDebugName(i.details.called.value)
  }

  function Kept(instructions: seq<Instruction>): seq<Instruction> {
    if instructions == [] then []
    else (if IsDebugCall(instructions[0]) then [] else [instructions[0]]) + Kept(instructions[1..])
  }

  function KeptFunctions(functions: seq<Function>): seq<Function> {
    if functions == [] then []
    else (if IsDebugFunction(functions[0]) then [] else [functions[0]]) + KeptFunctions(functions[1..])
  }

  // ----- terms

  function Map<A, B>(s: seq<A>, f: A -> B): seq<B> { seq(|s|, i requires 0 <= i < |s| => f(s[i])) }

  function IntTerm(width: Word, words: seq<Word>): Term {
    Mixed(true, 0x11, [Word(width), Word(Count(|words|))] + Words(words))
  }

  function Words(ws: seq<Word>): seq<Term> { seq(|ws|, i requires 0 <= i < |ws| => Word(ws[i])) }

  function ConstantTerm(c: Constant): Term {
    match c
    case Global(v) => Mixed(true, 1, [Id(v)])
    case IntConst(width, words) => Mixed(true, 5, [IntTerm(width, words)])
    case FloatConst(width, words) => Mixed(true, 6, [IntTerm(width, words)])
    case NullPointer(t) => Mixed(true, 7, [Type(t)])
    case Undef(t) => Mixed(true, 8, [Type(t)])
    case Poison(t) => Mixed(true, 9, [Type(t)])
    case AggregateZero(t) => Mixed(true, 10, [Type(t)])
    case Expr(opcode, t, operands) =>
      Mixed(true, 11, [Word(opcode), Type(t)] + seq(|operands|, i requires 0 <= i < |operands| => ConstantTerm(operands[i])))
    case DataSequence(element, count, bytes) => Mixed(true, 12, [Type(element), Word(count)] + Words(bytes))
    case Aggregate(t, operands) =>
      Mixed(true, 13, [Type(t)] + seq(|operands|, i requires 0 <= i < |operands| => ConstantTerm(operands[i])))
    case BlockAddress(owner, block) => Mixed(true, 14, [Id(owner), Id(block)])
    case OtherConst(t, kind) => Mixed(true, 15, [Type(t), Word(kind)])
  }

  function ConstantTerms(cs: seq<Constant>): seq<Term> { seq(|cs|, i requires 0 <= i < |cs| => ConstantTerm(cs[i])) }

  function OperandTerm(o: Operand): Term {
    match o
    case Const(c) => ConstantTerm(c)
    case ArgumentOperand(v, t) => Mixed(true, 2, [Id(v), Type(t)])
    case InstructionOperand(v, t) => Mixed(true, 4, [Id(v), Type(t)])
    case BlockOperand(v) => Mixed(true, 3, [Id(v)])
    case OtherOperand(v, t) => Mixed(true, 16, [Id(v), Type(t)])
  }

  function DetailParts(d: Details): seq<Term> {
    match d
    case Compare(p) => [Word(p)]
    case ElementPointer(inBounds, source) => [Flag(inBounds), Type(source)]
    case Load(ordering, volatile) => [Word(ordering), Flag(volatile)]
    case Store(ordering, volatile) => [Word(ordering), Flag(volatile)]
    case AtomicRmw(operation, ordering) => [Word(operation), Word(ordering)]
    case CompareExchange(success, failure) => [Word(success), Word(failure)]
    case Call(convention, tail, _) => [Word(convention)] + if tail.Some? then [Word(tail.value)] else []
    case NoDetails => []
  }

  function InstructionTerm(i: Instruction): Term {
    Mixed(true, i.opcode, [Type(i.t), Word(Count(|i.operands|))] + DetailParts(i.details) + Map(i.operands, OperandTerm))
  }

  /** A block contributes its number of instructions and their mix, which is not finalised. */
  function BlockParts(b: Block): seq<Term> {
    [Word(Count(|Kept(b.instructions)|)), Mixed(false, 0, Map(Kept(b.instructions), InstructionTerm))]
  }

  function AllBlockParts(blocks: seq<Block>): seq<Term> {
    if blocks == [] then [] else BlockParts(blocks[0]) + AllBlockParts(blocks[1..])
  }

  function FunctionTerm(f: Function): Term {
    Mixed(true, 0xf0f0f0f0,
          [Type(f.t), Word(f.linkage), Word(f.visibility), Flag(f.declaration)] + AllBlockParts(f.blocks))
  }

  function GlobalTerm(g: GlobalVariable): Term {
    Mixed(true, 0x6060,
          [Type(g.t), Word(g.linkage), Flag(g.constant), Flag(g.threadLocal), Flag(g.initializer.Some?)]
          + if g.initializer.Some? then [ConstantTerm(g.initializer.value)] else [])
  }

  function AliasTerm(a: Alias): Term { Mixed(true, 0xa1a1, [Type(a.t), Word(a.linkage), ConstantTerm(a.aliasee)]) }

  function IFuncTerm(f: IFunc): Term { Mixed(true, 0x1f1f, [Type(f.t), ConstantTerm(f.resolver)]) }

  function ModuleTerm(m: Module): Term {
    Mixed(true, 0x9e3779b97f4a7c15,
          Map(m.globals, GlobalTerm) + Map(m.aliases, AliasTerm) + Map(m.ifuncs, IFuncTerm)
          + Map(KeptFunctions(m.functions), FunctionTerm))
  }

  // ----- numbering

  function InstructionIds(instructions: seq<Instruction>): seq<ValueId> { Map(Kept(instructions), (i: Instruction) => i.id) }

  function BlockIds(blocks: seq<Block>): seq<ValueId> {
    if blocks == [] then [] else [blocks[0].id] + InstructionIds(blocks[0].instructions) + BlockIds(blocks[1..])
  }

  function FunctionIds(f: Function): seq<ValueId> { [f.id] + f.arguments + BlockIds(f.blocks) }

  function AllFunctionIds(functions: seq<Function>): seq<ValueId> {
    if functions == [] then [] else FunctionIds(functions[0]) + AllFunctionIds(functions[1..])
  }

  /** The values of a module in the order in which they are numbered. */
  function Order(m: Module): seq<ValueId> {
    Map(m.globals, (g: GlobalVariable) => g.id) + Map(m.aliases, (a: Alias) => a.id) + Map(m.ifuncs, (f: IFunc) => f.id)
    + AllFunctionIds(KeptFunctions(m.functions))
  }

  /** Numbers from 1, in order. */
  function Numbers(order: seq<ValueId>): map<ValueId, Word>
    decreases |order|
  {
    if order == [] then map[] else Numbers(order[..|order| - 1])[order[|order| - 1] := Count(|order|)]
  }

  lemma NumbersStep(order: seq<ValueId>, v: ValueId)
    ensures Numbers(order + [v]) == Numbers(order)[v := Count(|order| + 1)]
  {
    hide Count;
    var all := order + [v];
    assert all[..|all| - 1] == order && all[|all| - 1] == v;
  }

  /** The structural hash of a module. */
  function HashOf(mixer: Mixer, types: map<TypeId, TypeNode>, m: Module): Word {
    Eval(Env(mixer, types, Numbers(Order(m))), {}, map[], ModuleTerm(m)).0
  }

  // ----- stripping

  function StripBlock(b: Block): Block { Block(b.id, Kept(b.instructions)) }

  function StripFunction(f: Function): Function { f.(blocks := Map(f.blocks, StripBlock)) }

  /** The module without debug declarations and calls. */
  function Strip(m: Module): Module { m.(functions := Map(KeptFunctions(m.functions), StripFunction)) }

  lemma {:induction false} KeptTwice(instructions: seq<Instruction>)
    ensures Kept(Kept(instructions)) == Kept(instructions)
  {
    if instructions != [] {
      KeptTwice(instructions[1..]);
      var rest := Kept(instructions[1..]);
      if IsDebugCall(instructions[0]) {
        assert [] + rest == rest;
      } else {
        var kept := [instructions[0]] + rest;
        assert kept[0] == instructions[0] && kept[1..] == rest;
        assert Kept(kept) == [kept[0]] + Kept(rest);
      }
    }
  }

  lemma {:induction false} KeptStripped(functions: seq<Function>)
    ensures KeptFunctions(Map(KeptFunctions(functions), StripFunction)) == Map(KeptFunctions(functions), StripFunction)
  {
    var kept := KeptFunctions(functions);
    forall i | 0 <= i < |kept| ensures !IsDebugFunction(kept[i]) { KeptAreKept(functions, i); }
    AllKept(Map(kept, StripFunction));
  }

  lemma {:induction false} KeptAreKept(functions: seq<Function>, i: nat)
    requires i < |KeptFunctions(functions)|
    ensures !IsDebugFunction(KeptFunctions(functions)[i])
  {
    if functions != [] {
      if IsDebugFunction(functions[0]) {
        KeptAreKept(functions[1..], i);
      } else if i > 0 {
        KeptAreKept(functions[1..], i - 1);
      }
    }
  }

  lemma {:induction false} AllKept(functions: seq<Function>)
    requires forall i :: 0 <= i < |functions| ==> !IsDebugFunction(functions[i])
    ensures KeptFunctions(functions) == functions
  {
    if functions != [] { AllKept(functions[1..]); }
  }

  lemma {:induction false} BlocksStripped(blocks: seq<Block>)
    ensures AllBlockParts(Map(blocks, StripBlock)) == AllBlockParts(blocks)
    ensures BlockIds(Map(blocks, StripBlock)) == BlockIds(blocks)
  {
    hide BlockParts, InstructionIds;
    var stripped := Map(blocks, StripBlock);
    if blocks == [] {
      assert stripped == [];
    } else {
      assert stripped[0] == StripBlock(blocks[0]) && stripped[1..] == Map(blocks[1..], StripBlock);
      BlockStripped(blocks[0]);
      BlocksStripped(blocks[1..]);
    }
  }

  lemma BlockStripped(b: Block)
    ensures BlockParts(StripBlock(b)) == BlockParts(b)
    ensures InstructionIds(StripBlock(b).instructions) == InstructionIds(b.instructions)
  {
    KeptTwice(b.instructions);
    hide Kept, Map, InstructionTerm;
  }

  lemma FunctionStripped(f: Function)
    ensures FunctionTerm(StripFunction(f)) == FunctionTerm(f)
    ensures FunctionIds(StripFunction(f)) == FunctionIds(f)
  {
    hide AllBlockParts, BlockIds, Map;
    BlocksStripped(f.blocks);
  }

  lemma {:induction false} FunctionsStripped(functions: seq<Function>)
    ensures Map(Map(functions, StripFunction), FunctionTerm) == Map(functions, FunctionTerm)
    ensures AllFunctionIds(Map(functions, StripFunction)) == AllFunctionIds(functions)
  {
    hide FunctionTerm, FunctionIds, StripFunction;
    var stripped := Map(functions, StripFunction);
    forall i | 0 <= i < |functions| ensures FunctionTerm(stripped[i]) == FunctionTerm(functions[i]) {
      FunctionStripped(functions[i]);
    }
    if functions == [] {
      assert stripped == [];
    } else {
      assert stripped[1..] == Map(functions[1..], StripFunction);
      FunctionStripped(functions[0]);
      FunctionsStripped(functions[1..]);
    }
  }

  /** Stripping debug information changes neither the numbers given to the values nor the hash. */
  lemma StripKeepsHash(mixer: Mixer, types: map<TypeId, TypeNode>, m: Module)
    ensures Numbers(Order(Strip(m))) == Numbers(Order(m))
    ensures HashOf(mixer, types, Strip(m)) == HashOf(mixer, types, m)
  {
    hide KeptFunctions, Map, AllFunctionIds, Numbers, Eval;
    KeptStripped(m.functions);
    FunctionsStripped(KeptFunctions(m.functions));
  }
}
