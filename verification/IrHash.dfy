/** The hasher: it numbers the values of a module and mixes what it reads, memoising types. */
module IrHash {
  import opened StructuralHash
  import opened IrModule

  /** Order-sensitive 64-bit mix. */
  function Mix(a: Word, b: Word): Word { a ^ (b + 0x9e3779b97f4a7c15 + (a << 6) + (a >> 2)) }

  function Finalize(a: Word): Word {
    var b := (a ^ (a >> 30)) * 0xbf58476d1ce4e5b9;
    var c := (b ^ (b >> 27)) * 0x94d049bb133111eb;
    c ^ (c >> 31)
  }

  function Mixer64(): Mixer { Mixer(Mix, Finalize) }

  // ----- mixing in steps

  /** After mixing some parts into a seed: the accumulator and the memo. */
  ghost predicate Mixing(env: Env, visiting: set<TypeId>, before: Memo, seed: Word, parts: seq<Term>, h: Word, done: Memo) {
    MixAll(env, visiting, before, seed, parts) == (h, done)
  }

  lemma Begin(env: Env, visiting: set<TypeId>, before: Memo, seed: Word)
    ensures Mixing(env, visiting, before, seed, [], seed, before)
  {
    MixNothing(env, visiting, before, seed);
  }

  lemma {:induction false} MixJoin(env: Env, visiting: set<TypeId>, before: Memo, seed: Word, a: seq<Term>, b: seq<Term>)
    ensures var (h, done) := MixAll(env, visiting, before, seed, a);
      MixAll(env, visiting, before, seed, a + b) == MixAll(env, visiting, done, h, b)
    decreases |a|
  {
    hide Eval, MixAll;
    if a == [] {
      MixNothing(env, visiting, before, seed);
      assert a + b == b;
    } else {
      assert (a + b)[0] == a[0] && (a + b)[1..] == a[1..] + b;
      MixStep(env, visiting, before, seed, a);
      MixStep(env, visiting, before, seed, a + b);
      var (h, after) := Eval(env, visiting, before, a[0]);
      MixJoin(env, visiting, after, env.mixer.mix(seed, h), a[1..], b);
    }
  }

  lemma Push(env: Env, visiting: set<TypeId>, before: Memo, seed: Word, a: seq<Term>, h: Word, done: Memo, x: Term, w: Word, done': Memo)
    requires Mixing(env, visiting, before, seed, a, h, done) && Eval(env, visiting, done, x) == (w, done')
    ensures Mixing(env, visiting, before, seed, a + [x], env.mixer.mix(h, w), done')
  {
    hide MixAll, Eval;
    MixJoin(env, visiting, before, seed, a, [x]);
    MixStep(env, visiting, done, h, [x]);
    assert [x][1..] == [];
    MixNothing(env, visiting, done', env.mixer.mix(h, w));
  }

  lemma PushWord(env: Env, visiting: set<TypeId>, before: Memo, seed: Word, a: seq<Term>, h: Word, done: Memo, w: Word)
    requires Mixing(env, visiting, before, seed, a, h, done)
    ensures Mixing(env, visiting, before, seed, a + [Word(w)], env.mixer.mix(h, w), done)
  {
    hide Mixing;
    EvalWord(env, visiting, done, w);
    Push(env, visiting, before, seed, a, h, done, Word(w), w, done);
  }

  lemma PushId(env: Env, visiting: set<TypeId>, before: Memo, seed: Word, a: seq<Term>, h: Word, done: Memo, v: ValueId)
    requires Mixing(env, visiting, before, seed, a, h, done)
    ensures Mixing(env, visiting, before, seed, a + [Id(v)], env.mixer.mix(h, IdOf(env.ids, v)), done)
  {
    hide Mixing;
    EvalId(env, visiting, done, v);
    Push(env, visiting, before, seed, a, h, done, Id(v), IdOf(env.ids, v), done);
  }

  lemma Close(env: Env, visiting: set<TypeId>, before: Memo, final: bool, seed: Word, parts: seq<Term>, h: Word, done: Memo)
    requires Mixing(env, visiting, before, seed, parts, h, done)
    ensures Eval(env, visiting, before, Mixed(final, seed, parts)) == (if final then env.mixer.finalize(h) else h, done)
  {
    EvalMixed(env, visiting, before, final, seed, parts);
  }

  class StructuralHasher {
    const mixer: Mixer
    const types: map<TypeId, TypeNode>
    var ids: map<ValueId, Word>
    var typeDone: Memo
    var typeVisiting: set<TypeId>
    var nextId: Word

    ghost function Environment(): Env
      reads this
    {
      Env(mixer, types, ids)
    }

    /** `h` and the present memo are what the term gives when it is hashed with the memo `before`. */
    ghost predicate Hashed(before: Memo, h: Word, term: Term)
      reads this
    {
      Eval(Environment(), typeVisiting, before, term) == (h, typeDone)
    }

    /** The same for parts mixed into a seed. */
    ghost predicate MixedIn(before: Memo, seed: Word, parts: seq<Term>, h: Word)
      reads this
    {
      Mixing(Environment(), typeVisiting, before, seed, parts, h, typeDone)
    }

    constructor (mixer: Mixer, types: map<TypeId, TypeNode>)
      ensures this.mixer == mixer && this.types == types
      ensures ids == map[] && typeDone == map[] && typeVisiting == {} && nextId == 1
    {
      this.mixer, this.types := mixer, types;
      ids, typeDone, typeVisiting, nextId := map[], map[], {}, 1;
    }

    // ----- types

    method HashType(t: TypeId) returns (h: Word)
      modifies `typeDone, `typeVisiting
      ensures typeVisiting == old(typeVisiting) && Hashed(old(typeDone), h, Type(t))
      decreases types.Keys - typeVisiting, 0
    {
      hide Eval, Mixing;
      ghost var env := Environment();
      if t !in types {
        EvalNull(env, typeVisiting, typeDone, t);
        return 0;
      }
      var node := types[t];
      if t in typeDone {
        EvalKnown(env, typeVisiting, typeDone, t);
        return typeDone[t];
      }
      if t in typeVisiting {
        EvalKnown(env, typeVisiting, typeDone, t);
        return mixer.finalize(mixer.mix(0x2f, node.id));
      }
      ghost var visiting := typeVisiting;
      typeVisiting := typeVisiting + {t};
      h := HashKind(node);
      Close(env, typeVisiting, old(typeDone), true, node.id, KindParts(node.kind), h, typeDone);
      EvalNew(env, visiting, old(typeDone), t);
      typeVisiting := typeVisiting - {t};
      assert typeVisiting == visiting;
      h := mixer.finalize(h);
      typeDone := typeDone[t := h];
    }

    /** The switch over the kinds of type. */
    method HashKind(node: TypeNode) returns (h: Word)
      modifies `typeDone, `typeVisiting
      ensures typeVisiting == old(typeVisiting) && MixedIn(old(typeDone), node.id, KindParts(node.kind), h)
      decreases types.Keys - typeVisiting, 3
    {
      hide Eval, Mixing, Types, PointerParts, Count, Flag;
      ghost var env, vis, d0 := Environment(), typeVisiting, typeDone;
      ghost var parts: seq<Term> := [];
      h := node.id;
      Begin(env, vis, d0, h);
      match node.kind {
        case Integer(width) =>
          h := MixWord(d0, node.id, parts, h, width);
          assert parts + [Word(width)] == KindParts(node.kind);
        case Pointer(space, element) =>
          ghost var d1 := typeDone;
          var p := HashPointerType(space, element);
          Push(env, vis, d0, node.id, parts, h, d1, Mixed(false, space, PointerParts(element)), p, typeDone);
          h := mixer.mix(h, p);
          assert parts + [Mixed(false, space, PointerParts(element))] == KindParts(node.kind);
        case Callable(varArg, result, params) =>
          h := MixFlag(d0, node.id, parts, h, varArg);
          h := MixType(d0, node.id, parts + [Flag(varArg)], h, result);
          h := MixTypes(d0, node.id, parts + [Flag(varArg)] + [Type(result)], h, params);
          assert parts + [Flag(varArg)] + [Type(result)] + Types(params) == KindParts(node.kind);
        case Struct(packed, elements) =>
          h := MixFlag(d0, node.id, parts, h, packed);
          h := MixWord(d0, node.id, parts + [Flag(packed)], h, Count(|elements|));
          h := MixTypes(d0, node.id, parts + [Flag(packed)] + [Word(Count(|elements|))], h, elements);
          assert parts + [Flag(packed)] + [Word(Count(|elements|))] + Types(elements) == KindParts(node.kind);
        case Array(count, item) =>
          h := MixWord(d0, node.id, parts, h, count);
          h := MixType(d0, node.id, parts + [Word(count)], h, item);
          assert parts + [Word(count)] + [Type(item)] == KindParts(node.kind);
        case Vector(minimum, scalable, item) =>
          h := MixWord(d0, node.id, parts, h, minimum);
          h := MixFlag(d0, node.id, parts + [Word(minimum)], h, scalable);
          h := MixType(d0, node.id, parts + [Word(minimum)] + [Flag(scalable)], h, item);
          assert parts + [Word(minimum)] + [Flag(scalable)] + [Type(item)] == KindParts(node.kind);
        case Plain =>
          assert parts == KindParts(node.kind);
      }
    }

    /** A pointer type is mixed from its address space and, unless opaque, its element; the
        caller finalises. */
    method HashPointerType(space: Word, element: Option<TypeId>) returns (h: Word)
      modifies `typeDone, `typeVisiting
      ensures typeVisiting == old(typeVisiting) && Hashed(old(typeDone), h, Mixed(false, space, PointerParts(element)))
      decreases types.Keys - typeVisiting, 2
    {
      hide Eval, Mixing, Flag;
      ghost var d0 := typeDone;
      Begin(Environment(), typeVisiting, d0, space);
      h := MixFlag(d0, space, [], space, element.None?);
      if element.Some? {
        h := MixType(d0, space, [] + [Flag(element.None?)], h, element.value);
      } else {
        assert [Flag(true)] + [] == [Flag(true)];
      }
      assert [] + [Flag(element.None?)] == [Flag(element.None?)];
      Close(Environment(), typeVisiting, d0, false, space, PointerParts(element), h, typeDone);
    }

    // ----- mixing one more part

    method MixWord(ghost before: Memo, ghost seed: Word, ghost parts: seq<Term>, h: Word, w: Word) returns (h': Word)
      requires MixedIn(before, seed, parts, h)
      ensures MixedIn(before, seed, parts + [Word(w)], h')
    {
      hide Mixing;
      PushWord(Environment(), typeVisiting, before, seed, parts, h, typeDone, w);
      h' := mixer.mix(h, w);
    }

    method MixFlag(ghost before: Memo, ghost seed: Word, ghost parts: seq<Term>, h: Word, b: bool) returns (h': Word)
      requires MixedIn(before, seed, parts, h)
      ensures MixedIn(before, seed, parts + [Flag(b)], h')
    {
      hide Mixing;
      PushWord(Environment(), typeVisiting, before, seed, parts, h, typeDone, if b then 1 else 0);
      h' := mixer.mix(h, if b then 1 else 0);
    }

    method MixId(ghost before: Memo, ghost seed: Word, ghost parts: seq<Term>, h: Word, v: ValueId) returns (h': Word)
      requires MixedIn(before, seed, parts, h)
      ensures MixedIn(before, seed, parts + [Id(v)], h')
    {
      hide Mixing;
      PushId(Environment(), typeVisiting, before, seed, parts, h, typeDone, v);
      h' := mixer.mix(h, IdOf(ids, v));
    }

    method MixType(ghost before: Memo, ghost seed: Word, ghost parts: seq<Term>, h: Word, t: TypeId) returns (h': Word)
      requires MixedIn(before, seed, parts, h)
      modifies `typeDone, `typeVisiting
      ensures typeVisiting == old(typeVisiting) && MixedIn(before, seed, parts + [Type(t)], h')
      decreases types.Keys - typeVisiting, 1
    {
      hide Mixing, Eval;
      var w := HashType(t);
      Push(Environment(), typeVisiting, before, seed, parts, h, old(typeDone), Type(t), w, typeDone);
      h' := mixer.mix(h, w);
    }

    method MixTypes(ghost before: Memo, ghost seed: Word, ghost parts: seq<Term>, h: Word, ts: seq<TypeId>) returns (h': Word)
      requires MixedIn(before, seed, parts, h)
      modifies `typeDone, `typeVisiting
      ensures typeVisiting == old(typeVisiting) && MixedIn(before, seed, parts + Types(ts), h')
      decreases types.Keys - typeVisiting, 2
    {
      hide Mixing;
      h' := h;
      assert parts + Types(ts[..0]) == parts;
      for i := 0 to |ts|
        invariant typeVisiting == old(typeVisiting) && MixedIn(before, seed, parts + Types(ts[..i]), h')
      {
        h' := MixType(before, seed, parts + Types(ts[..i]), h', ts[i]);
        assert parts + Types(ts[..i]) + [Type(ts[i])] == parts + Types(ts[..i + 1]);
      }
      assert ts[..|ts|] == ts;
    }

    // ----- constants and operands

    method HashAPInt(width: Word, words: seq<Word>) returns (h: Word)
      ensures Hashed(typeDone, h, IntTerm(width, words))
    {
      hide Mixing, Eval, Count;
      Begin(Environment(), typeVisiting, typeDone, 0x11);
      h := MixWord(typeDone, 0x11, [], 0x11, width);
      h := MixWord(typeDone, 0x11, [] + [Word(width)], h, Count(|words|));
      ghost var head := [] + [Word(width)] + [Word(Count(|words|))];
      h := MixWords(typeDone, 0x11, head, h, words);
      assert head == [Word(width), Word(Count(|words|))];
      Close(Environment(), typeVisiting, typeDone, true, 0x11, head + Words(words), h, typeDone);
      h := mixer.finalize(h);
    }

    method MixWords(ghost before: Memo, ghost seed: Word, ghost parts: seq<Term>, h: Word, words: seq<Word>) returns (h': Word)
      requires MixedIn(before, seed, parts, h)
      ensures MixedIn(before, seed, parts + Words(words), h')
    {
      hide Mixing;
      h' := h;
      assert parts + Words(words[..0]) == parts;
      for i := 0 to |words|
        invariant MixedIn(before, seed, parts + Words(words[..i]), h')
      {
        h' := MixWord(before, seed, parts + Words(words[..i]), h', words[i]);
        assert parts + Words(words[..i]) + [Word(words[i])] == parts + Words(words[..i + 1]);
      }
      assert words[..|words|] == words;
    }

    /** A kind mixed with one hash, finalised. */
    method Wrap(ghost before: Memo, kind: Word, ghost x: Term, w: Word) returns (h: Word)
      requires Hashed(before, w, x)
      ensures Hashed(before, h, Mixed(true, kind, [x]))
    {
      hide Mixing, Eval;
      Begin(Environment(), typeVisiting, before, kind);
      Push(Environment(), typeVisiting, before, kind, [], kind, before, x, w, typeDone);
      assert [] + [x] == [x];
      h := mixer.mix(kind, w);
      Close(Environment(), typeVisiting, before, true, kind, [x], h, typeDone);
      h := mixer.finalize(h);
    }

    method HashTyped(kind: Word, t: TypeId) returns (h: Word)
      modifies `typeDone, `typeVisiting
      ensures typeVisiting == old(typeVisiting) && Hashed(old(typeDone), h, Mixed(true, kind, [Type(t)]))
    {
      hide Eval;
      h := HashType(t);
      h := Wrap(old(typeDone), kind, Type(t), h);
    }

    method HashNumbered(kind: Word, v: ValueId) returns (h: Word)
      ensures Hashed(typeDone, h, Mixed(true, kind, [Id(v)]))
    {
      hide Eval;
      EvalId(Environment(), typeVisiting, typeDone, v);
      h := Wrap(typeDone, kind, Id(v), IdOf(ids, v));
    }

    method HashConstant(c: Constant) returns (h: Word)
      modifies `typeDone, `typeVisiting
      ensures typeVisiting == old(typeVisiting) && Hashed(old(typeDone), h, ConstantTerm(c))
      decreases c, 0
    {
      hide Mixing, Eval, IntTerm, Words, Hashed, MixedIn;
      ghost var d0 := typeDone;
      match c
      case Global(v) => h := HashNumbered(1, v);
      case IntConst(width, words) =>
        h := HashAPInt(width, words);
        h := Wrap(d0, 5, IntTerm(width, words), h);
      case FloatConst(width, words) =>
        h := HashAPInt(width, words);
        h := Wrap(d0, 6, IntTerm(width, words), h);
      case NullPointer(t) => h := HashTyped(7, t);
      case Poison(t) => h := HashTyped(9, t);
      case Undef(t) => h := HashTyped(8, t);
      case AggregateZero(t) => h := HashTyped(10, t);
      case Expr(opcode, t, operands) => h := HashExpr(opcode, t, operands);
      case DataSequence(element, count, bytes) => h := HashDataSequence(element, count, bytes);
      case Aggregate(t, operands) => h := HashAggregate(t, operands);
      case BlockAddress(owner, block) =>
        BeginHere(14);
        h := MixId(d0, 14, [], 14, owner);
        h := MixId(d0, 14, [] + [Id(owner)], h, block);
        assert [] + [Id(owner)] + [Id(block)] == ConstantTerm(c).parts;
        h := Finish(d0, 14, ConstantTerm(c).parts, h);
      case OtherConst(t, kind) =>
        BeginHere(15);
        h := MixType(d0, 15, [], 15, t);
        h := MixWord(d0, 15, [] + [Type(t)], h, kind);
        assert [] + [Type(t)] + [Word(kind)] == ConstantTerm(c).parts;
        h := Finish(d0, 15, ConstantTerm(c).parts, h);
    }

    method HashExpr(opcode: Word, t: TypeId, operands: seq<Constant>) returns (h: Word)
      modifies `typeDone, `typeVisiting
      ensures typeVisiting == old(typeVisiting) && Hashed(old(typeDone), h, ConstantTerm(Expr(opcode, t, operands)))
      decreases operands, 2
    {
      hide Hashed, MixedIn;
      ghost var d0 := typeDone;
      BeginHere(11);
      h := MixWord(d0, 11, [], 11, opcode);
      h := MixType(d0, 11, [] + [Word(opcode)], h, t);
      h := MixConstants(d0, 11, [] + [Word(opcode)] + [Type(t)], h, operands);
      assert [] + [Word(opcode)] + [Type(t)] + ConstantTerms(operands) == ConstantTerm(Expr(opcode, t, operands)).parts;
      h := Finish(d0, 11, ConstantTerm(Expr(opcode, t, operands)).parts, h);
    }

    method HashAggregate(t: TypeId, operands: seq<Constant>) returns (h: Word)
      modifies `typeDone, `typeVisiting
      ensures typeVisiting == old(typeVisiting) && Hashed(old(typeDone), h, ConstantTerm(Aggregate(t, operands)))
      decreases operands, 2
    {
      hide Hashed, MixedIn;
      ghost var d0 := typeDone;
      BeginHere(13);
      h := MixType(d0, 13, [], 13, t);
      h := MixConstants(d0, 13, [] + [Type(t)], h, operands);
      assert [] + [Type(t)] + ConstantTerms(operands) == ConstantTerm(Aggregate(t, operands)).parts;
      h := Finish(d0, 13, ConstantTerm(Aggregate(t, operands)).parts, h);
    }

    method HashDataSequence(element: TypeId, count: Word, bytes: seq<Word>) returns (h: Word)
      modifies `typeDone, `typeVisiting
      ensures typeVisiting == old(typeVisiting) && Hashed(old(typeDone), h, ConstantTerm(DataSequence(element, count, bytes)))
    {
      hide Hashed, MixedIn, Words;
      ghost var d0 := typeDone;
      BeginHere(12);
      h := MixType(d0, 12, [], 12, element);
      h := MixWord(d0, 12, [] + [Type(element)], h, count);
      h := MixWords(d0, 12, [] + [Type(element)] + [Word(count)], h, bytes);
      assert [] + [Type(element)] + [Word(count)] + Words(bytes) == ConstantTerm(DataSequence(element, count, bytes)).parts;
      h := Finish(d0, 12, ConstantTerm(DataSequence(element, count, bytes)).parts, h);
    }

    lemma BeginHere(seed: Word)
      ensures MixedIn(typeDone, seed, [], seed)
    {
      Begin(Environment(), typeVisiting, typeDone, seed);
    }

    method Finish(ghost before: Memo, ghost seed: Word, ghost parts: seq<Term>, h: Word) returns (h': Word)
      requires MixedIn(before, seed, parts, h)
      ensures Hashed(before, h', Mixed(true, seed, parts))
    {
      hide Mixing, Eval;
      Close(Environment(), typeVisiting, before, true, seed, parts, h, typeDone);
      h' := mixer.finalize(h);
    }

    method MixConstants(ghost before: Memo, ghost seed: Word, ghost parts: seq<Term>, h: Word, cs: seq<Constant>) returns (h': Word)
      requires MixedIn(before, seed, parts, h)
      modifies `typeDone, `typeVisiting
      ensures typeVisiting == old(typeVisiting) && MixedIn(before, seed, parts + ConstantTerms(cs), h')
      decreases cs, 1
    {
      hide Mixing, Eval, ConstantTerm;
      h' := h;
      assert parts + ConstantTerms(cs[..0]) == parts;
      for i := 0 to |cs|
        invariant typeVisiting == old(typeVisiting) && MixedIn(before, seed, parts + ConstantTerms(cs[..i]), h')
      {
        ghost var d := typeDone;
        var w := HashConstant(cs[i]);
        Push(Environment(), typeVisiting, before, seed, parts + ConstantTerms(cs[..i]), h', d, ConstantTerm(cs[i]), w, typeDone);
        h' := mixer.mix(h', w);
        assert parts + ConstantTerms(cs[..i]) + [ConstantTerm(cs[i])] == parts + ConstantTerms(cs[..i + 1]);
      }
      assert cs[..|cs|] == cs;
    }

    method HashOperand(o: Operand) returns (h: Word)
      modifies `typeDone, `typeVisiting
      ensures typeVisiting == old(typeVisiting) && Hashed(old(typeDone), h, OperandTerm(o))
    {
      hide Mixing, Eval, ConstantTerm, Hashed, MixedIn;
      match o
      case Const(c) => h := HashConstant(c);
      case ArgumentOperand(v, t) => h := HashTypedId(2, v, t);
      case InstructionOperand(v, t) => h := HashTypedId(4, v, t);
      case BlockOperand(v) => h := HashNumbered(3, v);
      case OtherOperand(v, t) => h := HashTypedId(16, v, t);
    }

    method HashTypedId(kind: Word, v: ValueId, t: TypeId) returns (h: Word)
      modifies `typeDone, `typeVisiting
      ensures typeVisiting == old(typeVisiting) && Hashed(old(typeDone), h, Mixed(true, kind, [Id(v), Type(t)]))
    {
      hide Hashed, MixedIn, Mixing, Eval;
      BeginHere(kind);
      h := MixId(typeDone, kind, [], kind, v);
      h := MixType(old(typeDone), kind, [] + [Id(v)], h, t);
      assert [] + [Id(v)] + [Type(t)] == [Id(v), Type(t)];
      h := Finish(old(typeDone), kind, [Id(v), Type(t)], h);
    }

    // ----- instructions, functions and globals

    method HashInstruction(i: Instruction) returns (h: Word)
      modifies `typeDone, `typeVisiting
      ensures typeVisiting == old(typeVisiting) && Hashed(old(typeDone), h, InstructionTerm(i))
    {
      hide Hashed, MixedIn, Mixing, Eval, Map, DetailParts, Count;
      ghost var d0 := typeDone;
      BeginHere(i.opcode);
      h := MixType(d0, i.opcode, [], i.opcode, i.t);
      h := MixWord(d0, i.opcode, [] + [Type(i.t)], h, Count(|i.operands|));
      ghost var head := [] + [Type(i.t)] + [Word(Count(|i.operands|))];
      h := MixDetails(d0, i.opcode, head, h, i.details);
      h := MixOperands(d0, i.opcode, head + DetailParts(i.details), h, i.operands);
      assert head == [Type(i.t), Word(Count(|i.operands|))];
      h := Finish(d0, i.opcode, head + DetailParts(i.details) + Map(i.operands, OperandTerm), h);
    }

    /** What is read of one kind of instruction only. */
    method MixDetails(ghost before: Memo, ghost seed: Word, ghost parts: seq<Term>, h: Word, d: Details) returns (h': Word)
      requires MixedIn(before, seed, parts, h)
      modifies `typeDone, `typeVisiting
      ensures typeVisiting == old(typeVisiting) && MixedIn(before, seed, parts + DetailParts(d), h')
    {
      hide MixedIn, Mixing, Eval, Flag;
      match d
      case Compare(p) => h' := MixWord(before, seed, parts, h, p);
      case ElementPointer(inBounds, source) =>
        h' := MixFlag(before, seed, parts, h, inBounds);
        h' := MixType(before, seed, parts + [Flag(inBounds)], h', source);
        assert parts + [Flag(inBounds)] + [Type(source)] == parts + DetailParts(d);
      case Load(ordering, volatile) => h' := MixAccess(before, seed, parts, h, ordering, volatile);
      case Store(ordering, volatile) => h' := MixAccess(before, seed, parts, h, ordering, volatile);
      case AtomicRmw(operation, ordering) => h' := MixTwo(before, seed, parts, h, operation, ordering);
      case CompareExchange(success, failure) => h' := MixTwo(before, seed, parts, h, success, failure);
      case Call(convention, tail, _) =>
        h' := MixWord(before, seed, parts, h, convention);
        if tail.Some? {
          h' := MixWord(before, seed, parts + [Word(convention)], h', tail.value);
          assert parts + [Word(convention)] + [Word(tail.value)] == parts + DetailParts(d);
        } else {
          assert DetailParts(d) == [Word(convention)] + [] == [Word(convention)];
        }
      case NoDetails =>
        h' := h;
        assert parts + [] == parts;
    }

    method MixAccess(ghost before: Memo, ghost seed: Word, ghost parts: seq<Term>, h: Word, ordering: Word, volatile: bool) returns (h': Word)
      requires MixedIn(before, seed, parts, h)
      ensures MixedIn(before, seed, parts + [Word(ordering), Flag(volatile)], h')
    {
      hide MixedIn, Flag;
      h' := MixWord(before, seed, parts, h, ordering);
      h' := MixFlag(before, seed, parts + [Word(ordering)], h', volatile);
      assert parts + [Word(ordering)] + [Flag(volatile)] == parts + [Word(ordering), Flag(volatile)];
    }

    method MixTwo(ghost before: Memo, ghost seed: Word, ghost parts: seq<Term>, h: Word, a: Word, b: Word) returns (h': Word)
      requires MixedIn(before, seed, parts, h)
      ensures MixedIn(before, seed, parts + [Word(a), Word(b)], h')
    {
      hide MixedIn;
      h' := MixWord(before, seed, parts, h, a);
      h' := MixWord(before, seed, parts + [Word(a)], h', b);
      assert parts + [Word(a)] + [Word(b)] == parts + [Word(a), Word(b)];
    }

    method MixOperands(ghost before: Memo, ghost seed: Word, ghost parts: seq<Term>, h: Word, operands: seq<Operand>) returns (h': Word)
      requires MixedIn(before, seed, parts, h)
      modifies `typeDone, `typeVisiting
      ensures typeVisiting == old(typeVisiting) && MixedIn(before, seed, parts + Map(operands, OperandTerm), h')
    {
      hide Mixing, Eval, OperandTerm;
      h' := h;
      assert parts + Map(operands[..0], OperandTerm) == parts;
      for i := 0 to |operands|
        invariant typeVisiting == old(typeVisiting)
        invariant MixedIn(before, seed, parts + Map(operands[..i], OperandTerm), h')
      {
        ghost var d, all := typeDone, parts + Map(operands[..i], OperandTerm);
        var w := HashOperand(operands[i]);
        Push(Environment(), typeVisiting, before, seed, all, h', d, OperandTerm(operands[i]), w, typeDone);
        h' := mixer.mix(h', w);
        assert all + [OperandTerm(operands[i])] == parts + Map(operands[..i + 1], OperandTerm);
      }
      assert operands[..|operands|] == operands;
    }

    /** The instructions of a block other than debug calls: how many, and their mix. */
    method HashBlock(b: Block) returns (count: Word, h: Word)
      modifies `typeDone, `typeVisiting
      ensures typeVisiting == old(typeVisiting) && count == Count(|Kept(b.instructions)|)
      ensures Hashed(old(typeDone), h, Mixed(false, 0, Map(Kept(b.instructions), InstructionTerm)))
    {
      hide Mixing, Eval, InstructionTerm, Kept, Map, IsDebugCall;
      ghost var d0, kept: seq<Instruction> := typeDone, [];
      count, h := 0, 0;
      BeginHere(0);
      MapNothing(InstructionTerm);
      assert kept + Kept(b.instructions) == Kept(b.instructions);
      for i := 0 to |b.instructions|
        invariant typeVisiting == old(typeVisiting) && count == Count(|kept|)
        invariant kept + Kept(b.instructions[i..]) == Kept(b.instructions)
        invariant MixedIn(d0, 0, Map(kept, InstructionTerm), h)
      {
        var x := b.instructions[i];
        KeptNext(b.instructions, i, kept);
        if IsDebugCall(x) { continue; }
        count := count + 1;
        ghost var d := typeDone;
        var w := HashInstruction(x);
        Push(Environment(), typeVisiting, d0, 0, Map(kept, InstructionTerm), h, d, InstructionTerm(x), w, typeDone);
        h := mixer.mix(h, w);
        MapLast(kept, x, InstructionTerm);
        kept := kept + [x];
      }
      KeptNothing(kept);
      assert b.instructions[|b.instructions|..] == [];
      Close(Environment(), typeVisiting, d0, false, 0, Map(kept, InstructionTerm), h, typeDone);
    }

    /** A block mixed into its function: the number of its instructions and their mix. */
    method MixBlock(ghost before: Memo, ghost seed: Word, ghost parts: seq<Term>, h: Word, b: Block) returns (h': Word)
      requires MixedIn(before, seed, parts, h)
      modifies `typeDone, `typeVisiting
      ensures typeVisiting == old(typeVisiting) && MixedIn(before, seed, parts + BlockParts(b), h')
    {
      hide Mixing, Eval, Count, Map, Kept;
      ghost var d := typeDone;
      var count, w := HashBlock(b);
      ghost var counted, mixed := Word(count), Mixed(false, 0, Map(Kept(b.instructions), InstructionTerm));
      PushWord(Environment(), typeVisiting, before, seed, parts, h, d, count);
      Push(Environment(), typeVisiting, before, seed, parts + [counted], mixer.mix(h, count), d, mixed, w, typeDone);
      h' := mixer.mix(mixer.mix(h, count), w);
      assert parts + [counted] + [mixed] == parts + BlockParts(b);
    }

    method HashFunction(f: Function) returns (h: Word)
      modifies `typeDone, `typeVisiting
      ensures typeVisiting == old(typeVisiting) && Hashed(old(typeDone), h, FunctionTerm(f))
    {
      hide Mixing, Eval, Flag, BlockParts, Hashed, MixedIn;
      ghost var d0 := typeDone;
      BeginHere(0xf0f0f0f0);
      h := MixType(d0, 0xf0f0f0f0, [], 0xf0f0f0f0, f.t);
      h := MixWord(d0, 0xf0f0f0f0, [] + [Type(f.t)], h, f.linkage);
      h := MixWord(d0, 0xf0f0f0f0, [] + [Type(f.t)] + [Word(f.linkage)], h, f.visibility);
      h := MixFlag(d0, 0xf0f0f0f0, [] + [Type(f.t)] + [Word(f.linkage)] + [Word(f.visibility)], h, f.declaration);
      ghost var parts := [Type(f.t), Word(f.linkage), Word(f.visibility), Flag(f.declaration)];
      assert [] + [Type(f.t)] + [Word(f.linkage)] + [Word(f.visibility)] + [Flag(f.declaration)] == parts;
      ghost var all := parts + AllBlockParts(f.blocks);
      for i := 0 to |f.blocks|
        invariant typeVisiting == old(typeVisiting) && MixedIn(d0, 0xf0f0f0f0, parts, h)
        invariant parts + AllBlockParts(f.blocks[i..]) == all
      {
        var b := f.blocks[i];
        h := MixBlock(d0, 0xf0f0f0f0, parts, h, b);
        assert f.blocks[i..][1..] == f.blocks[i + 1..];
        assert parts + (BlockParts(b) + AllBlockParts(f.blocks[i + 1..])) == parts + BlockParts(b) + AllBlockParts(f.blocks[i + 1..]);
        parts := parts + BlockParts(b);
      }
      assert parts + [] == parts;
      h := Finish(d0, 0xf0f0f0f0, parts, h);
    }

    method MixConstant(ghost before: Memo, ghost seed: Word, ghost parts: seq<Term>, h: Word, c: Constant) returns (h': Word)
      requires MixedIn(before, seed, parts, h)
      modifies `typeDone, `typeVisiting
      ensures typeVisiting == old(typeVisiting) && MixedIn(before, seed, parts + [ConstantTerm(c)], h')
    {
      hide Mixing, Eval, ConstantTerm;
      ghost var d := typeDone;
      var w := HashConstant(c);
      Push(Environment(), typeVisiting, before, seed, parts, h, d, ConstantTerm(c), w, typeDone);
      h' := mixer.mix(h, w);
    }

    method HashGlobal(g: GlobalVariable) returns (h: Word)
      modifies `typeDone, `typeVisiting
      ensures typeVisiting == old(typeVisiting) && Hashed(old(typeDone), h, GlobalTerm(g))
    {
      hide Flag, ConstantTerm, Hashed, MixedIn;
      ghost var d0 := typeDone;
      BeginHere(0x6060);
      h := MixType(d0, 0x6060, [], 0x6060, g.t);
      ghost var parts := [] + [Type(g.t)];
      h := MixWord(d0, 0x6060, parts, h, g.linkage);
      parts := parts + [Word(g.linkage)];
      h := MixFlag(d0, 0x6060, parts, h, g.constant);
      parts := parts + [Flag(g.constant)];
      h := MixFlag(d0, 0x6060, parts, h, g.threadLocal);
      parts := parts + [Flag(g.threadLocal)];
      h := MixFlag(d0, 0x6060, parts, h, g.initializer.Some?);
      parts := parts + [Flag(g.initializer.Some?)];
      if g.initializer.Some? {
        h := MixConstant(d0, 0x6060, parts, h, g.initializer.value);
        parts := parts + [ConstantTerm(g.initializer.value)];
      }
      assert parts == GlobalTerm(g).parts;
      h := Finish(d0, 0x6060, parts, h);
    }

    method HashAlias(a: Alias) returns (h: Word)
      modifies `typeDone, `typeVisiting
      ensures typeVisiting == old(typeVisiting) && Hashed(old(typeDone), h, AliasTerm(a))
    {
      hide ConstantTerm, Hashed, MixedIn;
      ghost var d0 := typeDone;
      BeginHere(0xa1a1);
      h := MixType(d0, 0xa1a1, [], 0xa1a1, a.t);
      h := MixWord(d0, 0xa1a1, [] + [Type(a.t)], h, a.linkage);
      h := MixConstant(d0, 0xa1a1, [] + [Type(a.t)] + [Word(a.linkage)], h, a.aliasee);
      assert [] + [Type(a.t)] + [Word(a.linkage)] + [ConstantTerm(a.aliasee)] == AliasTerm(a).parts;
      h := Finish(d0, 0xa1a1, AliasTerm(a).parts, h);
    }

    method HashIFunc(f: IFunc) returns (h: Word)
      modifies `typeDone, `typeVisiting
      ensures typeVisiting == old(typeVisiting) && Hashed(old(typeDone), h, IFuncTerm(f))
    {
      hide ConstantTerm, Hashed, MixedIn;
      ghost var d0 := typeDone;
      BeginHere(0x1f1f);
      h := MixType(d0, 0x1f1f, [], 0x1f1f, f.t);
      h := MixConstant(d0, 0x1f1f, [] + [Type(f.t)], h, f.resolver);
      assert [] + [Type(f.t)] + [ConstantTerm(f.resolver)] == IFuncTerm(f).parts;
      h := Finish(d0, 0x1f1f, IFuncTerm(f).parts, h);
    }

    // ----- numbering the values

    ghost predicate Numbered(order: seq<ValueId>)
      reads this
    {
      ids == Numbers(order) && nextId == Count(|order| + 1)
    }

    method Assign(v: ValueId, ghost order: seq<ValueId>)
      requires Numbered(order)
      modifies `ids, `nextId
      ensures Numbered(order + [v])
    {
      hide Numbers;
      NumbersStep(order, v);
      ids := ids[v := nextId];
      nextId := nextId + 1;
    }

    method AssignAll(vs: seq<ValueId>, ghost order: seq<ValueId>)
      requires Numbered(order)
      modifies `ids, `nextId
      ensures Numbered(order + vs)
    {
      hide Numbers;
      assert order + vs[..0] == order;
      for i := 0 to |vs|
        invariant Numbered(order + vs[..i])
      {
        assert order + vs[..i] + [vs[i]] == order + vs[..i + 1];
        Assign(vs[i], order + vs[..i]);
      }
      assert vs[..|vs|] == vs;
    }

    method AssignBlock(b: Block, ghost order: seq<ValueId>)
      requires Numbered(order)
      modifies `ids, `nextId
      ensures Numbered(order + [b.id] + InstructionIds(b.instructions))
    {
      hide Numbered;
      Assign(b.id, order);
      ghost var all := order + [b.id] + InstructionIds(b.instructions);
      ghost var done := order + [b.id];
      for i := 0 to |b.instructions|
        invariant Numbered(done) && done + InstructionIds(b.instructions[i..]) == all
      {
        var x := b.instructions[i];
        InstructionIdsStep(b.instructions[i..]);
        assert b.instructions[i..][1..] == b.instructions[i + 1..];
        if IsDebugCall(x) {
          continue;
        }
        Assign(x.id, done);
        assert done + ([x.id] + InstructionIds(b.instructions[i + 1..])) == done + [x.id] + InstructionIds(b.instructions[i + 1..]);
        done := done + [x.id];
      }
      assert done + InstructionIds([]) == done;
    }

    method AssignFunction(f: Function, ghost order: seq<ValueId>)
      requires Numbered(order)
      modifies `ids, `nextId
      ensures Numbered(order + FunctionIds(f))
    {
      hide Numbered, InstructionIds;
      Assign(f.id, order);
      AssignAll(f.arguments, order + [f.id]);
      ghost var done, all := order + [f.id] + f.arguments, order + FunctionIds(f);
      assert done + BlockIds(f.blocks) == all;
      for i := 0 to |f.blocks|
        invariant Numbered(done) && done + BlockIds(f.blocks[i..]) == all
      {
        var b := f.blocks[i];
        assert f.blocks[i..][1..] == f.blocks[i + 1..];
        AssignBlock(b, done);
        ghost var own, rest := InstructionIds(b.instructions), BlockIds(f.blocks[i + 1..]);
        assert done + ([b.id] + own + rest) == done + [b.id] + own + rest;
        done := done + [b.id] + own;
      }
      assert done + [] == done;
    }

    /** Numbers the values of a module from 1, leaving out debug functions and calls. */
    method AssignIds(m: Module)
      requires ids == map[] && nextId == 1
      modifies `ids, `nextId
      ensures Numbered(Order(m))
    {
      hide Numbered, FunctionIds, KeptFunctions;
      assert Numbered([]) by { NumberedStart(); }
      ghost var done: seq<ValueId> := [];
      for i := 0 to |m.globals|
        invariant Numbered(done) && done == Map(m.globals[..i], (g: GlobalVariable) => g.id)
      {
        Assign(m.globals[i].id, done);
        done := done + [m.globals[i].id];
      }
      ghost var globals := done;
      for i := 0 to |m.aliases|
        invariant Numbered(done) && done == globals + Map(m.aliases[..i], (a: Alias) => a.id)
      {
        Assign(m.aliases[i].id, done);
        done := done + [m.aliases[i].id];
      }
      ghost var aliases := done;
      for i := 0 to |m.ifuncs|
        invariant Numbered(done) && done == aliases + Map(m.ifuncs[..i], (f: IFunc) => f.id)
      {
        Assign(m.ifuncs[i].id, done);
        done := done + [m.ifuncs[i].id];
      }
      ghost var all := Order(m);
      OrderSplits(m, globals, aliases, done);
      for i := 0 to |m.functions|
        invariant Numbered(done) && done + AllFunctionIds(KeptFunctions(m.functions[i..])) == all
      {
        var f := m.functions[i];
        FunctionIdsStep(m.functions[i..]);
        assert m.functions[i..][1..] == m.functions[i + 1..];
        if IsDebugFunction(f) {
          continue;
        }
        AssignFunction(f, done);
        ghost var rest := AllFunctionIds(KeptFunctions(m.functions[i + 1..]));
        assert done + (FunctionIds(f) + rest) == done + FunctionIds(f) + rest;
        done := done + FunctionIds(f);
      }
      NothingLeft(done);
    }

    lemma NumberedStart()
      requires ids == map[] && nextId == 1
      ensures Numbered([])
    {
    }

    // ----- the module

    /** The hash of a module, by a new hasher. */
    method Hash(m: Module) returns (h: Word)
      requires ids == map[] && nextId == 1 && typeDone == map[] && typeVisiting == {}
      modifies this
      ensures h == HashOf(mixer, types, m)
    {
      hide Mixing, Eval, Map, GlobalTerm, AliasTerm, IFuncTerm, FunctionTerm, KeptFunctions, Order, Numbers;
      AssignIds(m);
      ghost var seed: Word := 0x9e3779b97f4a7c15;
      h := 0x9e3779b97f4a7c15;
      BeginHere(h);
      h := MixGlobals(map[], seed, [], h, m.globals);
      ghost var parts := [] + Map(m.globals, GlobalTerm);
      h := MixAliases(map[], seed, parts, h, m.aliases);
      parts := parts + Map(m.aliases, AliasTerm);
      h := MixIFuncs(map[], seed, parts, h, m.ifuncs);
      parts := parts + Map(m.ifuncs, IFuncTerm);
      h := MixFunctions(map[], seed, parts, h, m.functions);
      parts := parts + Map(KeptFunctions(m.functions), FunctionTerm);
      assert parts == ModuleTerm(m).parts;
      h := Finish(map[], seed, parts, h);
    }

    method MixGlobals(ghost before: Memo, ghost seed: Word, ghost parts: seq<Term>, h: Word, globals: seq<GlobalVariable>) returns (h': Word)
      requires MixedIn(before, seed, parts, h)
      modifies `typeDone, `typeVisiting
      ensures typeVisiting == old(typeVisiting) && MixedIn(before, seed, parts + Map(globals, GlobalTerm), h')
    {
      hide Mixing, Eval, GlobalTerm;
      h' := h;
      assert parts + Map(globals[..0], GlobalTerm) == parts;
      for i := 0 to |globals|
        invariant typeVisiting == old(typeVisiting) && MixedIn(before, seed, parts + Map(globals[..i], GlobalTerm), h')
      {
        ghost var d, all := typeDone, parts + Map(globals[..i], GlobalTerm);
        var w := HashGlobal(globals[i]);
        Push(Environment(), typeVisiting, before, seed, all, h', d, GlobalTerm(globals[i]), w, typeDone);
        h' := mixer.mix(h', w);
        assert all + [GlobalTerm(globals[i])] == parts + Map(globals[..i + 1], GlobalTerm);
      }
      assert globals[..|globals|] == globals;
    }

    method MixAliases(ghost before: Memo, ghost seed: Word, ghost parts: seq<Term>, h: Word, aliases: seq<Alias>) returns (h': Word)
      requires MixedIn(before, seed, parts, h)
      modifies `typeDone, `typeVisiting
      ensures typeVisiting == old(typeVisiting) && MixedIn(before, seed, parts + Map(aliases, AliasTerm), h')
    {
      hide Mixing, Eval, AliasTerm;
      h' := h;
      assert parts + Map(aliases[..0], AliasTerm) == parts;
      for i := 0 to |aliases|
        invariant typeVisiting == old(typeVisiting) && MixedIn(before, seed, parts + Map(aliases[..i], AliasTerm), h')
      {
        ghost var d, all := typeDone, parts + Map(aliases[..i], AliasTerm);
        var w := HashAlias(aliases[i]);
        Push(Environment(), typeVisiting, before, seed, all, h', d, AliasTerm(aliases[i]), w, typeDone);
        h' := mixer.mix(h', w);
        assert all + [AliasTerm(aliases[i])] == parts + Map(aliases[..i + 1], AliasTerm);
      }
      assert aliases[..|aliases|] == aliases;
    }

    method MixIFuncs(ghost before: Memo, ghost seed: Word, ghost parts: seq<Term>, h: Word, ifuncs: seq<IFunc>) returns (h': Word)
      requires MixedIn(before, seed, parts, h)
      modifies `typeDone, `typeVisiting
      ensures typeVisiting == old(typeVisiting) && MixedIn(before, seed, parts + Map(ifuncs, IFuncTerm), h')
    {
      hide Mixing, Eval, IFuncTerm;
      h' := h;
      assert parts + Map(ifuncs[..0], IFuncTerm) == parts;
      for i := 0 to |ifuncs|
        invariant typeVisiting == old(typeVisiting) && MixedIn(before, seed, parts + Map(ifuncs[..i], IFuncTerm), h')
      {
        ghost var d, all := typeDone, parts + Map(ifuncs[..i], IFuncTerm);
        var w := HashIFunc(ifuncs[i]);
        Push(Environment(), typeVisiting, before, seed, all, h', d, IFuncTerm(ifuncs[i]), w, typeDone);
        h' := mixer.mix(h', w);
        assert all + [IFuncTerm(ifuncs[i])] == parts + Map(ifuncs[..i + 1], IFuncTerm);
      }
      assert ifuncs[..|ifuncs|] == ifuncs;
    }

    method MixFunctions(ghost before: Memo, ghost seed: Word, ghost parts: seq<Term>, h: Word, functions: seq<Function>) returns (h': Word)
      requires MixedIn(before, seed, parts, h)
      modifies `typeDone, `typeVisiting
      ensures typeVisiting == old(typeVisiting)
      ensures MixedIn(before, seed, parts + Map(KeptFunctions(functions), FunctionTerm), h')
    {
      hide Mixing, Eval, FunctionTerm, Map, KeptFunctions, IsDebugFunction;
      h' := h;
      ghost var kept: seq<Function> := [];
      MapNothing(FunctionTerm);
      assert parts + [] == parts;
      assert kept + KeptFunctions(functions) == KeptFunctions(functions);
      for i := 0 to |functions|
        invariant typeVisiting == old(typeVisiting) && MixedIn(before, seed, parts + Map(kept, FunctionTerm), h')
        invariant kept + KeptFunctions(functions[i..]) == KeptFunctions(functions)
      {
        var f := functions[i];
        KeptFunctionsNext(functions, i, kept);
        if IsDebugFunction(f) { continue; }
        ghost var d, all := typeDone, parts + Map(kept, FunctionTerm);
        var w := HashFunction(f);
        Push(Environment(), typeVisiting, before, seed, all, h', d, FunctionTerm(f), w, typeDone);
        h' := mixer.mix(h', w);
        MapLast(kept, f, FunctionTerm);
        assert all + [FunctionTerm(f)] == parts + (Map(kept, FunctionTerm) + [FunctionTerm(f)]);
        kept := kept + [f];
      }
      KeptNoFunctions(kept);
      assert functions[|functions|..] == [];
    }
  }

  lemma MapNothing<A, B>(f: A -> B)
    ensures Map([], f) == []
  {
  }

  lemma MapLast<A, B>(s: seq<A>, x: A, f: A -> B)
    ensures Map(s + [x], f) == Map(s, f) + [f(x)]
  {
  }

  /** The next instruction is kept or not. */
  lemma KeptNext(instructions: seq<Instruction>, i: nat, kept: seq<Instruction>)
    requires i < |instructions|
    ensures kept + Kept(instructions[i..])
         == kept + (if IsDebugCall(instructions[i]) then [] else [instructions[i]]) + Kept(instructions[i + 1..])
  {
    hide IsDebugCall;
    assert instructions[i..][1..] == instructions[i + 1..];
    var head, rest := if IsDebugCall(instructions[i]) then [] else [instructions[i]], Kept(instructions[i + 1..]);
    assert kept + (head + rest) == kept + head + rest;
  }

  lemma KeptFunctionsNext(functions: seq<Function>, i: nat, kept: seq<Function>)
    requires i < |functions|
    ensures kept + KeptFunctions(functions[i..])
         == kept + (if IsDebugFunction(functions[i]) then [] else [functions[i]]) + KeptFunctions(functions[i + 1..])
  {
    hide IsDebugFunction;
    assert functions[i..][1..] == functions[i + 1..];
    var head, rest := if IsDebugFunction(functions[i]) then [] else [functions[i]], KeptFunctions(functions[i + 1..]);
    assert kept + (head + rest) == kept + head + rest;
  }

  lemma KeptNothing(kept: seq<Instruction>)
    ensures kept + Kept([]) == kept
  {
  }

  lemma KeptNoFunctions(kept: seq<Function>)
    ensures kept + KeptFunctions([]) == kept
  {
  }

  lemma InstructionIdsStep(instructions: seq<Instruction>)
    requires instructions != []
    ensures InstructionIds(instructions)
         == (if IsDebugCall(instructions[0]) then [] else [instructions[0].id]) + InstructionIds(instructions[1..])
  {
    hide IsDebugCall;
    var rest := Kept(instructions[1..]);
    assert [] + rest == rest;
  }

  lemma FunctionIdsStep(functions: seq<Function>)
    requires functions != []
    ensures AllFunctionIds(KeptFunctions(functions))
         == (if IsDebugFunction(functions[0]) then [] else FunctionIds(functions[0])) + AllFunctionIds(KeptFunctions(functions[1..]))
  {
    hide IsDebugFunction, FunctionIds;
    var rest := KeptFunctions(functions[1..]);
    assert [] + rest == rest;
    assert ([functions[0]] + rest)[1..] == rest;
  }

  lemma NothingLeft(done: seq<ValueId>)
    ensures done + AllFunctionIds(KeptFunctions([])) == done
  {
  }

  lemma OrderSplits(m: Module, globals: seq<ValueId>, aliases: seq<ValueId>, done: seq<ValueId>)
    requires globals == Map(m.globals, (g: GlobalVariable) => g.id) && aliases == globals + Map(m.aliases, (a: Alias) => a.id)
    requires done == aliases + Map(m.ifuncs, (f: IFunc) => f.id)
    ensures done + AllFunctionIds(KeptFunctions(m.functions)) == Order(m)
  {
    hide AllFunctionIds, KeptFunctions;
  }

  // ----- recursive types: the memo depends on where the hashing started

  /** A list node that holds a pointer to the next one. */
  function ListTypes(): map<TypeId, TypeNode> {
    map[1 := TypeNode(16, Struct(false, [2])), 2 := TypeNode(15, Pointer(0, Some(1)))]
  }

  function ListEnv(): Env { Env(Mixer64(), ListTypes(), map[]) }

  /** The hash of the node from that of the pointer, and the other way round. */
  function OfNode(pointer: Word): Word { Finalize(Mix(Mix(Mix(16, 0), 1), pointer)) }

  function OfPointer(node: Word): Word { Finalize(Mix(15, Mix(Mix(0, 0), node))) }

  lemma NodeHash(visiting: set<TypeId>, before: Memo, w: Word, done: Memo)
    requires Eval(ListEnv(), visiting, before, Type(2)) == (w, done)
    ensures Eval(ListEnv(), visiting, before, NodeTerm(ListTypes()[1])) == (OfNode(w), done)
  {
    hide Eval, Mixing, Mix, Finalize, ListTypes;
    var env := ListEnv();
    Begin(env, visiting, before, 16);
    PushWord(env, visiting, before, 16, [], 16, before, 0);
    PushWord(env, visiting, before, 16, [] + [Word(0)], Mix(16, 0), before, 1);
    Push(env, visiting, before, 16, [] + [Word(0)] + [Word(1)], Mix(Mix(16, 0), 1), before, Type(2), w, done);
    NodeTermOfList();
    assert [] + [Word(0)] + [Word(1)] + [Type(2)] == [Word(0), Word(1), Type(2)];
    Close(env, visiting, before, true, 16, [Word(0), Word(1), Type(2)], Mix(Mix(Mix(16, 0), 1), w), done);
  }

  lemma CountOne()
    ensures Count(1) == 1
  {
  }

  lemma ListParts()
    ensures KindParts(Struct(false, [2])) == [Word(0), Word(1), Type(2)]
    ensures KindParts(Pointer(0, Some(1))) == [Mixed(false, 0, [Word(0), Type(1)])]
  {
    hide Count;
    CountOne();
    assert Types([2]) == [Type(2)];
    assert |[2]| == 1;
    assert [Word(0), Word(1)] + [Type(2)] == [Word(0), Word(1), Type(2)];
    assert PointerParts(Some(1)) == [Word(0), Type(1)];
  }

  lemma NodeTermOfList()
    ensures NodeTerm(ListTypes()[1]) == Mixed(true, 16, [Word(0), Word(1), Type(2)])
    ensures NodeTerm(ListTypes()[2]) == Mixed(true, 15, [Mixed(false, 0, [Word(0), Type(1)])])
  {
    hide KindParts;
    ListParts();
    assert ListTypes()[1] == TypeNode(16, Struct(false, [2]));
    assert ListTypes()[2] == TypeNode(15, Pointer(0, Some(1)));
  }

  lemma PointerHash(visiting: set<TypeId>, before: Memo, w: Word, done: Memo)
    requires Eval(ListEnv(), visiting, before, Type(1)) == (w, done)
    ensures Eval(ListEnv(), visiting, before, NodeTerm(ListTypes()[2])) == (OfPointer(w), done)
  {
    hide Eval, Mixing, Mix, Finalize, ListTypes;
    var env := ListEnv();
    Begin(env, visiting, before, 0);
    PushWord(env, visiting, before, 0, [], 0, before, 0);
    Push(env, visiting, before, 0, [] + [Word(0)], Mix(0, 0), before, Type(1), w, done);
    assert [] + [Word(0)] + [Type(1)] == [Word(0), Type(1)];
    Close(env, visiting, before, false, 0, [Word(0), Type(1)], Mix(Mix(0, 0), w), done);
    var inner := Mixed(false, 0, [Word(0), Type(1)]);
    Begin(env, visiting, before, 15);
    Push(env, visiting, before, 15, [], 15, before, inner, Mix(Mix(0, 0), w), done);
    assert [] + [inner] == [inner];
    NodeTermOfList();
    Close(env, visiting, before, true, 15, [inner], Mix(15, Mix(Mix(0, 0), w)), done);
  }

  function Again(id: Word): Word { Finalize(Mix(0x2f, id)) }

  lemma ListKnown()
    ensures 1 in ListTypes() && 2 in ListTypes() && ListTypes()[1].id == 16 && ListTypes()[2].id == 15
  {
  }

  /** Hashing a list node after its pointer type gives another hash than hashing it first. */
  lemma OrderMatters()
    ensures Eval(ListEnv(), {}, Eval(ListEnv(), {}, map[], Type(2)).1, Type(1)).0 != Eval(ListEnv(), {}, map[], Type(1)).0
  {
    hide Eval, Mix, Finalize, ListTypes, OfNode, OfPointer;
    var env := ListEnv();
    ListKnown();
    // the node first
    EvalKnown(env, {} + {1} + {2}, map[], 1);
    PointerHash({} + {1} + {2}, map[], Again(16), map[]);
    EvalNew(env, {} + {1}, map[], 2);
    var p := OfPointer(Again(16));
    NodeHash({} + {1}, map[], p, map[2 := p]);
    EvalNew(env, {}, map[], 1);
    // the pointer first
    EvalKnown(env, {} + {2} + {1}, map[], 2);
    NodeHash({} + {2} + {1}, map[], Again(15), map[]);
    EvalNew(env, {} + {2}, map[], 1);
    var n := OfNode(Again(15));
    PointerHash({} + {2}, map[], n, map[1 := n]);
    EvalNew(env, {}, map[], 2);
    var done := Eval(env, {}, map[], Type(2)).1;
    EvalKnown(env, {}, done, 1);
    Different();
  }

  lemma Different()
    ensures OfNode(OfPointer(Again(16))) != OfNode(Again(15))
  {
    assert Again(15) == 0x33bfa886ba5f159c;
    assert Again(16) == 0x436a18cf50168a6f;
    assert OfPointer(0x436a18cf50168a6f) == 0x7a70c620a487e3b2;
    assert OfNode(0x7a70c620a487e3b2) == 0x0a9e501028e3aa1a;
    assert OfNode(0x33bfa886ba5f159c) == 0xf3c1e78d7b3b7aa3;
  }
}
