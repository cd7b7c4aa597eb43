/** The structural hash: what is mixed, and how types are hashed over a possibly cyclic graph. */
module StructuralHash {

  type Word = bv64
  type TypeId = int
  type ValueId = int

  datatype Option<T> = None | Some(value: T)

  /** The order-sensitive mix of two words and the final avalanche; the results about renaming
      and memoisation hold for every pair. */
  datatype Mixer = Mixer(mix: (Word, Word) -> Word, finalize: Word -> Word)

  // ----- types

  datatype TypeKind =
    | Integer(width: Word)
    | Pointer(space: Word, element: Option<TypeId>)
    | Callable(varArg: bool, result: TypeId, params: seq<TypeId>)
    | Struct(packed: bool, elements: seq<TypeId>)
    | Array(count: Word, item: TypeId)
    | Vector(minimum: Word, scalable: bool, item: TypeId)
    | Plain

  datatype TypeNode = TypeNode(id: Word, kind: TypeKind)

  // ----- terms

  /** What is hashed: a word, the number given to a value, a type, or a seed into which the
      hashes of some parts are mixed in order, finalised or not. */
  datatype Term =
    | Word(w: Word)
    | Id(v: ValueId)
    | Type(t: TypeId)
    | Mixed(final: bool, seed: Word, parts: seq<Term>)

  function Flag(b: bool): Term { Word(if b then 1 else 0) }

  function Types(ts: seq<TypeId>): seq<Term> { seq(|ts|, i requires 0 <= i < |ts| => Type(ts[i])) }

  /** An opaque pointer has no element type. */
  function PointerParts(element: Option<TypeId>): seq<Term> {
    [Flag(element.None?)] + if element.Some? then [Type(element.value)] else []
  }

  function KindParts(kind: TypeKind): seq<Term> {
    match kind
    case Integer(width) => [Word(width)]
    case Pointer(space, element) => [Mixed(false, space, PointerParts(element))]
    case Callable(varArg, result, params) => [Flag(varArg), Type(result)] + Types(params)
    case Struct(packed, elements) => [Flag(packed), Word(Count(|elements|))] + Types(elements)
    case Array(count, item) => [Word(count), Type(item)]
    case Vector(minimum, scalable, item) => [Word(minimum), Flag(scalable), Type(item)]
    case Plain => []
  }

  /** A count as a word, which wraps around. */
  function Count(n: nat): Word { if n == 0 then 0 else Count(n - 1) + 1 }

  function NodeTerm(node: TypeNode): Term { Mixed(true, node.id, KindParts(node.kind)) }

  /** A null type is one without a node. */
  datatype Env = Env(mixer: Mixer, types: map<TypeId, TypeNode>, ids: map<ValueId, Word>)

  type Memo = map<TypeId, Word>

  function IdOf(ids: map<ValueId, Word>, v: ValueId): Word { if v in ids then ids[v] else 0 }

  /** The hash given to a type met again while its own hash is being computed. */
  function Placeholder(env: Env, node: TypeNode): Word { env.mixer.finalize(env.mixer.mix(0x2f, node.id)) }

  /** The hash of a term, and the memo it leaves, when the types in `visiting` are in progress. */
  function Eval(env: Env, visiting: set<TypeId>, done: Memo, term: Term): (Word, Memo)
    decreases env.types.Keys - visiting, term, 0
  {
    match term
    case Word(w) => (w, done)
    case Id(v) => (IdOf(env.ids, v), done)
    case Type(t) =>
      if t !in env.types then (0, done)
      else if t in done then (done[t], done)
      else if t in visiting then (Placeholder(env, env.types[t]), done)
      else
        var (h, after) := Eval(env, visiting + {t}, done, NodeTerm(env.types[t]));
        (h, after[t := h])
    case Mixed(final, seed, parts) =>
      var (h, after) := MixAll(env, visiting, done, seed, parts);
      (if final then env.mixer.finalize(h) else h, after)
  }

  function MixAll(env: Env, visiting: set<TypeId>, done: Memo, acc: Word, parts: seq<Term>): (Word, Memo)
    decreases env.types.Keys - visiting, parts, 1
  {
    if parts == [] then (acc, done)
    else
      var (h, after) := Eval(env, visiting, done, parts[0]);
      MixAll(env, visiting, after, env.mixer.mix(acc, h), parts[1..])
  }

  lemma MixNothing(env: Env, visiting: set<TypeId>, done: Memo, acc: Word)
    ensures MixAll(env, visiting, done, acc, []) == (acc, done)
  {
  }

  lemma MixStep(env: Env, visiting: set<TypeId>, done: Memo, acc: Word, parts: seq<Term>)
    requires parts != []
    ensures var (h, after) := Eval(env, visiting, done, parts[0]);
      MixAll(env, visiting, done, acc, parts) == MixAll(env, visiting, after, env.mixer.mix(acc, h), parts[1..])
  {
    hide Eval;
  }

  lemma EvalWord(env: Env, visiting: set<TypeId>, done: Memo, w: Word)
    ensures Eval(env, visiting, done, Word(w)) == (w, done)
  {
  }

  lemma EvalId(env: Env, visiting: set<TypeId>, done: Memo, v: ValueId)
    ensures Eval(env, visiting, done, Id(v)) == (IdOf(env.ids, v), done)
  {
  }

  lemma EvalMixed(env: Env, visiting: set<TypeId>, done: Memo, final: bool, seed: Word, parts: seq<Term>)
    ensures var (h, after) := MixAll(env, visiting, done, seed, parts);
      Eval(env, visiting, done, Mixed(final, seed, parts)) == (if final then env.mixer.finalize(h) else h, after)
  {
    hide MixAll;
  }

  lemma EvalKnown(env: Env, visiting: set<TypeId>, done: Memo, t: TypeId)
    requires t in env.types && (t in done || t in visiting)
    ensures Eval(env, visiting, done, Type(t)) == (if t in done then done[t] else Placeholder(env, env.types[t]), done)
  {
    hide Placeholder;
  }

  lemma EvalNull(env: Env, visiting: set<TypeId>, done: Memo, t: TypeId)
    requires t !in env.types
    ensures Eval(env, visiting, done, Type(t)) == (0, done)
  {
  }

  lemma EvalNew(env: Env, visiting: set<TypeId>, done: Memo, t: TypeId)
    requires t in env.types && t !in done && t !in visiting
    ensures var (h, after) := Eval(env, visiting + {t}, done, NodeTerm(env.types[t]));
      Eval(env, visiting, done, Type(t)) == (h, after[t := h])
  {
    hide NodeTerm;
  }

  // ----- the types a term mentions

  /** All types of a term lie in a set. */
  predicate Over(term: Term, scope: set<TypeId>) {
    match term
    case Word(_) => true
    case Id(_) => true
    case Type(t) => t in scope
    case Mixed(_, _, parts) => forall i :: 0 <= i < |parts| ==> Over(parts[i], scope)
  }

  ghost predicate AllOver(parts: seq<Term>, scope: set<TypeId>) { forall i :: 0 <= i < |parts| ==> Over(parts[i], scope) }

  lemma OverMixed(term: Term, scope: set<TypeId>)
    requires Over(term, scope) && term.Mixed?
    ensures AllOver(term.parts, scope)
  {
  }

  /** A set of types that contains the types its members are made of. */
  ghost predicate Closed(types: map<TypeId, TypeNode>, scope: set<TypeId>) {
    forall t :: t in scope && t in types ==> Over(NodeTerm(types[t]), scope)
  }

  // ----- renaming

  datatype Renaming = Renaming(types: TypeId -> TypeId, values: ValueId -> ValueId)

  function RenameTypes(ts: seq<TypeId>, r: Renaming): seq<TypeId> { seq(|ts|, i requires 0 <= i < |ts| => r.types(ts[i])) }

  function RenameNode(node: TypeNode, r: Renaming): TypeNode {
    TypeNode(node.id,
             match node.kind
             case Integer(width) => node.kind
             case Pointer(space, element) => Pointer(space, if element.Some? then Some(r.types(element.value)) else None)
             case Callable(varArg, result, params) => Callable(varArg, r.types(result), RenameTypes(params, r))
             case Struct(packed, elements) => Struct(packed, RenameTypes(elements, r))
             case Array(count, item) => Array(count, r.types(item))
             case Vector(minimum, scalable, item) => Vector(minimum, scalable, r.types(item))
             case Plain => Plain)
  }

  function RenameTerm(term: Term, r: Renaming): Term {
    match term
    case Word(_) => term
    case Id(v) => Id(r.values(v))
    case Type(t) => Type(r.types(t))
    case Mixed(final, seed, parts) => Mixed(final, seed, seq(|parts|, i requires 0 <= i < |parts| => RenameTerm(parts[i], r)))
  }

  function RenameTerms(parts: seq<Term>, r: Renaming): seq<Term> {
    seq(|parts|, i requires 0 <= i < |parts| => RenameTerm(parts[i], r))
  }

  lemma RenameOver(final: bool, seed: Word, parts: seq<Term>, r: Renaming)
    ensures RenameTerm(Mixed(final, seed, parts), r) == Mixed(final, seed, RenameTerms(parts, r))
  {
    assert RenameTerm(Mixed(final, seed, parts), r).parts == RenameTerms(parts, r);
  }

  lemma RenameAppend(a: seq<Term>, b: seq<Term>, r: Renaming)
    ensures RenameTerms(a + b, r) == RenameTerms(a, r) + RenameTerms(b, r)
  {
    hide RenameTerm;
  }

  lemma RenameTypesOf(ts: seq<TypeId>, r: Renaming)
    ensures Types(RenameTypes(ts, r)) == RenameTerms(Types(ts), r)
  {
  }

  lemma RenameOne(a: Term, r: Renaming)
    ensures RenameTerms([a], r) == [RenameTerm(a, r)]
    ensures RenameTerms([], r) == []
  {
    hide RenameTerm;
  }

  lemma RenameTwo(a: Term, b: Term, r: Renaming)
    ensures RenameTerms([a, b], r) == [RenameTerm(a, r), RenameTerm(b, r)]
  {
    hide RenameTerm;
  }

  lemma RenameThree(a: Term, b: Term, c: Term, r: Renaming)
    ensures RenameTerms([a, b, c], r) == [RenameTerm(a, r), RenameTerm(b, r), RenameTerm(c, r)]
  {
    hide RenameTerm;
  }

  lemma FlagRenamed(b: bool, r: Renaming)
    ensures RenameTerm(Flag(b), r) == Flag(b)
  {
  }

  lemma TypeTermRenamed(t: TypeId, r: Renaming)
    ensures RenameTerm(Type(t), r) == Type(r.types(t))
  {
  }

  lemma WordRenamed(w: Word, r: Renaming)
    ensures RenameTerm(Word(w), r) == Word(w)
  {
  }

  lemma PointerPartsRenamed(element: Option<TypeId>, r: Renaming)
    ensures PointerParts(if element.Some? then Some(r.types(element.value)) else None) == RenameTerms(PointerParts(element), r)
  {
    hide RenameTerms;
    hide RenameTerm;
    FlagRenamed(element.None?, r);
    RenameOne(Flag(element.None?), r);
    if element.Some? {
      TypeTermRenamed(element.value, r);
      RenameOne(Type(element.value), r);
      RenameAppend([Flag(element.None?)], [Type(element.value)], r);
    } else {
      assert [Flag(true)] + [] == [Flag(true)];
    }
  }

  lemma KindPartsRenamed(node: TypeNode, r: Renaming)
    ensures KindParts(RenameNode(node, r).kind) == RenameTerms(KindParts(node.kind), r)
  {
    hide RenameTerms, RenameTerm, RenameTypes, PointerParts, Types, Flag, Count;
    match node.kind
    case Integer(width) =>
      WordRenamed(width, r);
      RenameOne(Word(width), r);
    case Pointer(space, element) =>
      PointerPartsRenamed(element, r);
      RenameOver(false, space, PointerParts(element), r);
      RenameOne(Mixed(false, space, PointerParts(element)), r);
    case Callable(varArg, result, params) =>
      RenameTypesOf(params, r);
      FlagRenamed(varArg, r);
      TypeTermRenamed(result, r);
      RenameTwo(Flag(varArg), Type(result), r);
      RenameAppend([Flag(varArg), Type(result)], Types(params), r);
    case Struct(packed, elements) =>
      RenameTypesOf(elements, r);
      assert |RenameTypes(elements, r)| == |elements| by { LengthKept(elements, r); }
      FlagRenamed(packed, r);
      WordRenamed(Count(|elements|), r);
      RenameTwo(Flag(packed), Word(Count(|elements|)), r);
      RenameAppend([Flag(packed), Word(Count(|elements|))], Types(elements), r);
    case Array(count, item) =>
      WordRenamed(count, r);
      TypeTermRenamed(item, r);
      RenameTwo(Word(count), Type(item), r);
    case Vector(minimum, scalable, item) =>
      WordRenamed(minimum, r);
      FlagRenamed(scalable, r);
      TypeTermRenamed(item, r);
      RenameThree(Word(minimum), Flag(scalable), Type(item), r);
    case Plain => RenameOne(Word(0), r);
  }

  lemma LengthKept(ts: seq<TypeId>, r: Renaming)
    ensures |RenameTypes(ts, r)| == |ts|
  {
  }

  lemma NodeTermRenamed(node: TypeNode, r: Renaming)
    ensures NodeTerm(RenameNode(node, r)) == RenameTerm(NodeTerm(node), r)
  {
    hide KindParts, RenameTerms, RenameTerm;
    KindPartsRenamed(node, r);
    RenameOver(true, node.id, KindParts(node.kind), r);
  }

  /** The second table holds renamed copies of the types of a closed set. */
  ghost predicate TypesRenamed(types: map<TypeId, TypeNode>, types': map<TypeId, TypeNode>, r: Renaming, scope: set<TypeId>) {
    && Closed(types, scope)
    && (forall t :: t in scope ==> (t in types <==> r.types(t) in types'))
    && (forall t :: t in scope && t in types ==> types'[r.types(t)] == RenameNode(types[t], r))
    && (forall t, u :: t in scope && u in scope && r.types(t) == r.types(u) ==> t == u)
  }

  /** It also numbers the renamed values alike, and mixes alike. */
  ghost predicate Renamed(env: Env, env': Env, r: Renaming, scope: set<TypeId>) {
    && env.mixer == env'.mixer
    && TypesRenamed(env.types, env'.types, r, scope)
    && (forall v :: IdOf(env.ids, v) == IdOf(env'.ids, r.values(v)))
  }

  ghost predicate SameMemo(r: Renaming, scope: set<TypeId>, done: Memo, done': Memo) {
    forall t :: t in scope ==> (t in done <==> r.types(t) in done') && (t in done ==> done'[r.types(t)] == done[t])
  }

  ghost predicate SameVisits(r: Renaming, scope: set<TypeId>, visiting: set<TypeId>, visiting': set<TypeId>) {
    forall t :: t in scope ==> (t in visiting <==> r.types(t) in visiting')
  }

  /** Hashing commutes with renaming, whatever is memoised or in progress. */
  lemma {:induction false} EvalRenamed(env: Env, env': Env, r: Renaming, scope: set<TypeId>,
                                       visiting: set<TypeId>, visiting': set<TypeId>, done: Memo, done': Memo, term: Term)
    requires Renamed(env, env', r, scope) && Over(term, scope)
    requires SameVisits(r, scope, visiting, visiting') && SameMemo(r, scope, done, done')
    ensures var (h, after), (h', after') := Eval(env, visiting, done, term), Eval(env', visiting', done', RenameTerm(term, r));
      h == h' && SameMemo(r, scope, after, after')
    decreases env.types.Keys - visiting, term, 1
  {
    hide Eval, MixAll, SameMemo, SameVisits, Renamed, NodeTerm, RenameNode, IdOf, Placeholder, RenameTerms, AllOver;
    match term
    case Word(w) =>
      EvalWord(env, visiting, done, w);
      EvalWord(env', visiting', done', w);
    case Id(v) =>
      EvalId(env, visiting, done, v);
      EvalId(env', visiting', done', r.values(v));
      IdRenamed(env, env', r, scope, v);
    case Type(t) =>
      TypeRenamed(env, env', r, scope, visiting, visiting', done, done', t);
    case Mixed(final, seed, parts) =>
      OverMixed(term, scope);
      MixRenamed(env, env', r, scope, visiting, visiting', done, done', seed, parts);
      RenameOver(final, seed, parts, r);
      EvalMixed(env, visiting, done, final, seed, parts);
      EvalMixed(env', visiting', done', final, seed, RenameTerms(parts, r));
      SameMixer(env, env', r, scope);
  }

  lemma {:induction false} TypeRenamed(env: Env, env': Env, r: Renaming, scope: set<TypeId>,
                                       visiting: set<TypeId>, visiting': set<TypeId>, done: Memo, done': Memo, t: TypeId)
    requires Renamed(env, env', r, scope) && t in scope
    requires SameVisits(r, scope, visiting, visiting') && SameMemo(r, scope, done, done')
    ensures var (h, after), (h', after') := Eval(env, visiting, done, Type(t)), Eval(env', visiting', done', Type(r.types(t)));
      h == h' && SameMemo(r, scope, after, after')
    decreases env.types.Keys - visiting, Type(t), 0
  {
    hide Eval, MixAll, SameMemo, SameVisits, Renamed, NodeTerm, RenameNode, RenameTerm;
    var t' := r.types(t);
    NodeRenamed(env, env', r, scope, t);
    Visited(r, scope, visiting, visiting', done, done', t);
    if t !in env.types {
      EvalNull(env, visiting, done, t);
      EvalNull(env', visiting', done', t');
    } else if t in done || t in visiting {
      EvalKnown(env, visiting, done, t);
      EvalKnown(env', visiting', done', t');
    } else {
      VisitMore(env, env', r, scope, visiting, visiting', t);
      EvalRenamed(env, env', r, scope, visiting + {t}, visiting' + {t'}, done, done', NodeTerm(env.types[t]));
      EvalNew(env, visiting, done, t);
      EvalNew(env', visiting', done', t');
      var (h, after) := Eval(env, visiting + {t}, done, NodeTerm(env.types[t]));
      var (h', after') := Eval(env', visiting' + {t'}, done', NodeTerm(env'.types[t']));
      MemoMore(env, env', r, scope, after, after', t, h);
    }
  }

  lemma {:induction false} MixRenamed(env: Env, env': Env, r: Renaming, scope: set<TypeId>,
                                      visiting: set<TypeId>, visiting': set<TypeId>, done: Memo, done': Memo, acc: Word, parts: seq<Term>)
    requires Renamed(env, env', r, scope) && AllOver(parts, scope)
    requires SameVisits(r, scope, visiting, visiting') && SameMemo(r, scope, done, done')
    ensures var (h, after), (h', after') := MixAll(env, visiting, done, acc, parts), MixAll(env', visiting', done', acc, RenameTerms(parts, r));
      h == h' && SameMemo(r, scope, after, after')
    decreases env.types.Keys - visiting, parts, 2
  {
    hide Eval, MixAll, SameMemo, SameVisits, Renamed, RenameTerm, Over;
    var parts' := RenameTerms(parts, r);
    SameMixer(env, env', r, scope);
    if parts == [] {
      MixNothing(env, visiting, done, acc);
      MixNothing(env', visiting', done', acc);
      assert parts' == [];
    } else {
      EvalRenamed(env, env', r, scope, visiting, visiting', done, done', parts[0]);
      var (h, after) := Eval(env, visiting, done, parts[0]);
      var (h', after') := Eval(env', visiting', done', RenameTerm(parts[0], r));
      assert parts'[0] == RenameTerm(parts[0], r) && parts'[1..] == RenameTerms(parts[1..], r);
      MixRenamed(env, env', r, scope, visiting, visiting', after, after', env.mixer.mix(acc, h), parts[1..]);
      MixStep(env, visiting, done, acc, parts);
      MixStep(env', visiting', done', acc, parts');
    }
  }

  lemma IdRenamed(env: Env, env': Env, r: Renaming, scope: set<TypeId>, v: ValueId)
    requires Renamed(env, env', r, scope)
    ensures IdOf(env.ids, v) == IdOf(env'.ids, r.values(v))
  {
    hide Closed, RenameNode;
  }

  lemma SameMixer(env: Env, env': Env, r: Renaming, scope: set<TypeId>)
    requires Renamed(env, env', r, scope)
    ensures env.mixer == env'.mixer
  {
  }

  lemma NodeRenamed(env: Env, env': Env, r: Renaming, scope: set<TypeId>, t: TypeId)
    requires Renamed(env, env', r, scope) && t in scope
    ensures t in env.types <==> r.types(t) in env'.types
    ensures t in env.types ==> var node := env.types[t];
      && Over(NodeTerm(node), scope) && NodeTerm(env'.types[r.types(t)]) == RenameTerm(NodeTerm(node), r)
      && Placeholder(env', env'.types[r.types(t)]) == Placeholder(env, node)
  {
    hide NodeTerm, RenameTerm, IdOf;
    if t in env.types { NodeTermRenamed(env.types[t], r); }
  }

  lemma Visited(r: Renaming, scope: set<TypeId>, visiting: set<TypeId>, visiting': set<TypeId>, done: Memo, done': Memo, t: TypeId)
    requires SameVisits(r, scope, visiting, visiting') && SameMemo(r, scope, done, done') && t in scope
    ensures t in visiting <==> r.types(t) in visiting'
    ensures t in done <==> r.types(t) in done'
    ensures t in done ==> done'[r.types(t)] == done[t]
  {
  }

  lemma VisitMore(env: Env, env': Env, r: Renaming, scope: set<TypeId>, visiting: set<TypeId>, visiting': set<TypeId>, t: TypeId)
    requires Renamed(env, env', r, scope) && SameVisits(r, scope, visiting, visiting') && t in scope
    ensures SameVisits(r, scope, visiting + {t}, visiting' + {r.types(t)})
  {
    hide Closed, RenameNode, IdOf;
  }

  lemma MemoMore(env: Env, env': Env, r: Renaming, scope: set<TypeId>, done: Memo, done': Memo, t: TypeId, h: Word)
    requires Renamed(env, env', r, scope) && SameMemo(r, scope, done, done') && t in scope
    ensures SameMemo(r, scope, done[t := h], done'[r.types(t) := h])
  {
    hide Closed, RenameNode, IdOf;
  }

  // ----- hashing without a memo

  /** Every type of a term lies in the scope, below a rank. */
  ghost predicate Under(types: map<TypeId, TypeNode>, scope: set<TypeId>, rank: TypeId -> nat, top: nat, term: Term) {
    match term
    case Word(_) => true
    case Id(_) => true
    case Type(t) => t in scope && (t in types ==> rank(t) < top)
    case Mixed(_, _, parts) => forall i :: 0 <= i < |parts| ==> Under(types, scope, rank, top, parts[i])
  }

  ghost predicate AllUnder(types: map<TypeId, TypeNode>, scope: set<TypeId>, rank: TypeId -> nat, top: nat, parts: seq<Term>) {
    forall i :: 0 <= i < |parts| ==> Under(types, scope, rank, top, parts[i])
  }

  /** No type of the scope contains itself: each is made of types of lower rank. */
  ghost predicate Acyclic(types: map<TypeId, TypeNode>, scope: set<TypeId>, rank: TypeId -> nat) {
    forall t :: t in scope && t in types ==> Under(types, scope, rank, rank(t), NodeTerm(types[t]))
  }

  /** Plain recursion over an acyclic graph. */
  ghost function Value(env: Env, scope: set<TypeId>, rank: TypeId -> nat, top: nat, term: Term): Word
    requires Acyclic(env.types, scope, rank) && Under(env.types, scope, rank, top, term)
    decreases top, term, 0
  {
    match term
    case Word(w) => w
    case Id(v) => IdOf(env.ids, v)
    case Type(t) => if t !in env.types then 0 else Value(env, scope, rank, rank(t), NodeTerm(env.types[t]))
    case Mixed(final, seed, parts) =>
      var h := ValueAll(env, scope, rank, top, seed, parts);
      if final then env.mixer.finalize(h) else h
  }

  ghost function ValueAll(env: Env, scope: set<TypeId>, rank: TypeId -> nat, top: nat, acc: Word, parts: seq<Term>): Word
    requires Acyclic(env.types, scope, rank) && AllUnder(env.types, scope, rank, top, parts)
    decreases top, parts, 1
  {
    if parts == [] then acc
    else
      var h := Value(env, scope, rank, top, parts[0]);
      ValueAll(env, scope, rank, top, env.mixer.mix(acc, h), parts[1..])
  }

  /** A memo that holds the plain hashes of the types of the scope. */
  ghost predicate Correct(env: Env, scope: set<TypeId>, rank: TypeId -> nat, done: Memo)
    requires Acyclic(env.types, scope, rank)
  {
    forall t :: t in scope && t in env.types && t in done ==> done[t] == Value(env, scope, rank, rank(t), NodeTerm(env.types[t]))
  }

  ghost predicate Above(env: Env, scope: set<TypeId>, rank: TypeId -> nat, top: nat, visiting: set<TypeId>) {
    forall t :: t in visiting && t in scope && t in env.types ==> top <= rank(t)
  }

  /** On an acyclic graph the memoised hash is the plain one. */
  lemma {:induction false} EvalIsValue(env: Env, scope: set<TypeId>, rank: TypeId -> nat, top: nat,
                                       visiting: set<TypeId>, done: Memo, term: Term)
    requires Acyclic(env.types, scope, rank) && Under(env.types, scope, rank, top, term)
    requires Correct(env, scope, rank, done) && Above(env, scope, rank, top, visiting)
    ensures var (h, after) := Eval(env, visiting, done, term);
      h == Value(env, scope, rank, top, term) && Correct(env, scope, rank, after)
    decreases top, term, 1
  {
    hide Eval, MixAll, Acyclic, Correct, ValueAll, AllUnder, IdOf, NodeTerm, Above;
    match term
    case Word(w) => EvalWord(env, visiting, done, w);
    case Id(v) => EvalId(env, visiting, done, v);
    case Type(t) => TypeIsValue(env, scope, rank, top, visiting, done, t);
    case Mixed(final, seed, parts) =>
      assert AllUnder(env.types, scope, rank, top, parts) by { UnderMixed(env.types, scope, rank, top, term); }
      MixIsValue(env, scope, rank, top, visiting, done, seed, parts);
      EvalMixed(env, visiting, done, final, seed, parts);
  }

  lemma UnderMixed(types: map<TypeId, TypeNode>, scope: set<TypeId>, rank: TypeId -> nat, top: nat, term: Term)
    requires term.Mixed? && Under(types, scope, rank, top, term)
    ensures AllUnder(types, scope, rank, top, term.parts)
  {
  }

  lemma {:induction false} TypeIsValue(env: Env, scope: set<TypeId>, rank: TypeId -> nat, top: nat,
                                       visiting: set<TypeId>, done: Memo, t: TypeId)
    requires Acyclic(env.types, scope, rank) && t in scope && (t in env.types ==> rank(t) < top)
    requires Correct(env, scope, rank, done) && Above(env, scope, rank, top, visiting)
    ensures var (h, after) := Eval(env, visiting, done, Type(t));
      && h == (if t !in env.types then 0 else Value(env, scope, rank, rank(t), NodeTerm(env.types[t])))
      && Correct(env, scope, rank, after)
    decreases top, Type(t), 0
  {
    hide Eval, MixAll, Value, NodeTerm, Under;
    if t !in env.types {
      EvalNull(env, visiting, done, t);
    } else if t in done {
      EvalKnown(env, visiting, done, t);
    } else {
      var node := NodeTerm(env.types[t]);
      EvalNew(env, visiting, done, t);
      EvalIsValue(env, scope, rank, rank(t), visiting + {t}, done, node);
      var (h, after) := Eval(env, visiting + {t}, done, node);
      assert Correct(env, scope, rank, after[t := h]);
    }
  }

  lemma {:induction false} MixIsValue(env: Env, scope: set<TypeId>, rank: TypeId -> nat, top: nat,
                                      visiting: set<TypeId>, done: Memo, acc: Word, parts: seq<Term>)
    requires Acyclic(env.types, scope, rank) && AllUnder(env.types, scope, rank, top, parts)
    requires Correct(env, scope, rank, done) && Above(env, scope, rank, top, visiting)
    ensures var (h, after) := MixAll(env, visiting, done, acc, parts);
      h == ValueAll(env, scope, rank, top, acc, parts) && Correct(env, scope, rank, after)
    decreases top, parts, 2
  {
    hide Eval, MixAll, Acyclic, Correct, Value, Under, Above;
    if parts == [] {
      MixNothing(env, visiting, done, acc);
    } else {
      MixStep(env, visiting, done, acc, parts);
      EvalIsValue(env, scope, rank, top, visiting, done, parts[0]);
      var (h, after) := Eval(env, visiting, done, parts[0]);
      MixIsValue(env, scope, rank, top, visiting, after, env.mixer.mix(acc, h), parts[1..]);
    }
  }

  /** The hash of a term over acyclic types does not depend on what was hashed before it. */
  lemma HistoryIrrelevant(env: Env, scope: set<TypeId>, rank: TypeId -> nat, top: nat, before: Term, term: Term)
    requires Acyclic(env.types, scope, rank)
    requires Under(env.types, scope, rank, top, term) && Under(env.types, scope, rank, top, before)
    ensures Eval(env, {}, Eval(env, {}, map[], before).1, term).0 == Eval(env, {}, map[], term).0
  {
    hide Eval, Value, Under, NodeTerm;
    EvalIsValue(env, scope, rank, top, {}, map[], before);
    EvalIsValue(env, scope, rank, top, {}, map[], term);
    EvalIsValue(env, scope, rank, top, {}, Eval(env, {}, map[], before).1, term);
  }
}
