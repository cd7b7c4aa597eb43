/** Numbering of a module: one counter shared by values and named structs. */
module ModuleIndex {
  import opened Lists
  import opened GlobalNames

  type Value = int
  type TypeId = int

  datatype Option<T> = None | Some(value: T)

  /** A type: its name when it is a struct with a non-empty one, and the types it is made of. */
  datatype TypeInfo = TypeInfo(name: Option<string>, parts: seq<TypeId>)

  datatype GlobalVariable = GlobalVariable(v: Value, name: string, valueType: TypeId, initializerType: Option<TypeId>)

  /** An instruction with the types recorded for it: allocated, indexed into, and of operands. */
  datatype Instruction = Instruction(v: Value, recorded: seq<TypeId>)

  datatype Block = Block(v: Value, instructions: seq<Instruction>)

  datatype Function = Function(v: Value, name: string, arguments: seq<Value>, blocks: seq<Block>)

  datatype Module = Module(globals: seq<GlobalVariable>, functions: seq<Function>)

  type Types = map<TypeId, TypeInfo>

  // ----- reachable types

  ghost predicate Closed(types: Types) {
    forall t, i :: t in types && 0 <= i < |types[t].parts| ==> types[t].parts[i] in types
  }

  /** A path from a type to a part of a part. */
  ghost predicate Path(types: Types, from: TypeId, path: seq<nat>, target: TypeId)
    decreases |path|
  {
    if path == [] then from == target
    else from in types && path[0] < |types[from].parts| && Path(types, types[from].parts[path[0]], path[1..], target)
  }

  ghost predicate Reaches(types: Types, from: TypeId, target: TypeId) { exists path :: Path(types, from, path, target) }

  predicate IsNamed(types: Types, t: TypeId) { t in types && types[t].name.Some? }

  lemma ReachesSelf(types: Types, t: TypeId)
    ensures Reaches(types, t, t)
  {
    assert Path(types, t, [], t);
  }

  lemma {:induction false} PathStep(types: Types, from: TypeId, path: seq<nat>, mid: TypeId, i: nat)
    requires Path(types, from, path, mid) && mid in types && i < |types[mid].parts|
    ensures Path(types, from, path + [i], types[mid].parts[i])
    decreases |path|
  {
    var all := path + [i];
    if path == [] {
      assert all[1..] == [];
    } else {
      assert all[1..] == path[1..] + [i];
      PathStep(types, types[from].parts[path[0]], path[1..], mid, i);
    }
  }

  lemma ReachesPart(types: Types, from: TypeId, mid: TypeId, i: nat)
    requires Reaches(types, from, mid) && mid in types && i < |types[mid].parts|
    ensures Reaches(types, from, types[mid].parts[i])
  {
    var path :| Path(types, from, path, mid);
    PathStep(types, from, path, mid, i);
  }

  ghost predicate ClosedUnder(types: Types, visited: set<TypeId>) {
    forall t, i :: t in visited && t in types && 0 <= i < |types[t].parts| ==> types[t].parts[i] in visited
  }

  lemma {:induction false} StaysInside(types: Types, visited: set<TypeId>, from: TypeId, path: seq<nat>, target: TypeId)
    requires ClosedUnder(types, visited) && from in visited && Path(types, from, path, target)
    ensures target in visited
    decreases |path|
  {
    if path != [] { StaysInside(types, visited, types[from].parts[path[0]], path[1..], target); }
  }

  // ----- names

  /** The text around the first `::` outside angle brackets from `i` on. */
  function SplitNamespace(s: string, i: nat, depth: nat): (r: (string, string))
    requires i <= |s|
    ensures r.0 != "" ==> |r.1| < |s|
    decreases |s| - i
  {
    if i == |s| then ("", s)
    else if s[i] == '<' then SplitNamespace(s, i + 1, depth + 1)
    else if s[i] == '>' then SplitNamespace(s, i + 1, if depth > 0 then depth - 1 else 0)
    else if depth == 0 && s[i] == ':' && i + 1 < |s| && s[i + 1] == ':' then (s[..i], s[i + 2..])
    else SplitNamespace(s, i + 1, depth)
  }

  function NamespacePair(s: string): (r: (string, string))
    ensures r.0 != "" ==> |r.1| < |s|
  {
    SplitNamespace(s, 0, 0)
  }

  /** The name of a struct without its kind; nothing when it has none. */
  function Stripped(name: string): string {
    if "struct." <= name then name[7..]
    else if "class." <= name then name[6..]
    else if "union." <= name then name[6..]
    else if "enum." <= name then name[5..]
    else ""
  }

  /** A name and what is left of it as namespaces are dropped from the front. */
  function Chain(first: string): (chain: seq<string>)
    ensures chain != [] && chain[0] == first
    decreases |first|
  {
    var (ns, remain) := NamespacePair(first);
    if ns == "" then [first] else [first] + Chain(remain)
  }

  function AliasEntries(chain: seq<string>, name: string, id: nat): seq<Entry> {
    if chain == [] then []
    else (if chain[0] == name then [] else [Entry(chain[0], id, false)]) + AliasEntries(chain[1..], name, id)
  }

  /** An id, its name in the IR, and the name from which its aliases are taken. */
  datatype Listing = Listing(id: nat, name: string, first: string)

  function EntriesOf(l: Listing): seq<Entry> { [Entry(l.name, l.id, true)] + AliasEntries(Chain(l.first), l.name, l.id) }

  lemma {:induction false} AliasEntriesAre(chain: seq<string>, name: string, id: nat)
    ensures Aliases(AliasEntries(chain, name, id), id)
    ensures forall e :: e in AliasEntries(chain, name, id) <==> e == Entry(e.name, id, false) && e.name != name && e.name in chain
  {
    if chain != [] {
      AliasEntriesAre(chain[1..], name, id);
      assert chain == [chain[0]] + chain[1..];
    }
  }

  ghost predicate Aliases(added: seq<Entry>, id: nat) { forall i :: 0 <= i < |added| ==> added[i].id == id && !added[i].original }

  /** Every id that has a name in the IR has exactly one entry for it. */
  ghost predicate NamesListed(entries: seq<Entry>, names: map<nat, string>) {
    && (forall i :: 0 <= i < |entries| && entries[i].original ==> entries[i].id in names && names[entries[i].id] == entries[i].name)
    && (forall id :: id in names ==> HasEntry(entries, id))
    && (forall i, j :: 0 <= i < j < |entries| && entries[i].original && entries[j].original ==> entries[i].id != entries[j].id)
    && (forall i :: 0 <= i < |entries| ==> entries[i].id in names)
  }

  ghost predicate HasEntry(entries: seq<Entry>, id: nat) { exists i :: 0 <= i < |entries| && entries[i].original && entries[i].id == id }

  lemma ListMore(entries: seq<Entry>, names: map<nat, string>, id: nat, name: string, added: seq<Entry>)
    requires NamesListed(entries, names) && id !in names && Aliases(added, id)
    ensures NamesListed(entries + [Entry(name, id, true)] + added, names[id := name])
  {
    var all, names' := entries + [Entry(name, id, true)] + added, names[id := name];
    assert all[|entries|] == Entry(name, id, true);
    assert forall i :: 0 <= i < |entries| ==> all[i] == entries[i];
    assert forall i :: |entries| < i < |all| ==> all[i] == added[i - |entries| - 1];
    forall k | k in names' ensures HasEntry(all, k) {
      if k == id {
        assert all[|entries|].original && all[|entries|].id == id;
      } else {
        var i :| 0 <= i < |entries| && entries[i].original && entries[i].id == k;
        assert all[i].original && all[i].id == k;
      }
    }
  }

  // ----- the index

  /** Two maps inverse to each other. */
  ghost predicate Inverse(there: map<int, nat>, back: map<nat, int>) {
    && (forall x :: x in there ==> there[x] in back && back[there[x]] == x)
    && (forall i :: i in back ==> back[i] in there && there[back[i]] == i)
  }

  lemma InverseMore(there: map<int, nat>, back: map<nat, int>, x: int, n: nat)
    requires Inverse(there, back) && x !in there && n !in back
    ensures Inverse(there[x := n], back[n := x])
  {
  }

  /** The ids below the counter are shared out between the two maps. */
  ghost predicate Contiguous(values: map<nat, int>, structs: map<nat, int>, n: nat) {
    && (forall i: nat :: i in values || i in structs <==> i < n)
    && (forall i :: i in values ==> i !in structs)
  }

  /** The values in order, with increasing ids. */
  ghost predicate InOrder(order: seq<Value>, valueToVid: map<Value, nat>, n: nat) {
    && (forall v :: v in valueToVid <==> v in order)
    && (forall v :: v in valueToVid ==> valueToVid[v] < n)
    && (forall j, k :: 0 <= j < k < |order| ==> order[j] in valueToVid && order[k] in valueToVid && valueToVid[order[j]] < valueToVid[order[k]])
  }

  lemma InOrderMore(order: seq<Value>, valueToVid: map<Value, nat>, n: nat, v: Value)
    requires InOrder(order, valueToVid, n) && v !in valueToVid
    ensures InOrder(order + [v], valueToVid[v := n], n + 1)
  {
    var all := order + [v];
    forall j | 0 <= j < |order| ensures all[j] == order[j] && order[j] in valueToVid && order[j] != v {
      assert order[j] in order;
    }
  }

  lemma InOrderLater(order: seq<Value>, valueToVid: map<Value, nat>, n: nat)
    requires InOrder(order, valueToVid, n)
    ensures InOrder(order, valueToVid, n + 1)
  {
  }

  /** The registered structs are the named types reachable from the types recorded so far. */
  ghost predicate Registered(types: Types, roots: seq<TypeId>, structToVid: map<TypeId, nat>) {
    forall s :: s in structToVid <==> IsNamed(types, s) && exists r :: r in roots && Reaches(types, r, s)
  }

  lemma NotStruct(values: map<nat, int>, structs: map<nat, int>, n: nat)
    requires Contiguous(values, structs, n)
    ensures n !in structs
  {
  }

  lemma ChainStep(current: string, name: string, id: nat)
    ensures var (ns, remain) := NamespacePair(current);
      AliasEntries(Chain(current), name, id)
      == (if current == name then [] else [Entry(current, id, false)]) + if ns == "" then [] else AliasEntries(Chain(remain), name, id)
  {
    hide NamespacePair;
    var (ns, remain) := NamespacePair(current);
    var chain := Chain(current);
    assert chain[1..] == if ns == "" then [] else Chain(remain);
  }

  lemma AddAt(values: map<nat, int>, structs: map<nat, int>, n: nat, x: int)
    requires Contiguous(values, structs, n) || Contiguous(structs, values, n)
    ensures Contiguous(values[n := x], structs, n + 1) && Contiguous(structs, values[n := x], n + 1)
    ensures n !in values
  {
  }

  // ----- the worklist

  /** Every part of a visited type is visited or still to be. */
  ghost predicate Pending(types: Types, visited: set<TypeId>, worklist: seq<TypeId>) {
    forall t, i :: t in visited && t in types && 0 <= i < |types[t].parts| ==> types[t].parts[i] in visited || types[t].parts[i] in worklist
  }

  lemma Popped(types: Types, visited: set<TypeId>, before: seq<TypeId>, worklist: seq<TypeId>, ty: TypeId)
    requires Pending(types, visited, before) && before != [] && worklist == before[..|before| - 1]
    requires before[|before| - 1] in types && (ty in visited || ty in before)
    ensures var cur := before[|before| - 1];
      && (cur in visited ==> Pending(types, visited, worklist))
      && Pending(types, visited + {cur}, worklist + types[cur].parts)
      && (ty in visited + {cur} || ty in worklist)
  {
    var cur, parts := before[|before| - 1], types[before[|before| - 1]].parts;
    assert forall x :: x in before ==> x in worklist || x == cur by { assert before == worklist + [cur]; }
    assert forall i :: 0 <= i < |parts| ==> parts[i] in worklist + parts;
  }

  /** The registrations made on the way are of visited types. */
  ghost predicate Sofar(types: Types, ty: TypeId, visited: set<TypeId>, before: map<TypeId, nat>, now: map<TypeId, nat>) {
    && (forall t :: t in visited ==> Reaches(types, ty, t) && (IsNamed(types, t) ==> t in now))
    && (forall s :: s in before ==> s in now)
    && (forall s :: s in now ==> s in before || (s in visited && IsNamed(types, s)))
  }

  lemma SofarMore(types: Types, ty: TypeId, visited: set<TypeId>, cur: TypeId, before: map<TypeId, nat>, now: map<TypeId, nat>, id: nat)
    requires Sofar(types, ty, visited, before, now) && Reaches(types, ty, cur)
    ensures IsNamed(types, cur) ==> Sofar(types, ty, visited + {cur}, before, now[cur := id])
    ensures !IsNamed(types, cur) || cur in now ==> Sofar(types, ty, visited + {cur}, before, now)
  {
    hide Reaches;
  }

  lemma RootDone(types: Types, roots: seq<TypeId>, ty: TypeId, visited: set<TypeId>, before: map<TypeId, nat>, now: map<TypeId, nat>)
    requires Registered(types, roots, before) && Sofar(types, ty, visited, before, now)
    requires Pending(types, visited, []) && ty in visited
    ensures Registered(types, roots + [ty], now)
  {
    var all := roots + [ty];
    assert all[|roots|] == ty;
    forall r ensures r in all <==> r in roots || r == ty {}
    forall s ensures s in now <==> IsNamed(types, s) && exists r :: r in all && Reaches(types, r, s) {
      if IsNamed(types, s) && Reaches(types, ty, s) {
        var path :| Path(types, ty, path, s);
        StaysInside(types, visited, ty, path, s);
      }
      if s in now && s !in before {
        assert ty in all && Reaches(types, ty, s);
      }
      if s in before {
        var r :| r in roots && Reaches(types, r, s);
        assert r in all;
      }
    }
  }

  /** The names in the IR, by value and by struct. */
  ghost predicate ValueNames(named: seq<(Value, string)>, valueToVid: map<Value, nat>, names: map<nat, string>) {
    forall i :: 0 <= i < |named| ==>
      named[i].0 in valueToVid && valueToVid[named[i].0] in names && names[valueToVid[named[i].0]] == named[i].1
  }

  ghost predicate StructNames(types: Types, structToVid: map<TypeId, nat>, names: map<nat, string>) {
    forall s :: s in structToVid ==>
      s in types && structToVid[s] in names && types[s].name == Some(names[structToVid[s]])
  }

  lemma NamesKept(types: Types, named: seq<(Value, string)>, valueToVid: map<Value, nat>, structToVid: map<TypeId, nat>,
                  names: map<nat, string>, n: nat, name: string)
    requires ValueNames(named, valueToVid, names) && StructNames(types, structToVid, names) && n !in names
    ensures ValueNames(named, valueToVid, names[n := name]) && StructNames(types, structToVid, names[n := name])
  {
  }

  lemma ValueNamesMore(named: seq<(Value, string)>, valueToVid: map<Value, nat>, names: map<nat, string>, v: Value, n: nat)
    requires ValueNames(named, valueToVid, names) && v !in valueToVid
    ensures ValueNames(named, valueToVid[v := n], names)
    ensures n in names ==> ValueNames(named + [(v, names[n])], valueToVid[v := n], names)
  {
  }

  lemma StructNamesMore(types: Types, structToVid: map<TypeId, nat>, names: map<nat, string>, t: TypeId, n: nat)
    requires StructNames(types, structToVid, names) && t in types && n in names && types[t].name == Some(names[n])
    ensures StructNames(types, structToVid[t := n], names)
  {
  }

  lemma EmptyIndex(types: Types)
    ensures ValueNames([], map[], map[]) && StructNames(types, map[], map[])
    ensures Registered(types, [], map[]) && Contiguous(map[], map[], 0) && InOrder([], map[], 0) && NamesListed([], map[])
    ensures Flat([], EntriesOf) == [] && forall demangle :: ListingsAre([], map[], map[], demangle)
  {
  }

  ghost predicate AllBelow(names: map<nat, string>, n: nat) { forall id :: id in names ==> id < n }

  lemma NamesBelow(names: map<nat, string>, n: nat, name: string)
    requires AllBelow(names, n)
    ensures n !in names && AllBelow(names, n + 1) && AllBelow(names[n := name], n + 1)
  {
  }

  /** Every named id is listed once; the aliases of a struct are taken from its name without
      the kind, and those of a value from its demangled name. */
  ghost predicate ListingsAre(listed: seq<Listing>, names: map<nat, string>, structs: map<nat, TypeId>, demangle: string -> string) {
    && (forall i :: 0 <= i < |listed| ==> ListedRight(listed[i], names, structs, demangle))
    && (forall id :: id in names ==> ListedAt(listed, id))
    && (forall i, j :: 0 <= i < j < |listed| ==> listed[i].id != listed[j].id)
  }

  ghost predicate ListedRight(l: Listing, names: map<nat, string>, structs: map<nat, TypeId>, demangle: string -> string) {
    l.id in names && names[l.id] == l.name && l.first == FirstAlias(l.name, l.id in structs, demangle)
  }

  ghost predicate ListedAt(listed: seq<Listing>, id: nat) { exists i :: 0 <= i < |listed| && listed[i].id == id }

  function FirstAlias(name: string, struct: bool, demangle: string -> string): string {
    if struct then Stripped(name) else demangle(name)
  }

  lemma ListingsMore(listed: seq<Listing>, names: map<nat, string>, structs: map<nat, TypeId>, structs': map<nat, TypeId>,
                     demangle: string -> string, id: nat, name: string)
    requires ListingsAre(listed, names, structs, demangle) && id !in names
    requires forall k :: k in names ==> (k in structs' <==> k in structs)
    ensures ListingsAre(listed + [Listing(id, name, FirstAlias(name, id in structs', demangle))], names[id := name], structs', demangle)
  {
    hide FirstAlias;
    var l := Listing(id, name, FirstAlias(name, id in structs', demangle));
    var all := listed + [l];
    assert all[|listed|] == l;
    assert forall i :: 0 <= i < |listed| ==> all[i] == listed[i];
    forall k | k in names[id := name] ensures ListedAt(all, k) {
      if k == id {
        assert all[|listed|].id == k;
      } else {
        var i :| 0 <= i < |listed| && listed[i].id == k;
        assert all[i].id == k;
      }
    }
  }

  class Index {
    const types: Types
    const demangle: string -> string
    var vidToValue: map<nat, Value>
    var valueToVid: map<Value, nat>
    var vidToStruct: map<nat, TypeId>
    var structToVid: map<TypeId, nat>
    var entries: seq<Entry>
    var vidCnt: nat

    /** The values numbered and the types recorded so far, and the names in the IR by id. */
    ghost var order: seq<Value>
    ghost var roots: seq<TypeId>
    ghost var names: map<nat, string>
    ghost var named: seq<(Value, string)>
    ghost var listed: seq<Listing>

    ghost predicate Valid()
      reads this
    {
      && Inverse(valueToVid, vidToValue)
      && Inverse(structToVid, vidToStruct)
      && Contiguous(vidToValue, vidToStruct, vidCnt)
      && InOrder(order, valueToVid, vidCnt)
      && NamesListed(entries, names)
      && AllBelow(names, vidCnt)
      && ValueNames(named, valueToVid, names)
      && StructNames(types, structToVid, names)
      && entries == Flat(listed, EntriesOf)
      && ListingsAre(listed, names, vidToStruct, demangle)
    }

    constructor (types: Types, demangle: string -> string)
      ensures Valid() && Registered(types, roots, structToVid) && order == [] && roots == [] && named == []
      ensures this.types == types && this.demangle == demangle
    {
      this.types, this.demangle := types, demangle;
      vidToValue, valueToVid, vidToStruct, structToVid := map[], map[], map[], map[];
      entries, vidCnt := [], 0;
      order, roots, names, named, listed := [], [], map[], [], [];
      new;
      EmptyIndex(types);
    }

    /** Adds the name of an id, and as aliases the different names of the chain. */
    method AddNames(name: string, first: string, id: nat)
      requires NamesListed(entries, names) && id !in names
      modifies `entries, `names
      ensures NamesListed(entries, names) && names == old(names)[id := name]
      ensures entries == old(entries) + EntriesOf(Listing(id, name, first))
    {
      hide NamespacePair, NamesListed, AliasEntries, Chain;
      ghost var added: seq<Entry> := [];
      ghost var aliases := AliasEntries(Chain(first), name, id);
      entries := entries + [Entry(name, id, true)];
      var current := first;
      assert entries + [] == entries && [] + aliases == aliases;
      while true
        invariant names == old(names) && entries == old(entries) + [Entry(name, id, true)] + added
        invariant added + AliasEntries(Chain(current), name, id) == aliases
        decreases |current|
      {
        ghost var was, entries0 := added, entries;
        ChainStep(current, name, id);
        if current != name {
          entries := entries + [Entry(current, id, false)];
          added := added + [Entry(current, id, false)];
          assert old(entries) + [Entry(name, id, true)] + was + [Entry(current, id, false)] == old(entries) + [Entry(name, id, true)] + added;
        }
        var (ns, remain) := NamespacePair(current);
        ghost var rest := if ns == "" then [] else AliasEntries(Chain(remain), name, id);
        assert was + ((if current == name then [] else [Entry(current, id, false)]) + rest) == added + rest;
        if ns == "" {
          assert added + [] == added;
          break;
        }
        current := remain;
      }
      assert added == aliases;
      AliasEntriesAre(Chain(first), name, id);
      ListMore(old(entries), names, id, name, added);
      names := names[id := name];
      assert entries == old(entries) + ([Entry(name, id, true)] + added);
    }

    method AddValue(v: Value)
      requires Valid() && v !in valueToVid
      modifies `vidToValue, `valueToVid, `vidCnt, `order
      ensures Valid() && order == old(order) + [v] && vidCnt == old(vidCnt) + 1
      ensures vidToValue == old(vidToValue)[old(vidCnt) := v] && valueToVid == old(valueToVid)[v := old(vidCnt)]
    {
      hide NamesListed, Inverse, Contiguous, InOrder, AllBelow, ValueNames, StructNames, ListingsAre;
      NamesBelow(names, vidCnt, "");
      AddAt(vidToValue, vidToStruct, vidCnt, v);
      InverseMore(valueToVid, vidToValue, v, vidCnt);
      InOrderMore(order, valueToVid, vidCnt, v);
      ValueNamesMore(named, valueToVid, names, v, vidCnt);
      vidToValue := vidToValue[vidCnt := v];
      valueToVid := valueToVid[v := vidCnt];
      vidCnt := vidCnt + 1;
      order := order + [v];
    }

    /** A global variable or function: numbered, and listed under its names. */
    method AddNamed(v: Value, name: string)
      requires Valid() && v !in valueToVid
      modifies `vidToValue, `valueToVid, `vidCnt, `order, `entries, `names, `named, `listed
      ensures Valid() && order == old(order) + [v] && named == old(named) + [(v, name)]
      ensures names == old(names)[old(vidCnt) := name]
      ensures vidToValue == old(vidToValue)[old(vidCnt) := v] && valueToVid == old(valueToVid)[v := old(vidCnt)]
    {
      hide NamesListed, Inverse, Contiguous, InOrder, AllBelow, ValueNames, StructNames, ListingsAre;
      var id := vidCnt;
      NamesBelow(names, vidCnt, name);
      NamesKept(types, named, valueToVid, structToVid, names, id, name);
      ValueNamesMore(named, valueToVid, names[id := name], v, id);
      NotStruct(vidToValue, vidToStruct, id);
      ListingsMore(listed, names, vidToStruct, vidToStruct, demangle, id, name);
      FlatLast(listed, Listing(id, name, demangle(name)), EntriesOf);
      AddValue(v);
      AddNames(name, demangle(name), id);
      named := named + [(v, name)];
      listed := listed + [Listing(id, name, demangle(name))];
    }

    /** Registers a named struct that was not met before. */
    method AddStruct(t: TypeId, name: string)
      requires Valid() && t !in structToVid && t in types && types[t].name == Some(name)
      modifies `vidToStruct, `structToVid, `vidCnt, `entries, `names, `listed
      ensures Valid() && structToVid == old(structToVid)[t := old(vidCnt)]
      ensures names == old(names)[old(vidCnt) := name]
    {
      hide NamesListed, Inverse, Contiguous, InOrder, AllBelow, ValueNames, StructNames, ListingsAre, Flat, EntriesOf, Stripped;
      NamesBelow(names, vidCnt, name);
      AddAt(vidToStruct, vidToValue, vidCnt, t);
      InverseMore(structToVid, vidToStruct, t, vidCnt);
      InOrderLater(order, valueToVid, vidCnt);
      NamesKept(types, named, valueToVid, structToVid, names, vidCnt, name);
      StructNamesMore(types, structToVid, names[vidCnt := name], t, vidCnt);
      ListingsMore(listed, names, vidToStruct, vidToStruct[vidCnt := t], demangle, vidCnt, name);
      FlatLast(listed, Listing(vidCnt, name, Stripped(name)), EntriesOf);
      structToVid := structToVid[t := vidCnt];
      vidToStruct := vidToStruct[vidCnt := t];
      AddNames(name, Stripped(name), vidCnt);
      listed := listed + [Listing(vidCnt, name, Stripped(name))];
      vidCnt := vidCnt + 1;
      assert entries == Flat(listed, EntriesOf);
    }

    /** The worklist over a type graph that may be cyclic. */
    method RecordStructTypes(ty: TypeId)
      requires Valid() && Closed(types) && ty in types && Registered(types, roots, structToVid)
      modifies `vidToStruct, `structToVid, `vidCnt, `entries, `names, `listed, `roots
      ensures Valid() && roots == old(roots) + [ty] && Registered(types, roots, structToVid)
    {
      hide Inverse, Contiguous, InOrder, NamesListed, AllBelow, ValueNames, StructNames, ListingsAre, Reaches, Path;
      var visited: set<TypeId> := {};
      var worklist := [ty];
      ReachesSelf(types, ty);
      while worklist != []
        invariant Valid() && roots == old(roots)
        invariant visited <= types.Keys && forall i :: 0 <= i < |worklist| ==> worklist[i] in types && Reaches(types, ty, worklist[i])
        invariant Pending(types, visited, worklist) && (ty in visited || ty in worklist)
        invariant Sofar(types, ty, visited, old(structToVid), structToVid)
        decreases types.Keys - visited, |worklist|
      {
        var cur := worklist[|worklist| - 1];
        ghost var before := worklist;
        worklist := worklist[..|worklist| - 1];
        Popped(types, visited, before, worklist, ty);
        if cur in visited { continue; }
        visited := visited + {cur};
        var info := types[cur];
        SofarMore(types, ty, visited - {cur}, cur, old(structToVid), structToVid, vidCnt);
        if info.name.Some? && cur !in structToVid {
          AddStruct(cur, info.name.value);
        }
        forall i | 0 <= i < |info.parts| ensures Reaches(types, ty, info.parts[i]) { ReachesPart(types, ty, cur, i); }
        worklist := worklist + info.parts;
      }
      RootDone(types, old(roots), ty, visited, old(structToVid), structToVid);
      roots := roots + [ty];
    }

    method RecordAll(tys: seq<TypeId>)
      requires Valid() && Closed(types) && Registered(types, roots, structToVid) && forall i :: 0 <= i < |tys| ==> tys[i] in types
      modifies `vidToStruct, `structToVid, `vidCnt, `entries, `names, `listed, `roots
      ensures Valid() && roots == old(roots) + tys && Registered(types, roots, structToVid)
    {
      hide Valid, Registered;
      assert roots + tys[..0] == roots;
      for i := 0 to |tys|
        invariant Valid() && roots == old(roots) + tys[..i] && Registered(types, roots, structToVid)
      {
        RecordStructTypes(tys[i]);
        assert tys[..i + 1] == tys[..i] + [tys[i]];
        assert old(roots) + tys[..i] + [tys[i]] == old(roots) + (tys[..i] + [tys[i]]);
      }
      assert tys[..|tys|] == tys;
    }

    /** The values of a list without names: arguments. */
    method AddAll(vs: seq<Value>)
      requires Valid() && Fresh(order, vs)
      modifies `vidToValue, `valueToVid, `vidCnt, `order
      ensures Valid() && order == old(order) + vs
    {
      hide Inverse, Contiguous, InOrder, NamesListed, AllBelow, ValueNames, StructNames, ListingsAre;
      assert order + vs[..0] == order;
      for i := 0 to |vs|
        invariant Valid() && order == old(order) + vs[..i]
      {
        NextIsNew(old(order), vs, i, valueToVid, vidCnt);
        AddValue(vs[i]);
        assert vs[..i + 1] == vs[..i] + [vs[i]];
        assert old(order) + vs[..i] + [vs[i]] == old(order) + (vs[..i] + [vs[i]]);
      }
      assert vs[..|vs|] == vs;
    }

    method IndexInstruction(x: Instruction)
      requires Valid() && Closed(types) && Registered(types, roots, structToVid)
      requires x.v !in valueToVid && AllIn(x.recorded, types)
      modifies `vidToValue, `valueToVid, `vidToStruct, `structToVid, `vidCnt, `entries, `names, `listed, `roots, `order
      ensures Valid() && Registered(types, roots, structToVid)
      ensures order == old(order) + [x.v] && roots == old(roots) + x.recorded
    {
      hide Inverse, Contiguous, InOrder, NamesListed, AllBelow, ValueNames, StructNames, ListingsAre, Registered, Closed;
      RecordAll(x.recorded);
      AddValue(x.v);
    }

    method IndexBlock(b: Block)
      requires Valid() && Closed(types) && Registered(types, roots, structToVid)
      requires Fresh(order, BlockValues(b)) && AllIn(BlockRoots(b.instructions), types)
      modifies `vidToValue, `valueToVid, `vidToStruct, `structToVid, `vidCnt, `entries, `names, `listed, `roots, `order
      ensures Valid() && Registered(types, roots, structToVid)
      ensures order == old(order) + BlockValues(b) && roots == old(roots) + BlockRoots(b.instructions)
    {
      hide Inverse, Contiguous, InOrder, NamesListed, AllBelow, ValueNames, StructNames, ListingsAre, Registered, Closed, Fresh, AllIn, Flat, BlockValues;
      ghost var vs := BlockValues(b);
      BlockValuesAre(b);
      TakeNone(order, vs);
      NextIsNew(order, vs, 0, valueToVid, vidCnt);
      AddValue(b.v);
      TakeNext(old(order), vs, 0);
      FlatNothing(Recorded);
      assert roots + [] == roots;
      for i := 0 to |b.instructions|
        invariant Valid() && Registered(types, roots, structToVid)
        invariant order == old(order) + vs[..i + 1]
        invariant roots == old(roots) + BlockRoots(b.instructions[..i])
      {
        var x := b.instructions[i];
        RootsAt(b.instructions, i, Recorded, types);
        NextIsNew(old(order), vs, i + 1, valueToVid, vidCnt);
        IndexInstruction(x);
        TakeNext(old(order), vs, i + 1);
        Associate(old(roots), BlockRoots(b.instructions[..i]), x.recorded);
      }
      assert vs[..|vs|] == vs && b.instructions[..|b.instructions|] == b.instructions;
    }

    method IndexFunction(f: Function)
      requires Valid() && Closed(types) && Registered(types, roots, structToVid)
      requires Fresh(order, FunctionValues(f)) && AllIn(AllBlockRoots(f.blocks), types)
      modifies this
      ensures Valid() && Registered(types, roots, structToVid)
      ensures order == old(order) + FunctionValues(f) && roots == old(roots) + AllBlockRoots(f.blocks)
      ensures named == old(named) + [(f.v, f.name)]
    {
      hide Inverse, Contiguous, InOrder, NamesListed, AllBelow, ValueNames, StructNames, ListingsAre, Registered, Closed, Fresh, AllIn, BlockValues, Flat;
      FreshSplit(order, [f.v] + f.arguments, AllBlockValues(f.blocks));
      FreshSplit(order, [f.v], f.arguments);
      FreshHead(order, f.v, valueToVid, vidCnt);
      AddNamed(f.v, f.name);
      AddAll(f.arguments);
      Associate(old(order), [f.v], f.arguments);
      ghost var before := order;
      FlatNothing(BlockValues);
      FlatNothing(RootsOfBlock);
      assert f.blocks[0..] == f.blocks && f.blocks[..0] == [];
      assert before + [] == before && roots + [] == roots;
      for i := 0 to |f.blocks|
        invariant Valid() && Registered(types, roots, structToVid) && named == old(named) + [(f.v, f.name)]
        invariant order == before + AllBlockValues(f.blocks[..i]) && Fresh(order, AllBlockValues(f.blocks[i..]))
        invariant roots == old(roots) + AllBlockRoots(f.blocks[..i])
      {
        var b := f.blocks[i];
        FlatAt(f.blocks, i, BlockValues);
        RootsAt(f.blocks, i, RootsOfBlock, types);
        FreshSplit(order, BlockValues(b), AllBlockValues(f.blocks[i + 1..]));
        IndexBlock(b);
        Associate(before, AllBlockValues(f.blocks[..i]), BlockValues(b));
        Associate(old(roots), AllBlockRoots(f.blocks[..i]), BlockRoots(b.instructions));
      }
      assert f.blocks[..|f.blocks|] == f.blocks;
      Associate(old(order), [f.v] + f.arguments, AllBlockValues(f.blocks));
    }

    method IndexGlobal(g: GlobalVariable)
      requires Valid() && Closed(types) && Registered(types, roots, structToVid)
      requires g.v !in valueToVid && AllIn(GlobalRoots(g), types)
      modifies this
      ensures Valid() && Registered(types, roots, structToVid)
      ensures order == old(order) + [g.v] && roots == old(roots) + GlobalRoots(g) && named == old(named) + [(g.v, g.name)]
    {
      hide Inverse, Contiguous, InOrder, NamesListed, AllBelow, ValueNames, StructNames, ListingsAre, Registered, Closed;
      assert GlobalRoots(g)[0] == g.valueType;
      RecordStructTypes(g.valueType);
      if g.initializerType.Some? {
        assert GlobalRoots(g)[1] == g.initializerType.value;
        RecordStructTypes(g.initializerType.value);
        Associate(old(roots), [g.valueType], [g.initializerType.value]);
      } else {
        assert [g.valueType] + [] == [g.valueType];
      }
      AddNamed(g.v, g.name);
    }

    method IndexGlobals(globals: seq<GlobalVariable>)
      requires Valid() && Closed(types) && Registered(types, roots, structToVid) && order == [] && roots == [] && named == []
      requires Fresh([], ValuesOfGlobals(globals)) && AllIn(AllGlobalRoots(globals), types)
      modifies this
      ensures Valid() && Registered(types, roots, structToVid)
      ensures order == ValuesOfGlobals(globals) && roots == AllGlobalRoots(globals) && named == NamesOfGlobals(globals)
    {
      hide Inverse, Contiguous, InOrder, NamesListed, AllBelow, ValueNames, StructNames, ListingsAre, Registered, Closed, Fresh, AllIn,
           GlobalRoots, Flat, ValuesOfGlobals, NamesOfGlobals;
      GlobalsStart(globals);
      FlatNothing(GlobalRoots);
      for i := 0 to |globals|
        invariant Valid() && Registered(types, roots, structToVid)
        invariant order == ValuesOfGlobals(globals[..i]) && roots == AllGlobalRoots(globals[..i]) && named == NamesOfGlobals(globals[..i])
      {
        var g := globals[i];
        RootsAt(globals, i, GlobalRoots, types);
        GlobalsNext(globals, i);
        NextIsNew([], ValuesOfGlobals(globals), i, valueToVid, vidCnt);
        IndexGlobal(g);
      }
      assert globals[..|globals|] == globals;
    }

    method IndexFunctions(functions: seq<Function>)
      requires Valid() && Closed(types) && Registered(types, roots, structToVid)
      requires Fresh(order, AllFunctionValues(functions)) && AllIn(AllFunctionRoots(functions), types)
      modifies this
      ensures Valid() && Registered(types, roots, structToVid)
      ensures order == old(order) + AllFunctionValues(functions) && roots == old(roots) + AllFunctionRoots(functions)
      ensures named == old(named) + NamesOfFunctions(functions)
    {
      hide Inverse, Contiguous, InOrder, NamesListed, AllBelow, ValueNames, StructNames, ListingsAre, Registered, Closed, Fresh, AllIn,
           FunctionValues, Flat, NamesOfFunctions;
      FlatNothing(FunctionValues);
      FlatNothing(RootsOfFunction);
      assert order + [] == order && roots + [] == roots;
      assert functions[0..] == functions && functions[..0] == [];
      NamesStart(named, functions);
      for i := 0 to |functions|
        invariant Valid() && Registered(types, roots, structToVid)
        invariant order == old(order) + AllFunctionValues(functions[..i]) && Fresh(order, AllFunctionValues(functions[i..]))
        invariant roots == old(roots) + AllFunctionRoots(functions[..i])
        invariant named == old(named) + NamesOfFunctions(functions[..i])
      {
        var f := functions[i];
        FlatAt(functions, i, FunctionValues);
        RootsAt(functions, i, RootsOfFunction, types);
        FreshSplit(order, FunctionValues(f), AllFunctionValues(functions[i + 1..]));
        IndexFunction(f);
        Associate(old(order), AllFunctionValues(functions[..i]), FunctionValues(f));
        Associate(old(roots), AllFunctionRoots(functions[..i]), AllBlockRoots(f.blocks));
        NamesNext(old(named), functions, i);
      }
      assert functions[..|functions|] == functions;
    }

    /** Numbers the whole module: every value once and in order, every named struct reachable from
        a recorded type, and nothing else. */
    method BuildModuleIndex(m: Module)
      requires Valid() && Closed(types) && Registered(types, roots, structToVid) && order == [] && roots == [] && named == []
      requires Fresh([], ModuleValues(m)) && AllIn(ModuleRoots(m), types)
      modifies this
      ensures Valid() && order == ModuleValues(m) && named == ModuleNames(m)
      ensures Registered(types, ModuleRoots(m), structToVid)
    {
      hide Valid, Registered, Closed, Fresh, AllIn, AllGlobalRoots, AllFunctionRoots, ValuesOfGlobals, AllFunctionValues,
           NamesOfGlobals, NamesOfFunctions;
      FreshSplit([], ValuesOfGlobals(m.globals), AllFunctionValues(m.functions));
      assert [] + ValuesOfGlobals(m.globals) == ValuesOfGlobals(m.globals);
      AllInSplit(AllGlobalRoots(m.globals), AllFunctionRoots(m.functions), types);
      IndexGlobals(m.globals);
      IndexFunctions(m.functions);
    }
  }

  lemma BlockValuesAre(b: Block)
    ensures |BlockValues(b)| == |b.instructions| + 1 && BlockValues(b)[0] == b.v
    ensures forall i :: 0 <= i < |b.instructions| ==> BlockValues(b)[i + 1] == b.instructions[i].v
  {
  }

  lemma TakeNone(s: seq<int>, t: seq<int>)
    ensures s + t[..0] == s
  {
  }

  lemma TakeNext(s: seq<int>, t: seq<int>, i: nat)
    requires i < |t|
    ensures s + t[..i] + [t[i]] == s + t[..i + 1]
  {
  }

  lemma Associate(a: seq<int>, b: seq<int>, c: seq<int>)
    ensures a + b + c == a + (b + c)
  {
  }

  /** New values, none of them twice. */
  ghost predicate Fresh(order: seq<Value>, vs: seq<Value>) {
    && (forall i :: 0 <= i < |vs| ==> vs[i] !in order)
    && (forall i, j :: 0 <= i < j < |vs| ==> vs[i] != vs[j])
  }

  lemma NextIsNew(order: seq<Value>, vs: seq<Value>, i: nat, valueToVid: map<Value, nat>, n: nat)
    requires Fresh(order, vs) && i < |vs| && InOrder(order + vs[..i], valueToVid, n)
    ensures vs[i] !in valueToVid
  {
    var all := order + vs[..i];
    forall j | 0 <= j < |all| ensures all[j] != vs[i] {
      if j < |order| {
        assert all[j] == order[j] && order[j] in order && vs[i] !in order;
      } else {
        assert all[j] == vs[j - |order|];
      }
    }
    var v := vs[i];
    assert v !in all;
    assert v in valueToVid <==> v in all;
  }

  ghost predicate AllIn(ts: seq<TypeId>, types: Types) { forall i :: 0 <= i < |ts| ==> ts[i] in types }

  function InstructionValues(instructions: seq<Instruction>): seq<Value> {
    seq(|instructions|, i requires 0 <= i < |instructions| => instructions[i].v)
  }

  function BlockValues(b: Block): seq<Value> { [b.v] + InstructionValues(b.instructions) }

  function Recorded(x: Instruction): seq<TypeId> { x.recorded }

  /** The types recorded for some instructions, in order. */
  function BlockRoots(instructions: seq<Instruction>): seq<TypeId> { Flat(instructions, Recorded) }

  lemma PartIn(a: seq<TypeId>, b: seq<TypeId>, c: seq<TypeId>, types: Types)
    requires AllIn(a + b + c, types)
    ensures AllIn(b, types)
  {
    var all := a + b + c;
    assert forall j :: 0 <= j < |b| ==> b[j] == all[|a| + j];
  }

  /** The roots of the next element lie in the types, and come after those before it. */
  lemma RootsAt<A>(s: seq<A>, i: nat, f: A -> seq<TypeId>, types: Types)
    requires i < |s| && AllIn(Flat(s, f), types)
    ensures Flat(s[..i + 1], f) == Flat(s[..i], f) + f(s[i])
    ensures AllIn(f(s[i]), types)
  {
    hide Flat, AllIn;
    FlatAt(s, i, f);
    PartIn(Flat(s[..i], f), f(s[i]), Flat(s[i + 1..], f), types);
  }

  // ----- the values and the recorded types of a module

  function AllBlockValues(blocks: seq<Block>): seq<Value> { Flat(blocks, BlockValues) }

  function RootsOfBlock(b: Block): seq<TypeId> { BlockRoots(b.instructions) }

  function AllBlockRoots(blocks: seq<Block>): seq<TypeId> { Flat(blocks, RootsOfBlock) }

  function FunctionValues(f: Function): seq<Value> { [f.v] + f.arguments + AllBlockValues(f.blocks) }

  function AllFunctionValues(functions: seq<Function>): seq<Value> { Flat(functions, FunctionValues) }

  function RootsOfFunction(f: Function): seq<TypeId> { AllBlockRoots(f.blocks) }

  function AllFunctionRoots(functions: seq<Function>): seq<TypeId> { Flat(functions, RootsOfFunction) }

  function GlobalRoots(g: GlobalVariable): seq<TypeId> {
    [g.valueType] + if g.initializerType.Some? then [g.initializerType.value] else []
  }

  function AllGlobalRoots(globals: seq<GlobalVariable>): seq<TypeId> { Flat(globals, GlobalRoots) }

  function ValuesOfGlobals(globals: seq<GlobalVariable>): seq<Value> { seq(|globals|, i requires 0 <= i < |globals| => globals[i].v) }

  function NamesOfGlobals(globals: seq<GlobalVariable>): seq<(Value, string)> {
    seq(|globals|, i requires 0 <= i < |globals| => (globals[i].v, globals[i].name))
  }

  function NamesOfFunctions(functions: seq<Function>): seq<(Value, string)> {
    seq(|functions|, i requires 0 <= i < |functions| => (functions[i].v, functions[i].name))
  }

  function ModuleValues(m: Module): seq<Value> { ValuesOfGlobals(m.globals) + AllFunctionValues(m.functions) }

  function ModuleRoots(m: Module): seq<TypeId> { AllGlobalRoots(m.globals) + AllFunctionRoots(m.functions) }

  function ModuleNames(m: Module): seq<(Value, string)> { NamesOfGlobals(m.globals) + NamesOfFunctions(m.functions) }

  lemma FreshSplit(order: seq<Value>, a: seq<Value>, b: seq<Value>)
    requires Fresh(order, a + b)
    ensures Fresh(order, a) && Fresh(order + a, b)
  {
    var all := a + b;
    assert forall i :: 0 <= i < |a| ==> a[i] == all[i];
    assert forall i :: 0 <= i < |b| ==> b[i] == all[|a| + i];
    forall i | 0 <= i < |b| ensures b[i] !in order + a {
      assert b[i] == all[|a| + i];
    }
  }

  lemma FreshHead(order: seq<Value>, v: Value, valueToVid: map<Value, nat>, n: nat)
    requires Fresh(order, [v]) && InOrder(order, valueToVid, n)
    ensures v !in valueToVid
  {
    assert [v][0] !in order;
  }

  lemma AllInSplit(a: seq<TypeId>, b: seq<TypeId>, types: Types)
    requires AllIn(a + b, types)
    ensures AllIn(a, types) && AllIn(b, types)
  {
    assert [] + a + b == a + b && a + b + [] == a + b;
    PartIn([], a, b, types);
    PartIn(a, b, [], types);
  }

  lemma GlobalsStart(globals: seq<GlobalVariable>)
    ensures globals[..0] == [] && ValuesOfGlobals([]) == [] && NamesOfGlobals([]) == []
  {
  }

  lemma GlobalsNext(globals: seq<GlobalVariable>, i: nat)
    requires i < |globals|
    ensures ValuesOfGlobals(globals[..i + 1]) == ValuesOfGlobals(globals[..i]) + [globals[i].v]
    ensures NamesOfGlobals(globals[..i + 1]) == NamesOfGlobals(globals[..i]) + [(globals[i].v, globals[i].name)]
    ensures |ValuesOfGlobals(globals)| == |globals| && ValuesOfGlobals(globals)[i] == globals[i].v
    ensures [] + ValuesOfGlobals(globals)[..i] == ValuesOfGlobals(globals[..i])
  {
  }

  lemma NamesStart(before: seq<(Value, string)>, functions: seq<Function>)
    ensures before + NamesOfFunctions(functions[..0]) == before
  {
  }

  lemma NamesNext(before: seq<(Value, string)>, functions: seq<Function>, i: nat)
    requires i < |functions|
    ensures before + NamesOfFunctions(functions[..i]) + [(functions[i].v, functions[i].name)] == before + NamesOfFunctions(functions[..i + 1])
  {
  }

  // ----- the aliases in a finished index

  /** The aliases of a named id are the names of its chain other than its own. */
  lemma AliasesAre(index: Index, id: nat, alias: string)
    requires index.Valid() && id in index.names
    ensures Entry(alias, id, false) in index.entries <==>
      alias != index.names[id] && alias in Chain(FirstAlias(index.names[id], id in index.vidToStruct, index.demangle))
  {
    var listed := index.listed;
    var i :| 0 <= i < |listed| && listed[i].id == id;
    assert ListedRight(listed[i], index.names, index.vidToStruct, index.demangle);
    hide Flat, Chain, FirstAlias, AliasEntries, NamesListed, InOrder, Contiguous, Inverse, ValueNames, StructNames;
    var e := Entry(alias, id, false);
    FlatMember(listed, e, EntriesOf);
    forall l: Listing ensures e in EntriesOf(l) <==> l.id == id && alias != l.name && alias in Chain(l.first) {
      AliasEntriesAre(Chain(l.first), l.name, l.id);
    }
    if e in Flat(listed, EntriesOf) {
      var j :| 0 <= j < |listed| && e in EntriesOf(listed[j]);
      assert listed[j].id == id && j == i;
    }
  }

  /** A struct has an empty alias exactly when dropping its kind and then its namespaces
      leaves nothing. */
  lemma EmptyAliasIff(index: Index, s: TypeId)
    requires index.Valid() && s in index.structToVid
    ensures s in index.types && index.types[s].name.Some?
    ensures var name := index.types[s].name.value;
      Entry("", index.structToVid[s], false) in index.entries <==> name != "" && "" in Chain(Stripped(name))
  {
    hide Chain, Stripped, Flat, NamesListed, ListingsAre, Contiguous, InOrder, ValueNames;
    AliasesAre(index, index.structToVid[s], "");
  }

  /** No kind, nothing but a kind, and nothing behind the last namespace. */
  lemma EmptyAliases()
    ensures "" in Chain(Stripped("point")) && "" in Chain(Stripped("struct.")) && "" in Chain(Stripped("struct.A::"))
  {
    assert "point"[0] == 'p';
    assert "struct."[7..] == "" && "struct.A::"[7..] == "A::";
    assert Chain("")[0] == "";
    assert SplitNamespace("A::", 0, 0) == SplitNamespace("A::", 1, 0);
    assert SplitNamespace("A::", 1, 0) == ("A::"[..1], "A::"[3..]) && "A::"[3..] == "" && "A::"[..1] == "A";
    assert Chain("A::") == ["A::"] + Chain("");
  }
}
