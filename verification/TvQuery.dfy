/** The `tv` query over the note files: a memoised depth-first search that reads each
    proposition from its file, with detection of circular premises. */
module TvQuery {
  import opened ProofTree
  import NoteProofs
  import NoteEffects
  import NoteFile
  import NoteLines
  import NoteStore

  datatype Option<T> = None | Some(value: T)

  /** What the search can look up: the names that resolve to one global, the note file found for
      a name, and the texts of the files. */
  datatype Store = Store(names: set<string>, noteOf: map<string, string>, files: map<string, string>)

  function MapOf(text: string): map<string, string> { NoteStore.AsMap(NoteFile.Records(text)) }

  /** The record of a global, in the file that is found for it. */
  function RecordOf(store: Store, func: string): Option<string> {
    if func in store.noteOf && store.noteOf[func] in store.files then
      var notes := MapOf(store.files[store.noteOf[func]]);
      if NoteFile.HEADING + func in notes then Some(notes[NoteFile.HEADING + func]) else None
    else None
  }

  function RecordsOf(store: Store): map<string, string> {
    map func | func in store.noteOf && RecordOf(store, func).Some? :: RecordOf(store, func).value
  }

  /** The graph of all propositions in the files. */
  function GraphOf(store: Store): Notes { NoteProofs.NotesOf(store.names, RecordsOf(store)) }

  ghost predicate Readable(store: Store) { forall path :: path in store.files ==> NoteStore.WellFormed(store.files[path]) }

  lemma GraphNames(store: Store)
    ensures GraphOf(store).names == store.names
  {
    hide RecordsOf;
    NoteProofs.NamesOf(store.names, RecordsOf(store));
  }

  lemma GraphHolds(store: Store, k: Key)
    ensures var props, record := GraphOf(store).props, RecordOf(store, k.func);
      && (k in props <==> record.Some? && NoteLines.Theoremhood(NoteStore.BodyLines(record.value), k.pp).Some?)
      && (k in props ==> var lines := NoteStore.BodyLines(record.value);
                         props[k] == Prop(NoteLines.Theoremhood(lines, k.pp).value, NoteLines.Whens(lines, k.pp)))
  {
    hide RecordOf, NoteStore.BodyLines, NoteLines.Theoremhood, NoteLines.Whens, NoteProofs.NotesOf;
    NoteProofs.NotesOfHolds(store.names, RecordsOf(store), k);
    RecordsHold(store, k.func);
  }

  lemma RecordsHold(store: Store, func: string)
    ensures func in RecordsOf(store) <==> RecordOf(store, func).Some?
    ensures func in RecordsOf(store) ==> RecordsOf(store)[func] == RecordOf(store, func).value
  {
    hide MapOf;
  }

  /** One visit: the note file of the global is opened, searched and read. */
  method Lookup(store: Store, k: Key) returns (prop: Option<Prop>)
    requires Readable(store)
    ensures prop.Some? <==> k in GraphOf(store).props
    ensures prop.Some? ==> prop.value == GraphOf(store).props[k]
  {
    hide NoteStore.WellFormed, NoteStore.BodyLines, NoteStore.AsMap, NoteFile.Records, NoteLines.Theoremhood, NoteLines.Whens, GraphOf;
    GraphHolds(store, k);
    if k.func !in store.noteOf || store.noteOf[k.func] !in store.files { return None; }
    var note := new NoteStore.Note(store.files[store.noteOf[k.func]]);
    var theorem, whens := NoteProofs.ReadProposition(note, k);
    prop := if theorem.Some? then Some(Prop(theorem.value, whens)) else None;
  }

  class Resolver {
    const store: Store
    ghost const notes: Notes
    var ances: seq<Key>
    var visited: map<Key, ProofStatus>

    constructor (store: Store)
      requires Readable(store)
      ensures Valid() && this.store == store && ances == [] && visited == map[]
    {
      this.store, notes := store, GraphOf(store);
      ances, visited := [], map[];
    }

    /** Finished propositions are settled for good: they are sound, their memo is the
        answer, their premises are finished, and none is on the current path. */
    ghost predicate Valid()
      reads this
    {
      && Readable(store) && notes == GraphOf(store)
      && Closed(notes, visited.Keys)
      && (forall k :: k in visited ==> Sound(notes, k) && visited[k] == Status(notes, k))
      && (forall k :: k in ances ==> k !in visited)
    }

    /** `path` leads from `key` to a proposition that is on it already, or on `above`. */
    ghost predicate Closes(above: seq<Key>, key: Key, path: seq<Key>, culprit: Key) {
      && PathFrom(notes, key, path) && path[|path| - 1] == culprit
      && culprit in above + path[..|path| - 1]
    }

    method Resolve(key: Key) returns (r: Outcome)
      requires Valid()
      modifies this
      ensures r.Done? ==>
        && Valid() && ances == old(ances) && key in visited && r.status == visited[key]
        && (forall k :: k in old(visited) ==> k in visited)
      ensures r.RecursiveDependency? ==> exists path :: Closes(old(ances), key, path, r.key)
      ensures r.NameNotFound? ==> Reaches(notes, key, r.key) && r.key.func !in notes.names
      ensures !r.NotStated?
      decreases notes.props.Keys - set k | k in ances
    {
      hide GraphOf, Readable;
      GraphNames(store);
      if key in ances {
        assert Closes(ances, key, [key], key);
        return RecursiveDependency(key);
      }
      if key in visited {
        return Done(visited[key]);
      }
      ghost var above := ances;
      ances := ances + [key];
      ReachesSelf(notes, key);
      if key.func !in store.names {
        return NameNotFound(key);
      }
      var prop := Lookup(store, key);
      if prop.None? {
        SoundFromPremises(notes, visited.Keys, key);
        Finish(key, Unproven);
        return Done(Unproven);
      }
      assert above == old(ances);
      r := ResolvePremises(key, prop.value, above);
      if r.Done? {
        assert ances == above + [key];
        SoundFromPremises(notes, visited.Keys, key);
        Finish(key, r.status);
      }
    }

    /** The loop over the premises of the proposition on top of the path. */
    method ResolvePremises(key: Key, prop: Prop, ghost above: seq<Key>) returns (r: Outcome)
      requires Valid() && Found(notes, key) && notes.props[key] == prop && key !in above && ances == above + [key]
      modifies this
      ensures r.Done? ==>
        && Valid() && ances == above + [key] && r.status == Status(notes, key)
        && (forall k :: k in old(visited) ==> k in visited)
        && (forall b :: b in Premises(notes, key) ==> b in visited)
      ensures r.RecursiveDependency? ==> exists path :: Closes(above, key, path, r.key)
      ensures r.NameNotFound? ==> Reaches(notes, key, r.key) && r.key.func !in notes.names
      ensures !r.NotStated?
      decreases notes.props.Keys - set k | k in above, 0
    {
      hide Status, AllTheorems, Sound, Closed, Reaches, GraphOf, Readable;
      var whens, theorem := prop.whens, prop.theorem;
      var status := if theorem then Proven else Unproven;
      for i := 0 to |whens|
        invariant Valid() && ances == above + [key]
        invariant forall k :: k in old(visited) ==> k in visited
        invariant forall j :: 0 <= j < i ==> whens[j] in visited
        invariant status == if !theorem then Unproven
                            else if forall j :: 0 <= j < i ==> AllTheorems(notes, whens[j]) then Proven
                            else ConditionalProven
      {
        assert (set k | k in ances) == (set k | k in above) + {key};
        var child := Resolve(whens[i]);
        if child.RecursiveDependency? {
          ExtendClosing(above, key, whens[i], child.key);
          return child;
        }
        if child.NameNotFound? {
          ReachesStep(notes, key, child.key);
          return child;
        }
        ProvenIffAllTheorems(notes, whens[i]);
        if theorem && child.status != Proven {
          status := ConditionalProven;
        }
      }
      StatusFromPremises(notes, key);
      r := Done(status);
    }

    method Finish(key: Key, status: ProofStatus)
      requires Valid() && ances != [] && ances[|ances| - 1] == key && key !in ances[..|ances| - 1]
      requires Sound(notes, key) && status == Status(notes, key)
      requires forall b :: b in Premises(notes, key) ==> b in visited
      modifies this
      ensures Valid() && ances == old(ances)[..|old(ances)| - 1] && visited == old(visited)[key := status]
    {
      hide GraphOf, Readable;
      visited := visited[key := status];
      ances := ances[..|ances| - 1];
    }

    lemma ExtendClosing(above: seq<Key>, key: Key, child: Key, culprit: Key)
      requires child in Premises(notes, key)
      requires exists path :: Closes(above + [key], child, path, culprit)
      ensures exists path :: Closes(above, key, path, culprit)
    {
      var q :| Closes(above + [key], child, q, culprit);
      PathPrepend(notes, key, child, q);
      var p := [key] + q;
      assert p[..|p| - 1] == [key] + q[..|q| - 1];
      assert above + p[..|p| - 1] == above + [key] + q[..|q| - 1];
      assert Closes(above, key, p, culprit);
    }
  }

  /** The query. The root has to be stated in its file. Then a fresh search answers exactly when
      no circular premise and no unresolvable name can be reached, and the answer is the status
      that the graph of the files alone determines, whatever was memoised on the way. */
  method Tv(store: Store, root: Key) returns (r: Outcome)
    requires Readable(store)
    ensures var notes := GraphOf(store);
      && (r.NotStated? <==> root.func in store.names && root !in notes.props)
      && (r.Done? <==> root in notes.props && Sound(notes, root))
      && (r.Done? ==> r.status == Status(notes, root))
      && (r.RecursiveDependency? ==> exists p :: PathFrom(notes, root, p) && Circular(p) && p[|p| - 1] == r.key)
      && (r.NameNotFound? ==> Reaches(notes, root, r.key) && r.key.func !in store.names)
      && (root in notes.props && AllNamesResolve(notes, root) ==> (r.RecursiveDependency? <==> CycleReachable(notes, root)))
  {
    hide GraphOf, Readable, Reaches, CycleReachable;
    ghost var notes := GraphOf(store);
    GraphNames(store);
    ReachesSelf(notes, root);
    if root.func !in store.names { return NameNotFound(root); }
    var stated := Lookup(store, root);
    if stated.None? { return NotStated; }
    var resolver := new Resolver(store);
    r := resolver.Resolve(root);
    if r.RecursiveDependency? {
      ghost var p :| resolver.Closes([], root, p, r.key);
      assert [] + p[..|p| - 1] == p[..|p| - 1];
      assert PathFrom(notes, root, p) && Circular(p);
      assert CycleReachable(notes, root) by { CycleIs(notes, root, p); }
    }
  }

  lemma CycleIs(notes: Notes, root: Key, p: seq<Key>)
    requires PathFrom(notes, root, p) && Circular(p)
    ensures CycleReachable(notes, root)
  {
  }

  // ----- `-p`, and the answers after it

  /** Writing one file changes the records of the globals that it is found for. */
  lemma OneRecordWritten(store: Store, func: string, text: string, record: string)
    requires func in store.noteOf && store.noteOf[func] in store.files
    requires MapOf(text) == MapOf(store.files[store.noteOf[func]])[NoteFile.HEADING + func := record]
    ensures RecordsOf(store.(files := store.files[store.noteOf[func] := text])) == RecordsOf(store)[func := record]
  {
    hide MapOf;
    var path := store.noteOf[func];
    var after := store.(files := store.files[path := text]);
    forall g ensures RecordOf(after, g) == if g == func then Some(record) else RecordOf(store, g) {
      HeadingsDiffer(g, func);
    }
    forall g
      ensures g in RecordsOf(store) <==> RecordOf(store, g).Some?
      ensures g in RecordsOf(store) ==> RecordsOf(store)[g] == RecordOf(store, g).value
      ensures g in RecordsOf(after) <==> RecordOf(after, g).Some?
      ensures g in RecordsOf(after) ==> RecordsOf(after)[g] == RecordOf(after, g).value
    {
      RecordsHold(store, g);
      RecordsHold(after, g);
    }
    hide RecordsOf, RecordOf;
    var x, y := RecordsOf(after), RecordsOf(store)[func := record];
    assert forall g :: g in x <==> g in y;
    assert forall g :: g in x ==> x[g] == y[g];
  }

  lemma HeadingsDiffer(f: string, g: string)
    ensures NoteFile.HEADING + f == NoteFile.HEADING + g <==> f == g
  {
    assert (NoteFile.HEADING + f)[3..] == f && (NoteFile.HEADING + g)[3..] == g;
  }

  /** `-p` in the file of a global. */
  method Prove(store: Store, func: string, con: string, prf: string) returns (after: Store, r: NoteStore.Reply)
    requires Readable(store) && func in store.noteOf && store.noteOf[func] in store.files
    ensures r != NoteStore.Done ==> after == store
    ensures r == NoteStore.Done && NoteStore.OneLine(prf) ==>
      Readable(after) && Key(func, con) in GraphOf(store).props
      && GraphOf(after) == NoteProofs.WithTheorem(GraphOf(store), Key(func, con))
  {
    hide NoteStore.WellFormed, NoteStore.AsMap, NoteFile.Records, NoteStore.BodyLines, NoteStore.Edited, NoteLines.Promoted, GraphOf, RecordsOf,
         NoteStore.AllHarmless, NoteStore.AllOneLine, NoteStore.IsRecord, NoteStore.Harmless;
    var path := store.noteOf[func];
    var note := new NoteStore.Note(store.files[path]);
    r := note.Prove(func, con, prf);
    if r != NoteStore.Done { return store, r; }
    after := store.(files := store.files[path := note.text]);
    if NoteStore.OneLine(prf) {
      var notes := MapOf(store.files[path]);
      ghost var old' := notes[NoteFile.HEADING + func];
      NoteStore.RecordInMap(store.files[path], func);
      NoteStore.OldLinesHarmless(old');
      ghost var lines := NoteLines.Promoted(NoteStore.BodyLines(old'), con, prf).value;
      NoteStore.PromotedIsHarmless(NoteStore.BodyLines(old'), con, prf);
      NoteStore.ProofIsHarmless(prf);
      ghost var record := NoteStore.Edited(old', lines);
      OneRecordWritten(store, func, note.text, record);
      RecordsHold(store, func);
      NoteProofs.PromotionInGraph(store.names, RecordsOf(store), func, con, prf, record);
      Graphs(store, after, func, record);
    }
  }

  lemma Graphs(store: Store, after: Store, func: string, record: string)
    requires after.names == store.names && RecordsOf(after) == RecordsOf(store)[func := record]
    ensures GraphOf(store) == NoteProofs.NotesOf(store.names, RecordsOf(store))
    ensures GraphOf(after) == NoteProofs.NotesOf(store.names, RecordsOf(store)[func := record])
  {
    hide NoteProofs.NotesOf, RecordsOf;
  }

  /** So proving a conjecture in the files never takes an answer away, never lowers one, and
      makes proven exactly what rests on theorems but for it. */
  lemma ProvingNeverLowers(store: Store, after: Store, k: Key, any: Key)
    requires k.func in store.names && k in GraphOf(store).props
    requires GraphOf(after) == NoteProofs.WithTheorem(GraphOf(store), k)
    ensures Sound(GraphOf(after), any) <==> Sound(GraphOf(store), any)
    ensures NoteProofs.Rank(Status(GraphOf(after), any)) >= NoteProofs.Rank(Status(GraphOf(store), any))
    ensures Status(GraphOf(after), any) == Proven <==>
      forall b :: Reaches(GraphOf(store), any, b) ==> b == k || Proved(GraphOf(store), b)
  {
    GraphNames(store);
    hide GraphOf, Sound, Reaches, Status;
    NoteProofs.TheoremNeverLowers(GraphOf(store), k, any);
  }
}
