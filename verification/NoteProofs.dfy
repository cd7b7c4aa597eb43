/** From the text of the notes to the proof tree: the graph that `tv` searches, and what the
    commands that edit a note do to it. */
module NoteProofs {
  import opened ProofTree
  import opened NoteLines
  import NoteEffects
  import NoteFile
  import NoteStore

  /** The statement lines of a record name the propositions it can hold. */
  function Stated(line: string): seq<string> {
    (if "- Conjecture: " <= line then [line[14..]] else []) + (if "- Theorem: " <= line then [line[11..]] else [])
  }

  function StatedNames(lines: seq<string>): set<string> {
    if lines == [] then {} else (set pp | pp in Stated(lines[0])) + StatedNames(lines[1..])
  }

  /** The graph of the propositions in the records of the globals. */
  function NotesOf(names: set<string>, records: map<string, string>): Notes {
    Notes(names,
      map func, pp | func in records && pp in StatedNames(NoteStore.BodyLines(records[func]))
                     && Theoremhood(NoteStore.BodyLines(records[func]), pp).Some?
        :: Key(func, pp) := PropOf(records, Key(func, pp)))
  }

  /** What the record of its global says about a proposition. */
  function PropOf(records: map<string, string>, k: Key): Prop
    requires k.func in records && Theoremhood(NoteStore.BodyLines(records[k.func]), k.pp).Some?
  {
    var lines := NoteStore.BodyLines(records[k.func]);
    Prop(Theoremhood(lines, k.pp).value, Whens(lines, k.pp))
  }

  lemma StatedOf(pp: string)
    ensures pp in Stated(ConjectureLine(pp)) && pp in Stated(TheoremLine(pp))
  {
    assert ConjectureLine(pp)[14..] == pp && TheoremLine(pp)[11..] == pp;
  }

  lemma {:induction false} StatedIfEntry(lines: seq<string>, pp: string)
    requires Entry(lines, pp).Some?
    ensures pp in StatedNames(lines)
  {
    StatedOf(pp);
    hide Stated, ConjectureLine, TheoremLine, Run;
    if lines[0] != ConjectureLine(pp) && lines[0] != TheoremLine(pp) {
      StatedIfEntry(lines[1..], pp);
    }
  }

  /** The graph holds a proposition exactly when the record of its global states it, and then
      as the record does. */
  lemma NotesOfHolds(names: set<string>, records: map<string, string>, k: Key)
    ensures var props := NotesOf(names, records).props;
      && (k in props <==> k.func in records && Theoremhood(NoteStore.BodyLines(records[k.func]), k.pp).Some?)
      && (k in props ==> props[k] == PropOf(records, k))
  {
    hide Entry, NoteStore.BodyLines, StatedNames, RunWhens;
    if k.func in records && Theoremhood(NoteStore.BodyLines(records[k.func]), k.pp).Some? {
      StatedIfEntry(NoteStore.BodyLines(records[k.func]), k.pp);
      assert Key(k.func, k.pp) == k;
    }
  }

  /** One visit of the search: the record of the global is looked up in its note, and the
      proposition and its premises are read from the lines. */
  method ReadProposition(note: NoteStore.Note, k: Key) returns (theorem: Option<bool>, whens: seq<Key>)
    ensures NoteStore.WellFormed(note.text) ==>
      var notes, heading := NoteStore.AsMap(NoteFile.Records(note.text)), NoteFile.HEADING + k.func;
      if heading in notes then
        theorem == Theoremhood(NoteStore.BodyLines(notes[heading]), k.pp) && whens == Whens(NoteStore.BodyLines(notes[heading]), k.pp)
      else theorem == None && whens == []
  {
    hide NoteStore.WellFormed, NoteStore.AsMap, NoteFile.Records, Theoremhood, Whens;
    theorem, whens := None, [];
    var record := note.Show(k.func);
    if record.Some? {
      var lines := NoteStore.ReadBody(record.value);
      theorem := IsTheorem(lines, k.pp);
      if theorem.Some? {
        whens := GetWhens(lines, k.pp);
      } else {
        NoWhens(lines, k.pp);
      }
    }
  }

  lemma NoWhens(lines: seq<string>, pp: string)
    requires Theoremhood(lines, pp) == None
    ensures Whens(lines, pp) == []
  {
  }

  // ----- proving a conjecture

  function Rank(s: ProofStatus): nat {
    match s case Unproven => 0 case ConditionalProven => 1 case Proven => 2
  }

  /** The graph after one of its propositions became a theorem. */
  function WithTheorem(notes: Notes, k: Key): Notes
    requires k in notes.props
  {
    notes.(props := notes.props[k := notes.props[k].(theorem := true)])
  }

  lemma SamePaths(notes: Notes, k: Key, a: Key, b: Key)
    requires k in notes.props
    ensures Reaches(WithTheorem(notes, k), a, b) <==> Reaches(notes, a, b)
    ensures Sound(WithTheorem(notes, k), a) <==> Sound(notes, a)
  {
    var after := WithTheorem(notes, k);
    forall x ensures Premises(after, x) == Premises(notes, x) {}
    forall p ensures Path(after, p) <==> Path(notes, p) {}
    assert forall x, p :: PathFrom(after, x, p) <==> PathFrom(notes, x, p);
    assert forall x, y :: Reaches(after, x, y) <==> Reaches(notes, x, y);
  }

  /** Proving a conjecture leaves every answer an answer, never lowers a status, and settles
      everything that rests on theorems but for this one conjecture. */
  lemma TheoremNeverLowers(notes: Notes, k: Key, a: Key)
    requires Found(notes, k)
    ensures Sound(WithTheorem(notes, k), a) <==> Sound(notes, a)
    ensures Rank(Status(WithTheorem(notes, k), a)) >= Rank(Status(notes, a))
    ensures Status(WithTheorem(notes, k), a) == Proven <==>
      forall b :: Reaches(notes, a, b) ==> b == k || Proved(notes, b)
  {
    var after := WithTheorem(notes, k);
    SamePaths(notes, k, a, a);
    forall b ensures Reaches(after, a, b) <==> Reaches(notes, a, b) { SamePaths(notes, k, a, b); }
    forall b ensures Proved(after, b) <==> b == k || Proved(notes, b) {}
    hide Reaches, Sound;
    ReachesSelf(notes, a);
  }

  /** `record` is the note of `func` after `-p` proved `con` in it. */
  ghost predicate PromotedIn(records: map<string, string>, func: string, con: string, prf: string, record: string) {
    && func in records
    && Promoted(NoteStore.BodyLines(records[func]), con, prf) == Ok(NoteStore.BodyLines(record))
  }

  lemma PromotedProp(names: set<string>, records: map<string, string>, func: string, con: string, prf: string,
                     record: string, k: Key)
    requires PromotedIn(records, func, con, prf, record)
    ensures var before, after := NotesOf(names, records).props, NotesOf(names, records[func := record]).props;
      && Key(func, con) in before
      && (k in after <==> k in before)
      && (k in after ==> after[k] == if k == Key(func, con) then before[k].(theorem := true) else before[k])
  {
    var lines := NoteStore.BodyLines(records[func]);
    NotesOfHolds(names, records, k);
    NotesOfHolds(names, records, Key(func, con));
    NotesOfHolds(names, records[func := record], k);
    hide NoteStore.BodyLines, Promoted, NotesOf, Theoremhood, Whens;
    NoteEffects.PromotionKeepsPremises(lines, con, prf, k.pp);
    if k.func == func && k.pp == con { assert k == Key(func, con); }
  }

  /** `-p` on the record of a global changes the graph in one place: the conjecture becomes a
      theorem, with the premises it had. */
  lemma PromotionInGraph(names: set<string>, records: map<string, string>, func: string, con: string, prf: string,
                         record: string)
    requires PromotedIn(records, func, con, prf, record)
    ensures Key(func, con) in NotesOf(names, records).props
    ensures NotesOf(names, records[func := record]) == WithTheorem(NotesOf(names, records), Key(func, con))
  {
    var before, after := NotesOf(names, records), NotesOf(names, records[func := record]);
    NamesOf(names, records);
    NamesOf(names, records[func := record]);
    hide NotesOf, PromotedIn;
    PromotedProp(names, records, func, con, prf, record, Key(func, con));
    forall k: Key
      ensures k in after.props <==> k in before.props
      ensures k in after.props ==> after.props[k] == WithTheorem(before, Key(func, con)).props[k]
    {
      PromotedProp(names, records, func, con, prf, record, k);
    }
    assert after.props == WithTheorem(before, Key(func, con)).props;
  }

  lemma NamesOf(names: set<string>, records: map<string, string>)
    ensures NotesOf(names, records).names == names
  {
  }
}
