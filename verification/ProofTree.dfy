/** The graph of the propositions of the notes, and what the `tv` query should answer on it. */
module ProofTree {

  /** A proposition of the note of a global. */
  datatype Key = Key(func: string, pp: string)

  /** What a note records about a proposition: proved or only conjectured, and its premises. */
  datatype Prop = Prop(theorem: bool, whens: seq<Key>)

  /** The global names that resolve, and the propositions found in the notes. */
  datatype Notes = Notes(names: set<string>, props: map<Key, Prop>)

  datatype ProofStatus = Proven | ConditionalProven | Unproven

  datatype Outcome = Done(status: ProofStatus) | RecursiveDependency(key: Key) | NameNotFound(key: Key) | NotStated

  // ----- the graph, and what the answer should be

  predicate Found(notes: Notes, k: Key) { k.func in notes.names && k in notes.props }

  function Premises(notes: Notes, k: Key): seq<Key> {
    if Found(notes, k) then notes.props[k].whens else []
  }

  predicate Proved(notes: Notes, k: Key) { Found(notes, k) && notes.props[k].theorem }

  ghost predicate Path(notes: Notes, p: seq<Key>) {
    p != [] && forall i :: 0 < i < |p| ==> p[i] in Premises(notes, p[i - 1])
  }

  ghost predicate PathFrom(notes: Notes, a: Key, p: seq<Key>) { Path(notes, p) && p[0] == a }

  ghost predicate Reaches(notes: Notes, a: Key, b: Key) {
    exists p :: PathFrom(notes, a, p) && p[|p| - 1] == b
  }

  /** A path that comes back to a proposition it has already passed. */
  ghost predicate Circular(p: seq<Key>) { p != [] && p[|p| - 1] in p[..|p| - 1] }

  ghost predicate CycleReachable(notes: Notes, a: Key) {
    exists p :: PathFrom(notes, a, p) && Circular(p)
  }

  ghost predicate AllNamesResolve(notes: Notes, a: Key) {
    forall b :: Reaches(notes, a, b) ==> b.func in notes.names
  }

  ghost predicate AllTheorems(notes: Notes, a: Key) {
    forall b :: Reaches(notes, a, b) ==> Proved(notes, b)
  }

  ghost function Status(notes: Notes, a: Key): ProofStatus {
    if !Proved(notes, a) then Unproven
    else if AllTheorems(notes, a) then Proven
    else ConditionalProven
  }

  ghost predicate Sound(notes: Notes, a: Key) { !CycleReachable(notes, a) && AllNamesResolve(notes, a) }

  // ----- facts about paths

  lemma ReachesSelf(notes: Notes, a: Key)
    ensures Reaches(notes, a, a)
  {
    assert PathFrom(notes, a, [a]);
  }

  lemma PathTail(notes: Notes, a: Key, p: seq<Key>)
    requires PathFrom(notes, a, p) && |p| > 1
    ensures p[1] in Premises(notes, a) && PathFrom(notes, p[1], p[1..])
  {
    var q := p[1..];
    forall i | 0 < i < |q| ensures q[i] in Premises(notes, q[i - 1]) {
      assert q[i] == p[i + 1];
    }
  }

  lemma PathPrepend(notes: Notes, a: Key, b: Key, q: seq<Key>)
    requires b in Premises(notes, a) && PathFrom(notes, b, q)
    ensures PathFrom(notes, a, [a] + q)
  {
  }

  lemma ReachesStep(notes: Notes, a: Key, x: Key)
    ensures Reaches(notes, a, x) <==> a == x || exists b :: b in Premises(notes, a) && Reaches(notes, b, x)
  {
    if a == x {
      ReachesSelf(notes, a);
    }
    if Reaches(notes, a, x) && a != x {
      var p :| PathFrom(notes, a, p) && p[|p| - 1] == x;
      PathTail(notes, a, p);
      assert p[1..][|p[1..]| - 1] == x;
      assert Reaches(notes, p[1], x);
    }
    if b :| b in Premises(notes, a) && Reaches(notes, b, x) {
      var q :| PathFrom(notes, b, q) && q[|q| - 1] == x;
      PathPrepend(notes, a, b, q);
      assert ([a] + q)[|[a] + q| - 1] == x;
    }
  }

  /** A proposition rests on theorems alone exactly when it is one and its premises do. */
  lemma AllTheoremsStep(notes: Notes, a: Key)
    ensures AllTheorems(notes, a) <==>
      Proved(notes, a) && forall b :: b in Premises(notes, a) ==> AllTheorems(notes, b)
  {
    ReachesSelf(notes, a);
    if AllTheorems(notes, a) {
      forall b, x | b in Premises(notes, a) && Reaches(notes, b, x) ensures Proved(notes, x) {
        ReachesStep(notes, a, x);
      }
    }
    if Proved(notes, a) && forall b :: b in Premises(notes, a) ==> AllTheorems(notes, b) {
      forall x | Reaches(notes, a, x) ensures Proved(notes, x) {
        ReachesStep(notes, a, x);
      }
    }
  }

  lemma ProvenIffAllTheorems(notes: Notes, a: Key)
    ensures Status(notes, a) == Proven <==> AllTheorems(notes, a)
  {
    AllTheoremsStep(notes, a);
  }

  lemma StatusFromPremises(notes: Notes, a: Key)
    requires Found(notes, a)
    ensures Status(notes, a) ==
      if !Proved(notes, a) then Unproven
      else if forall b :: b in Premises(notes, a) ==> AllTheorems(notes, b) then Proven
      else ConditionalProven
  {
    AllTheoremsStep(notes, a);
  }

  ghost predicate Closed(notes: Notes, keys: set<Key>) {
    forall k, b :: k in keys && b in Premises(notes, k) ==> b in keys
  }

  lemma {:induction false} PathStaysInside(notes: Notes, keys: set<Key>, p: seq<Key>, i: nat)
    requires Closed(notes, keys) && Path(notes, p) && p[0] in keys && i < |p|
    ensures p[i] in keys
  {
    if i > 0 {
      PathStaysInside(notes, keys, p, i - 1);
    }
  }

  /** A proposition outside a closed sound set, all of whose premises lie in it, is sound. */
  lemma SoundFromPremises(notes: Notes, keys: set<Key>, a: Key)
    requires Closed(notes, keys) && forall k :: k in keys ==> Sound(notes, k)
    requires a !in keys && a.func in notes.names
    requires forall b :: b in Premises(notes, a) ==> b in keys
    ensures Sound(notes, a)
  {
    forall p | PathFrom(notes, a, p) ensures !Circular(p) {
      if |p| > 1 {
        PathTail(notes, a, p);
        var q := p[1..];
        PathStaysInside(notes, keys, q, |q| - 1);
        assert Sound(notes, p[1]) && !Circular(q);
        assert p[|p| - 1] == q[|q| - 1];
        assert p[..|p| - 1] == [a] + q[..|q| - 1];
      }
    }
    forall x | Reaches(notes, a, x) ensures x.func in notes.names {
      ReachesStep(notes, a, x);
      if a != x {
        var b :| b in Premises(notes, a) && Reaches(notes, b, x);
        assert Sound(notes, b);
      }
    }
  }
}
