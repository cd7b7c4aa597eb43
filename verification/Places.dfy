/** Lists told from the places that their elements come from. */
module Places {

  ghost predicate Rising<K(!new)>(places: seq<K>, before: (K, K) -> bool) {
    forall a, b :: 0 <= a < b < |places| ==> before(places[a], places[b])
  }

  /** The list has the elements of all places that have one, in the order of the places. */
  ghost predicate Placed<K(!new), T(!new)>(list: seq<T>, places: seq<K>, before: (K, K) -> bool, at: (K, T) -> bool) {
    && |places| == |list| && Rising(places, before)
    && (forall n :: 0 <= n < |list| ==> at(places[n], list[n]))
    && (forall p, x :: at(p, x) ==> p in places)
  }

  lemma PlacedJoin<K(!new), T(!new)>(a: seq<T>, ps: seq<K>, at: (K, T) -> bool, b: seq<T>, qs: seq<K>, bt: (K, T) -> bool,
                                     before: (K, K) -> bool, all: (K, T) -> bool)
    requires Placed(a, ps, before, at) && Placed(b, qs, before, bt)
    requires forall p, x :: all(p, x) <==> at(p, x) || bt(p, x)
    requires forall p, q :: p in ps && q in qs ==> before(p, q)
    ensures Placed(a + b, ps + qs, before, all)
  {
    var places, list := ps + qs, a + b;
    forall i, j | 0 <= i < j < |places| ensures before(places[i], places[j]) {
      if j < |ps| {
        assert before(ps[i], ps[j]);
      } else if i < |ps| {
        assert ps[i] in ps && qs[j - |ps|] in qs;
      } else {
        assert before(qs[i - |ps|], qs[j - |ps|]);
      }
    }
    forall n | 0 <= n < |list| ensures all(places[n], list[n]) {
      if n < |a| { assert at(ps[n], a[n]); } else { assert bt(qs[n - |a|], b[n - |a|]); }
    }
  }

  lemma NothingPlaced<K(!new), T(!new)>(before: (K, K) -> bool, at: (K, T) -> bool)
    requires forall p, x :: !at(p, x)
    ensures Placed([], [], before, at)
  {
  }
}
