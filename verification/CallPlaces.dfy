/** Which calls of a module have an edge, and in which order, told from its functions. */
module CallPlaces {
  import opened CallGraph
  import opened Reachability
  import opened Places

  /** Target `target` of call `call` of function `fn`; the patch comes after the calls. */
  datatype Place = Place(fn: nat, call: nat, target: nat)

  predicate Before(p: Place, q: Place) {
    p.fn < q.fn || (p.fn == q.fn && (p.call < q.call || (p.call == q.call && p.target < q.target)))
  }

  predicate TargetAt(f: Fn, site: Option<Site>, targets: Option<seq<(EdgeKind, Option<Fn>)>>, k: nat, e: CallEdge) {
    && targets.Some? && k < |targets.value|
    && e == CallEdge(targets.value[k].0, f, site, targets.value[k].1)
  }

  /** A call that names a function has one edge, unless the tool skips that function; any other
      has one for each target that the resolver gives. */
  predicate CallAt(m: Module, f: Fn, call: Call, resolver: Resolver, k: nat, e: CallEdge) {
    if call.direct.Some? then
      call.direct.value !in m.skipped && k == 0 && e == CallEdge(DIRECT, f, Some(call.site), call.direct)
    else TargetAt(f, Some(call.site), resolver(Some(call.site), f), k, e)
  }

  /** The edge at a place of a module. */
  predicate EdgeAt(m: Module, functions: seq<Function>, resolver: Resolver, p: Place, e: CallEdge) {
    && p.fn < |functions|
    && var f := functions[p.fn];
       && f.id !in m.skipped && !f.declaration && p.call <= |f.calls|
       && if p.call < |f.calls| then CallAt(m, f.id, f.calls[p.call], resolver, p.target, e)
          else TargetAt(f.id, None, resolver(None, f.id), p.target, e)
  }

  lemma {:induction false} TargetsAre(f: Fn, site: Option<Site>, targets: seq<(EdgeKind, Option<Fn>)>, k: nat)
    ensures |Targets(f, site, targets)| == |targets|
    ensures k < |targets| ==> Targets(f, site, targets)[k] == CallEdge(targets[k].0, f, site, targets[k].1)
  {
    if targets != [] { TargetsAre(f, site, targets[1..], if k > 0 then k - 1 else 0); }
  }

  // ----- the places of each part of a module

  type PlacedEdges = (Place, CallEdge) -> bool

  function OfTargets(f: Fn, site: Option<Site>, targets: seq<(EdgeKind, Option<Fn>)>, i: nat, j: nat): PlacedEdges {
    (p: Place, e: CallEdge) => p.fn == i && p.call == j && TargetAt(f, site, Some(targets), p.target, e)
  }

  function OfCall(m: Module, f: Fn, call: Call, resolver: Resolver, i: nat, j: nat): PlacedEdges {
    (p: Place, e: CallEdge) => p.fn == i && p.call == j && CallAt(m, f, call, resolver, p.target, e)
  }

  function OfBody(m: Module, f: Fn, calls: seq<Call>, resolver: Resolver, i: nat): PlacedEdges {
    (p: Place, e: CallEdge) => p.fn == i && p.call < |calls| && CallAt(m, f, calls[p.call], resolver, p.target, e)
  }

  function OfModule(m: Module, functions: seq<Function>, resolver: Resolver): PlacedEdges {
    (p: Place, e: CallEdge) => EdgeAt(m, functions, resolver, p, e)
  }

  function OfFunction(m: Module, functions: seq<Function>, resolver: Resolver, i: nat): PlacedEdges {
    (p: Place, e: CallEdge) => p.fn == i && EdgeAt(m, functions, resolver, p, e)
  }

  ghost predicate Within(places: seq<Place>, i: nat, low: nat, high: nat) {
    forall p :: p in places ==> p.fn == i && low <= p.call < high
  }

  lemma TargetsPlaced(f: Fn, site: Option<Site>, targets: seq<(EdgeKind, Option<Fn>)>, i: nat, j: nat) returns (ps: seq<Place>)
    ensures Placed(Targets(f, site, targets), ps, Before, OfTargets(f, site, targets, i, j)) && Within(ps, i, j, j + 1)
  {
    ps := seq(|targets|, k requires 0 <= k < |targets| => Place(i, j, k));
    TargetsAre(f, site, targets, 0);
    forall k | 0 <= k < |targets| ensures Targets(f, site, targets)[k] == CallEdge(targets[k].0, f, site, targets[k].1) {
      TargetsAre(f, site, targets, k);
    }
    forall p, e | OfTargets(f, site, targets, i, j)(p, e) ensures p in ps { assert ps[p.target] == p; }
  }

  lemma CallPlaced(m: Module, f: Fn, call: Call, resolver: Resolver, i: nat, j: nat) returns (ps: seq<Place>)
    requires CallEdges(m, f, call, resolver).Some?
    ensures Placed(CallEdges(m, f, call, resolver).value, ps, Before, OfCall(m, f, call, resolver, i, j)) && Within(ps, i, j, j + 1)
  {
    hide TargetAt;
    if call.direct.None? {
      var targets := resolver(Some(call.site), f).value;
      ps := TargetsPlaced(f, Some(call.site), targets, i, j);
      forall p, e | OfCall(m, f, call, resolver, i, j)(p, e) ensures p in ps {
        assert OfTargets(f, Some(call.site), targets, i, j)(p, e);
      }
    } else if call.direct.value in m.skipped {
      ps := [];
    } else {
      ps := [Place(i, j, 0)];
      forall p, e | OfCall(m, f, call, resolver, i, j)(p, e) ensures p in ps { assert p == ps[0]; }
    }
  }

  lemma {:induction false} BodyPlaced(m: Module, f: Fn, calls: seq<Call>, resolver: Resolver, i: nat) returns (ps: seq<Place>)
    requires BodyEdges(m, f, calls, resolver).Some?
    ensures Placed(BodyEdges(m, f, calls, resolver).value, ps, Before, OfBody(m, f, calls, resolver, i)) && Within(ps, i, 0, |calls|)
    decreases |calls|
  {
    hide CallAt, CallEdges, Placed;
    if calls == [] {
      ps := [];
      forall p: Place, e: CallEdge ensures !OfBody(m, f, calls, resolver, i)(p, e) { assert !(p.call < |calls|); }
      NothingPlaced(Before, OfBody(m, f, calls, resolver, i));
    } else {
      var n := |calls| - 1;
      var init := calls[..n];
      var inits := BodyPlaced(m, f, init, resolver, i);
      var lasts := CallPlaced(m, f, calls[n], resolver, i, n);
      ps := inits + lasts;
      forall p, e ensures OfBody(m, f, calls, resolver, i)(p, e) <==>
        OfBody(m, f, init, resolver, i)(p, e) || OfCall(m, f, calls[n], resolver, i, n)(p, e)
      {
        assert p.call < n ==> init[p.call] == calls[p.call];
      }
      PlacedJoin(BodyEdges(m, f, init, resolver).value, inits, OfBody(m, f, init, resolver, i),
                 CallEdges(m, f, calls[n], resolver).value, lasts, OfCall(m, f, calls[n], resolver, i, n),
                 Before, OfBody(m, f, calls, resolver, i));
    }
  }

  lemma FunctionPlaced(m: Module, functions: seq<Function>, i: nat, resolver: Resolver) returns (ps: seq<Place>)
    requires i < |functions| && FunctionEdges(m, functions[i], resolver).Some?
    ensures Placed(FunctionEdges(m, functions[i], resolver).value, ps, Before, OfFunction(m, functions, resolver, i))
    ensures forall p :: p in ps ==> p.fn == i
  {
    hide CallAt, TargetAt, BodyEdges, Targets, Placed;
    var f := functions[i];
    if f.id in m.skipped || f.declaration {
      ps := [];
      NothingPlaced(Before, OfFunction(m, functions, resolver, i));
    } else {
      var n, patch := |f.calls|, resolver(None, f.id).value;
      var body := BodyPlaced(m, f.id, f.calls, resolver, i);
      var last := TargetsPlaced(f.id, None, patch, i, n);
      ps := body + last;
      PlacedJoin(BodyEdges(m, f.id, f.calls, resolver).value, body, OfBody(m, f.id, f.calls, resolver, i),
                 Targets(f.id, None, patch), last, OfTargets(f.id, None, patch, i, n), Before, OfFunction(m, functions, resolver, i));
    }
  }

  lemma {:induction false} ModulePlaced(m: Module, functions: seq<Function>, resolver: Resolver) returns (ps: seq<Place>)
    requires ModuleEdges(m, functions, resolver).Some?
    ensures Placed(ModuleEdges(m, functions, resolver).value, ps, Before, OfModule(m, functions, resolver))
    ensures forall p :: p in ps ==> p.fn < |functions|
    decreases |functions|
  {
    hide CallAt, TargetAt, FunctionEdges, Placed;
    if functions == [] {
      ps := [];
      NothingPlaced(Before, OfModule(m, functions, resolver));
    } else {
      var n := |functions| - 1;
      var init := functions[..n];
      var inits := ModulePlaced(m, init, resolver);
      var lasts := FunctionPlaced(m, functions, n, resolver);
      ps := inits + lasts;
      PlacedJoin(ModuleEdges(m, init, resolver).value, inits, OfModule(m, init, resolver),
                 FunctionEdges(m, functions[n], resolver).value, lasts, OfFunction(m, functions, resolver, n),
                 Before, OfModule(m, functions, resolver));
    }
  }

  // ----- the edges of a module

  /** The edges of a module are those at all its places, in their order: function by function,
      call by call, the targets as the resolver gives them, the patch last. */
  lemma EdgesArePlaced(m: Module, resolver: Resolver)
    requires ModuleEdges(m, m.functions, resolver).Some?
    ensures var edges := ModuleEdges(m, m.functions, resolver).value;
      && (exists places ::
            && |places| == |edges| && Rising(places, Before)
            && (forall n :: 0 <= n < |edges| ==> EdgeAt(m, m.functions, resolver, places[n], edges[n]))
            && (forall p, e :: EdgeAt(m, m.functions, resolver, p, e) ==> p in places))
      && forall e :: e in edges <==> exists p :: EdgeAt(m, m.functions, resolver, p, e)
  {
    hide ModuleEdges, EdgeAt;
    var edges, at := ModuleEdges(m, m.functions, resolver).value, OfModule(m, m.functions, resolver);
    var places := ModulePlaced(m, m.functions, resolver);
    forall n | 0 <= n < |edges| ensures EdgeAt(m, m.functions, resolver, places[n], edges[n]) { assert at(places[n], edges[n]); }
    forall p, e | EdgeAt(m, m.functions, resolver, p, e) ensures p in places && e in edges {
      assert at(p, e);
      var n :| 0 <= n < |places| && places[n] == p;
      OneEdgeAt(m, m.functions, resolver, p, e, edges[n]);
    }
  }

  lemma OneEdgeAt(m: Module, functions: seq<Function>, resolver: Resolver, p: Place, e: CallEdge, e': CallEdge)
    requires EdgeAt(m, functions, resolver, p, e) && EdgeAt(m, functions, resolver, p, e')
    ensures e == e'
  {
  }

  /** The resolver throws at an unnamed call of the function, or at its patch. */
  ghost predicate Throws(m: Module, f: Function, resolver: Resolver) {
    && f.id !in m.skipped && !f.declaration
    && (|| resolver(None, f.id).None?
        || exists j :: 0 <= j < |f.calls| && f.calls[j].direct.None? && resolver(Some(f.calls[j].site), f.id).None?)
  }

  lemma {:induction false} BodyThrows(m: Module, f: Fn, calls: seq<Call>, resolver: Resolver)
    ensures BodyEdges(m, f, calls, resolver).None? <==>
      exists j :: 0 <= j < |calls| && calls[j].direct.None? && resolver(Some(calls[j].site), f).None?
    decreases |calls|
  {
    if calls != [] {
      var init := calls[..|calls| - 1];
      BodyThrows(m, f, init, resolver);
      assert forall j :: 0 <= j < |init| ==> init[j] == calls[j];
      if BodyEdges(m, f, init, resolver).None? {
        var j :| 0 <= j < |init| && init[j].direct.None? && resolver(Some(init[j].site), f).None?;
        assert calls[j].direct.None?;
      }
    }
  }

  /** Building fails exactly when the resolver throws somewhere. */
  lemma {:induction false} FailsIffThrows(m: Module, functions: seq<Function>, resolver: Resolver)
    ensures ModuleEdges(m, functions, resolver).None? <==> exists i :: 0 <= i < |functions| && Throws(m, functions[i], resolver)
    decreases |functions|
  {
    hide Throws, FunctionEdges;
    if functions != [] {
      var n := |functions| - 1;
      var init := functions[..n];
      FailsIffThrows(m, init, resolver);
      assert forall i :: 0 <= i < n ==> init[i] == functions[i];
      FunctionThrows(m, functions[n], resolver);
      if ModuleEdges(m, init, resolver).None? {
        var i :| 0 <= i < n && Throws(m, init[i], resolver);
        assert Throws(m, functions[i], resolver);
      }
    }
  }

  lemma FunctionThrows(m: Module, f: Function, resolver: Resolver)
    ensures FunctionEdges(m, f, resolver).None? <==> Throws(m, f, resolver)
  {
    BodyThrows(m, f.id, f.calls, resolver);
    hide BodyEdges, Targets;
  }

  /** A call of `f` that names `g` makes a call path of one edge. */
  lemma NamedCallIsPath(m: Module, resolver: Resolver, i: nat, j: nat, g: Fn, ignoreUnknown: bool)
    requires ModuleEdges(m, m.functions, resolver).Some?
    requires i < |m.functions| && m.functions[i].id !in m.skipped && !m.functions[i].declaration
    requires j < |m.functions[i].calls| && m.functions[i].calls[j].direct == Some(g) && g !in m.skipped
    ensures var f := m.functions[i]; var e := CallEdge(DIRECT, f.id, Some(f.calls[j].site), Some(g));
      CallPath(ModuleEdges(m, m.functions, resolver).value, f.id, g, ignoreUnknown, [e])
  {
    hide ModuleEdges;
    var f := m.functions[i];
    var e := CallEdge(DIRECT, f.id, Some(f.calls[j].site), Some(g));
    EdgesArePlaced(m, resolver);
    assert EdgeAt(m, m.functions, resolver, Place(i, j, 0), e);
  }

  /** On a built graph, the search from a function to one that it names finds a path. */
  method ReachNamed(m: Module, resolver: Resolver, i: nat, j: nat, g: Fn, ignoreUnknown: bool) returns (path: seq<CallEdge>)
    requires WellFormed(m.functions) && Behaves(resolver) && ModuleEdges(m, m.functions, resolver).Some?
    requires i < |m.functions| && m.functions[i].id !in m.skipped && !m.functions[i].declaration
    requires j < |m.functions[i].calls| && m.functions[i].calls[j].direct == Some(g) && g !in m.skipped
    ensures path != []
  {
    var cg := new CallGraph(m);
    var ok := cg.BuildCG(resolver);
    KnownModule(m, m.functions, resolver);
    NamedCallIsPath(m, resolver, i, j, g, ignoreUnknown);
    path := Reach(cg, m.functions[i].id, g, ignoreUnknown);
  }
}
