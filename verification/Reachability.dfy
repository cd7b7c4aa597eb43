/** The path search over the call graph. */
module Reachability {
  import opened CallGraph

  /** Only an edge that may call anything has no callee. */
  ghost predicate CalleesKnown(edges: seq<CallEdge>) {
    forall i :: 0 <= i < |edges| ==> (edges[i].kind.CALLANYTHING? <==> edges[i].callee.None?)
  }

  /** A resolver that leaves out the callee exactly of the targets that may be anything. */
  ghost predicate Behaves(resolver: Resolver) {
    forall site, f :: resolver(site, f).Some? ==> TargetsKnown(resolver(site, f).value)
  }

  ghost predicate TargetsKnown(targets: seq<(EdgeKind, Option<Fn>)>) {
    forall i :: 0 <= i < |targets| ==> (targets[i].0.CALLANYTHING? <==> targets[i].1.None?)
  }

  lemma {:induction false} KnownTargets(f: Fn, site: Option<Site>, targets: seq<(EdgeKind, Option<Fn>)>)
    requires TargetsKnown(targets)
    ensures CalleesKnown(Targets(f, site, targets))
  {
    if targets != [] { KnownTargets(f, site, targets[1..]); }
  }

  lemma KnownJoin(a: seq<CallEdge>, b: seq<CallEdge>)
    requires CalleesKnown(a) && CalleesKnown(b)
    ensures CalleesKnown(a + b)
  {
  }

  lemma {:induction false} KnownBody(m: Module, f: Fn, calls: seq<Call>, resolver: Resolver)
    requires Behaves(resolver) && BodyEdges(m, f, calls, resolver).Some?
    ensures CalleesKnown(BodyEdges(m, f, calls, resolver).value)
    decreases |calls|
  {
    if calls != [] {
      var init, last := calls[..|calls| - 1], calls[|calls| - 1];
      KnownBody(m, f, init, resolver);
      if last.direct.None? { KnownTargets(f, Some(last.site), resolver(Some(last.site), f).value); }
      KnownJoin(BodyEdges(m, f, init, resolver).value, CallEdges(m, f, last, resolver).value);
    }
  }

  /** The edges that are built from such a resolver are known in this sense. */
  lemma {:induction false} KnownModule(m: Module, functions: seq<Function>, resolver: Resolver)
    requires Behaves(resolver) && ModuleEdges(m, functions, resolver).Some?
    ensures CalleesKnown(ModuleEdges(m, functions, resolver).value)
    decreases |functions|
  {
    hide CalleesKnown, FunctionEdges;
    KnownNothing();
    if functions != [] {
      var init, last := functions[..|functions| - 1], functions[|functions| - 1];
      KnownModule(m, init, resolver);
      KnownFunction(m, last, resolver);
      KnownJoin(ModuleEdges(m, init, resolver).value, FunctionEdges(m, last, resolver).value);
    }
  }

  lemma KnownNothing()
    ensures CalleesKnown([])
  {
  }

  lemma KnownFunction(m: Module, f: Function, resolver: Resolver)
    requires Behaves(resolver) && FunctionEdges(m, f, resolver).Some?
    ensures CalleesKnown(FunctionEdges(m, f, resolver).value)
  {
    hide CalleesKnown, Targets, BodyEdges;
    KnownNothing();
    if f.id !in m.skipped && !f.declaration {
      var body, patch := BodyEdges(m, f.id, f.calls, resolver).value, resolver(None, f.id).value;
      KnownBody(m, f.id, f.calls, resolver);
      KnownTargets(f.id, None, patch);
      KnownJoin(body, Targets(f.id, None, patch));
    }
  }

  function Callees(edges: seq<CallEdge>): set<Fn> {
    set i | 0 <= i < |edges| && edges[i].callee.Some? :: edges[i].callee.value
  }

  /** An edge at which a search for `to` may stop. */
  predicate Final(e: CallEdge, to: Fn, ignoreUnknown: bool) {
    if e.kind.CALLANYTHING? then !ignoreUnknown else e.callee == Some(to)
  }

  ghost predicate IsEdge(edges: seq<CallEdge>, e: CallEdge) { e in edges }

  /** A call path from `from`: each edge leaves where the one before arrives, and the last
      may end the search. */
  ghost predicate CallPath(edges: seq<CallEdge>, from: Fn, to: Fn, ignoreUnknown: bool, path: seq<CallEdge>)
    decreases |path|
  {
    && path != [] && IsEdge(edges, path[0]) && path[0].caller == from
    && if |path| == 1 then Final(path[0], to, ignoreUnknown)
       else path[0].callee.Some? && CallPath(edges, path[0].callee.value, to, ignoreUnknown, path[1..])
  }

  /** The callees of the edges of a path, in order. */
  function CalleesOf(path: seq<CallEdge>): seq<Option<Fn>> {
    if path == [] then [] else [path[0].callee] + CalleesOf(path[1..])
  }

  ghost predicate NoRepeat(s: seq<Option<Fn>>) { forall i, j :: 0 <= i < j < |s| ==> s[i] != s[j] }

  /** Every edge out of `n` stays in `nodes` and ends no search. */
  ghost predicate Exhausted(edges: seq<CallEdge>, n: Fn, to: Fn, ignoreUnknown: bool, nodes: set<Fn>) {
    forall e :: IsEdge(edges, e) && e.caller == n ==>
      !Final(e, to, ignoreUnknown) && (e.callee.Some? ==> e.callee.value in nodes)
  }

  /** No path leaves a set of exhausted nodes. */
  lemma {:induction false} ExhaustedHasNoPath(edges: seq<CallEdge>, nodes: set<Fn>, n: Fn, to: Fn, ignoreUnknown: bool, path: seq<CallEdge>)
    requires forall x :: x in nodes ==> Exhausted(edges, x, to, ignoreUnknown, nodes)
    requires n in nodes
    ensures !CallPath(edges, n, to, ignoreUnknown, path)
    decreases |path|
  {
    hide IsEdge;
    if path != [] && IsEdge(edges, path[0]) && path[0].caller == n && |path| > 1 && path[0].callee.Some? {
      ExhaustedHasNoPath(edges, nodes, path[0].callee.value, to, ignoreUnknown, path[1..]);
    }
  }

  /** The callees of a found path are new to the search, and do not repeat. */
  ghost predicate NewCallees(path: seq<CallEdge>, visited: set<Fn>) {
    NoRepeat(CalleesOf(path)) && forall c :: c in CalleesOf(path) && c.Some? ==> c.value !in visited
  }

  lemma NewCalleesPrepend(e: CallEdge, path: seq<CallEdge>, visited: set<Fn>)
    requires e.callee.Some? && e.callee.value !in visited
    requires NewCallees(path, visited + {e.callee.value})
    ensures NewCallees([e] + path, visited)
  {
    assert ([e] + path)[1..] == path;
    assert CalleesOf([e] + path) == [e.callee] + CalleesOf(path);
    hide CalleesOf;
    assert forall c :: c in CalleesOf(path) ==> c != e.callee;
  }

  lemma NewCalleesSingle(e: CallEdge, visited: set<Fn>)
    requires e.callee.Some? ==> e.callee.value !in visited
    ensures NewCallees([e], visited)
  {
    assert CalleesOf([e]) == [e.callee] + CalleesOf([e][1..]) && CalleesOf([e][1..]) == [];
  }

  /** All nodes of a set are exhausted, within a larger one. */
  ghost predicate AllExhausted(edges: seq<CallEdge>, done: set<Fn>, to: Fn, ignoreUnknown: bool, nodes: set<Fn>) {
    forall n :: n in done ==> Exhausted(edges, n, to, ignoreUnknown, nodes)
  }

  ghost predicate Indices(path: seq<nat>, n: nat) { forall i :: 0 <= i < |path| ==> path[i] < n }

  /** A search has appended a call path with new callees to `path`. */
  ghost predicate Appended(edges: seq<CallEdge>, from: Fn, to: Fn, ignoreUnknown: bool, visited: set<Fn>,
                           path: seq<nat>, path': seq<nat>, tail: seq<CallEdge>) {
    && Indices(path, |edges|) && Indices(path', |edges|)
    && EdgesAt(edges, path') == EdgesAt(edges, path) + tail
    && CallPath(edges, from, to, ignoreUnknown, tail) && NewCallees(tail, visited)
  }

  /** An edge that ends no search, and whose callee has been visited. */
  ghost predicate Tried(e: CallEdge, to: Fn, ignoreUnknown: bool, visited: set<Fn>) {
    !Final(e, to, ignoreUnknown) && (e.callee.Some? ==> e.callee.value in visited)
  }

  /** The depth-first search: it appends to the path and adds to the visited set, and pops
      what it pushed when it fails. */
  method ReachIter(cg: CallGraph, from: Fn, to: Fn, ignoreUnknown: bool, path: seq<nat>, visited: set<Fn>)
    returns (found: bool, path': seq<nat>, visited': set<Fn>, ghost tail: seq<CallEdge>)
    requires cg.Valid() && cg.cgBuilt && CalleesKnown(cg.edges)
    requires visited <= Callees(cg.edges) && to !in visited && Indices(path, |cg.edges|)
    ensures visited <= visited' <= Callees(cg.edges) && to !in visited'
    ensures !found ==> path' == path && Exhausted(cg.edges, from, to, ignoreUnknown, visited')
    ensures !found ==> AllExhausted(cg.edges, visited' - visited, to, ignoreUnknown, visited')
    ensures found ==> Appended(cg.edges, from, to, ignoreUnknown, visited, path, path', tail)
    decreases Callees(cg.edges) - visited, 1
  {
    hide Exhausted, Tried, CallPath, NewCallees, AllExhausted, CalleesKnown, Callees, Indices;
    found, path', visited', tail := false, path, visited, [];
    NothingExhausted(cg.edges, to, ignoreUnknown, visited);
    assert visited - visited == {};
    if from !in cg.ranges {
      NoEdgesFrom(cg.edges, cg.ranges, from, to, ignoreUnknown, visited);
      return;
    }
    var (start, end) := cg.ranges[from];
    for i := start to end
      invariant visited <= visited' <= Callees(cg.edges) && to !in visited'
      invariant path' == path && !found
      invariant forall j :: start <= j < i ==> Tried(cg.edges[j], to, ignoreUnknown, visited')
      invariant AllExhausted(cg.edges, visited' - visited, to, ignoreUnknown, visited')
    {
      ghost var before := visited';
      found, path', visited', tail := TryEdge(cg, i, to, ignoreUnknown, path, visited');
      if found {
        AppendedMore(cg.edges, from, to, ignoreUnknown, before, visited, path, path', tail);
        return;
      }
      ExhaustedJoin(cg.edges, to, ignoreUnknown, visited, before, visited');
      TriedGrow(cg.edges, start, i, to, ignoreUnknown, before, visited');
    }
    AllFrom(cg.edges, cg.ranges, from, to, ignoreUnknown, visited');
  }

  /** One edge of the search loop. */
  method TryEdge(cg: CallGraph, i: nat, to: Fn, ignoreUnknown: bool, path: seq<nat>, visited: set<Fn>)
    returns (found: bool, path': seq<nat>, visited': set<Fn>, ghost tail: seq<CallEdge>)
    requires cg.Valid() && cg.cgBuilt && CalleesKnown(cg.edges)
    requires i < |cg.edges| && visited <= Callees(cg.edges) && to !in visited && Indices(path, |cg.edges|)
    ensures visited <= visited' <= Callees(cg.edges) && to !in visited'
    ensures !found ==> path' == path && Tried(cg.edges[i], to, ignoreUnknown, visited')
    ensures !found ==> AllExhausted(cg.edges, visited' - visited, to, ignoreUnknown, visited')
    ensures found ==> Appended(cg.edges, cg.edges[i].caller, to, ignoreUnknown, visited, path, path', tail)
    decreases Callees(cg.edges) - visited, 0
  {
    hide Exhausted, CallPath, NewCallees, AllExhausted;
    var edge := cg.edges[i];
    found, path', visited', tail := false, path, visited, [];
    NothingExhausted(cg.edges, to, ignoreUnknown, visited);
    assert visited - visited == {};
    if ignoreUnknown && edge.kind.CALLANYTHING? { return; }
    if edge.kind.CALLANYTHING? || edge.callee.value == to {
      found, path', tail := true, path + [i], [edge];
      StopHere(cg.edges, i, to, ignoreUnknown, visited, path);
      return;
    }
    var callee := edge.callee.value;
    assert callee in Callees(cg.edges);
    if callee !in visited {
      visited' := visited + {callee};
      ghost var entered := visited';
      found, path', visited', tail := ReachIter(cg, callee, to, ignoreUnknown, path + [i], visited');
      if found {
        StepInto(cg.edges, i, to, ignoreUnknown, visited, path, path', tail);
        tail := [edge] + tail;
        return;
      }
      path' := path'[..|path'| - 1];
      assert path' == path;
      ExhaustedAdd(cg.edges, to, ignoreUnknown, visited, callee, visited');
    }
  }

  lemma NothingExhausted(edges: seq<CallEdge>, to: Fn, ignoreUnknown: bool, visited: set<Fn>)
    ensures AllExhausted(edges, {}, to, ignoreUnknown, visited)
  {
  }

  lemma StopHere(edges: seq<CallEdge>, i: nat, to: Fn, ignoreUnknown: bool, visited: set<Fn>, path: seq<nat>)
    requires i < |edges| && Indices(path, |edges|) && Final(edges[i], to, ignoreUnknown)
    requires edges[i].callee.Some? ==> edges[i].callee.value !in visited
    ensures Appended(edges, edges[i].caller, to, ignoreUnknown, visited, path, path + [i], [edges[i]])
  {
    EdgesAtLast(edges, path, i);
    NewCalleesSingle(edges[i], visited);
    hide NewCallees, Final;
  }

  lemma StepInto(edges: seq<CallEdge>, i: nat, to: Fn, ignoreUnknown: bool, visited: set<Fn>,
                 path: seq<nat>, path': seq<nat>, tail: seq<CallEdge>)
    requires i < |edges| && Indices(path, |edges|) && edges[i].callee.Some? && edges[i].callee.value !in visited
    requires Appended(edges, edges[i].callee.value, to, ignoreUnknown, visited + {edges[i].callee.value}, path + [i], path', tail)
    ensures Appended(edges, edges[i].caller, to, ignoreUnknown, visited, path, path', [edges[i]] + tail)
  {
    var edge := edges[i];
    EdgesAtLast(edges, path, i);
    NewCalleesPrepend(edge, tail, visited);
    hide NewCallees, Final;
    assert EdgesAt(edges, path) + [edge] + tail == EdgesAt(edges, path) + ([edge] + tail);
    assert ([edge] + tail)[1..] == tail;
  }

  lemma AppendedMore(edges: seq<CallEdge>, from: Fn, to: Fn, ignoreUnknown: bool, big: set<Fn>, small: set<Fn>,
                     path: seq<nat>, path': seq<nat>, tail: seq<CallEdge>)
    requires small <= big && Appended(edges, from, to, ignoreUnknown, big, path, path', tail)
    ensures Appended(edges, from, to, ignoreUnknown, small, path, path', tail)
  {
    hide CallPath;
    NewCalleesGrow(tail, small, big);
  }

  /** What was exhausted stays so as more is visited. */
  lemma ExhaustedJoin(edges: seq<CallEdge>, to: Fn, ignoreUnknown: bool, a: set<Fn>, b: set<Fn>, c: set<Fn>)
    requires a <= b <= c
    requires AllExhausted(edges, b - a, to, ignoreUnknown, b) && AllExhausted(edges, c - b, to, ignoreUnknown, c)
    ensures AllExhausted(edges, c - a, to, ignoreUnknown, c)
  {
    forall n | n in c - a ensures Exhausted(edges, n, to, ignoreUnknown, c) {
      if n in b { ExhaustedGrow(edges, n, to, ignoreUnknown, b, c); }
    }
  }

  lemma ExhaustedAdd(edges: seq<CallEdge>, to: Fn, ignoreUnknown: bool, visited: set<Fn>, callee: Fn, visited': set<Fn>)
    requires visited + {callee} <= visited' && Exhausted(edges, callee, to, ignoreUnknown, visited')
    requires AllExhausted(edges, visited' - (visited + {callee}), to, ignoreUnknown, visited')
    ensures AllExhausted(edges, visited' - visited, to, ignoreUnknown, visited')
  {
    hide Exhausted;
  }

  lemma TriedGrow(edges: seq<CallEdge>, start: nat, end: nat, to: Fn, ignoreUnknown: bool, small: set<Fn>, big: set<Fn>)
    requires small <= big && end <= |edges| && forall j :: start <= j < end ==> Tried(edges[j], to, ignoreUnknown, small)
    ensures forall j :: start <= j < end ==> Tried(edges[j], to, ignoreUnknown, big)
  {
    hide Final;
  }

  function EdgesAt(edges: seq<CallEdge>, path: seq<nat>): (r: seq<CallEdge>)
    requires Indices(path, |edges|)
    ensures |r| == |path|
  {
    seq(|path|, i requires 0 <= i < |path| => edges[path[i]])
  }

  lemma EdgesAtLast(edges: seq<CallEdge>, path: seq<nat>, i: nat)
    requires Indices(path, |edges|) && i < |edges|
    ensures Indices(path + [i], |edges|)
    ensures EdgesAt(edges, path + [i]) == EdgesAt(edges, path) + [edges[i]]
  {
  }

  lemma NewCalleesGrow(tail: seq<CallEdge>, small: set<Fn>, big: set<Fn>)
    requires small <= big && NewCallees(tail, big)
    ensures NewCallees(tail, small)
  {
    hide CalleesOf;
  }

  lemma ExhaustedGrow(edges: seq<CallEdge>, n: Fn, to: Fn, ignoreUnknown: bool, small: set<Fn>, big: set<Fn>)
    requires small <= big && Exhausted(edges, n, to, ignoreUnknown, small)
    ensures Exhausted(edges, n, to, ignoreUnknown, big)
  {
    hide IsEdge, Final;
  }

  lemma NoEdgesFrom(edges: seq<CallEdge>, ranges: map<Fn, (nat, nat)>, from: Fn, to: Fn, ignoreUnknown: bool, nodes: set<Fn>)
    requires Ranged(edges, ranges) && from !in ranges
    ensures Exhausted(edges, from, to, ignoreUnknown, nodes)
  {
    hide Final;
  }

  lemma AllFrom(edges: seq<CallEdge>, ranges: map<Fn, (nat, nat)>, from: Fn, to: Fn, ignoreUnknown: bool, nodes: set<Fn>)
    requires Ranged(edges, ranges) && from in ranges
    requires forall j :: ranges[from].0 <= j < ranges[from].1 ==> Tried(edges[j], to, ignoreUnknown, nodes)
    ensures Exhausted(edges, from, to, ignoreUnknown, nodes)
  {
    hide Final;
  }

  /** The search is sound and complete: what it returns is a call path without repeated
      callees, and it returns nothing only when there is no call path at all. */
  method Reach(cg: CallGraph, from: Fn, to: Fn, ignoreUnknown: bool) returns (result: seq<CallEdge>)
    requires cg.Valid() && cg.cgBuilt && CalleesKnown(cg.edges)
    ensures result != [] ==> CallPath(cg.edges, from, to, ignoreUnknown, result) && NoRepeat(CalleesOf(result))
    ensures result == [] ==> forall path :: !CallPath(cg.edges, from, to, ignoreUnknown, path)
  {
    hide CalleesOf, Exhausted, NoRepeat, CalleesKnown, Callees, CallPath, Appended, NewCallees, AllExhausted;
    ghost var tail;
    var found, path, visited;
    found, path, visited, tail := ReachIter(cg, from, to, ignoreUnknown, [], {});
    if found {
      FoundPath(cg.edges, from, to, ignoreUnknown, path, tail);
      result := CollectEdges(cg.edges, path);
    } else {
      result := [];
      assert visited - {} == visited;
      NoPathAtAll(cg.edges, from, to, ignoreUnknown, visited);
    }
  }

  method CollectEdges(edges: seq<CallEdge>, path: seq<nat>) returns (result: seq<CallEdge>)
    requires Indices(path, |edges|)
    ensures result == EdgesAt(edges, path)
  {
    result := [];
    for i := 0 to |path|
      invariant result == EdgesAt(edges, path)[..i]
    {
      result := result + [edges[path[i]]];
    }
  }

  lemma FoundPath(edges: seq<CallEdge>, from: Fn, to: Fn, ignoreUnknown: bool, path: seq<nat>, tail: seq<CallEdge>)
    requires Appended(edges, from, to, ignoreUnknown, {}, [], path, tail)
    ensures Indices(path, |edges|) && EdgesAt(edges, path) == tail != []
    ensures CallPath(edges, from, to, ignoreUnknown, tail) && NoRepeat(CalleesOf(tail))
  {
    hide CalleesOf, NoRepeat;
    assert EdgesAt(edges, []) + tail == tail;
  }

  lemma NoPathAtAll(edges: seq<CallEdge>, from: Fn, to: Fn, ignoreUnknown: bool, visited: set<Fn>)
    requires Exhausted(edges, from, to, ignoreUnknown, visited) && AllExhausted(edges, visited, to, ignoreUnknown, visited)
    ensures forall path :: !CallPath(edges, from, to, ignoreUnknown, path)
  {
    hide Exhausted, CallPath;
    var nodes := visited + {from};
    forall n | n in nodes ensures Exhausted(edges, n, to, ignoreUnknown, nodes) {
      ExhaustedGrow(edges, n, to, ignoreUnknown, visited, nodes);
    }
    forall path ensures !CallPath(edges, from, to, ignoreUnknown, path) {
      ExhaustedHasNoPath(edges, nodes, from, to, ignoreUnknown, path);
    }
  }
}
