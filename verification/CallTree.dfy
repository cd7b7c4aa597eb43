/** The depth-bounded call tree, built breadth first over the out-edges. */
module CallTree {
  import opened CallGraph
  import opened Lists
  import opened Reachability

  // ----- chains of calls

  /** Some edge that names its target goes from `n` to `callee`. */
  ghost predicate Calls(edges: seq<CallEdge>, n: Fn, callee: Fn) {
    exists e :: IsEdge(edges, e) && e.caller == n && !e.kind.CALLANYTHING? && e.callee == Some(callee)
  }

  function Last(from: Fn, chain: seq<Fn>): Fn { if chain == [] then from else chain[|chain| - 1] }

  /** The functions met on a walk from `from`, each called by the one before it. */
  ghost predicate Chain(edges: seq<CallEdge>, from: Fn, chain: seq<Fn>)
    decreases |chain|
  {
    chain == [] || (Chain(edges, from, chain[..|chain| - 1])
                    && Calls(edges, Last(from, chain[..|chain| - 1]), chain[|chain| - 1]))
  }

  /** The number of calls on a walk that are not to silenced functions. */
  function Cost(chain: seq<Fn>, silenced: Fn -> bool): nat
    decreases |chain|
  {
    if chain == [] then 0
    else Cost(chain[..|chain| - 1], silenced) + Weight(chain[|chain| - 1], silenced)
  }

  function Weight(callee: Fn, silenced: Fn -> bool): nat { if silenced(callee) then 0 else 1 }

  /** A walk to `n` with this many calls, and with this cost. */
  ghost predicate InCalls(edges: seq<CallEdge>, root: Fn, n: Fn, calls: nat) {
    exists chain :: Chain(edges, root, chain) && Last(root, chain) == n && |chain| == calls
  }

  ghost predicate AtCost(edges: seq<CallEdge>, root: Fn, n: Fn, silenced: Fn -> bool, cost: nat) {
    exists chain :: Chain(edges, root, chain) && Last(root, chain) == n && Cost(chain, silenced) == cost
  }

  lemma AtCostStart(edges: seq<CallEdge>, root: Fn, silenced: Fn -> bool)
    ensures AtCost(edges, root, root, silenced, 0)
  {
    assert Chain(edges, root, []) && Last(root, []) == root && Cost([], silenced) == 0;
  }

  lemma AtCostStep(edges: seq<CallEdge>, root: Fn, n: Fn, silenced: Fn -> bool, cost: nat, e: CallEdge)
    requires AtCost(edges, root, n, silenced, cost)
    requires IsEdge(edges, e) && e.caller == n && !e.kind.CALLANYTHING? && e.callee.Some?
    ensures AtCost(edges, root, e.callee.value, silenced, cost + Weight(e.callee.value, silenced))
  {
    hide IsEdge;
    var callee := e.callee.value;
    var chain :| Chain(edges, root, chain) && Last(root, chain) == n && Cost(chain, silenced) == cost;
    var more := chain + [callee];
    assert more[..|more| - 1] == chain;
    assert Calls(edges, n, callee);
    assert Chain(edges, root, more) && Last(root, more) == callee;
  }

  /** No target of an edge is silenced. */
  ghost predicate NoneSilenced(edges: seq<CallEdge>, silenced: Fn -> bool) {
    forall f :: f in Callees(edges) ==> !silenced(f)
  }

  /** When no callee is silenced, every call of a walk costs one. */
  lemma {:induction false} ChainCost(edges: seq<CallEdge>, from: Fn, chain: seq<Fn>, silenced: Fn -> bool)
    requires NoneSilenced(edges, silenced) && Chain(edges, from, chain)
    ensures Cost(chain, silenced) == |chain|
    decreases |chain|
  {
    if chain != [] {
      var n := |chain| - 1;
      ChainCost(edges, from, chain[..n], silenced);
      var e :| IsEdge(edges, e) && e.caller == Last(from, chain[..n]) && !e.kind.CALLANYTHING? && e.callee == Some(chain[n]);
      assert chain[n] in Callees(edges);
    }
  }

  // ----- what the tree is

  /** The targets of the edges out of `n` that are shown; an unknown target is always shown. */
  function Shown(out: seq<CallEdge>, silenced: Fn -> bool): set<Option<Fn>> {
    set i | 0 <= i < |out| && !Hidden(out[i], silenced) :: out[i].callee
  }

  predicate Hidden(e: CallEdge, silenced: Fn -> bool) { e.callee.Some? && silenced(e.callee.value) }

  type Tree = map<Fn, set<Option<Fn>>>

  /** Each function of the tree has out-edges, and lists exactly the targets that are shown. */
  ghost predicate Faithful(edges: seq<CallEdge>, silenced: Fn -> bool, tree: Tree) {
    forall f :: f in tree ==> Filter(edges, OfCaller(f)) != [] && tree[f] == Shown(Filter(edges, OfCaller(f)), silenced)
  }

  // ----- the state of the search

  /** Every visited function was reached at its recorded depth, after at least as many calls. */
  ghost predicate Reached(edges: seq<CallEdge>, root: Fn, silenced: Fn -> bool, depth: map<Fn, nat>, calls: map<Fn, nat>) {
    depth.Keys == calls.Keys
    && forall n :: n in depth ==> depth[n] <= calls[n] && AtCost(edges, root, n, silenced, depth[n])
  }

  /** The queue holds visited functions in the order in which they were reached, and nothing
      visited is more than one call beyond its front. */
  ghost predicate Ordered(q: seq<(nat, Fn)>, depth: map<Fn, nat>, calls: map<Fn, nat>, front: nat) {
    && depth.Keys == calls.Keys
    && (forall i :: 0 <= i < |q| ==> q[i].1 in depth && depth[q[i].1] == q[i].0 && front <= calls[q[i].1])
    && (forall i, j :: 0 <= i < j < |q| ==> calls[q[i].1] <= calls[q[j].1])
    && (forall n :: n in calls ==> calls[n] <= front + 1)
  }

  /** Each target of an edge that names one has been visited at most one call later. */
  ghost predicate Followed(e: CallEdge, calls: map<Fn, nat>, limit: nat) {
    e.kind.CALLANYTHING? || e.callee.None? || (e.callee.value in calls && calls[e.callee.value] <= limit)
  }

  ghost predicate Expanded(edges: seq<CallEdge>, n: Fn, calls: map<Fn, nat>) {
    n in calls && forall e :: IsEdge(edges, e) && e.caller == n ==> Followed(e, calls, calls[n] + 1)
  }

  /** Every visited function is still queued, too deep, or followed and in the tree. */
  ghost predicate Settled(edges: seq<CallEdge>, maxDepth: nat, n: Fn, depth: map<Fn, nat>, calls: map<Fn, nat>, tree: Tree) {
    n in depth && (depth[n] >= maxDepth || (Expanded(edges, n, calls) && (Filter(edges, OfCaller(n)) != [] ==> n in tree)))
  }

  ghost predicate Waiting(q: seq<(nat, Fn)>, n: Fn) { exists i :: 0 <= i < |q| && q[i].1 == n }

  ghost predicate AllSettled(edges: seq<CallEdge>, maxDepth: nat, q: seq<(nat, Fn)>, depth: map<Fn, nat>, calls: map<Fn, nat>, tree: Tree) {
    forall n :: n in depth ==> Waiting(q, n) || Settled(edges, maxDepth, n, depth, calls, tree)
  }

  ghost predicate Shallow(maxDepth: nat, depth: map<Fn, nat>, tree: Tree) {
    forall f :: f in tree ==> f in depth && depth[f] < maxDepth
  }

  /** Visited functions keep their depth as more are visited. */
  ghost predicate Extends(small: map<Fn, nat>, big: map<Fn, nat>) {
    small.Keys <= big.Keys && forall n :: n in small ==> big[n] == small[n]
  }

  /** No function is queued twice, or again after it has entered the tree. */
  ghost predicate Once(q: seq<(nat, Fn)>, tree: Tree) {
    (forall i, j :: 0 <= i < j < |q| ==> q[i].1 != q[j].1) && forall i :: 0 <= i < |q| ==> q[i].1 !in tree
  }

  /** The queue grew by exactly the newly visited functions. */
  ghost predicate Grown(q: seq<(nat, Fn)>, q': seq<(nat, Fn)>, depth: map<Fn, nat>, depth': map<Fn, nat>) {
    && |q| <= |q'| && q'[..|q|] == q
    && (forall n :: n in depth' && n !in depth ==> Waiting(q', n))
    && (depth'.Keys == depth.Keys ==> q' == q)
  }

  lemma Visit(edges: seq<CallEdge>, root: Fn, silenced: Fn -> bool, depth: map<Fn, nat>, calls: map<Fn, nat>, func: Fn, e: CallEdge)
    requires Reached(edges, root, silenced, depth, calls) && func in calls
    requires IsEdge(edges, e) && e.caller == func && !e.kind.CALLANYTHING? && e.callee.Some? && e.callee.value !in depth
    ensures var c, d := e.callee.value, depth[func] + Weight(e.callee.value, silenced);
      Reached(edges, root, silenced, depth[c := d], calls[c := calls[func] + 1])
  {
    hide AtCost, IsEdge;
    AtCostStep(edges, root, func, silenced, depth[func], e);
  }

  lemma Enqueue(q: seq<(nat, Fn)>, tree: Tree, depth: map<Fn, nat>, calls: map<Fn, nat>, front: nat, c: Fn, d: nat)
    requires Ordered(q, depth, calls, front) && Once(q, tree) && tree.Keys <= depth.Keys && c !in depth
    ensures Ordered(q + [(d, c)], depth[c := d], calls[c := front + 1], front) && Once(q + [(d, c)], tree)
  {
    var q', calls' := q + [(d, c)], calls[c := front + 1];
    forall i | 0 <= i < |q| ensures q'[i] == q[i] && q[i].1 != c && calls'[q[i].1] == calls[q[i].1] <= front + 1 {}
  }

  lemma Near(q: seq<(nat, Fn)>, depth: map<Fn, nat>, calls: map<Fn, nat>, front: nat, e: CallEdge)
    requires Ordered(q, depth, calls, front) && (e.callee.Some? ==> e.callee.value in depth)
    ensures Followed(e, calls, front + 1)
  {
    if e.callee.Some? {
      var c := e.callee.value;
      assert c in depth.Keys && c in calls.Keys;
      assert c in calls;
      assert calls[c] <= front + 1;
    }
  }

  lemma VisitGrown(q0: seq<(nat, Fn)>, q: seq<(nat, Fn)>, depth0: map<Fn, nat>, depth: map<Fn, nat>, c: Fn, d: nat)
    requires Grown(q0, q, depth0, depth) && Extends(depth0, depth) && c !in depth
    ensures Grown(q0, q + [(d, c)], depth0, depth[c := d]) && Extends(depth0, depth[c := d])
  {
    var q' := q + [(d, c)];
    assert q'[..|q0|] == q[..|q0|];
    assert c !in depth0;
    forall n | n in depth[c := d] && n !in depth0 ensures Waiting(q', n) {
      if n == c {
        assert q'[|q|].1 == c;
      } else {
        var i :| 0 <= i < |q| && q[i].1 == n;
        assert q'[i].1 == n;
      }
    }
  }

  /** The targets gathered from the first edges have all been visited. */
  ghost predicate Gathered(out: seq<CallEdge>, silenced: Fn -> bool, shown: set<Option<Fn>>, calls: map<Fn, nat>, limit: nat) {
    shown == Shown(out, silenced) && forall i :: 0 <= i < |out| ==> Followed(out[i], calls, limit)
  }

  lemma ShownLast(out: seq<CallEdge>, e: CallEdge, silenced: Fn -> bool)
    ensures Shown(out + [e], silenced) == Shown(out, silenced) + if Hidden(e, silenced) then {} else {e.callee}
  {
    var all := out + [e];
    assert forall i :: 0 <= i < |out| ==> all[i] == out[i];
    assert all[|out|] == e;
    hide Hidden;
    forall c | c in Shown(out, silenced) ensures c in Shown(all, silenced) {
      var i :| 0 <= i < |out| && !Hidden(out[i], silenced) && out[i].callee == c;
      assert all[i] == out[i];
    }
  }

  lemma GatherMore(out: seq<CallEdge>, e: CallEdge, silenced: Fn -> bool, shown: set<Option<Fn>>,
                   calls: map<Fn, nat>, calls': map<Fn, nat>, limit: nat)
    requires Gathered(out, silenced, shown, calls, limit) && Extends(calls, calls') && Followed(e, calls', limit)
    ensures Gathered(out + [e], silenced, if Hidden(e, silenced) then shown else shown + {e.callee}, calls', limit)
  {
    ShownLast(out, e, silenced);
    assert shown + {} == shown;
    forall i | 0 <= i < |out| ensures Followed(out[i], calls', limit) {
      FollowedStays(out[i], calls, calls', limit);
    }
    FollowedLast(out, e, calls', limit);
  }

  lemma FollowedStays(e: CallEdge, calls: map<Fn, nat>, calls': map<Fn, nat>, limit: nat)
    requires Followed(e, calls, limit) && Extends(calls, calls')
    ensures Followed(e, calls', limit)
  {
    if !e.kind.CALLANYTHING? && e.callee.Some? { ExtendsAt(calls, calls', e.callee.value); }
  }

  /** An edge to a target that is already listed changes nothing. */
  lemma GatherAgain(out: seq<CallEdge>, e: CallEdge, silenced: Fn -> bool, shown: set<Option<Fn>>, calls: map<Fn, nat>, limit: nat)
    requires Gathered(out, silenced, shown, calls, limit) && e.callee in shown
    requires forall i :: 0 <= i < |out| ==> (out[i].kind.CALLANYTHING? <==> out[i].callee.None?)
    ensures Gathered(out + [e], silenced, shown, calls, limit)
  {
    ShownLast(out, e, silenced);
    var i :| 0 <= i < |out| && !Hidden(out[i], silenced) && out[i].callee == e.callee;
    assert Followed(out[i], calls, limit);
    assert shown + {} == shown && shown + {e.callee} == shown;
    assert Shown(out + [e], silenced) == shown;
    FollowedLast(out, e, calls, limit);
  }

  lemma FollowedLast(out: seq<CallEdge>, e: CallEdge, calls: map<Fn, nat>, limit: nat)
    requires forall i :: 0 <= i < |out| ==> Followed(out[i], calls, limit)
    requires Followed(e, calls, limit)
    ensures forall i :: 0 <= i < |out + [e]| ==> Followed((out + [e])[i], calls, limit)
  {
    hide Followed;
  }

  lemma FollowNothing(silenced: Fn -> bool, q: seq<(nat, Fn)>, depth: map<Fn, nat>, calls: map<Fn, nat>, limit: nat)
    ensures Gathered([], silenced, {}, calls, limit) && Grown(q, q, depth, depth)
  {
  }

  lemma EdgeKnown(edges: seq<CallEdge>, e: CallEdge)
    requires CalleesKnown(edges) && IsEdge(edges, e)
    ensures e.kind.CALLANYTHING? <==> e.callee.None?
    ensures e.callee.Some? ==> e.callee.value in Callees(edges)
  {
  }

  /** The loop over the out-edges of one function. */
  method Follow(ghost edges: seq<CallEdge>, ghost root: Fn, func: Fn, d: nat, out: seq<CallEdge>, silenced: Fn -> bool,
                q0: seq<(nat, Fn)>, visited0: set<Fn>, ghost tree: Tree, ghost depth0: map<Fn, nat>, ghost calls0: map<Fn, nat>)
    returns (q: seq<(nat, Fn)>, visited: set<Fn>, treeEdges: set<Option<Fn>>, ghost depth: map<Fn, nat>, ghost calls: map<Fn, nat>)
    requires CalleesKnown(edges) && forall i :: 0 <= i < |out| ==> IsEdge(edges, out[i]) && out[i].caller == func
    requires visited0 == depth0.Keys == calls0.Keys && Reached(edges, root, silenced, depth0, calls0)
    requires func in depth0 && depth0[func] == d && func in calls0 && Ordered(q0, depth0, calls0, calls0[func])
    requires Once(q0, tree) && tree.Keys <= depth0.Keys && visited0 <= Callees(edges) + {root}
    ensures visited == depth.Keys == calls.Keys && Extends(depth0, depth) && Extends(calls0, calls)
    ensures visited <= Callees(edges) + {root}
    ensures Reached(edges, root, silenced, depth, calls) && Ordered(q, depth, calls, calls0[func]) && Once(q, tree)
    ensures Grown(q0, q, depth0, depth) && Gathered(out, silenced, treeEdges, calls, calls0[func] + 1)
  {
    hide Reached, Ordered, Once, Grown, CalleesKnown, Callees, Gathered, IsEdge;
    q, visited, treeEdges, depth, calls := q0, visited0, {}, depth0, calls0;
    FollowNothing(silenced, q0, depth0, calls0, calls0[func] + 1);
    assert out[..0] == [];
    for i := 0 to |out|
      invariant visited == depth.Keys == calls.Keys && Extends(depth0, depth) && Extends(calls0, calls)
      invariant visited <= Callees(edges) + {root}
      invariant Reached(edges, root, silenced, depth, calls) && Ordered(q, depth, calls, calls0[func]) && Once(q, tree)
      invariant Grown(q0, q, depth0, depth) && Gathered(out[..i], silenced, treeEdges, calls, calls0[func] + 1)
    {
      var edge := out[i];
      assert out[..i + 1] == out[..i] + [edge];
      EdgeKnown(edges, edge);
      if edge.callee in treeEdges {
        forall j | 0 <= j < i ensures out[j].kind.CALLANYTHING? <==> out[j].callee.None? { EdgeKnown(edges, out[j]); }
        GatherAgain(out[..i], edge, silenced, treeEdges, calls, calls0[func] + 1);
        continue;
      }
      var silence := edge.callee.Some? && silenced(edge.callee.value);
      ghost var shown, before := treeEdges, calls;
      if !silence { treeEdges := treeEdges + {edge.callee}; }
      if !edge.kind.CALLANYTHING? && edge.callee.value !in visited {
        var callee, next := edge.callee.value, if silence then d else d + 1;
        Visit(edges, root, silenced, depth, calls, func, edge);
        Enqueue(q, tree, depth, calls, calls[func], callee, next);
        VisitGrown(q0, q, depth0, depth, callee, next);
        depth, calls := depth[callee := next], calls[callee := calls[func] + 1];
        q := q + [(next, callee)];
        visited := visited + {callee};
      }
      if !edge.kind.CALLANYTHING? { Near(q, depth, calls, calls0[func], edge); }
      GatherMore(out[..i], edge, silenced, shown, before, calls, calls0[func] + 1);
    }
    assert out[..|out|] == out;
  }

  // ----- the steps of the search

  lemma Start(edges: seq<CallEdge>, root: Fn, silenced: Fn -> bool, maxDepth: nat)
    ensures Reached(edges, root, silenced, map[root := 0], map[root := 0])
    ensures Ordered([(0, root)], map[root := 0], map[root := 0], 0) && Once([(0, root)], map[])
    ensures AllSettled(edges, maxDepth, [(0, root)], map[root := 0], map[root := 0], map[])
    ensures Faithful(edges, silenced, map[]) && Shallow(maxDepth, map[root := 0], map[])
  {
    hide AtCost, Settled;
    AtCostStart(edges, root, silenced);
    assert [(0, root)][0].1 == root && Waiting([(0, root)], root);
  }

  lemma Pop(q: seq<(nat, Fn)>, tree: Tree, depth: map<Fn, nat>, calls: map<Fn, nat>, front: nat)
    requires q != [] && Ordered(q, depth, calls, front) && Once(q, tree)
    ensures var (d, func) := q[0];
      && func in depth && func in calls && depth[func] == d
      && Ordered(q[1..], depth, calls, calls[func]) && Once(q[1..], tree) && Once(q[1..], tree[func := {}])
  {
    var func := q[0].1;
    assert func in depth.Keys && func in calls.Keys && front <= calls[func];
    forall i | 0 <= i < |q[1..]| ensures q[1..][i] == q[i + 1] && calls[func] <= calls[q[1..][i].1] && q[1..][i].1 != func {}
  }

  lemma StillWaiting(q: seq<(nat, Fn)>, n: Fn)
    requires q != [] && Waiting(q, n) && n != q[0].1
    ensures Waiting(q[1..], n)
  {
    var i :| 0 <= i < |q| && q[i].1 == n;
    assert q[1..][i - 1] == q[i];
  }

  /** A function too deep to be followed is settled when it leaves the queue. */
  lemma Pruned(edges: seq<CallEdge>, maxDepth: nat, q: seq<(nat, Fn)>, depth: map<Fn, nat>, calls: map<Fn, nat>, tree: Tree)
    requires q != [] && AllSettled(edges, maxDepth, q, depth, calls, tree)
    requires q[0].1 in depth && depth[q[0].1] >= maxDepth
    ensures AllSettled(edges, maxDepth, q[1..], depth, calls, tree)
  {
    hide Waiting, Expanded;
    forall n | n in depth ensures Waiting(q[1..], n) || Settled(edges, maxDepth, n, depth, calls, tree) {
      if n != q[0].1 && Waiting(q, n) { StillWaiting(q, n); }
    }
  }

  lemma {:induction false} FilterMember(edges: seq<CallEdge>, p: CallEdge -> bool, e: CallEdge)
    ensures e in Filter(edges, p) <==> e in edges && p(e)
  {
    if edges != [] {
      FilterMember(edges[1..], p, e);
      assert edges == [edges[0]] + edges[1..];
    }
  }

  lemma FilterOut(edges: seq<CallEdge>, f: Fn)
    ensures forall e :: IsEdge(edges, e) && e.caller == f ==> e in Filter(edges, OfCaller(f))
    ensures forall i :: 0 <= i < |Filter(edges, OfCaller(f))| ==>
      IsEdge(edges, Filter(edges, OfCaller(f))[i]) && Filter(edges, OfCaller(f))[i].caller == f
  {
    hide Filter;
    forall e ensures e in Filter(edges, OfCaller(f)) <==> IsEdge(edges, e) && e.caller == f {
      FilterMember(edges, OfCaller(f), e);
    }
    var out := Filter(edges, OfCaller(f));
    forall i | 0 <= i < |out| ensures IsEdge(edges, out[i]) && out[i].caller == f {
      assert out[i] in out;
    }
  }

  lemma ShallowVisited(maxDepth: nat, depth: map<Fn, nat>, tree: Tree)
    requires Shallow(maxDepth, depth, tree)
    ensures tree.Keys <= depth.Keys
  {
    forall f | f in tree.Keys ensures f in depth.Keys { assert f in tree && f in depth; }
  }

  lemma ExtendsAt(small: map<Fn, nat>, big: map<Fn, nat>, n: Fn)
    requires Extends(small, big) && n in small
    ensures n in big && big[n] == small[n]
  {
  }

  /** A function that has left the queue stays settled. */
  lemma SettledStays(edges: seq<CallEdge>, maxDepth: nat, n: Fn, depth0: map<Fn, nat>, depth: map<Fn, nat>,
                     calls0: map<Fn, nat>, calls: map<Fn, nat>, tree0: Tree, tree: Tree)
    requires Settled(edges, maxDepth, n, depth0, calls0, tree0)
    requires Extends(depth0, depth) && Extends(calls0, calls) && tree0.Keys <= tree.Keys
    ensures Settled(edges, maxDepth, n, depth, calls, tree)
  {
    hide IsEdge, Filter;
    ExtendsAt(depth0, depth, n);
    if depth[n] < maxDepth {
      ExtendsAt(calls0, calls, n);
      forall e | IsEdge(edges, e) && e.caller == n ensures Followed(e, calls, calls[n] + 1) {
        FollowedStays(e, calls0, calls, calls[n] + 1);
      }
    }
  }

  lemma Followed1(edges: seq<CallEdge>, silenced: Fn -> bool, func: Fn, out: seq<CallEdge>, treeEdges: set<Option<Fn>>, calls: map<Fn, nat>)
    requires func in calls && Gathered(out, silenced, treeEdges, calls, calls[func] + 1)
    requires forall e :: IsEdge(edges, e) && e.caller == func ==> e in out
    ensures Expanded(edges, func, calls)
  {
    hide IsEdge, Followed, Shown;
  }

  lemma Enter(edges: seq<CallEdge>, maxDepth: nat, func: Fn, q0: seq<(nat, Fn)>, q: seq<(nat, Fn)>,
              depth0: map<Fn, nat>, depth: map<Fn, nat>, calls0: map<Fn, nat>, calls: map<Fn, nat>, tree0: Tree, tree: Tree)
    requires AllSettled(edges, maxDepth, q0, depth0, calls0, tree0) && q0 != [] && q0[0].1 == func
    requires Grown(q0[1..], q, depth0, depth) && Extends(depth0, depth) && Extends(calls0, calls)
    requires tree0.Keys <= tree.Keys && Settled(edges, maxDepth, func, depth, calls, tree)
    ensures AllSettled(edges, maxDepth, q, depth, calls, tree)
  {
    hide Settled, Waiting, Extends;
    forall n | n in depth ensures Waiting(q, n) || Settled(edges, maxDepth, n, depth, calls, tree) {
      if n in depth0 && n != func {
        if Waiting(q0, n) {
          StillWaiting(q0, n);
          WaitingMore(q0[1..], q, n);
        } else {
          SettledStays(edges, maxDepth, n, depth0, depth, calls0, calls, tree0, tree);
        }
      }
    }
  }

  lemma WaitingMore(q: seq<(nat, Fn)>, q': seq<(nat, Fn)>, n: Fn)
    requires Waiting(q, n) && |q| <= |q'| && q'[..|q|] == q
    ensures Waiting(q', n)
  {
    var i :| 0 <= i < |q| && q[i].1 == n;
    assert q'[..|q|][i] == q'[i];
  }

  /** The tree gains a function with its shown targets. */
  lemma Listing(edges: seq<CallEdge>, maxDepth: nat, silenced: Fn -> bool, func: Fn, q: seq<(nat, Fn)>,
                depth0: map<Fn, nat>, depth: map<Fn, nat>, tree: Tree, treeEdges: set<Option<Fn>>)
    requires Faithful(edges, silenced, tree) && Shallow(maxDepth, depth0, tree) && Extends(depth0, depth)
    requires func in depth && depth[func] < maxDepth && Once(q, tree[func := {}])
    requires treeEdges == Shown(Filter(edges, OfCaller(func)), silenced)
    ensures var tree' := if Filter(edges, OfCaller(func)) != [] then tree[func := treeEdges] else tree;
      Faithful(edges, silenced, tree') && Shallow(maxDepth, depth, tree') && Once(q, tree')
  {
    hide Filter, Shown;
    assert tree[func := {}].Keys == tree[func := treeEdges].Keys == tree.Keys + {func};
    assert forall f :: f in tree ==> f in tree.Keys;
    forall f | f in tree ensures f in depth && depth[f] < maxDepth { ExtendsAt(depth0, depth, f); }
  }

  /** Once the queue is empty, every function few enough calls away has been visited. */
  lemma {:induction false} Within(edges: seq<CallEdge>, root: Fn, maxDepth: nat, depth: map<Fn, nat>, calls: map<Fn, nat>, tree: Tree,
                                  silenced: Fn -> bool, chain: seq<Fn>)
    requires AllSettled(edges, maxDepth, [], depth, calls, tree) && Reached(edges, root, silenced, depth, calls)
    requires root in depth && root in calls && calls[root] == 0 && Chain(edges, root, chain) && |chain| <= maxDepth
    ensures Last(root, chain) in depth && Last(root, chain) in calls && calls[Last(root, chain)] <= |chain|
    decreases |chain|
  {
    hide AtCost, IsEdge, AllSettled, Reached;
    if chain != [] {
      var prev, n := chain[..|chain| - 1], Last(root, chain[..|chain| - 1]);
      Within(edges, root, maxDepth, depth, calls, tree, silenced, prev);
      Unqueued(edges, root, maxDepth, depth, calls, tree, silenced, n);
      var e :| IsEdge(edges, e) && e.caller == n && !e.kind.CALLANYTHING? && e.callee == Some(chain[|chain| - 1]);
      assert Followed(e, calls, calls[n] + 1);
      SameKeys(edges, root, silenced, depth, calls);
    }
  }

  lemma SameKeys(edges: seq<CallEdge>, root: Fn, silenced: Fn -> bool, depth: map<Fn, nat>, calls: map<Fn, nat>)
    requires Reached(edges, root, silenced, depth, calls)
    ensures forall n :: n in depth <==> n in calls
  {
    hide AtCost;
    assert forall n :: n in depth <==> n in depth.Keys;
    assert forall n :: n in calls <==> n in calls.Keys;
  }

  lemma Unqueued(edges: seq<CallEdge>, root: Fn, maxDepth: nat, depth: map<Fn, nat>, calls: map<Fn, nat>, tree: Tree,
                 silenced: Fn -> bool, n: Fn)
    requires AllSettled(edges, maxDepth, [], depth, calls, tree) && Reached(edges, root, silenced, depth, calls)
    requires n in depth && n in calls && calls[n] < maxDepth
    ensures Expanded(edges, n, calls) && (Filter(edges, OfCaller(n)) != [] ==> n in tree)
  {
    hide AtCost, Expanded, Filter;
    assert !Waiting([], n);
    assert Settled(edges, maxDepth, n, depth, calls, tree);
  }

  lemma Finish(edges: seq<CallEdge>, root: Fn, silenced: Fn -> bool, maxDepth: nat, depth: map<Fn, nat>, calls: map<Fn, nat>, tree: Tree)
    requires AllSettled(edges, maxDepth, [], depth, calls, tree) && Reached(edges, root, silenced, depth, calls)
    requires root in depth && root in calls && calls[root] == 0 && Shallow(maxDepth, depth, tree)
    ensures forall f :: f in tree ==> exists cost: nat :: cost < maxDepth && AtCost(edges, root, f, silenced, cost)
    ensures forall f, k: nat :: k < maxDepth && InCalls(edges, root, f, k) && Filter(edges, OfCaller(f)) != [] ==> f in tree
  {
    hide AtCost, Filter, AllSettled, Chain, Last;
    forall f, k: nat | k < maxDepth && InCalls(edges, root, f, k) && Filter(edges, OfCaller(f)) != [] ensures f in tree {
      var chain :| Chain(edges, root, chain) && Last(root, chain) == f && |chain| == k;
      Within(edges, root, maxDepth, depth, calls, tree, silenced, chain);
      Unqueued(edges, root, maxDepth, depth, calls, tree, silenced, f);
    }
  }

  /** When nothing is silenced, every call costs one. */
  lemma CallsAreCost(edges: seq<CallEdge>, root: Fn, n: Fn, silenced: Fn -> bool, k: nat)
    requires NoneSilenced(edges, silenced)
    ensures AtCost(edges, root, n, silenced, k) <==> InCalls(edges, root, n, k)
  {
    hide Chain, Last, Cost, NoneSilenced;
    forall chain | Chain(edges, root, chain) ensures Cost(chain, silenced) == |chain| { ChainCost(edges, root, chain, silenced); }
  }

  /** All targets of some edges, the unknown one included. */
  function AllTargets(out: seq<CallEdge>): set<Option<Fn>> { set e | e in out :: e.callee }

  /** The functions that have out-edges within fewer than `maxDepth` calls of the root, each
      with all its targets. */
  ghost predicate ExactTree(edges: seq<CallEdge>, root: Fn, maxDepth: nat, tree: Tree) {
    && (forall f :: f in tree <==> Filter(edges, OfCaller(f)) != [] && exists k: nat :: k < maxDepth && InCalls(edges, root, f, k))
    && (forall f :: f in tree ==> tree[f] == AllTargets(Filter(edges, OfCaller(f))))
  }

  lemma ShowsAll(edges: seq<CallEdge>, f: Fn, silenced: Fn -> bool)
    requires NoneSilenced(edges, silenced)
    ensures Shown(Filter(edges, OfCaller(f)), silenced) == AllTargets(Filter(edges, OfCaller(f)))
  {
    hide Filter, NoneSilenced;
    var out := Filter(edges, OfCaller(f));
    FilterOut(edges, f);
    forall i | 0 <= i < |out| ensures !Hidden(out[i], silenced) {
      if out[i].callee.Some? { NotSilenced(edges, out[i], silenced); }
    }
    forall c ensures c in Shown(out, silenced) <==> c in AllTargets(out) {
      if c in AllTargets(out) {
        var e :| e in out && e.callee == c;
        var i :| 0 <= i < |out| && out[i] == e;
        assert !Hidden(out[i], silenced);
      }
    }
  }

  lemma NotSilenced(edges: seq<CallEdge>, e: CallEdge, silenced: Fn -> bool)
    requires NoneSilenced(edges, silenced) && IsEdge(edges, e) && e.callee.Some?
    ensures !silenced(e.callee.value)
  {
    var i :| 0 <= i < |edges| && edges[i] == e;
    var f := e.callee.value;
    assert f == edges[i].callee.value;
    assert f in Callees(edges);
  }

  lemma Exact(edges: seq<CallEdge>, root: Fn, silenced: Fn -> bool, maxDepth: nat, tree: Tree)
    requires NoneSilenced(edges, silenced) && Faithful(edges, silenced, tree)
    requires forall f :: f in tree ==> exists cost: nat :: cost < maxDepth && AtCost(edges, root, f, silenced, cost)
    requires forall f, k: nat :: k < maxDepth && InCalls(edges, root, f, k) && Filter(edges, OfCaller(f)) != [] ==> f in tree
    ensures ExactTree(edges, root, maxDepth, tree)
  {
    hide AtCost, InCalls, Filter, Shown, AllTargets, NoneSilenced;
    forall f | f in tree ensures tree[f] == AllTargets(Filter(edges, OfCaller(f))) { ShowsAll(edges, f, silenced); }
    forall f, k: nat ensures AtCost(edges, root, f, silenced, k) <==> InCalls(edges, root, f, k) {
      CallsAreCost(edges, root, f, silenced, k);
    }
  }

  lemma GathersShown(out: seq<CallEdge>, silenced: Fn -> bool, shown: set<Option<Fn>>, calls: map<Fn, nat>, limit: nat)
    requires Gathered(out, silenced, shown, calls, limit)
    ensures shown == Shown(out, silenced)
  {
  }

  lemma GrownQueue(q: seq<(nat, Fn)>, q': seq<(nat, Fn)>, depth: map<Fn, nat>, depth': map<Fn, nat>)
    requires Grown(q, q', depth, depth') && Extends(depth, depth')
    ensures depth.Keys <= depth'.Keys && (depth.Keys == depth'.Keys ==> q' == q)
  {
  }

  /** The call tree: shown targets of every function listed, every listed function within the
      depth when silenced calls count nothing, and every function within the depth listed when
      they count one. When no callee in the graph is silenced the two bounds meet. */
  method BuildTree(cg: CallGraph, root: Fn, maxDepth: nat, silenced: Fn -> bool) returns (tree: Tree)
    requires cg.Valid() && cg.cgBuilt && CalleesKnown(cg.edges)
    ensures Faithful(cg.edges, silenced, tree)
    ensures forall f :: f in tree ==> exists cost: nat :: cost < maxDepth && AtCost(cg.edges, root, f, silenced, cost)
    ensures forall f, k: nat :: k < maxDepth && InCalls(cg.edges, root, f, k) && Filter(cg.edges, OfCaller(f)) != [] ==> f in tree
    ensures NoneSilenced(cg.edges, silenced) ==> ExactTree(cg.edges, root, maxDepth, tree)
  {
    hide ExactTree, NoneSilenced, Filter, Reached, Ordered, AllSettled, Faithful, CalleesKnown, Callees, AtCost, InCalls, Shallow, Once, Grown, Gathered, Extends;
    var q, visited := [(0, root)], {root};
    ghost var depth: map<Fn, nat>, calls: map<Fn, nat> := map[root := 0], map[root := 0];
    ghost var front: nat := 0;
    tree := map[];
    Start(cg.edges, root, silenced, maxDepth);
    while q != []
      invariant visited == depth.Keys == calls.Keys && visited <= Callees(cg.edges) + {root}
      invariant root in depth && calls[root] == 0
      invariant Reached(cg.edges, root, silenced, depth, calls) && Ordered(q, depth, calls, front) && Once(q, tree)
      invariant AllSettled(cg.edges, maxDepth, q, depth, calls, tree)
      invariant Faithful(cg.edges, silenced, tree) && Shallow(maxDepth, depth, tree)
      decreases Callees(cg.edges) + {root} - visited, |q|
    {
      var (d, func) := q[0];
      Pop(q, tree, depth, calls, front);
      front := calls[func];
      if d >= maxDepth {
        Pruned(cg.edges, maxDepth, q, depth, calls, tree);
        q := q[1..];
        continue;
      }
      var out := cg.GetOutEdges(func);
      FilterOut(cg.edges, func);
      ghost var q0, depth0, calls0, tree0 := q, depth, calls, tree;
      ShallowVisited(maxDepth, depth, tree);
      var treeEdges;
      q, visited, treeEdges, depth, calls := Follow(cg.edges, root, func, d, out, silenced, q[1..], visited, tree[func := {}], depth, calls);
      ExtendsAt(depth0, depth, root);
      ExtendsAt(calls0, calls, root);
      ExtendsAt(depth0, depth, func);
      ExtendsAt(calls0, calls, func);
      GathersShown(out, silenced, treeEdges, calls, calls[func] + 1);
      Listing(cg.edges, maxDepth, silenced, func, q, depth0, depth, tree, treeEdges);
      Followed1(cg.edges, silenced, func, out, treeEdges, calls);
      if out != [] { tree := tree[func := treeEdges]; }
      Enter(cg.edges, maxDepth, func, q0, q, depth0, depth, calls0, calls, tree0, tree);
      GrownQueue(q0[1..], q, depth0, depth);
    }
    Finish(cg.edges, root, silenced, maxDepth, depth, calls, tree);
    if NoneSilenced(cg.edges, silenced) { Exact(cg.edges, root, silenced, maxDepth, tree); }
  }
}
