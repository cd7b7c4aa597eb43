/** The call graph: one array of edges with a range per caller, and a reverse index. */
module CallGraph {
  import opened Lists

  type Fn = int
  type Site = int

  datatype Option<T> = None | Some(value: T)

  datatype EdgeKind = DIRECT | INDIRECT | CALLANYTHING

  datatype CallEdge = CallEdge(kind: EdgeKind, caller: Fn, callsite: Option<Site>, callee: Option<Fn>)

  /** A call instruction and the function it names, when it names one. */
  datatype Call = Call(site: Site, direct: Option<Fn>)

  datatype Function = Function(id: Fn, declaration: bool, calls: seq<Call>)

  /** The functions of the loaded module in order, and those the tool skips. */
  datatype Module = Module(functions: seq<Function>, skipped: set<Fn>)

  /** The targets of an unnamed call, or of the patch of a function; none when it throws. */
  type Resolver = (Option<Site>, Fn) -> Option<seq<(EdgeKind, Option<Fn>)>>

  // ----- the edges of a module

  function Targets(f: Fn, site: Option<Site>, targets: seq<(EdgeKind, Option<Fn>)>): seq<CallEdge> {
    if targets == [] then []
    else [CallEdge(targets[0].0, f, site, targets[0].1)] + Targets(f, site, targets[1..])
  }

  function CallEdges(m: Module, f: Fn, call: Call, resolver: Resolver): Option<seq<CallEdge>> {
    if call.direct.Some? then
      Some(if call.direct.value in m.skipped then [] else [CallEdge(DIRECT, f, Some(call.site), call.direct)])
    else
      var t := resolver(Some(call.site), f);
      if t.None? then None else Some(Targets(f, Some(call.site), t.value))
  }

  function Join(a: Option<seq<CallEdge>>, b: Option<seq<CallEdge>>): Option<seq<CallEdge>> {
    if a.None? || b.None? then None else Some(a.value + b.value)
  }

  function BodyEdges(m: Module, f: Fn, calls: seq<Call>, resolver: Resolver): Option<seq<CallEdge>>
    decreases |calls|
  {
    if calls == [] then Some([])
    else Join(BodyEdges(m, f, calls[..|calls| - 1], resolver), CallEdges(m, f, calls[|calls| - 1], resolver))
  }

  function FunctionEdges(m: Module, f: Function, resolver: Resolver): Option<seq<CallEdge>> {
    if f.id in m.skipped || f.declaration then Some([])
    else
      var patch := resolver(None, f.id);
      Join(BodyEdges(m, f.id, f.calls, resolver), if patch.None? then None else Some(Targets(f.id, None, patch.value)))
  }

  function ModuleEdges(m: Module, functions: seq<Function>, resolver: Resolver): Option<seq<CallEdge>>
    decreases |functions|
  {
    if functions == [] then Some([])
    else Join(ModuleEdges(m, functions[..|functions| - 1], resolver), FunctionEdges(m, functions[|functions| - 1], resolver))
  }

  function SitesOf(calls: seq<Call>): set<Site> { set c | c in calls :: c.site }

  ghost predicate DistinctSites(calls: seq<Call>) {
    forall a, b :: 0 <= a < b < |calls| ==> calls[a].site != calls[b].site
  }

  /** Functions are distinct objects, and so are call instructions. */
  ghost predicate WellFormed(functions: seq<Function>) {
    && (forall i, j :: 0 <= i < j < |functions| ==> functions[i].id != functions[j].id)
    && (forall i :: 0 <= i < |functions| ==> DistinctSites(functions[i].calls))
    && (forall i, j :: 0 <= i < j < |functions| ==> SitesOf(functions[i].calls) !! SitesOf(functions[j].calls))
  }

  /** The call instruction is in the body of the function. */
  ghost predicate Owns(functions: seq<Function>, f: Fn, site: Site) {
    exists i :: 0 <= i < |functions| && functions[i].id == f && site in SitesOf(functions[i].calls)
  }

  lemma OwnerIsUnique(functions: seq<Function>, f: Fn, g: Fn, site: Site)
    requires WellFormed(functions) && Owns(functions, f, site) && Owns(functions, g, site)
    ensures f == g
  {
    hide SitesOf, DistinctSites;
    var i :| 0 <= i < |functions| && functions[i].id == f && site in SitesOf(functions[i].calls);
    var j :| 0 <= j < |functions| && functions[j].id == g && site in SitesOf(functions[j].calls);
    assert i == j;
  }

  /** The ranges partition the edges by caller. */
  ghost predicate Ranged(edges: seq<CallEdge>, ranges: map<Fn, (nat, nat)>) {
    && (forall f :: f in ranges ==> ranges[f].0 < ranges[f].1 <= |edges|)
    && (forall i :: 0 <= i < |edges| ==> edges[i].caller in ranges)
    && (forall i, f :: 0 <= i < |edges| && f in ranges ==> (edges[i].caller == f <==> ranges[f].0 <= i < ranges[f].1))
  }

  ghost predicate CallersAre(edges: seq<CallEdge>, f: Fn) { forall i :: 0 <= i < |edges| ==> edges[i].caller == f }

  lemma RangedAppend(edges: seq<CallEdge>, ranges: map<Fn, (nat, nat)>, f: Fn, block: seq<CallEdge>)
    requires Ranged(edges, ranges) && f !in ranges && CallersAre(block, f) && block != []
    ensures Ranged(edges + block, ranges[f := (|edges|, |edges| + |block|)])
  {
    var all := edges + block;
    assert forall i :: 0 <= i < |all| ==> all[i] == if i < |edges| then edges[i] else block[i - |edges|];
  }

  /** The edges of one call instruction are adjacent. */
  ghost predicate Adjacent(edges: seq<CallEdge>) {
    forall i, j, k :: 0 <= i < j < k < |edges| && edges[i].callsite.Some? && edges[i].callsite == edges[k].callsite ==>
      edges[j].callsite == edges[i].callsite
  }

  ghost predicate SitesIn(edges: seq<CallEdge>, sites: set<Site>) {
    forall i :: 0 <= i < |edges| && edges[i].callsite.Some? ==> edges[i].callsite.value in sites
  }

  lemma AdjacentAppend(a: seq<CallEdge>, b: seq<CallEdge>, s: set<Site>, t: set<Site>)
    requires Adjacent(a) && Adjacent(b) && SitesIn(a, s) && SitesIn(b, t) && s !! t
    ensures Adjacent(a + b) && SitesIn(a + b, s + t)
  {
    var all := a + b;
    assert forall i :: 0 <= i < |all| ==> all[i] == if i < |a| then a[i] else b[i - |a|];
    forall i, j, k | 0 <= i < j < k < |all| && all[i].callsite.Some? && all[i].callsite == all[k].callsite
      ensures all[j].callsite == all[i].callsite
    {
      if k < |a| {
        assert a[j].callsite == a[i].callsite;
      } else if |a| <= i {
        assert b[j - |a|].callsite == b[i - |a|].callsite;
      } else {
        assert false;
      }
    }
  }

  /** One call instruction, or a patch: all edges have the same call site. */
  ghost predicate OneSite(edges: seq<CallEdge>, f: Fn, site: Option<Site>) {
    forall i :: 0 <= i < |edges| ==> edges[i].caller == f && edges[i].callsite == site
  }

  lemma {:induction false} TargetsShape(f: Fn, site: Option<Site>, targets: seq<(EdgeKind, Option<Fn>)>)
    ensures OneSite(Targets(f, site, targets), f, site)
  {
    if targets != [] { TargetsShape(f, site, targets[1..]); }
  }

  lemma OneSiteShape(edges: seq<CallEdge>, f: Fn, site: Option<Site>)
    requires OneSite(edges, f, site)
    ensures CallersAre(edges, f) && Adjacent(edges) && SitesIn(edges, if site.Some? then {site.value} else {})
  {
  }

  lemma CallersAppend(a: seq<CallEdge>, b: seq<CallEdge>, f: Fn)
    requires CallersAre(a, f) && CallersAre(b, f)
    ensures CallersAre(a + b, f)
  {
  }

  lemma CallShape(m: Module, f: Fn, call: Call, resolver: Resolver)
    requires CallEdges(m, f, call, resolver).Some?
    ensures OneSite(CallEdges(m, f, call, resolver).value, f, Some(call.site))
  {
    hide Targets;
    var t := resolver(Some(call.site), f);
    if call.direct.None? { TargetsShape(f, Some(call.site), t.value); }
  }

  lemma {:induction false} BodyShape(m: Module, f: Fn, calls: seq<Call>, resolver: Resolver)
    requires DistinctSites(calls) && BodyEdges(m, f, calls, resolver).Some?
    ensures var edges := BodyEdges(m, f, calls, resolver).value;
      CallersAre(edges, f) && Adjacent(edges) && SitesIn(edges, SitesOf(calls))
    decreases |calls|
  {
    if calls != [] {
      var n := |calls| - 1;
      var init, last := calls[..n], calls[n];
      BodyShape(m, f, init, resolver);
      CallShape(m, f, last, resolver);
      var a, b := BodyEdges(m, f, init, resolver).value, CallEdges(m, f, last, resolver).value;
      assert last.site !in SitesOf(init);
      assert SitesOf(calls) == SitesOf(init) + {last.site} by { assert calls == init + [last]; }
      hide CallEdges, BodyEdges, Adjacent, CallersAre, SitesIn, OneSite;
      OneSiteShape(b, f, Some(last.site));
      AdjacentAppend(a, b, SitesOf(init), {last.site});
      CallersAppend(a, b, f);
    }
  }

  lemma FunctionShape(m: Module, f: Function, resolver: Resolver)
    requires DistinctSites(f.calls) && FunctionEdges(m, f, resolver).Some?
    ensures var edges := FunctionEdges(m, f, resolver).value;
      CallersAre(edges, f.id) && Adjacent(edges) && SitesIn(edges, SitesOf(f.calls))
  {
    hide BodyEdges, Targets;
    if f.id !in m.skipped && !f.declaration {
      var patch := resolver(None, f.id).value;
      var a, b := BodyEdges(m, f.id, f.calls, resolver).value, Targets(f.id, None, patch);
      BodyShape(m, f.id, f.calls, resolver);
      TargetsShape(f.id, None, patch);
      hide Adjacent, CallersAre, SitesIn, OneSite;
      OneSiteShape(b, f.id, None);
      AdjacentAppend(a, b, SitesOf(f.calls), {});
      assert SitesOf(f.calls) + {} == SitesOf(f.calls);
      CallersAppend(a, b, f.id);
    }
  }

  /** What a built call graph over the functions of a module satisfies. */
  ghost predicate Indexed(functions: seq<Function>, edges: seq<CallEdge>, ranges: map<Fn, (nat, nat)>) {
    && Ranged(edges, ranges)
    && Adjacent(edges)
    && (forall i :: 0 <= i < |edges| && edges[i].callsite.Some? ==> Owns(functions, edges[i].caller, edges[i].callsite.value))
  }

  lemma OwnsMore(functions: seq<Function>, more: Function, f: Fn, site: Site)
    requires Owns(functions, f, site)
    ensures Owns(functions + [more], f, site)
  {
    var i :| 0 <= i < |functions| && functions[i].id == f && site in SitesOf(functions[i].calls);
    assert (functions + [more])[i] == functions[i];
  }

  ghost predicate OwnedEdges(functions: seq<Function>, edges: seq<CallEdge>) {
    forall i :: 0 <= i < |edges| && edges[i].callsite.Some? ==> Owns(functions, edges[i].caller, edges[i].callsite.value)
  }

  lemma OwnedAppend(functions: seq<Function>, f: Function, edges: seq<CallEdge>, block: seq<CallEdge>)
    requires OwnedEdges(functions, edges) && CallersAre(block, f.id) && SitesIn(block, SitesOf(f.calls))
    ensures OwnedEdges(functions + [f], edges + block)
  {
    hide Owns, SitesOf;
    var all, fs := edges + block, functions + [f];
    forall i | 0 <= i < |all| && all[i].callsite.Some? ensures Owns(fs, all[i].caller, all[i].callsite.value) {
      if i < |edges| {
        OwnsMore(functions, f, edges[i].caller, edges[i].callsite.value);
      } else {
        LastOwns(functions, f, block[i - |edges|].callsite.value);
      }
    }
  }

  lemma LastOwns(functions: seq<Function>, f: Function, site: Site)
    requires site in SitesOf(f.calls)
    ensures Owns(functions + [f], f.id, site)
  {
    assert (functions + [f])[|functions|] == f;
  }

  function SitesOfAll(functions: seq<Function>): set<Site> {
    set i, s | 0 <= i < |functions| && s in SitesOf(functions[i].calls) :: s
  }

  class CallGraph {
    const m: Module
    var cgBuilt: bool
    var ranges: map<Fn, (nat, nat)>
    var edges: seq<CallEdge>
    var revBuilt: bool
    var revCG: map<Option<Fn>, seq<CallEdge>>
    var callAnything: seq<CallEdge>

    ghost predicate Valid()
      reads this
    {
      && WellFormed(m.functions)
      && (cgBuilt ==> Indexed(m.functions, edges, ranges))
      && (revBuilt ==> cgBuilt && Reversed(edges))
      && (!revBuilt ==> revCG == map[] && callAnything == [])
    }

    /** The reverse index of the first edges: each edge is in the list of its callee, or, when
        it may call anything, in the one list kept for those. */
    ghost predicate Reversed(done: seq<CallEdge>)
      reads this
    {
      && callAnything == Filter(done, IsAnything)
      && forall callee :: Listed(revCG, callee) == Filter(done, CallsTo(callee))
    }

    constructor (m: Module)
      requires WellFormed(m.functions)
      ensures Valid() && !cgBuilt && !revBuilt && this.m == m
    {
      this.m := m;
      cgBuilt, ranges, edges := false, map[], [];
      revBuilt, revCG, callAnything := false, map[], [];
    }

    method Rebuild()
      requires Valid()
      modifies this
      ensures Valid() && !cgBuilt && !revBuilt && edges == []
    {
      cgBuilt, revBuilt := false, false;
      ranges, edges := map[], [];
      revCG, callAnything := map[], [];
    }

    /** Builds the edges of the module; a resolver that throws leaves the graph unbuilt. */
    method BuildCG(resolver: Resolver) returns (ok: bool)
      requires Valid()
      modifies `cgBuilt, `ranges, `edges
      ensures Valid() && ok == cgBuilt
      ensures old(cgBuilt) ==> ok && edges == old(edges) && ranges == old(ranges)
      ensures !old(cgBuilt) ==> (ok <==> ModuleEdges(m, m.functions, resolver).Some?)
      ensures !old(cgBuilt) && ok ==> edges == ModuleEdges(m, m.functions, resolver).value
    {
      hide FunctionEdges, Ranged, Adjacent, OwnedEdges, SitesIn, CallersAre;
      if cgBuilt { return true; }
      ranges, edges := map[], [];
      IndexedStart();
      assert m.functions[..0] == [];
      for i := 0 to |m.functions|
        invariant !cgBuilt && !revBuilt && revCG == old(revCG) && callAnything == old(callAnything)
        invariant ModuleEdges(m, m.functions[..i], resolver) == Some(edges)
        invariant Ranged(edges, ranges) && Adjacent(edges)
        invariant OwnedEdges(m.functions[..i], edges) && SitesIn(edges, SitesOfAll(m.functions[..i]))
        invariant forall f :: f in ranges ==> exists j :: 0 <= j < i && m.functions[j].id == f
      {
        var f := m.functions[i];
        var block := FunctionBlock(f, resolver);
        assert m.functions[..i + 1][..i] == m.functions[..i];
        if block.None? {
          ModuleFails(m, m.functions, i + 1, resolver);
          return false;
        }
        FunctionShape(m, f, resolver);
        assert m.functions[..i + 1] == m.functions[..i] + [f];
        OwnedAppend(m.functions[..i], f, edges, block.value);
        AllSitesStep(m.functions, i);
        AdjacentAppend(edges, block.value, SitesOfAll(m.functions[..i]), SitesOf(f.calls));
        var startIdx := |edges|;
        if block.value != [] {
          RangedAppend(edges, ranges, f.id, block.value);
          ranges := ranges[f.id := (startIdx, startIdx + |block.value|)];
        }
        ghost var before := edges;
        edges := edges + block.value;
        assert block.value == [] ==> edges == before;
      }
      assert m.functions[..|m.functions|] == m.functions;
      IndexedEnd(m.functions, edges, ranges);
      cgBuilt := true;
      ok := true;
    }

    /** The loops over the calls of one function, and its patch. */
    method FunctionBlock(f: Function, resolver: Resolver) returns (block: Option<seq<CallEdge>>)
      ensures block == FunctionEdges(m, f, resolver)
    {
      if f.id in m.skipped || f.declaration { return Some([]); }
      var out: seq<CallEdge> := [];
      for i := 0 to |f.calls|
        invariant BodyEdges(m, f.id, f.calls[..i], resolver) == Some(out)
      {
        var call := f.calls[i];
        assert f.calls[..i + 1][..i] == f.calls[..i];
        if call.direct.Some? {
          if call.direct.value !in m.skipped {
            out := out + [CallEdge(DIRECT, f.id, Some(call.site), call.direct)];
          } else {
            assert out + [] == out;
          }
        } else {
          var t := resolver(Some(call.site), f.id);
          if t.None? {
            BodyFails(m, f.id, f.calls, i + 1, resolver);
            return None;
          }
          var added := AddTargets(f.id, Some(call.site), t.value);
          out := out + added;
        }
      }
      assert f.calls[..|f.calls|] == f.calls;
      var patch := resolver(None, f.id);
      if patch.None? { return None; }
      var added := AddTargets(f.id, None, patch.value);
      block := Some(out + added);
    }

    method AddTargets(f: Fn, site: Option<Site>, targets: seq<(EdgeKind, Option<Fn>)>) returns (added: seq<CallEdge>)
      ensures added == Targets(f, site, targets)
    {
      added := [];
      for i := 0 to |targets|
        invariant added + Targets(f, site, targets[i..]) == Targets(f, site, targets)
      {
        assert targets[i..][1..] == targets[i + 1..];
        added := added + [CallEdge(targets[i].0, f, site, targets[i].1)];
      }
    }

    method BuildReverseCG()
      requires Valid() && cgBuilt
      modifies `revBuilt, `revCG, `callAnything
      ensures Valid() && revBuilt
    {
      hide Filter;
      if revBuilt { return; }
      FilterNothing(IsAnything);
      forall callee { FilterNothing(CallsTo(callee)); }
      for i := 0 to |edges|
        invariant !revBuilt && Reversed(edges[..i])
      {
        var edge := edges[i];
        assert edges[..i + 1] == edges[..i] + [edge];
        FilterLast(edges[..i], edge, IsAnything);
        forall callee { FilterLast(edges[..i], edge, CallsTo(callee)); }
        if edge.kind.CALLANYTHING? {
          callAnything := callAnything + [edge];
        } else {
          revCG := revCG[edge.callee := (if edge.callee in revCG then revCG[edge.callee] else []) + [edge]];
        }
      }
      assert edges[..|edges|] == edges;
      revBuilt := true;
    }

    /** The out-edges of a function are all edges with that caller, in order. */
    method GetOutEdges(from: Fn) returns (r: seq<CallEdge>)
      requires Valid() && cgBuilt
      ensures r == Filter(edges, OfCaller(from))
    {
      if from !in ranges {
        FilterNone(edges, OfCaller(from));
        return [];
      }
      var (start, end) := ranges[from];
      FilterIsSlice(edges, OfCaller(from), start, end);
      r := edges[start..end];
    }

    /** The out-edges of a call instruction are all edges with that call site, in order. */
    method GetOutEdgesAtCallSite(site: Site, caller: Fn) returns (r: seq<CallEdge>)
      requires Valid() && cgBuilt && Owns(m.functions, caller, site)
      ensures r == Filter(edges, AtSite(site))
    {
      hide Owns;
      forall i | 0 <= i < |edges| && AtSite(site)(edges[i]) ensures edges[i].caller == caller {
        OwnerIsUnique(m.functions, edges[i].caller, caller, site);
      }
      if caller !in ranges {
        FilterNone(edges, AtSite(site));
        return [];
      }
      var (start, end) := ranges[caller];
      var siteStart := start;
      while siteStart < end && !AtSite(site)(edges[siteStart])
        invariant start <= siteStart <= end
        invariant forall i :: start <= i < siteStart ==> !AtSite(site)(edges[i])
      {
        siteStart := siteStart + 1;
      }
      if siteStart == end {
        FilterNone(edges, AtSite(site));
        return [];
      }
      var siteEnd := siteStart + 1;
      while siteEnd < end && AtSite(site)(edges[siteEnd])
        invariant siteStart < siteEnd <= end
        invariant forall i :: siteStart <= i < siteEnd ==> AtSite(site)(edges[i])
      {
        siteEnd := siteEnd + 1;
      }
      forall i | 0 <= i < |edges| ensures AtSite(site)(edges[i]) <==> siteStart <= i < siteEnd {
        assert siteEnd < end ==> !AtSite(site)(edges[siteEnd]);
      }
      FilterIsSlice(edges, AtSite(site), siteStart, siteEnd);
      r := edges[siteStart..siteEnd];
    }

    method GetInEdges(to: Fn) returns (r: seq<CallEdge>)
      requires Valid() && revBuilt
      ensures r == Filter(edges, CallsTo(Some(to)))
    {
      r := if Some(to) in revCG then revCG[Some(to)] else [];
    }

    method GetCallAnythingEdges() returns (r: seq<CallEdge>)
      requires Valid()
      ensures revBuilt ==> r == Filter(edges, IsAnything)
    {
      r := callAnything;
    }
  }

  predicate IsAnything(e: CallEdge) { e.kind.CALLANYTHING? }

  function CallsTo(callee: Option<Fn>): CallEdge -> bool {
    (e: CallEdge) => !e.kind.CALLANYTHING? && e.callee == callee
  }

  function OfCaller(f: Fn): CallEdge -> bool {
    (e: CallEdge) => e.caller == f
  }

  function AtSite(site: Site): CallEdge -> bool {
    (e: CallEdge) => e.callsite == Some(site)
  }

  function Listed(rev: map<Option<Fn>, seq<CallEdge>>, callee: Option<Fn>): seq<CallEdge> {
    if callee in rev then rev[callee] else []
  }

  /** A failing call makes the whole body fail. */
  lemma {:induction false} BodyFails(m: Module, f: Fn, calls: seq<Call>, n: nat, resolver: Resolver)
    requires n <= |calls| && BodyEdges(m, f, calls[..n], resolver).None?
    ensures BodyEdges(m, f, calls, resolver).None?
    decreases |calls|
  {
    if n < |calls| {
      assert calls[..|calls| - 1][..n] == calls[..n];
      BodyFails(m, f, calls[..|calls| - 1], n, resolver);
    } else {
      assert calls[..n] == calls;
    }
  }

  lemma {:induction false} ModuleFails(m: Module, functions: seq<Function>, n: nat, resolver: Resolver)
    requires n <= |functions| && ModuleEdges(m, functions[..n], resolver).None?
    ensures ModuleEdges(m, functions, resolver).None?
    decreases |functions|
  {
    if n < |functions| {
      assert functions[..|functions| - 1][..n] == functions[..n];
      ModuleFails(m, functions[..|functions| - 1], n, resolver);
    } else {
      assert functions[..n] == functions;
    }
  }

  lemma IndexedStart()
    ensures Ranged([], map[]) && Adjacent([]) && OwnedEdges([], []) && forall sites :: SitesIn([], sites)
  {
  }

  lemma IndexedEnd(functions: seq<Function>, edges: seq<CallEdge>, ranges: map<Fn, (nat, nat)>)
    requires Ranged(edges, ranges) && Adjacent(edges) && OwnedEdges(functions, edges)
    ensures Indexed(functions, edges, ranges)
  {
  }

  lemma AllSitesStep(functions: seq<Function>, i: nat)
    requires WellFormed(functions) && i < |functions|
    ensures SitesOfAll(functions[..i + 1]) == SitesOfAll(functions[..i]) + SitesOf(functions[i].calls)
    ensures SitesOfAll(functions[..i]) !! SitesOf(functions[i].calls)
  {
    hide SitesOf, DistinctSites;
    var a, b := functions[..i], functions[..i + 1];
    assert forall j :: 0 <= j < i ==> b[j] == a[j];
    assert b[i] == functions[i];
    forall s | s in SitesOf(functions[i].calls) ensures s in SitesOfAll(b) {}
    forall s | s in SitesOfAll(a) ensures s in SitesOfAll(b) {
      var j :| 0 <= j < |a| && s in SitesOf(a[j].calls);
      assert s in SitesOf(b[j].calls);
    }
  }
}
