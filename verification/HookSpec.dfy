/** What the hook runtime records about a run, as functions of the trace of records it was
    sent. Windows and types are values here, without pools; the history of allocas and the
    ranges of it that scopes erase are those of the runtime. */
module HookSpec {

  type u64 = x: int | 0 <= x < 0x1_0000_0000_0000_0000

  datatype Action =
    | Alloca | HeapAlloca | HeapFree | Region | Probe
    | BeginScope | EndScope | Landing | BasicBlock
    | Arg | ArgClear | Cons

  datatype Record = Record(vid: int, action: Action, ptr: u64, size: u64)

  /** The settings of a run: the length of a points-to context, the lengths of the two kinds
      of windows, and which of the three tables are kept. */
  datatype Config = Config(k: nat, bbWidth: nat, cgWidth: nat, ptrMode: bool, bbMode: bool, cgMode: bool)

  datatype Option<T> = None | Some(value: T)

  // ----- points-to table

  datatype Region = Region(vid: int, size: u64)

  /** An open scope, and the range of the alloca history that its end erases. */
  datatype Scope = Scope(vid: int, start: nat, end: nat)

  datatype PtrState = PtrState(
    live: map<u64, Region>, allocs: seq<u64>, scopes: seq<Scope>, pts: map<int, set<(int, seq<int>)>>)

  function Range<T>(s: seq<T>, start: nat, end: nat): seq<T> {
    if start <= end <= |s| then s[start..end] else []
  }

  function Erase(live: map<u64, Region>, addrs: seq<u64>): map<u64, Region> {
    live - set a | a in addrs
  }

  function PopScope(s: PtrState): PtrState
    requires s.scopes != []
  {
    var top := s.scopes[|s.scopes| - 1];
    s.(live := Erase(s.live, Range(s.allocs, top.start, top.end)), scopes := s.scopes[..|s.scopes| - 1])
  }

  function PopUntil(s: PtrState, vid: int): PtrState
    decreases |s.scopes|
  {
    if s.scopes == [] || s.scopes[|s.scopes| - 1].vid == vid then s else PopUntil(PopScope(s), vid)
  }

  ghost predicate IsFloor(keys: set<u64>, addr: u64, base: u64) {
    base in keys && base <= addr && forall b :: b in keys && b <= addr ==> b <= base
  }

  /** The end of a region, as 64-bit arithmetic computes it. */
  function EndOf(base: u64, size: u64): u64 { (base + size) % 0x1_0000_0000_0000_0000 }

  /** The region that a probe hits: the one with the greatest base not above the address,
      provided the address is below its end. */
  ghost predicate Hits(live: map<u64, Region>, addr: u64, vid: int) {
    exists base :: IsFloor(live.Keys, addr, base) && addr < EndOf(base, live[base].size) && live[base].vid == vid
  }

  /** The outermost `k` open scopes. */
  function Context(scopes: seq<Scope>, k: nat): seq<int> {
    seq(if |scopes| < k then |scopes| else k, i requires 0 <= i < |scopes| => scopes[i].vid)
  }

  ghost function TableWith(pts: map<int, set<(int, seq<int>)>>, key: int, entry: (int, seq<int>)): map<int, set<(int, seq<int>)>> {
    pts[key := (if key in pts then pts[key] else {}) + {entry}]
  }

  ghost function StepProbe(s: PtrState, r: Record, k: nat): PtrState {
    if exists vid :: Hits(s.live, r.ptr, vid) then
      var vid :| Hits(s.live, r.ptr, vid);
      s.(pts := TableWith(s.pts, r.vid, (vid, Context(s.scopes, k))))
    else s
  }

  ghost function StepPtr(s: PtrState, r: Record, k: nat): PtrState {
    match r.action
    case Alloca =>
      if s.scopes == [] then s
      else
        var n := |s.scopes| - 1;
        s.(live := s.live[r.ptr := Region.Region(r.vid, r.size)],
           allocs := s.allocs + [r.ptr],
           scopes := s.scopes[n := s.scopes[n].(end := |s.allocs|)])
    case HeapAlloca => s.(live := s.live[r.ptr := Region.Region(r.vid, r.size)])
    case Region => s.(live := s.live[r.ptr := Region.Region(r.vid, r.size)])
    case HeapFree => s.(live := s.live - {r.ptr})
    case Probe => StepProbe(s, r, k)
    case BeginScope => s.(scopes := s.scopes + [Scope(r.vid, |s.allocs|, |s.allocs|)])
    case EndScope => if s.scopes == [] then s else PopScope(s)
    case Landing => PopUntil(s, r.vid)
    case _ => s
  }

  // ----- call contexts

  datatype PtrType = PtrType(vid: int, size: u64)

  /** An argument as the call graph sees it. */
  datatype ArgValue = PosNum | ZeroNum | NegNum | NullPtr | Ptr(types: seq<PtrType>)

  /** A call: the function and its abstract arguments. */
  datatype Level = Level(vid: int, args: seq<ArgValue>)

  datatype CgState = CgState(
    pending: seq<ArgValue>, cons: map<u64, seq<PtrType>>, calls: seq<Level>, context: seq<(int, seq<PtrType>)>)

  function Bigger(types: seq<PtrType>, size: u64): seq<PtrType> {
    if types == [] then []
    else (if types[0].size <= size then [] else [types[0]]) + Bigger(types[1..], size)
  }

  function TypesAt(cons: map<u64, seq<PtrType>>, addr: u64): seq<PtrType> {
    if addr in cons then cons[addr] else []
  }

  function ArgOf(r: Record, cons: map<u64, seq<PtrType>>): ArgValue {
    if r.size == 1 then (if r.ptr == 0 then NullPtr else Ptr(TypesAt(cons, r.ptr)))
    else if r.ptr == 0 then ZeroNum
    else if r.ptr < 0x8000_0000_0000_0000 then PosNum
    else NegNum
  }

  function AllTypes(args: seq<ArgValue>): seq<PtrType> {
    if args == [] then [] else (if args[0].Ptr? then args[0].types else []) + AllTypes(args[1..])
  }

  function PopContext(context: seq<(int, seq<PtrType>)>, vid: int): seq<(int, seq<PtrType>)> {
    if context == [] || context[|context| - 1].0 == vid then context else PopContext(context[..|context| - 1], vid)
  }

  function StepCg(s: CgState, r: Record): CgState {
    match r.action
    case Arg => s.(pending := s.pending + [ArgOf(r, s.cons)])
    case ArgClear => s.(pending := [])
    case Cons => s.(cons := s.cons[r.ptr := Bigger(TypesAt(s.cons, r.ptr), r.size) + [PtrType(r.vid, r.size)]])
    case BeginScope =>
      s.(pending := [], calls := s.calls + [Level(r.vid, s.pending)], context := s.context + [(r.vid, AllTypes(s.pending))])
    case EndScope => if s.context == [] then s else s.(context := s.context[..|s.context| - 1])
    case Landing => s.(context := PopContext(s.context, r.vid))
    case _ => s
  }

  // ----- basic blocks

  /** The 32-bit signed id that a 64-bit size is cast to. */
  function ToVid(size: u64): int {
    var low := size % 0x1_0000_0000;
    if low < 0x8000_0000 then low else low - 0x1_0000_0000
  }

  // ----- the whole state after a trace

  datatype State = State(ptr: PtrState, blocks: seq<int>, cg: CgState)

  const START := State(PtrState(map[], [], [], map[]), [], CgState([], map[], [], []))

  ghost function Step(s: State, r: Record, c: Config): State {
    State(
      if c.ptrMode then StepPtr(s.ptr, r, c.k) else s.ptr,
      if c.bbMode && r.action.BasicBlock? then s.blocks + [ToVid(r.size)] else s.blocks,
      if c.cgMode then StepCg(s.cg, r) else s.cg)
  }

  ghost function Run(trace: seq<Record>, c: Config): State
    decreases |trace|
  {
    if trace == [] then START else Step(Run(trace[..|trace| - 1], c), trace[|trace| - 1], c)
  }

  /** What the runtime assumes of the instrumented program: a scope is open when one is
      ended or allocated in. */
  predicate Legal(s: State, r: Record, c: Config) {
    && (c.ptrMode && (r.action.EndScope? || r.action.Alloca?) ==> s.ptr.scopes != [])
    && (c.cgMode && r.action.EndScope? ==> s.cg.context != [])
  }

  ghost predicate LegalTrace(trace: seq<Record>, c: Config)
    decreases |trace|
  {
    trace == [] ||
    (LegalTrace(trace[..|trace| - 1], c) && Legal(Run(trace[..|trace| - 1], c), trace[|trace| - 1], c))
  }

  lemma RunStep(trace: seq<Record>, r: Record, c: Config)
    ensures Run(trace + [r], c) == Step(Run(trace, c), r, c)
    ensures LegalTrace(trace + [r], c) <==> LegalTrace(trace, c) && Legal(Run(trace, c), r, c)
  {
    var all := trace + [r];
    assert all[..|all| - 1] == trace && all[|all| - 1] == r;
  }

  // ----- probes against a linear scan

  /** Live regions lie apart, and none wraps around the end of the address space. */
  ghost predicate Apart(live: map<u64, Region>) {
    && (forall b :: b in live ==> b + live[b].size < 0x1_0000_0000_0000_0000)
    && (forall b, b' :: b in live && b' in live && b < b' ==> b + live[b].size <= b')
  }

  /** A linear scan over the live regions finds `vid` at the address. */
  ghost predicate Scanned(live: map<u64, Region>, addr: u64, vid: int) {
    exists b :: b in live && b <= addr < b + live[b].size && live[b].vid == vid
  }

  lemma {:induction false} FloorExists(keys: set<u64>, addr: u64, b: u64)
    requires b in keys && b <= addr
    ensures exists base :: IsFloor(keys, addr, base)
    decreases addr - b
  {
    if !IsFloor(keys, addr, b) {
      var b' :| b' in keys && b' <= addr && b < b';
      FloorExists(keys, addr, b');
    }
  }

  lemma FloorIsHit(live: map<u64, Region>, addr: u64, b: u64, base: u64)
    requires Apart(live) && IsFloor(live.Keys, addr, base)
    requires b in live && b <= addr < b + live[b].size
    ensures b == base
  {
  }

  lemma NoWrap(live: map<u64, Region>, b: u64)
    requires Apart(live) && b in live
    ensures EndOf(b, live[b].size) == b + live[b].size
  {
  }

  /** On regions that lie apart, the ordered lookup of a probe finds what a scan finds. */
  lemma ProbeIsScan(live: map<u64, Region>, addr: u64, vid: int)
    requires Apart(live)
    ensures Hits(live, addr, vid) <==> Scanned(live, addr, vid)
  {
    hide Apart, EndOf;
    if Scanned(live, addr, vid) {
      var b: u64 :| b in live && b <= addr < b + live[b].size && live[b].vid == vid;
      FloorExists(live.Keys, addr, b);
      var base: u64 :| IsFloor(live.Keys, addr, base);
      FloorIsHit(live, addr, b, base);
      NoWrap(live, base);
    }
    if Hits(live, addr, vid) {
      var base: u64 :| IsFloor(live.Keys, addr, base) && addr < EndOf(base, live[base].size) && live[base].vid == vid;
      NoWrap(live, base);
    }
  }

  /** One address lies in at most one of regions that lie apart. */
  lemma ScanIsUnique(live: map<u64, Region>, addr: u64, v: int, w: int)
    requires Apart(live) && Scanned(live, addr, v) && Scanned(live, addr, w)
    ensures v == w
  {
  }

  lemma HitsIsUnique(live: map<u64, Region>, addr: u64, v: int, w: int)
    requires Hits(live, addr, v) && Hits(live, addr, w)
    ensures v == w
  {
  }

  /** The entry `(vid, context)` of `key` is put in the table at some probe of the trace. */
  ghost predicate Witnessed(trace: seq<Record>, c: Config, key: int, entry: (int, seq<int>)) {
    exists i :: 0 <= i < |trace| && ProbedAt(trace, c, i, key, entry)
  }

  ghost predicate ProbedAt(trace: seq<Record>, c: Config, i: nat, key: int, entry: (int, seq<int>))
    requires i < |trace|
  {
    var s := Run(trace[..i], c).ptr;
    && trace[i].action.Probe? && trace[i].vid == key
    && Hits(s.live, trace[i].ptr, entry.0)
    && entry.1 == Context(s.scopes, c.k)
  }

  ghost predicate InTable(pts: map<int, set<(int, seq<int>)>>, key: int, entry: (int, seq<int>)) {
    key in pts && entry in pts[key]
  }

  lemma StepKeepsTable(s: PtrState, r: Record, k: nat, key: int, entry: (int, seq<int>))
    ensures InTable(StepPtr(s, r, k).pts, key, entry) <==>
      || InTable(s.pts, key, entry)
      || (r.action.Probe? && r.vid == key && Hits(s.live, r.ptr, entry.0) && entry.1 == Context(s.scopes, k))
  {
    if r.action.Probe? {
      hide IsFloor, EndOf;
      if exists vid :: Hits(s.live, r.ptr, vid) {
        var vid :| Hits(s.live, r.ptr, vid);
        forall w | Hits(s.live, r.ptr, w) ensures w == vid { HitsIsUnique(s.live, r.ptr, vid, w); }
      }
    } else if r.action.Landing? {
      PopUntilKeepsTable(s, r.vid);
    }
  }

  lemma {:induction false} PopUntilKeepsTable(s: PtrState, vid: int)
    ensures PopUntil(s, vid).pts == s.pts
    decreases |s.scopes|
  {
    if s.scopes != [] && s.scopes[|s.scopes| - 1].vid != vid { PopUntilKeepsTable(PopScope(s), vid); }
  }

  /** For every trace the points-to table holds exactly what its probes hit, with the outermost
      scopes as context. */
  lemma {:induction false} TableIsHits(trace: seq<Record>, c: Config, key: int, entry: (int, seq<int>))
    requires c.ptrMode
    ensures InTable(Run(trace, c).ptr.pts, key, entry) <==> Witnessed(trace, c, key, entry)
    decreases |trace|
  {
    if trace != [] {
      var n := |trace| - 1;
      var init := trace[..n];
      TableIsHits(init, c, key, entry);
      StepKeepsTable(Run(init, c).ptr, trace[n], c.k, key, entry);
      hide StepPtr, Hits, Context;
      WitnessStep(trace, c, key, entry);
    }
  }

  lemma WitnessStep(trace: seq<Record>, c: Config, key: int, entry: (int, seq<int>))
    requires trace != []
    ensures Witnessed(trace, c, key, entry) <==>
      || Witnessed(trace[..|trace| - 1], c, key, entry)
      || ProbedAt(trace, c, |trace| - 1, key, entry)
  {
    hide Run, Hits, Context;
    var n := |trace| - 1;
    var init := trace[..n];
    forall i | 0 <= i < n ensures ProbedAt(init, c, i, key, entry) <==> ProbedAt(trace, c, i, key, entry) {
      assert init[..i] == trace[..i];
    }
    if i :| 0 <= i < n && ProbedAt(init, c, i, key, entry) { assert ProbedAt(trace, c, i, key, entry); }
    if i :| 0 <= i < |trace| && ProbedAt(trace, c, i, key, entry) {
      if i < n { assert ProbedAt(init, c, i, key, entry); }
    }
  }

  ghost predicate AlwaysApart(trace: seq<Record>, c: Config) {
    forall i :: 0 <= i < |trace| ==> Apart(Run(trace[..i], c).ptr.live)
  }

  ghost predicate ScannedAt(trace: seq<Record>, c: Config, i: nat, key: int, entry: (int, seq<int>))
    requires i < |trace|
  {
    var s := Run(trace[..i], c).ptr;
    && trace[i].action.Probe? && trace[i].vid == key
    && Scanned(s.live, trace[i].ptr, entry.0)
    && entry.1 == Context(s.scopes, c.k)
  }

  /** When the live regions always lie apart, that is what linear scans find. */
  lemma TableIsScans(trace: seq<Record>, c: Config, key: int, entry: (int, seq<int>))
    requires c.ptrMode && AlwaysApart(trace, c)
    ensures InTable(Run(trace, c).ptr.pts, key, entry) <==>
      exists i: nat :: i < |trace| && ScannedAt(trace, c, i, key, entry)
  {
    hide Run, Hits, Scanned, Context, Apart;
    forall i: nat | i < |trace| ensures ProbedAt(trace, c, i, key, entry) <==> ScannedAt(trace, c, i, key, entry) {
      ProbeIsScan(Run(trace[..i], c).ptr.live, trace[i].ptr, entry.0);
    }
    TableIsHits(trace, c, key, entry);
    hide ProbedAt, ScannedAt;
  }
}
