/** Which regions are live after a trace, and what its probes record, told from the records
    of the trace alone. */
module HookLiveness {
  import opened HookSpec
  import opened HookScopes
  import HookCalls

  predicate Allocates(r: Record, a: u64) {
    r.ptr == a && (r.action.Alloca? || r.action.HeapAlloca? || r.action.Region?)
  }

  /** A scope that is open before the record and not after it. */
  predicate Closes(before: seq<Record>, r: Record, k: nat) {
    (r.action.EndScope? || r.action.Landing?) && |StepFrames(Frames(before), r)| <= k < |Frames(before)|
  }

  /** The record frees the heap object at `a`, or closes a scope that has `a` among the allocas
      before its own newest one. */
  ghost predicate Kills(before: seq<Record>, r: Record, a: u64) {
    || (r.action.HeapFree? && r.ptr == a)
    || exists k: nat :: Closes(before, r, k) && a in Frames(before)[k].early
  }

  /** Record `i` allocates at `a`, and none after it does or kills what is there. */
  ghost predicate LastAt(trace: seq<Record>, i: nat, a: u64) {
    && i < |trace| && Allocates(trace[i], a)
    && forall j :: i < j < |trace| ==> !Allocates(trace[j], a) && !Kills(trace[..j], trace[j], a)
  }

  /** The region at `a` is that of the last allocation there, and nothing has killed it since. */
  ghost predicate Holds(trace: seq<Record>, a: u64, region: Region) {
    exists i: nat :: LastAt(trace, i, a) && region == Region.Region(trace[i].vid, trace[i].size)
  }

  /** An alloca or a scope end comes only while a scope is open. */
  ghost predicate Scoped(trace: seq<Record>) {
    forall i :: 0 <= i < |trace| && (trace[i].action.Alloca? || trace[i].action.EndScope?) ==> Frames(trace[..i]) != []
  }

  // ----- one more record

  lemma LastAtInit(trace: seq<Record>, r: Record, i: nat, a: u64)
    ensures LastAt(trace + [r], i, a) <==>
      if i == |trace| then Allocates(r, a) else LastAt(trace, i, a) && !Allocates(r, a) && !Kills(trace, r, a)
  {
    hide Kills, Allocates;
    var all, n := trace + [r], |trace|;
    assert all[..n] == trace && all[n] == r;
    assert forall j :: 0 <= j < n ==> all[j] == trace[j] && all[..j] == trace[..j];
    if i < n && LastAt(trace, i, a) && !Allocates(r, a) && !Kills(trace, r, a) {
      forall j | i < j < |all| ensures !Allocates(all[j], a) && !Kills(all[..j], all[j], a) {
        if j < n { assert !Allocates(trace[j], a) && !Kills(trace[..j], trace[j], a); }
      }
    }
    if i < n && LastAt(all, i, a) {
      forall j | i < j < n ensures !Allocates(trace[j], a) && !Kills(trace[..j], trace[j], a) {
        assert !Allocates(all[j], a) && !Kills(all[..j], all[j], a);
      }
      assert !Allocates(all[n], a) && !Kills(all[..n], all[n], a);
    }
  }

  lemma HoldsStep(trace: seq<Record>, r: Record, a: u64, region: Region)
    ensures Holds(trace + [r], a, region) <==>
      if Allocates(r, a) then region == Region.Region(r.vid, r.size)
      else Holds(trace, a, region) && !Kills(trace, r, a)
  {
    hide LastAt, Kills, Allocates;
    var all, n := trace + [r], |trace|;
    forall i: nat
      ensures (LastAt(trace, i, a) ==> i < n) && (LastAt(all, i, a) ==> i <= n)
      ensures LastAt(all, i, a) <==>
        if i == n then Allocates(r, a) else LastAt(trace, i, a) && !Allocates(r, a) && !Kills(trace, r, a)
    {
      LastAtInit(trace, r, i, a);
      LastIsIn(trace, i, a);
      LastIsIn(all, i, a);
    }
    if i: nat :| i < n && LastAt(trace, i, a) && region == Region.Region(trace[i].vid, trace[i].size) {
      assert all[i] == trace[i];
      if !Allocates(r, a) && !Kills(trace, r, a) { assert LastAt(all, i, a); }
    }
    if Allocates(r, a) { assert LastAt(all, n, a) && all[n] == r; }
    if i: nat :| i <= n && LastAt(all, i, a) && region == Region.Region(all[i].vid, all[i].size) {
      if i < n { assert LastAt(trace, i, a) && all[i] == trace[i]; }
    }
  }

  lemma LastIsIn(trace: seq<Record>, i: nat, a: u64)
    ensures LastAt(trace, i, a) ==> i < |trace|
  {
  }

  ghost predicate LiveAs(live: map<u64, Region>, a: u64, region: Region) { a in live && live[a] == region }

  /** Popping a scope kills its early addresses. */
  lemma PopKills(frames: seq<Frame>, s: PtrState, a: u64, region: Region)
    requires Matches(frames, s) && frames != []
    ensures LiveAs(PopScope(s).live, a, region) <==> LiveAs(s.live, a, region) && a !in frames[|frames| - 1].early
  {
    var n := |frames| - 1;
    assert FrameMatches(frames[n], s.scopes[n], s.allocs);
    assert Range(s.allocs, s.scopes[n].start, s.scopes[n].end) == frames[n].early;
    assert PopScope(s).live == Erase(s.live, frames[n].early);
  }

  lemma {:induction false} PopUntilKills(frames: seq<Frame>, s: PtrState, vid: int, a: u64, region: Region)
    requires Matches(frames, s)
    ensures |PopFrames(frames, vid)| <= |frames|
    ensures LiveAs(PopUntil(s, vid).live, a, region) <==>
      LiveAs(s.live, a, region) && forall k :: |PopFrames(frames, vid)| <= k < |frames| ==> a !in frames[k].early
    decreases |frames|
  {
    hide FrameMatches, LiveAs;
    if frames != [] {
      var n := |frames| - 1;
      assert frames[n].vid == s.scopes[n].vid by { VidMatches(frames[n], s.scopes[n], s.allocs); }
      if frames[n].vid != vid {
        PopKills(frames, s, a, region);
        PopUntilKills(frames[..n], PopScope(s), vid, a, region);
        assert forall k :: 0 <= k < n ==> frames[..n][k] == frames[k];
      }
    }
  }

  lemma LiveStep(frames: seq<Frame>, s: PtrState, r: Record, k: nat, a: u64, region: Region)
    requires Matches(frames, s) && (r.action.Alloca? || r.action.EndScope? ==> frames != [])
    ensures LiveAs(StepPtr(s, r, k).live, a, region) <==>
      if Allocates(r, a) then region == Region.Region(r.vid, r.size)
      else
        && LiveAs(s.live, a, region)
        && !(r.action.HeapFree? && r.ptr == a)
        && !exists k: nat :: (r.action.EndScope? || r.action.Landing?)
             && |StepFrames(frames, r)| <= k < |frames| && a in frames[k].early
  {
    hide StepProbe, PopUntil, PopFrames, FrameMatches, PopScope;
    match r.action
    case EndScope => PopKills(frames, s, a, region);
    case Landing => PopUntilKills(frames, s, r.vid, a, region);
    case Probe => ProbeKeepsScopes(s, r, k);
    case _ =>
  }

  /** After every legal trace, a region is live exactly when the trace says so. */
  lemma {:induction false} LiveIsTold(trace: seq<Record>, c: Config, a: u64, region: Region)
    requires c.ptrMode && LegalTrace(trace, c)
    ensures LiveAs(Run(trace, c).ptr.live, a, region) <==> Holds(trace, a, region)
    decreases |trace|
  {
    hide StepPtr, Matches, Allocates, Holds, LiveAs;
    if trace == [] {
      NothingHolds(a, region);
    } else {
      var init, r := trace[..|trace| - 1], trace[|trace| - 1];
      assert init + [r] == trace;
      LiveIsTold(init, c, a, region);
      HoldsStep(init, r, a, region);
      FramesMatch(init, c);
      MatchedEmpty(Frames(init), Run(init, c).ptr);
      LiveStep(Frames(init), Run(init, c).ptr, r, c.k, a, region);
    }
  }

  lemma NothingHolds(a: u64, region: Region)
    ensures !LiveAs(START.ptr.live, a, region) && !Holds([], a, region)
  {
  }

  lemma MatchedEmpty(frames: seq<Frame>, s: PtrState)
    requires Matches(frames, s)
    ensures frames == [] <==> s.scopes == []
  {
  }

  /** An address is live exactly when some record allocates at it and no later one kills it. */
  lemma LiveIff(trace: seq<Record>, c: Config, a: u64)
    requires c.ptrMode && LegalTrace(trace, c)
    ensures a in Run(trace, c).ptr.live <==>
      exists i: nat :: i < |trace| && Allocates(trace[i], a) && forall j :: i < j < |trace| ==> !Kills(trace[..j], trace[j], a)
  {
    var live := Run(trace, c).ptr.live;
    hide Run, Allocates, Kills, LegalTrace;
    if a in live {
      LiveIsTold(trace, c, a, live[a]);
      assert LiveAs(live, a, live[a]);
    }
    if i: nat :| i < |trace| && Allocates(trace[i], a) && forall j :: i < j < |trace| ==> !Kills(trace[..j], trace[j], a) {
      var last := LastAllocation(trace, a, i);
      LiveIsTold(trace, c, a, Region.Region(trace[last].vid, trace[last].size));
      assert LastAt(trace, last, a);
    }
  }

  /** The last allocation at an address, from one of them on. */
  ghost function LastAllocation(trace: seq<Record>, a: u64, i: nat): (last: nat)
    requires i < |trace| && Allocates(trace[i], a)
    ensures i <= last < |trace| && Allocates(trace[last], a)
    ensures forall j :: last < j < |trace| ==> !Allocates(trace[j], a)
    decreases |trace| - i
  {
    if next: nat :| i < next < |trace| && Allocates(trace[next], a) then LastAllocation(trace, a, next) else i
  }

  // ----- the table

  /** A scan of the regions that the trace shows finds `vid` at the address. */
  ghost predicate Covers(trace: seq<Record>, addr: u64, vid: int) {
    exists b: u64, region :: Holds(trace, b, region) && b <= addr < b + region.size && region.vid == vid
  }

  /** The regions that the trace shows lie apart, and none reaches the end of the address space. */
  ghost predicate HoldApart(trace: seq<Record>) {
    && (forall b: u64, g :: Holds(trace, b, g) ==> b + g.size < 0x1_0000_0000_0000_0000)
    && (forall b: u64, g, b': u64, g' :: Holds(trace, b, g) && Holds(trace, b', g') && b < b' ==> b + g.size <= b')
  }

  /** The ids of the outermost `k` open scopes. */
  function Outermost(frames: seq<Frame>, k: nat): seq<int> {
    seq(if |frames| < k then |frames| else k, i requires 0 <= i < |frames| => frames[i].vid)
  }

  ghost predicate ProbeTold(trace: seq<Record>, k: nat, i: nat, key: int, entry: (int, seq<int>))
    requires i < |trace|
  {
    && trace[i].action.Probe? && trace[i].vid == key
    && Covers(trace[..i], trace[i].ptr, entry.0)
    && entry.1 == Outermost(Frames(trace[..i]), k)
  }

  lemma CoversIsScan(trace: seq<Record>, c: Config, addr: u64, vid: int)
    requires c.ptrMode && LegalTrace(trace, c)
    ensures Scanned(Run(trace, c).ptr.live, addr, vid) <==> Covers(trace, addr, vid)
  {
    var live := Run(trace, c).ptr.live;
    hide Run, LegalTrace, Holds;
    forall b: u64, region ensures LiveAs(live, b, region) <==> Holds(trace, b, region) { LiveIsTold(trace, c, b, region); }
    if b: u64 :| b in live && b <= addr < b + live[b].size && live[b].vid == vid { assert LiveAs(live, b, live[b]); }
    if b: u64, region :| Holds(trace, b, region) && b <= addr < b + region.size && region.vid == vid {
      assert LiveAs(live, b, region);
    }
  }

  lemma ApartIsTold(trace: seq<Record>, c: Config)
    requires c.ptrMode && LegalTrace(trace, c)
    ensures Apart(Run(trace, c).ptr.live) <==> HoldApart(trace)
  {
    var live := Run(trace, c).ptr.live;
    hide Run, LegalTrace, Holds;
    forall b: u64, region ensures LiveAs(live, b, region) <==> Holds(trace, b, region) { LiveIsTold(trace, c, b, region); }
    assert forall b :: b in live ==> LiveAs(live, b, live[b]);
    assert forall b: u64, region :: Holds(trace, b, region) ==> b in live && live[b] == region;
  }

  lemma OutermostIsContext(trace: seq<Record>, c: Config)
    requires c.ptrMode && LegalTrace(trace, c)
    ensures Context(Run(trace, c).ptr.scopes, c.k) == Outermost(Frames(trace), c.k)
  {
    FramesMatch(trace, c);
    var frames, s := Frames(trace), Run(trace, c).ptr;
    hide Run, Frames, LegalTrace, FrameMatches;
    forall i | 0 <= i < |frames| ensures frames[i].vid == s.scopes[i].vid {
      VidMatches(frames[i], s.scopes[i], s.allocs);
    }
  }

  lemma {:induction false} LegalPrefix(trace: seq<Record>, c: Config, i: nat)
    requires LegalTrace(trace, c) && i <= |trace|
    ensures LegalTrace(trace[..i], c)
    decreases |trace|
  {
    if i == |trace| {
      assert trace[..i] == trace;
    } else {
      LegalPrefix(trace[..|trace| - 1], c, i);
      assert trace[..|trace| - 1][..i] == trace[..i];
    }
  }

  /** The region that the trace shows at the greatest base not above the address, when the
      address is below its end as 64-bit arithmetic computes it. */
  ghost predicate Floors(trace: seq<Record>, addr: u64, vid: int) {
    exists b: u64, region ::
      && Holds(trace, b, region) && b <= addr && region.vid == vid
      && addr < (b + region.size) % 0x1_0000_0000_0000_0000 && NoneNearer(trace, addr, b)
  }

  ghost predicate NoneNearer(trace: seq<Record>, addr: u64, b: u64) {
    forall b': u64, region :: Holds(trace, b', region) && b' <= addr ==> b' <= b
  }

  ghost predicate FloorTold(trace: seq<Record>, k: nat, i: nat, key: int, entry: (int, seq<int>))
    requires i < |trace|
  {
    && trace[i].action.Probe? && trace[i].vid == key
    && Floors(trace[..i], trace[i].ptr, entry.0)
    && entry.1 == Outermost(Frames(trace[..i]), k)
  }

  lemma FloorsIsHit(trace: seq<Record>, c: Config, addr: u64, vid: int)
    requires c.ptrMode && LegalTrace(trace, c)
    ensures Hits(Run(trace, c).ptr.live, addr, vid) <==> Floors(trace, addr, vid)
  {
    var live := Run(trace, c).ptr.live;
    hide Run, LegalTrace, Holds, IsFloor, NoneNearer, EndOf;
    forall b: u64, region ensures LiveAs(live, b, region) <==> Holds(trace, b, region) { LiveIsTold(trace, c, b, region); }
    forall b: u64 ensures IsFloor(live.Keys, addr, b) <==> b in live && b <= addr && NoneNearer(trace, addr, b) {
      FloorIsTold(trace, c, addr, b);
    }
    forall b: u64, size: u64 ensures EndOf(b, size) == (b + size) % 0x1_0000_0000_0000_0000 { EndIs(b, size); }
    if Hits(live, addr, vid) {
      var b: u64 :| b in live && IsFloor(live.Keys, addr, b) && addr < EndOf(b, live[b].size) && live[b].vid == vid;
      assert LiveAs(live, b, live[b]);
      assert Floors(trace, addr, vid);
    }
    if Floors(trace, addr, vid) {
      var b: u64, region :| Holds(trace, b, region) && b <= addr && region.vid == vid &&
        addr < (b + region.size) % 0x1_0000_0000_0000_0000 && NoneNearer(trace, addr, b);
      assert LiveAs(live, b, region) && IsFloor(live.Keys, addr, b);
      assert Hits(live, addr, vid);
    }
  }

  lemma EndIs(b: u64, size: u64)
    ensures EndOf(b, size) == (b + size) % 0x1_0000_0000_0000_0000
  {
  }

  lemma FloorIsTold(trace: seq<Record>, c: Config, addr: u64, b: u64)
    requires c.ptrMode && LegalTrace(trace, c)
    ensures var live := Run(trace, c).ptr.live;
      IsFloor(live.Keys, addr, b) <==> b in live && b <= addr && NoneNearer(trace, addr, b)
  {
    var live := Run(trace, c).ptr.live;
    hide Run, LegalTrace, Holds;
    forall b': u64, region ensures LiveAs(live, b', region) <==> Holds(trace, b', region) { LiveIsTold(trace, c, b', region); }
    assert forall b' :: b' in live ==> LiveAs(live, b', live[b']);
    assert forall b': u64, region :: Holds(trace, b', region) ==> b' in live;
  }

  /** For every legal trace, the points-to table holds exactly what the regions that the trace
      shows give at its probes. */
  lemma TableIsFloors(trace: seq<Record>, c: Config, key: int, entry: (int, seq<int>))
    requires c.ptrMode && LegalTrace(trace, c)
    ensures InTable(Run(trace, c).ptr.pts, key, entry) <==>
      exists i: nat :: i < |trace| && FloorTold(trace, c.k, i, key, entry)
  {
    hide Run, LegalTrace, Floors, Hits, Context, Outermost, Frames;
    forall i: nat | i < |trace| ensures ProbedAt(trace, c, i, key, entry) <==> FloorTold(trace, c.k, i, key, entry) {
      LegalPrefix(trace, c, i);
      FloorsIsHit(trace[..i], c, trace[i].ptr, entry.0);
      OutermostIsContext(trace[..i], c);
    }
    TableIsHits(trace, c, key, entry);
    hide ProbedAt, FloorTold;
  }

  /** When the regions always lie apart, that is what linear scans find. */
  lemma TableIsTold(trace: seq<Record>, c: Config, key: int, entry: (int, seq<int>))
    requires c.ptrMode && LegalTrace(trace, c)
    requires forall i :: 0 <= i < |trace| ==> HoldApart(trace[..i])
    ensures InTable(Run(trace, c).ptr.pts, key, entry) <==>
      exists i: nat :: i < |trace| && ProbeTold(trace, c.k, i, key, entry)
  {
    hide Run, LegalTrace, Apart, HoldApart, Covers, Scanned, Context, Outermost, Frames;
    forall i: nat | i < |trace|
      ensures Apart(Run(trace[..i], c).ptr.live)
      ensures ScannedAt(trace, c, i, key, entry) <==> ProbeTold(trace, c.k, i, key, entry)
    {
      LegalPrefix(trace, c, i);
      ApartIsTold(trace[..i], c);
      CoversIsScan(trace[..i], c, trace[i].ptr, entry.0);
      OutermostIsContext(trace[..i], c);
    }
    TableIsScans(trace, c, key, entry);
    hide ScannedAt, ProbeTold;
  }

  /** A trace is legal exactly when scopes are open wherever they must be. */
  lemma {:induction false} LegalIsScoped(trace: seq<Record>, c: Config)
    requires c.ptrMode
    ensures LegalTrace(trace, c) <==> Scoped(trace)
    decreases |trace|
  {
    hide Run, Frames;
    if trace != [] {
      var init, r := trace[..|trace| - 1], trace[|trace| - 1];
      LegalIsScoped(init, c);
      assert forall i :: 0 <= i < |init| ==> trace[..i] == init[..i] && trace[i] == init[i];
      if Scoped(trace) {
        forall i | 0 <= i < |init| && (init[i].action.Alloca? || init[i].action.EndScope?) ensures Frames(init[..i]) != [] {
          assert trace[i] == init[i];
        }
      }
      if LegalTrace(init, c) {
        FramesMatch(init, c);
        MatchedEmpty(Frames(init), Run(init, c).ptr);
        if c.cgMode { HookCalls.ContextIsTold(init, c); }
      }
    }
  }
}
