/** Which allocas a scope end frees, told from the trace alone. */
module HookScopes {
  import opened HookSpec

  /** An open scope as the trace shows it: the addresses it allocated itself, all that were
      allocated since it began, and those of them that came before its own newest one. */
  datatype Frame = Frame(vid: int, own: seq<u64>, since: seq<u64>, early: seq<u64>)

  function Newest(f: Frame): u64
    requires f.own != []
  {
    f.own[|f.own| - 1]
  }

  function Aged(f: Frame, addr: u64): Frame { f.(since := f.since + [addr]) }

  function Allocating(f: Frame, addr: u64): Frame { Frame(f.vid, f.own + [addr], f.since + [addr], f.since) }

  function PopFrames(frames: seq<Frame>, vid: int): seq<Frame> {
    if frames == [] || frames[|frames| - 1].vid == vid then frames else PopFrames(frames[..|frames| - 1], vid)
  }

  function StepFrames(frames: seq<Frame>, r: Record): seq<Frame> {
    match r.action
    case Alloca =>
      seq(|frames|, i requires 0 <= i < |frames| =>
        if i == |frames| - 1 then Allocating(frames[i], r.ptr) else Aged(frames[i], r.ptr))
    case BeginScope => frames + [Frame(r.vid, [], [], [])]
    case EndScope => if frames == [] then [] else frames[..|frames| - 1]
    case Landing => PopFrames(frames, r.vid)
    case _ => frames
  }

  /** The scopes that are open after a trace. */
  function Frames(trace: seq<Record>): seq<Frame>
    decreases |trace|
  {
    if trace == [] then [] else StepFrames(Frames(trace[..|trace| - 1]), trace[|trace| - 1])
  }

  /** What the runtime keeps of one open scope. */
  ghost predicate FrameMatches(f: Frame, scope: Scope, allocs: seq<u64>) {
    && scope.vid == f.vid
    && scope.start <= scope.end <= |allocs|
    && f.since == allocs[scope.start..] && f.early == allocs[scope.start..scope.end]
    && (f.own == [] ==> scope.end == scope.start)
    && (f.own != [] ==> scope.end < |allocs| && allocs[scope.end] == Newest(f))
    && (forall a :: a in f.own ==> a == Newest(f) || a in f.early)
  }

  ghost predicate Matches(frames: seq<Frame>, s: PtrState) {
    |frames| == |s.scopes| && forall i :: 0 <= i < |frames| ==> FrameMatches(frames[i], s.scopes[i], s.allocs)
  }

  lemma AgedMatches(f: Frame, scope: Scope, allocs: seq<u64>, addr: u64)
    requires FrameMatches(f, scope, allocs)
    ensures FrameMatches(Aged(f, addr), scope, allocs + [addr])
  {
    var more := allocs + [addr];
    assert more[scope.start..] == allocs[scope.start..] + [addr];
    assert more[scope.start..scope.end] == allocs[scope.start..scope.end];
  }

  /** An alloca closes the range just before itself. */
  lemma AllocatingMatches(f: Frame, scope: Scope, allocs: seq<u64>, addr: u64)
    requires FrameMatches(f, scope, allocs)
    ensures FrameMatches(Allocating(f, addr), scope.(end := |allocs|), allocs + [addr])
  {
    var more, g := allocs + [addr], Allocating(f, addr);
    assert more[scope.start..] == allocs[scope.start..] + [addr];
    assert more[scope.start..|allocs|] == allocs[scope.start..];
    forall a | a in g.own ensures a == addr || a in g.early {
      if a in f.own {
        if a in f.early {
          var i :| 0 <= i < |f.early| && f.early[i] == a;
          assert f.since[i] == a;
        } else {
          assert f.since[scope.end - scope.start] == Newest(f);
        }
      }
    }
  }

  lemma {:induction false} PopMatches(frames: seq<Frame>, s: PtrState, vid: int)
    requires Matches(frames, s)
    ensures Matches(PopFrames(frames, vid), PopUntil(s, vid)) && PopUntil(s, vid).allocs == s.allocs
    decreases |frames|
  {
    hide FrameMatches;
    if frames != [] {
      var n := |frames| - 1;
      assert frames[n].vid == s.scopes[n].vid by { VidMatches(frames[n], s.scopes[n], s.allocs); }
      if frames[n].vid != vid { PopMatches(frames[..n], PopScope(s), vid); }
    }
  }

  lemma VidMatches(f: Frame, scope: Scope, allocs: seq<u64>)
    requires FrameMatches(f, scope, allocs)
    ensures f.vid == scope.vid
  {
  }

  lemma MatchStep(frames: seq<Frame>, s: PtrState, r: Record, k: nat)
    requires Matches(frames, s) && (r.action.Alloca? || r.action.EndScope? ==> s.scopes != [])
    ensures Matches(StepFrames(frames, r), StepPtr(s, r, k))
  {
    hide FrameMatches, StepProbe, PopUntil;
    match r.action
    case Alloca =>
      var after, frames' := StepPtr(s, r, k), StepFrames(frames, r);
      forall i | 0 <= i < |frames| ensures FrameMatches(frames'[i], after.scopes[i], after.allocs) {
        if i == |frames| - 1 {
          AllocatingMatches(frames[i], s.scopes[i], s.allocs, r.ptr);
        } else {
          AgedMatches(frames[i], s.scopes[i], s.allocs, r.ptr);
        }
      }
    case BeginScope => NewFrame(r.vid, s.allocs);
    case Landing => PopMatches(frames, s, r.vid);
    case Probe => ProbeKeepsScopes(s, r, k);
    case _ =>
  }

  lemma NewFrame(vid: int, allocs: seq<u64>)
    ensures FrameMatches(Frame(vid, [], [], []), Scope(vid, |allocs|, |allocs|), allocs)
  {
  }

  lemma ProbeKeepsScopes(s: PtrState, r: Record, k: nat)
    ensures StepProbe(s, r, k).scopes == s.scopes && StepProbe(s, r, k).allocs == s.allocs
    ensures StepProbe(s, r, k).live == s.live
  {
  }

  /** After every legal trace, the ranges that the runtime keeps are those that the trace shows. */
  lemma {:induction false} FramesMatch(trace: seq<Record>, c: Config)
    requires c.ptrMode && LegalTrace(trace, c)
    ensures Matches(Frames(trace), Run(trace, c).ptr)
    decreases |trace|
  {
    hide Matches, StepPtr;
    if trace == [] {
      NothingOpen();
    } else {
      var init, r := trace[..|trace| - 1], trace[|trace| - 1];
      FramesMatch(init, c);
      MatchStep(Frames(init), Run(init, c).ptr, r, c.k);
    }
  }

  lemma NothingOpen()
    ensures Matches([], START.ptr)
  {
  }

  /** The recorded end of an open scope is the index of the newest alloca of its own, or its
      start when it has none: what it erases leaves out exactly that one and what came later. */
  lemma EndIsNewestAlloca(trace: seq<Record>, c: Config, i: nat)
    requires c.ptrMode && LegalTrace(trace, c) && i < |Frames(trace)|
    ensures var f, s := Frames(trace)[i], Run(trace, c).ptr;
      && |s.scopes| == |Frames(trace)| && s.scopes[i].start <= s.scopes[i].end <= |s.allocs|
      && (if f.own == [] then s.scopes[i].end == s.scopes[i].start
          else s.scopes[i].end < |s.allocs| && s.allocs[s.scopes[i].end] == Newest(f))
      && Range(s.allocs, s.scopes[i].start, s.scopes[i].end) == f.early
  {
    FramesMatch(trace, c);
    hide Frames, Run, LegalTrace;
    assert FrameMatches(Frames(trace)[i], Run(trace, c).ptr.scopes[i], Run(trace, c).ptr.allocs);
  }

  /** A scope end kills exactly the addresses allocated since the scope began and before the
      newest alloca of its own. */
  lemma EndKills(trace: seq<Record>, c: Config, r: Record)
    requires c.ptrMode && LegalTrace(trace, c) && Frames(trace) != [] && r.action.EndScope?
    ensures var top := Frames(trace)[|Frames(trace)| - 1];
      forall a :: a in Run(trace + [r], c).ptr.live <==> a in Run(trace, c).ptr.live && a !in top.early
  {
    var n := |Frames(trace)| - 1;
    EndIsNewestAlloca(trace, c, n);
    RunStep(trace, r, c);
    hide Frames, Run, LegalTrace;
    var s, early := Run(trace, c).ptr, Frames(trace)[n].early;
    assert PopScope(s).live == Erase(s.live, early);
    assert forall a :: a in Erase(s.live, early) <==> a in s.live && a !in early;
  }

  /** After a scope end none of the scope's own allocas is live. */
  ghost predicate FreesOwn(trace: seq<Record>, c: Config, r: Record)
    requires Frames(trace) != []
  {
    forall a :: a in Frames(trace)[|Frames(trace)| - 1].own ==> a !in Run(trace + [r], c).ptr.live
  }

  /** For every legal trace, a scope end frees the allocas of the scope exactly when it has none,
      or the newest one is dead already, or its address was allocated before in the scope. */
  lemma EndFreesOwnIff(trace: seq<Record>, c: Config, r: Record)
    requires c.ptrMode && LegalTrace(trace, c) && Frames(trace) != [] && r.action.EndScope?
    ensures var top := Frames(trace)[|Frames(trace)| - 1];
      FreesOwn(trace, c, r) <==>
        top.own == [] || Newest(top) in top.early || Newest(top) !in Run(trace, c).ptr.live
  {
    EndKills(trace, c, r);
    FramesMatch(trace, c);
    hide Frames, Run, LegalTrace;
    var n := |Frames(trace)| - 1;
    var top := Frames(trace)[n];
    assert FrameMatches(top, Run(trace, c).ptr.scopes[n], Run(trace, c).ptr.allocs);
    if top.own != [] { assert Newest(top) in top.own; }
  }

  /** An alloca that is followed by the end of its scope outlives it exactly when its address
      was not allocated since the scope began. */
  lemma AllocaOutlivesScope(trace: seq<Record>, c: Config, alloca: Record, end: Record)
    requires c.ptrMode && LegalTrace(trace + [alloca], c) && Frames(trace) != []
    requires alloca.action.Alloca? && end.action.EndScope?
    ensures var top := Frames(trace)[|Frames(trace)| - 1];
      alloca.ptr in Run(trace + [alloca] + [end], c).ptr.live <==> alloca.ptr !in top.since
  {
    var all, n := trace + [alloca], |Frames(trace)| - 1;
    assert all[..|all| - 1] == trace && all[|all| - 1] == alloca;
    assert Frames(all)[n] == Allocating(Frames(trace)[n], alloca.ptr);
    EndKills(all, c, end);
    RunStep(trace, alloca, c);
    hide Frames, Run, LegalTrace;
    FramesMatch(trace, c);
    assert Run(trace, c).ptr.scopes != [];
    assert alloca.ptr in StepPtr(Run(trace, c).ptr, alloca, c.k).live;
  }
}
