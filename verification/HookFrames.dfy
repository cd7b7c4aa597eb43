/** The open scopes of a trace, told from the positions of its records. */
module HookFrames {
  import opened HookSpec
  import opened HookScopes

  /** The addresses of the allocas of a trace, in order. */
  function AllocaPtrs(trace: seq<Record>): seq<u64>
    decreases |trace|
  {
    if trace == [] then []
    else
      AllocaPtrs(trace[..|trace| - 1])
      + if trace[|trace| - 1].action.Alloca? then [trace[|trace| - 1].ptr] else []
  }

  function Depth(trace: seq<Record>): nat { |Frames(trace)| }

  /** Scope `k` was begun by record `b`, and has been open ever since. */
  ghost predicate OpenSince(trace: seq<Record>, k: nat, b: nat) {
    && b < |trace| && trace[b].action.BeginScope? && Depth(trace[..b]) == k
    && forall j :: b < j <= |trace| ==> Depth(trace[..j]) > k
  }

  /** Record `n` is an alloca of the scope itself: no scope is open within it. */
  ghost predicate OwnAt(trace: seq<Record>, k: nat, b: nat, n: nat) {
    b < n < |trace| && trace[n].action.Alloca? && Depth(trace[..n]) == k + 1
  }

  ghost predicate NewestOwn(trace: seq<Record>, k: nat, b: nat, n: nat) {
    OwnAt(trace, k, b, n) && forall m: nat :: n < m ==> !OwnAt(trace, k, b, m)
  }

  /** Scope `k`, begun by record `b`, has all allocas since then, and as its early ones those
      before its own newest. */
  ghost predicate FrameTold(trace: seq<Record>, f: Frame, k: nat, b: nat) {
    && OpenSince(trace, k, b) && f.vid == trace[b].vid
    && f.since == AllocaPtrs(trace[b + 1..])
    && (f.own == [] ==> f.early == [] && forall n: nat :: !OwnAt(trace, k, b, n))
    && (f.own != [] ==> exists n: nat ::
          NewestOwn(trace, k, b, n) && Newest(f) == trace[n].ptr && f.early == AllocaPtrs(trace[b + 1..n]))
  }

  lemma FramesStep(trace: seq<Record>, r: Record)
    ensures Frames(trace + [r]) == StepFrames(Frames(trace), r)
  {
    var all := trace + [r];
    assert all[..|all| - 1] == trace && all[|all| - 1] == r;
  }

  lemma AllocaStep(trace: seq<Record>, r: Record, b: nat)
    requires b < |trace|
    ensures AllocaPtrs((trace + [r])[b + 1..])
         == AllocaPtrs(trace[b + 1..]) + if r.action.Alloca? then [r.ptr] else []
  {
    var all := (trace + [r])[b + 1..];
    assert all[..|all| - 1] == trace[b + 1..] && all[|all| - 1] == r;
  }

  lemma OpenSinceStep(trace: seq<Record>, r: Record, k: nat, b: nat)
    requires OpenSince(trace, k, b) && k < Depth(trace + [r])
    ensures OpenSince(trace + [r], k, b)
  {
    hide Depth;
    var all := trace + [r];
    assert all[..b] == trace[..b];
    forall j | b < j <= |all| ensures Depth(all[..j]) > k {
      if j <= |trace| { assert all[..j] == trace[..j]; } else { assert all[..j] == all; }
    }
  }

  lemma OwnStep(trace: seq<Record>, r: Record, k: nat, b: nat, n: nat)
    requires b < |trace|
    ensures OwnAt(trace + [r], k, b, n) <==>
      OwnAt(trace, k, b, n) || (n == |trace| && r.action.Alloca? && Depth(trace) == k + 1)
  {
    hide Depth;
    var all := trace + [r];
    if n <= |trace| { assert all[..n] == trace[..n]; }
    if n == |trace| { assert trace[..n] == trace; }
  }

  /** A record that leaves a scope open, and is no alloca of its own. */
  lemma ToldAged(trace: seq<Record>, r: Record, f: Frame, k: nat, b: nat)
    requires FrameTold(trace, f, k, b) && k < Depth(trace + [r])
    requires r.action.Alloca? ==> Depth(trace) != k + 1
    ensures FrameTold(trace + [r], if r.action.Alloca? then Aged(f, r.ptr) else f, k, b)
  {
    hide OwnAt, OpenSince, Depth;
    var all := trace + [r];
    SinceIsIn(trace, k, b);
    OpenSinceStep(trace, r, k, b);
    AllocaStep(trace, r, b);
    forall n: nat ensures OwnAt(all, k, b, n) <==> OwnAt(trace, k, b, n) { OwnStep(trace, r, k, b, n); }
    if f.own != [] {
      forall n: nat ensures OwnAt(trace, k, b, n) ==> b < n < |trace| { OwnIsIn(trace, k, b, n); }
      var n: nat :| b < n < |trace| && NewestOwn(trace, k, b, n) && Newest(f) == trace[n].ptr && f.early == AllocaPtrs(trace[b + 1..n]);
      assert all[b + 1..n] == trace[b + 1..n] && all[n] == trace[n];
      assert NewestOwn(all, k, b, n);
    }
  }

  /** An alloca of its own. */
  lemma ToldAllocating(trace: seq<Record>, r: Record, f: Frame, k: nat, b: nat)
    requires FrameTold(trace, f, k, b) && k < Depth(trace + [r])
    requires r.action.Alloca? && Depth(trace) == k + 1
    ensures FrameTold(trace + [r], Allocating(f, r.ptr), k, b)
  {
    hide OwnAt, OpenSince, Depth;
    var all := trace + [r];
    SinceIsIn(trace, k, b);
    OpenSinceStep(trace, r, k, b);
    AllocaStep(trace, r, b);
    forall n: nat ensures OwnAt(all, k, b, n) <==> OwnAt(trace, k, b, n) || n == |trace| {
      OwnStep(trace, r, k, b, n);
    }
    forall n: nat ensures OwnAt(trace, k, b, n) ==> n < |trace| { OwnIsIn(trace, k, b, n); }
    assert NewestOwn(all, k, b, |trace|);
    assert all[b + 1..|trace|] == trace[b + 1..];
  }

  lemma SinceIsIn(trace: seq<Record>, k: nat, b: nat)
    requires OpenSince(trace, k, b)
    ensures b < |trace|
  {
  }

  lemma OwnIsIn(trace: seq<Record>, k: nat, b: nat, n: nat)
    ensures OwnAt(trace, k, b, n) ==> b < n < |trace|
  {
  }

  lemma ToldNew(trace: seq<Record>, r: Record)
    requires r.action.BeginScope?
    ensures FrameTold(trace + [r], Frame(r.vid, [], [], []), Depth(trace), |trace|)
  {
    var all, b := trace + [r], |trace|;
    FramesStep(trace, r);
    assert all[..b] == trace && all[..b + 1] == all && all[b + 1..] == [];
  }

  /** Landing leaves the scopes up to the innermost one of the function. */
  lemma {:induction false} LandingTold(frames: seq<Frame>, vid: int)
    ensures var after := PopFrames(frames, vid);
      && |after| <= |frames| && after == frames[..|after|]
      && (after != [] ==> after[|after| - 1].vid == vid)
      && forall k :: |after| <= k < |frames| ==> frames[k].vid != vid
    decreases |frames|
  {
    if frames != [] && frames[|frames| - 1].vid != vid {
      LandingTold(frames[..|frames| - 1], vid);
    } else {
      assert frames[..|frames|] == frames;
    }
  }

  lemma StepKeeps(frames: seq<Frame>, r: Record, k: nat)
    requires k < |StepFrames(frames, r)| && k < |frames| && !(r.action.Alloca? && k == |frames| - 1)
    ensures StepFrames(frames, r)[k] == if r.action.Alloca? then Aged(frames[k], r.ptr) else frames[k]
  {
    LandingTold(frames, r.vid);
  }

  lemma NothingOpened()
    ensures Frames([]) == []
  {
  }

  /** For every trace, each open scope was begun by one of its records, and has the allocas that
      the trace shows. */
  lemma {:induction false} FramesAreTold(trace: seq<Record>, k: nat)
    requires k < |Frames(trace)|
    ensures exists b: nat :: FrameTold(trace, Frames(trace)[k], k, b)
    decreases |trace|
  {
    hide Frames, FrameTold, PopFrames;
    NothingOpened();
    if trace != [] {
      var init, r := trace[..|trace| - 1], trace[|trace| - 1];
      assert init + [r] == trace;
      FramesStep(init, r);
      LandingTold(Frames(init), r.vid);
      if r.action.BeginScope? && k == |Frames(init)| {
        ToldNew(init, r);
        assert Frames(trace)[k] == Frame(r.vid, [], [], []);
      } else {
        FramesAreTold(init, k);
        var b: nat :| FrameTold(init, Frames(init)[k], k, b);
        if r.action.Alloca? && k == |Frames(init)| - 1 {
          ToldAllocating(init, r, Frames(init)[k], k, b);
          assert Frames(trace)[k] == Allocating(Frames(init)[k], r.ptr);
        } else {
          ToldAged(init, r, Frames(init)[k], k, b);
          StepKeeps(Frames(init), r, k);
        }
      }
    }
  }
}
