/** The calls, blocks and call context of a run, told from the records of the trace alone. */
module HookCalls {
  import opened HookSpec
  import opened HookScopes
  import opened HookCons
  import opened HookFrames

  /** The positions from `from` on of the records that `pick` picks. */
  function Places(trace: seq<Record>, from: nat, pick: Record -> bool): (r: seq<nat>)
    ensures forall j :: 0 <= j < |r| ==> from <= r[j] < |trace|
    decreases |trace|
  {
    if |trace| <= from then []
    else
      Places(trace[..|trace| - 1], from, pick) + if pick(trace[|trace| - 1]) then [|trace| - 1] else []
  }

  /** The list has one element for each record picked, in order, and each says what its record
      says after those before it. */
  ghost predicate Listed<T(!new)>(trace: seq<Record>, from: nat, pick: Record -> bool, list: seq<T>,
                                  says: (seq<Record>, Record, T) --> bool)
    requires forall t, r, x :: says.requires(t, r, x)
  {
    var at := Places(trace, from, pick);
    |list| == |at| && forall j :: 0 <= j < |list| ==> says(trace[..at[j]], trace[at[j]], list[j])
  }

  /** A 64-bit number read as a signed one. */
  function Signed(x: u64): int { if x < 0x8000_0000_0000_0000 then x else x - 0x1_0000_0000_0000_0000 }

  /** An argument when it is passed: the sign of a number; the types constructed at a pointer. */
  ghost predicate Shows(before: seq<Record>, r: Record, v: ArgValue) {
    match v
    case PosNum => r.size != 1 && Signed(r.ptr) > 0
    case ZeroNum => r.size != 1 && Signed(r.ptr) == 0
    case NegNum => r.size != 1 && Signed(r.ptr) < 0
    case NullPtr => r.size == 1 && r.ptr == 0
    case Ptr(types) => r.size == 1 && r.ptr != 0 && types == Uncovered(Constructions(before, r.ptr))
  }

  predicate IsArg(r: Record) { r.action.Arg? }
  predicate IsBegin(r: Record) { r.action.BeginScope? }
  predicate IsBlock(r: Record) { r.action.BasicBlock? }

  /** A call takes the arguments passed so far. */
  predicate Clears(r: Record) { r.action.ArgClear? || r.action.BeginScope? }

  ghost predicate ClearedAt(trace: seq<Record>, m: nat) {
    && m <= |trace| && (m == 0 || Clears(trace[m - 1]))
    && forall j :: m <= j < |trace| ==> !Clears(trace[j])
  }

  /** The arguments passed since they were last cleared. */
  ghost predicate Passed(trace: seq<Record>, args: seq<ArgValue>) {
    exists m: nat :: ClearedAt(trace, m) && Listed(trace, m, IsArg, args, Shows)
  }

  ghost predicate SaysCall(before: seq<Record>, r: Record, call: Level) {
    call.vid == r.vid && Passed(before, call.args)
  }

  /** A block id is the low half of its record's size, as a signed number. */
  ghost predicate SaysBlock(before: seq<Record>, r: Record, id: int) {
    -0x8000_0000 <= id < 0x8000_0000 && (r.size - id) % 0x1_0000_0000 == 0
  }

  // ----- one more record

  lemma ListedStep<T(!new)>(trace: seq<Record>, r: Record, from: nat, pick: Record -> bool, list: seq<T>,
                            says: (seq<Record>, Record, T) --> bool, added: seq<T>)
    requires forall t, r, x :: says.requires(t, r, x)
    requires from <= |trace| && Listed(trace, from, pick, list, says)
    requires if pick(r) then |added| == 1 && says(trace, r, added[0]) else added == []
    ensures Listed(trace + [r], from, pick, list + added, says)
  {
    var all, at := trace + [r], Places(trace, from, pick);
    assert all[..|all| - 1] == trace && all[|all| - 1] == r;
    assert Places(all, from, pick) == at + if pick(r) then [|trace|] else [];
    hide Places;
    forall j | 0 <= j < |at| ensures all[..at[j]] == trace[..at[j]] {}
  }

  lemma ArgShows(trace: seq<Record>, c: Config, r: Record)
    requires c.cgMode
    ensures Shows(trace, r, ArgOf(r, Run(trace, c).cg.cons))
  {
    TypesAreUncovered(trace, c, r.ptr);
    hide Uncovered, Constructions, Run, TypesAt;
  }

  lemma ClearedStep(trace: seq<Record>, r: Record, m: nat)
    requires ClearedAt(trace, m) && !Clears(r)
    ensures ClearedAt(trace + [r], m)
  {
    hide Clears;
    var all := trace + [r];
    assert all[|trace|] == r && forall j :: 0 <= j < |trace| ==> all[j] == trace[j];
  }

  /** The pending arguments of a run. */
  lemma {:induction false} PendingTold(trace: seq<Record>, c: Config)
    requires c.cgMode
    ensures Passed(trace, Run(trace, c).cg.pending)
    decreases |trace|
  {
    hide Run, StepPtr, Listed, Shows, ArgOf, Bigger, PopContext, AllTypes;
    if trace == [] {
      NothingRun(c);
      NothingListed(trace, IsArg, Shows);
      assert ClearedAt(trace, 0);
    } else {
      var init, r := trace[..|trace| - 1], trace[|trace| - 1];
      assert init + [r] == trace;
      RunStep(init, r, c);
      var pending := Run(init, c).cg.pending;
      if Clears(r) {
        NothingListed(trace, IsArg, Shows);
        assert ClearedAt(trace, |trace|);
      } else {
        PendingTold(init, c);
        var m: nat :| ClearedAt(init, m) && Listed(init, m, IsArg, pending, Shows);
        ClearedStep(init, r, m);
        ArgShows(init, c, r);
        var added := if IsArg(r) then [ArgOf(r, Run(init, c).cg.cons)] else [];
        ListedStep(init, r, m, IsArg, pending, Shows, added);
        assert pending + [] == pending;
      }
    }
  }

  lemma NothingRun(c: Config)
    ensures Run([], c) == START
  {
  }

  lemma NothingListed<T(!new)>(trace: seq<Record>, pick: Record -> bool, says: (seq<Record>, Record, T) --> bool)
    requires forall t, r, x :: says.requires(t, r, x)
    ensures Listed(trace, |trace|, pick, [], says)
  {
  }

  /** The calls of a run are those that begin scopes, in order, each with the arguments passed
      since the last call. */
  lemma {:induction false} CallsTold(trace: seq<Record>, c: Config)
    requires c.cgMode
    ensures Listed(trace, 0, IsBegin, Run(trace, c).cg.calls, SaysCall)
    decreases |trace|
  {
    hide Run, StepPtr, Listed, Passed, ArgOf, Bigger, PopContext, AllTypes;
    if trace == [] {
      NothingRun(c);
      NothingListed(trace, IsBegin, SaysCall);
    } else {
      var init, r := trace[..|trace| - 1], trace[|trace| - 1];
      assert init + [r] == trace;
      RunStep(init, r, c);
      CallsTold(init, c);
      PendingTold(init, c);
      var s := Run(init, c).cg;
      var added := if IsBegin(r) then [Level(r.vid, s.pending)] else [];
      ListedStep(init, r, 0, IsBegin, s.calls, SaysCall, added);
      assert s.calls + [] == s.calls;
    }
  }

  /** The blocks of a run, in order. */
  lemma {:induction false} BlocksTold(trace: seq<Record>, c: Config)
    requires c.bbMode
    ensures Listed(trace, 0, IsBlock, Run(trace, c).blocks, SaysBlock)
    decreases |trace|
  {
    hide Run, StepPtr, StepCg, Listed;
    if trace == [] {
      NothingRun(c);
      NothingListed(trace, IsBlock, SaysBlock);
    } else {
      var init, r := trace[..|trace| - 1], trace[|trace| - 1];
      assert init + [r] == trace;
      RunStep(init, r, c);
      BlocksTold(init, c);
      var blocks := Run(init, c).blocks;
      ListedStep(init, r, 0, IsBlock, blocks, SaysBlock, if IsBlock(r) then [ToVid(r.size)] else []);
      assert blocks + [] == blocks;
    }
  }

  // ----- the call context

  lemma {:induction false} LandingContext(context: seq<(int, seq<PtrType>)>, frames: seq<Frame>, vid: int)
    requires |context| == |frames| && forall k :: 0 <= k < |frames| ==> context[k].0 == frames[k].vid
    ensures |PopFrames(frames, vid)| <= |frames| && PopContext(context, vid) == context[..|PopFrames(frames, vid)|]
    decreases |context|
  {
    if context != [] && context[|context| - 1].0 != vid {
      LandingContext(context[..|context| - 1], frames[..|frames| - 1], vid);
    } else {
      assert context[..|context|] == context;
    }
  }

  /** Entry `k` of the call context: the function of scope `k`, and the types of the arguments
      that it was called with. */
  ghost predicate ContextTold(trace: seq<Record>, k: nat, entry: (int, seq<PtrType>)) {
    exists b: nat, args ::
      OpenSince(trace, k, b) && entry.0 == trace[b].vid && Passed(trace[..b], args) && entry.1 == AllTypes(args)
  }

  lemma ContextStep(trace: seq<Record>, r: Record, k: nat, entry: (int, seq<PtrType>))
    requires ContextTold(trace, k, entry) && k < Depth(trace + [r])
    ensures ContextTold(trace + [r], k, entry)
  {
    hide OpenSince, Passed, AllTypes, Depth;
    forall b: nat | OpenSince(trace, k, b) ensures b < |trace| { SinceIsIn(trace, k, b); }
    var b: nat, args :|
      b < |trace| && OpenSince(trace, k, b) && entry.0 == trace[b].vid && Passed(trace[..b], args) && entry.1 == AllTypes(args);
    OpenSinceStep(trace, r, k, b);
    assert (trace + [r])[..b] == trace[..b];
  }

  lemma ContextNew(trace: seq<Record>, r: Record, args: seq<ArgValue>)
    requires r.action.BeginScope? && Passed(trace, args)
    ensures ContextTold(trace + [r], Depth(trace), (r.vid, AllTypes(args)))
  {
    hide Passed, AllTypes;
    var all, b := trace + [r], |trace|;
    FramesStep(trace, r);
    assert all[..b] == trace && all[..b + 1] == all;
    assert OpenSince(all, Depth(trace), b);
  }

  /** The call context of a run has one entry for each open scope. */
  lemma {:induction false} ContextIsTold(trace: seq<Record>, c: Config)
    requires c.cgMode
    ensures var context := Run(trace, c).cg.context;
      && |context| == |Frames(trace)|
      && forall k :: 0 <= k < |context| ==> context[k].0 == Frames(trace)[k].vid && ContextTold(trace, k, context[k])
    decreases |trace|
  {
    hide Run, Frames, StepPtr, Passed, ArgOf, Bigger, PopContext, AllTypes, ContextTold, PopFrames;
    NothingOpened();
    if trace == [] {
      NothingRun(c);
    } else {
      var init, r := trace[..|trace| - 1], trace[|trace| - 1];
      assert init + [r] == trace;
      RunStep(init, r, c);
      FramesStep(init, r);
      ContextIsTold(init, c);
      var context, frames := Run(init, c).cg.context, Frames(init);
      LandingContext(context, frames, r.vid);
      LandingTold(frames, r.vid);
      PendingTold(init, c);
      if r.action.BeginScope? { ContextNew(init, r, Run(init, c).cg.pending); }
      forall k | 0 <= k < |context| && k < Depth(trace) ensures ContextTold(trace, k, context[k]) {
        ContextStep(init, r, k, context[k]);
      }
    }
  }
}
