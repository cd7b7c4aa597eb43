/** The record buffer in front of the runtime, and what a scope end leaves alive. */
module HookBuffer {
  import opened HookSpec
  import PtaHook

  lemma {:induction false} LegalPrefix(trace: seq<Record>, i: nat, c: Config)
    requires LegalTrace(trace, c) && i <= |trace|
    ensures LegalTrace(trace[..i], c)
    ensures i < |trace| ==> Legal(Run(trace[..i], c), trace[i], c)
    decreases |trace|
  {
    hide Run, Legal;
    if i == |trace| {
      assert trace[..i] == trace;
    } else {
      var init := trace[..|trace| - 1];
      if i < |init| { LegalPrefix(init, i, c); }
      assert init[..i] == trace[..i];
    }
  }

  class Hook {
    const size: nat
    const hook: PtaHook.PtaHook
    const buffer: array<Record>
    var bufferIndex: nat

    /** Every record pushed so far. */
    ghost var sent: seq<Record>

    ghost predicate Valid()
      reads this, hook, buffer
    {
      && buffer.Length == size > 0 && bufferIndex < size
      && hook.Valid() && LegalTrace(sent, hook.c)
      && sent == hook.trace + buffer[..bufferIndex]
    }

    constructor (size: nat, c: Config)
      requires size > 0 && c.bbWidth > 0 && c.cgWidth > 0
      ensures Valid() && sent == [] && hook.c == c && fresh(hook) && fresh(buffer)
    {
      this.size := size;
      hook := new PtaHook.PtaHook(c);
      buffer := new Record[size](_ => Record(0, HeapFree, 0, 0));
      bufferIndex := 0;
      sent := [];
    }

    /** Consumes what is buffered: the runtime then stands where the whole trace leads. */
    method StopAndConsume()
      requires buffer.Length == size && bufferIndex <= size
      requires hook.Valid() && LegalTrace(sent, hook.c) && sent == hook.trace + buffer[..bufferIndex]
      modifies `bufferIndex, hook
      ensures bufferIndex == 0 && hook.trace == sent && hook.Valid()
    {
      hide LegalTrace, Run, Legal, PtaHook.PtaHook.Denotes;
      ghost var before := hook.trace;
      for i := 0 to bufferIndex
        invariant hook.Valid() && hook.trace == before + buffer[..i]
      {
        LegalPrefix(sent, |before| + i, hook.c);
        assert sent[..|before| + i] == hook.trace && sent[|before| + i] == buffer[i];
        hook.Consume(buffer[i]);
        assert buffer[..i + 1] == buffer[..i] + [buffer[i]];
      }
      bufferIndex := 0;
    }

    /** Buffers a record, and consumes the buffer when it is full. */
    method Push(r: Record)
      requires Valid() && Legal(Run(sent, hook.c), r, hook.c)
      modifies this, hook, buffer
      ensures Valid() && sent == old(sent) + [r]
    {
      hide LegalTrace, Run, Legal, PtaHook.PtaHook.Denotes;
      RunStep(sent, r, hook.c);
      buffer[bufferIndex] := r;
      ghost var i := bufferIndex;
      assert buffer[..i + 1] == old(buffer[..i]) + [r];
      sent := sent + [r];
      bufferIndex := bufferIndex + 1;
      if bufferIndex == size { StopAndConsume(); }
    }

    /** Whatever the buffer size and wherever it was flushed, the tables at the dump are those
        of the trace that was sent. */
    method Dump()
      requires Valid()
      modifies `bufferIndex, hook
      ensures Valid() && hook.trace == sent == old(sent) && hook.Denotes(Run(sent, hook.c))
    {
      StopAndConsume();
    }
  }

  // ----- what a scope end leaves alive

  /** A scope with a single alloca: the address stays live after the scope has ended, and a
      probe there still yields the dead object. */
  lemma NewestAllocaSurvives(fn: int, target: int, pointer: int, addr: u64, size: u64, c: Config)
    requires c.ptrMode && 0 < size && addr + size < 0x1_0000_0000_0000_0000
    ensures var trace := [Record(fn, BeginScope, 0, 0), Record(target, Alloca, addr, size), Record(fn, EndScope, 0, 0),
                          Record(pointer, Probe, addr, 0)];
      LegalTrace(trace, c) && InTable(Run(trace, c).ptr.pts, pointer, (target, []))
  {
    var b, a, e, p := Record(fn, BeginScope, 0, 0), Record(target, Alloca, addr, size), Record(fn, EndScope, 0, 0), Record(pointer, Probe, addr, 0);
    assert [b, a, e, p] == [] + [b] + [a] + [e] + [p];
    hide LegalTrace, Run, Step, Legal;
    Start(c);
    RunStep([], b, c);
    RunStep([] + [b], a, c);
    RunStep([] + [b] + [a], e, c);
    RunStep([] + [b] + [a] + [e], p, c);
    AfterScope(fn, target, addr, size, c);
    var s := Run([] + [b] + [a] + [e], c);
    ProbeFinds(s, p, target, addr, size, c);
  }

  lemma AfterScope(fn: int, target: int, addr: u64, size: u64, c: Config)
    requires c.ptrMode
    ensures var b, a, e := Record(fn, BeginScope, 0, 0), Record(target, Alloca, addr, size), Record(fn, EndScope, 0, 0);
      var s1 := Step(START, b, c); var s2 := Step(s1, a, c); var s3 := Step(s2, e, c);
      && Legal(START, b, c) && Legal(s1, a, c) && Legal(s2, e, c)
      && s3.ptr.live == map[addr := Region.Region(target, size)] && s3.ptr.scopes == []
  {
    var b, a, e := Record(fn, BeginScope, 0, 0), Record(target, Alloca, addr, size), Record(fn, EndScope, 0, 0);
    var s1 := Step(START, b, c);
    assert s1.ptr == PtrState(map[], [], [Scope(fn, 0, 0)], map[]);
    var s2 := Step(s1, a, c);
    assert s2.ptr == PtrState(map[addr := Region.Region(target, size)], [addr], [Scope(fn, 0, 0)], map[]);
    assert Erase(s2.ptr.live, [addr][0..0]) == s2.ptr.live;
    var s3 := Step(s2, e, c);
    assert s3.ptr.scopes == [];
  }

  lemma ProbeFinds(s: State, p: Record, target: int, addr: u64, size: u64, c: Config)
    requires c.ptrMode && 0 < size && addr + size < 0x1_0000_0000_0000_0000
    requires s.ptr.live == map[addr := Region.Region(target, size)] && s.ptr.scopes == []
    requires p.action.Probe? && p.ptr == addr
    ensures Legal(s, p, c) && InTable(Step(s, p, c).ptr.pts, p.vid, (target, []))
  {
    assert IsFloor(s.ptr.live.Keys, addr, addr) && EndOf(addr, size) == addr + size;
    PtaHook.ProbeRecords(s.ptr, p, c.k, addr);
    assert Context([], c.k) == [];
  }

  lemma Start(c: Config)
    ensures Run([], c) == START && LegalTrace([], c)
  {
  }
}
