/** From the records of a run to the files of its dump. */
module HookDump {
  import opened HookSpec
  import opened Fields
  import Text
  import WindowOrder
  import PtaHook
  import HookBuffer
  import PtsDump
  import CoverageDump
  import DumpValidator
  import Listings

  /** What the three files have to be after a trace, each when its table is kept. */
  ghost predicate Files(pts: string, blocks: string, calls: string, trace: seq<Record>, c: Config) {
    var s := Run(trace, c);
    && (c.ptrMode ==> exists keys, table :: PtsDump.PtsFile(pts, keys, table, s.ptr.pts))
    && (c.bbMode ==> exists wins :: CoverageDump.BlockFile(blocks, wins, PtaHook.NO_VID, s.blocks, c.bbWidth))
    && (c.cgMode ==> exists wins :: CoverageDump.CallFile(calls, wins, PtaHook.NO_LEVEL, s.cg.calls, c.cgWidth))
  }

  /** The dump: what is buffered is consumed, and the tables that are kept are written. The files
      are those of the records sent, for every buffer size and every flush schedule. */
  method WriteFiles(h: HookBuffer.Hook) returns (pts: string, blocks: string, calls: string)
    requires h.Valid()
    modifies h`bufferIndex, h.hook
    ensures h.Valid() && h.sent == old(h.sent) && Files(pts, blocks, calls, h.sent, h.hook.c)
  {
    hide Run, LegalTrace, PtsDump.PtsFile, CoverageDump.BlockFile, CoverageDump.CallFile;
    h.Dump();
    pts, blocks, calls := "", "", "";
    if h.hook.c.ptrMode {
      pts := PtsDump.DumpPts(h.hook.pts);
    }
    if h.hook.c.bbMode {
      blocks := CoverageDump.DumpBlocks(h.hook.allocaPool, h.hook.bbCoverage, h.hook.c.bbWidth, PtaHook.NO_VID, Run(h.sent, h.hook.c).blocks);
    }
    if h.hook.c.cgMode {
      calls := CoverageDump.DumpCalls(h.hook.cgPool, h.hook.argPool, h.hook.ptrTypePool, h.hook.cgCoverage, h.hook.c.cgWidth,
                                      PtaHook.NO_LEVEL, Run(h.sent, h.hook.c).cg.calls);
    }
  }

  /** A trace has one file of each kind: neither offsets nor flushes show in the dump. */
  lemma FilesDetermined(pts: string, blocks: string, calls: string, pts': string, blocks': string, calls': string,
                        trace: seq<Record>, c: Config)
    requires Files(pts, blocks, calls, trace, c) && Files(pts', blocks', calls', trace, c)
    ensures (c.ptrMode ==> pts == pts') && (c.bbMode ==> blocks == blocks') && (c.cgMode ==> calls == calls')
  {
    hide Run, PtsDump.PtsFile, CoverageDump.BlockFile, CoverageDump.CallFile;
    var s := Run(trace, c);
    if c.ptrMode {
      var keys, table :| PtsDump.PtsFile(pts, keys, table, s.ptr.pts);
      var keys', table' :| PtsDump.PtsFile(pts', keys', table', s.ptr.pts);
      PtsDump.PtsFileDetermined(pts, keys, table, pts', keys', table', s.ptr.pts);
    }
    if c.bbMode {
      var wins :| CoverageDump.BlockFile(blocks, wins, PtaHook.NO_VID, s.blocks, c.bbWidth);
      var wins' :| CoverageDump.BlockFile(blocks', wins', PtaHook.NO_VID, s.blocks, c.bbWidth);
      CoverageDump.BlockFileDetermined(blocks, wins, blocks', wins', PtaHook.NO_VID, s.blocks, c.bbWidth);
    }
    if c.cgMode {
      var wins :| CoverageDump.CallFile(calls, wins, PtaHook.NO_LEVEL, s.cg.calls, c.cgWidth);
      var wins' :| CoverageDump.CallFile(calls', wins', PtaHook.NO_LEVEL, s.cg.calls, c.cgWidth);
      CoverageDump.CallFileDetermined(calls, wins, calls', wins', PtaHook.NO_LEVEL, s.cg.calls, c.cgWidth);
    }
  }

  /** Every file of a dump is accepted by the validator. */
  lemma FilesAccepted(pts: string, blocks: string, calls: string, trace: seq<Record>, c: Config)
    requires Files(pts, blocks, calls, trace, c) && c.bbWidth > 0 && c.cgWidth > 0
    ensures c.ptrMode ==> DumpValidator.Accepted(Text.Lines(pts))
    ensures c.bbMode ==> DumpValidator.Accepted(Text.Lines(blocks))
    ensures c.cgMode ==> DumpValidator.Accepted(Text.Lines(calls))
  {
    hide Run, DumpValidator.Accepted, Text.Lines, PtsDump.Header, PtsDump.RecordLines, CoverageDump.BlockLines, CoverageDump.CallLines,
         Listings.Listing, PtsDump.ListsTable, PtsDump.Lists;
    var s := Run(trace, c);
    if c.ptrMode {
      var keys, table :| PtsDump.PtsFile(pts, keys, table, s.ptr.pts);
      CoverageDump.PtsAccepted(keys, table);
    }
    if c.bbMode {
      var wins :| CoverageDump.BlockFile(blocks, wins, PtaHook.NO_VID, s.blocks, c.bbWidth);
      CoverageDump.BlocksAccepted(wins, c.bbWidth);
    }
    if c.cgMode {
      var wins :| CoverageDump.CallFile(calls, wins, PtaHook.NO_LEVEL, s.cg.calls, c.cgWidth);
      CoverageDump.CallsAccepted(wins, c.cgWidth);
    }
  }

  ghost predicate SmallIds(pts: map<int, set<PtsDump.Target>>) {
    forall k :: k in pts ==> IsInt32(k) && forall t :: t in pts[k] ==> IsInt32(t.0)
  }

  /** What the query tool reads: exactly the table of the trace, without contexts. */
  ghost predicate ReadsTable(r: PtsDump.Outcome, pts: map<int, set<PtsDump.Target>>) {
    && r.Records? && r.unresolved == 0
    && (forall i :: 0 <= i < |r.records| ==> ReadsEntry(r.records[i], pts))
    && (forall k :: k in pts ==> exists i :: 0 <= i < |r.records| && r.records[i].key == k)
  }

  ghost predicate ReadsEntry(entry: PtsDump.PtsRecord, pts: map<int, set<PtsDump.Target>>) {
    entry.key in pts && forall v :: v in entry.targets <==> v in Targets(pts[entry.key])
  }

  function Targets(entry: set<PtsDump.Target>): set<int> { set t | t in entry :: t.0 }

  predicate Always(k: int) { true }

  /** When every key names a value, the points-to file of a trace is read back as its table: the
      same keys, each with the same targets. */
  lemma DumpIsReadBack(pts: string, keys: seq<int>, table: PtsDump.Table, s: map<int, set<PtsDump.Target>>, names: string -> Fields.Option<int>)
    requires PtsDump.PtsFile(pts, keys, table, s) && SmallIds(s)
    ensures ReadsTable(PtsDump.ReadDump(pts, names, Always), s)
  {
    TableInRange(table, s);
    ReadBackAll(keys, table);
    hide PtsDump.ReadDump, PtsDump.Header, PtsDump.RecordLines, PtsDump.InRange, Targets, PtsDump.ReadBack, PtsDump.Unread;
    PtsDump.PtsRoundTrip(keys, table, names, Always);
    var records := PtsDump.ReadBack(keys, table, Always);
    forall i | 0 <= i < |records| ensures ReadsEntry(records[i], s) {
      assert keys[i] in keys;
      TargetsRead(table[keys[i]], s[keys[i]]);
    }
    forall k | k in s ensures exists i :: 0 <= i < |records| && records[i].key == k {
      assert k in s.Keys && k in keys;
      var i :| 0 <= i < |keys| && keys[i] == k;
      assert records[i].key == k;
    }
  }

  lemma TargetsRead(listed: seq<PtsDump.Target>, entry: set<PtsDump.Target>)
    requires forall t :: t in listed <==> t in entry
    ensures forall v :: v in PtsDump.Vids(listed) <==> v in Targets(entry)
  {
    var vids := PtsDump.Vids(listed);
    forall v ensures v in vids <==> v in Targets(entry) {
      if v in vids {
        var i :| 0 <= i < |vids| && vids[i] == v;
        assert listed[i] in listed;
      }
      if v in Targets(entry) {
        var t :| t in entry && t.0 == v;
        assert t in listed;
        var i :| 0 <= i < |listed| && listed[i] == t;
        assert vids[i] == v;
      }
    }
  }

  lemma TableInRange(table: PtsDump.Table, s: map<int, set<PtsDump.Target>>)
    requires PtsDump.ListsTable(table, s) && SmallIds(s)
    ensures PtsDump.InRange(table)
  {
    forall k | k in table ensures IsInt32(k) && PtsDump.TargetsInRange(table[k]) {
      assert k in table.Keys && k in s.Keys && k in s;
      forall i | 0 <= i < |table[k]| ensures IsInt32(table[k][i].0) { assert table[k][i] in table[k]; }
    }
  }

  lemma {:induction false} ReadBackAll(keys: seq<int>, table: PtsDump.Table)
    requires forall i :: 0 <= i < |keys| ==> keys[i] in table
    ensures |PtsDump.ReadBack(keys, table, Always)| == |keys| && PtsDump.Unread(keys, table, Always) == 0
    ensures forall i :: 0 <= i < |keys| ==>
      PtsDump.ReadBack(keys, table, Always)[i] == PtsDump.PtsRecord(keys[i], PtsDump.Vids(table[keys[i]]))
  {
    hide PtsDump.Vids;
    if keys != [] { ReadBackAll(keys[1..], table); }
  }
}
