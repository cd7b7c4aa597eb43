# ptacxx: a verified model of its algorithms

ptacxx wraps pointer analyses. Around the analyses it keeps notes and proofs about a program in
plain text files, records what a run of the instrumented program did, answers questions about the
call graph, hashes modules by structure, and numbers everything a query can name. This project
models that logic in Dafny and proves what it does on every input, every run or every reachable
state. LLVM objects are ids; the analysis backend, the demangler and the resolver of indirect calls
are arbitrary functions; files are strings.

| part | modules |
|---|---|
| query tokens and the client's encoding | `Tokens` |
| the argv interceptor | `CommandLine`, `OptionReading` |
| the note file as a sorted map | `Text`, `NoteFile`, `NoteLines`, `NoteReading`, `NoteEffects`, `NoteStore` |
| the proof tree over the notes | `ProofTree`, `NoteProofs`, `TvQuery` |
| the hook runtime | `HookSpec`, `HookScopes`, `HookFrames`, `HookLiveness`, `HookCons`, `HookCalls`, `Interning`, `WindowOrder`, `BlockWindows`, `CgPool`, `PtaHook`, `HookBuffer` |
| its dump, the dump's reader and the validator | `Sorting`, `Listings`, `Fields`, `PtsDump`, `DumpValidator`, `CoverageDump`, `DumpReading`, `HookDump` |
| the call graph | `Lists`, `Places`, `CallGraph`, `CallPlaces`, `Reachability`, `CallTree` |
| the structural hash | `StructuralHash`, `IrModule`, `IrReading`, `IrOrder`, `IrRenaming`, `IrHash` |
| module numbering and name search | `ModuleIndex`, `GlobalNames` |

`dafny verify dfyconfig.toml` checks all of it.

## How the parts fit

* **Notes.** `NoteFile` reads a file as records by one linear scan and proves that the binary search
  over byte offsets finds what the scan finds. `NoteStore` reads the records as a map and proves each
  form of the `note` command to be one update of that map on every well-formed file: first line no
  heading, a newline at the end, headings strictly increasing. `NoteLines` describes `-p`, `-a` and
  `-r` by the lines around the edit and proves the loops to do exactly that; `NoteEffects` says what they
  mean for every proposition of a record, `NoteProofs` reads the graph of propositions from the
  records, and `TvQuery` proves the memoised search of `tv` over the files against reachability in that
  graph, and what `-p` in a file does to its answers.
* **Hook.** `HookSpec` specifies every table as a function of the whole trace of records. `PtaHook`
  keeps the fields of the source, append-only pools with offsets and half-open slices included, and its
  invariant is that they denote the specified state. `HookBuffer` adds batching. The remaining modules
  prove what the specified state means, told from the records alone: which regions are live, which
  entries the probes make, which calls and arguments there were. Windows are interned once each, type
  lists are the uncovered constructions, and the window order is total.
* **Dump.** `Listings` sorts the interned offsets with the comparators of the source, `CoverageDump` and
  `PtsDump` print the tables and read the points-to file back, and `DumpValidator` proves the nested,
  index-advancing validator equal to one pass over a grammar. `HookDump` puts them together: from the
  records sent to files that are determined by them, accepted, and read back.
* **Call graph.** `CallGraph` proves the flat edge array with ranges and the reverse index equal to
  filtering; `CallPlaces` tells which calls of the module have an edge, and where; `Reachability`
  proves the path search sound and complete; `CallTree` bounds the breadth-first tree from both sides,
  and the bounds meet when no callee is silenced.
* **Hash.** `StructuralHash` evaluates terms over a type graph with memo and placeholder, and proves
  what that value does not depend on. `IrModule` says which term a module is hashed by,
  `IrReading` that modules share the term exactly when they agree in all that is read, and `IrOrder`
  which values are numbered. `IrHash` is the hasher with its fields, proved to return the value of
  that term.

## Where the code does less than one would expect

Each of these has an input on which it fails and a condition under which it does not, which is exact
unless it says otherwise.

* `-a` and `-r` look for the group line anywhere below the conjecture and edit the whole indented run
  around it. The premise lands under the wanted group, or is the wanted one, only under
  `NoteEffects.AdditionIsIntendedIff` and `NoteEffects.RemovalIsIntendedIff`
  (`AdditionGoesAstray`, `RemovalGoesAstray`); `-r` undoes `-a` only under
  `NoteEffects.RemovalUndoesAdditionIff` (`RemovalUndoesOther`).
* Text with a line that opens with the heading mark splits the record: `NoteStore.WriteFile`,
  `NoteStore.EditFile` (`NoteTextSplits`, `ProofTextSplits`).
* An encoded token ends where it was meant to only before a space or the end: `Tokens.EncodeRoundTrip`
  (`TextBehindQuote`). The client's joining loses empty arguments: `Tokens.ArgumentsSurvive`
  (`EmptyArgumentIsLost`).
* The range of a scope excludes its newest alloca, which stays live: `HookScopes.EndFreesOwnIff`
  (`HookBuffer.NewestAllocaSurvives`).
* The hash of a type depends on what was hashed before when the type is recursive: `IrHash.OrderMatters`.
  On acyclic types it does not: `StructuralHash.HistoryIrrelevant`. Here the condition goes one way: on a
  cycle two orders may still meet in one word by coincidence.
* The prefix list misses names that go on with byte 255: `GlobalNames.PrefixListIff`
  (`LastByteIsMissed`).
* A struct can get an empty alias: `ModuleIndex.EmptyAliasIff` (`EmptyAliases`).

## Model

| member | source | states |
|---|---|---|
| `NoteFile.FindLowerbound` | src/common/QueryInterface.cpp:225-240 | On any file the returned offset is a key point, and `found` says whether the key in force there is the heading; with non-decreasing headings the offset is that of the first record whose heading is not below the key, and `found` iff that record has it: the answer of a linear scan. |
| `NoteFile.ScanKeyAt` | src/common/QueryInterface.cpp:219-223 | Walking back from any offset ends at a key point (offset 0 at the latest) and gives the key in force there. |
| `NoteFile.KeyAtMonotone` | src/common/QueryInterface.cpp:219-240 | With non-decreasing headings the key in force never goes down as the offset grows: what makes binary search over bytes legitimate. |
| `NoteFile.Boundary` | src/common/QueryInterface.cpp:225-240 | The first offset at which the key in force reaches the wanted key is a key point, and the start of the first record not below it, or the end of the file when there is none. |
| `NoteFile.ReadRecord` | src/common/QueryInterface.cpp:208-217 | Fails exactly away from key points; at one it returns the whole record up to the next key point, and nothing at the end of the file. |
| `NoteFile.RecordsConcatenate` | src/common/QueryInterface.cpp:208-217 | The successive records concatenate to the whole buffer. |
| `NoteFile.LowerBoundSplits` | src/common/QueryInterface.cpp:225-240 | The linear scan that the search is compared with splits the records: everything before it is below the key, the record at it is not. |
| `Text.Compare` | src/common/QueryInterface.cpp:235-239 | Byte comparison of two strings: negative iff below, zero iff equal. |
| `Text.LessTransitive` | src/common/QueryInterface.cpp:235-239 | The string order is transitive. |
| `Text.LessTotal` | src/common/QueryInterface.cpp:235-239 | Any two strings are ordered or equal. |
| `Text.SplitLines` | src/common/QueryInterface.cpp:294-306 | The loop that cuts a text into lines; a last line without newline counts, a final newline adds no empty line. |
| `Text.LinesOfUnlines` | src/common/QueryInterface.cpp:294-306 | Lines written out with newlines are read back as the same lines. |
| `Text.UnlinesOfLines` | src/common/QueryInterface.cpp:294-306 | A text that ends in a newline is its own lines written out again. |
| `NoteStore.Note.Find` | src/common/QueryInterface.cpp:860-881 | In a well-formed file the search gives the record of the heading and the place where it is or would be. |
| `NoteStore.Note.Show` | src/common/QueryInterface.cpp:872-873 | Shows exactly the record that the file, read as a map, holds for the heading. |
| `NoteStore.Note.Write` | src/common/QueryInterface.cpp:874-887 | Insert and append: the file as a map changes at the heading only, to the old record (or a fresh heading) followed by the text, if and only if no line of the text looks like a heading; then it also stays well formed. |
| `NoteStore.Note.Delete` | src/common/QueryInterface.cpp:863-883 | Removes the heading from the map and nothing else, keeps the file well formed, and refuses an absent heading without touching the file. |
| `NoteStore.Note.Prove` | src/common/QueryInterface.cpp:889-943 | `-p` on a well-formed file, for every proof text: a refusal leaves the file as it was; success is the update of one record of the map, and keeps the file well formed, if and only if no new line opens a heading. The body that is written is told from the text: the lines above the conjecture, the theorem line, the indented run below it, the proof line, the other lines. |
| `NoteStore.Note.AddPremise` | src/common/QueryInterface.cpp:889-974 | `-a` on a well-formed file, for every group and premise: the same, with the lines that `NoteLines.Addition` tells from the text. |
| `NoteStore.Note.RemovePremise` | src/common/QueryInterface.cpp:889-1015 | `-r` on a well-formed file: the same, with the lines that `NoteLines.Removal` tells from the text; the file always stays well formed. |
| `NoteStore.SpliceFile` | src/common/QueryInterface.cpp:863-1019 | Cutting the record of a heading out and putting one record or none in its place keeps the file well formed and is one update of the map. |
| `NoteStore.SplicedMap` | src/common/QueryInterface.cpp:863-1019 | On strictly increasing records, the splice keeps them increasing and changes the map at one key; every other record stays as it is. |
| `NoteStore.WriteFile` | src/common/QueryInterface.cpp:874-887 | For every well-formed file: the write is the intended map update iff the text opens no line with the heading mark. |
| `NoteStore.WrittenLines` | src/common/QueryInterface.cpp:874-887 | The record that is written has the heading as its first line, and below it the old lines followed by those of the text. |
| `NoteStore.EditFile` | src/common/QueryInterface.cpp:889-1019 | For every well-formed file and every list of new body lines: one map update iff no line opens a heading when written out; the lines read back as themselves when each is one line. |
| `NoteStore.WrittenOut` | src/common/QueryInterface.cpp:1015 | Lines written one after the other hold a heading iff one of them does. |
| `NoteStore.PromotedIsHarmless` | src/common/QueryInterface.cpp:929-943 | `-p` opens a heading only through the text of the proof: the exact condition on that text. |
| `NoteStore.AddedIsHarmless` | src/common/QueryInterface.cpp:944-974 | `-a` opens a heading only through the names of the group and the premise, likewise. |
| `NoteStore.NoteTextSplits` | src/common/QueryInterface.cpp:874-887 | A note text and a file on which the write is not one update. |
| `NoteStore.ProofTextSplits` | src/common/QueryInterface.cpp:929-943 | A proof text that opens a heading. |
| `NoteStore.RecordsOfConcat` | src/common/QueryInterface.cpp:196-217 | Well-shaped records written one after the other are read back as those records. |
| `NoteStore.RecordsAppend` | src/common/QueryInterface.cpp:196-217 | Reading records is compatible with appending text that starts at a heading. |
| `NoteStore.SearchFinds` | src/common/QueryInterface.cpp:860-881 | What the search returns on a well-formed file is what the map says. |
| `NoteStore.RecordInMap` | src/common/QueryInterface.cpp:208-217 | Every value of the map is one whole record that carries its own heading. |
| `NoteLines.IsTheorem` | src/common/QueryInterface.cpp:345-360 | The first line that states the proposition decides: theorem, conjecture, or neither. |
| `NoteLines.GetWhens` | src/common/QueryInterface.cpp:362-399 | The premises of the first statement of a proposition: for each `When` line of its indented run with a name, the non-empty children directly below it, in order. |
| `NoteLines.GetChildren` | src/common/QueryInterface.cpp:390-397 | The children directly below one `When` line, although the loop itself does not stop at the end of the indented run. |
| `NoteLines.FindConjecture` | src/common/QueryInterface.cpp:914-927 | The first matching conjecture line, a refusal for a theorem met before it under `-a`/`-r`, or not found. |
| `NoteLines.Promote` | src/common/QueryInterface.cpp:929-943 | The rewriting loop of `-p`, told from the text: with no conjecture line, not found; otherwise, of the lines above the first one, the indented run below it and the rest, the first stay, the theorem line follows, then the run, the proof line and the rest. |
| `NoteLines.AddPremise` | src/common/QueryInterface.cpp:944-974 | The insertion of `-a`, told from the text: refused when a theorem line comes first or neither line is there; otherwise the premise closes the indented run below the group line found first anywhere below the conjecture, or a new group closes the run of the conjecture. |
| `NoteLines.RemovePremise` | src/common/QueryInterface.cpp:975-1013 | The removal of `-r`, told from the text: the first matching child of the indented run below the group line goes, and the group line too when the run is that child alone; each refusal has its own condition. |
| `NoteLines.MarkProved` | src/common/QueryInterface.cpp:929-943 | The loop that copies the lines, replacing one and inserting one, equals the two splices. |
| `NoteLines.PromotionIs` | src/common/QueryInterface.cpp:929-943 | For all lines: what `-p` gives is what its description by the surrounding lines says, and nothing else is. |
| `NoteLines.AdditionIs` | src/common/QueryInterface.cpp:914-974 | For all lines, the same of `-a`, refusals included. |
| `NoteLines.RemovalIs` | src/common/QueryInterface.cpp:914-1013 | For all lines, the same of `-r`, refusals included. |
| `NoteReading.EntryIs` | src/common/QueryInterface.cpp:345-380 | What a proposition is, and which run stands below it, told from the text: the first line that states it, with no line of the other sort above. |
| `NoteReading.InRunWhens` | src/common/QueryInterface.cpp:380-398 | A run has a premise iff a line names its group and a later line the premise, with only premises between them. |
| `NoteReading.WhensAre` | src/common/QueryInterface.cpp:345-399 | The status and the premises of a proposition, told from the text alone. |
| `NoteEffects.PromotionKeepsPremises` | src/common/QueryInterface.cpp:345-399 | After `-p` the conjecture is a theorem, every other proposition keeps its status, and every proposition keeps its premises. |
| `NoteEffects.AdditionEffect` | src/common/QueryInterface.cpp:944-974 | For every proposition of the record: the one that heads the edited run gains exactly one premise, under the group that owns the end of that run, or none; every other keeps its entry; no status changes. |
| `NoteEffects.AdditionIsIntendedIff` | src/common/QueryInterface.cpp:944-974 | The premise that `-a` adds is the requested one if and only if the group is new and named, or owns the end of the conjecture's own block. The general claim is false of the code; this is the exact condition. |
| `NoteEffects.AdditionGoesAstray` | src/common/QueryInterface.cpp:944-974 | Two open conjectures, and a `-a` for the first that lands under the group of the second. |
| `NoteEffects.RemovalEffect` | src/common/QueryInterface.cpp:975-1013 | For every proposition of the record: the one that heads the edited run loses the premise that the removed line was read as, or none; every other keeps its entry; no status changes. |
| `NoteEffects.RemovalIsIntendedIff` | src/common/QueryInterface.cpp:975-1013 | `-r` removes the requested premise if and only if the group it found stands in the conjecture's own block and owns the first such line below it. |
| `NoteEffects.RemovalGoesAstray` | src/common/QueryInterface.cpp:975-1013 | A `-r` for the first of two conjectures that removes the premise and the group of the second. |
| `NoteEffects.RunRewritten` | src/common/QueryInterface.cpp:345-399 | Rewriting the indented run below a line changes the entry that the line heads, and no other. |
| `NoteEffects.RunWhensIsBelow` | src/common/QueryInterface.cpp:380-398 | Reading premises in one pass, with the group in force, finds what the nested loops find. |
| `NoteEffects.RemovalUndoesAdditionIff` | src/common/QueryInterface.cpp:944-1013 | `-r` right after `-a` restores the lines if and only if the addition is undoable: a condition on the lines before it. |
| `NoteEffects.RemovalUndoesOther` | src/common/QueryInterface.cpp:944-1013 | A record that `-a` followed by `-r` of the same premise reorders. |
| `NoteProofs.NotesOfHolds` | src/common/QueryInterface.cpp:1123-1148 | The proof graph read from the records: a proposition is in it iff the record of its global states it, with the status and premises of that record. |
| `NoteProofs.ReadProposition` | src/common/QueryInterface.cpp:1123-1148 | Looking a proposition up in the file gives what the graph holds. |
| `NoteProofs.PromotionInGraph` | src/common/QueryInterface.cpp:929-943 | `-p` on a record changes the graph in one place: the conjecture becomes a theorem with the premises it had. |
| `NoteProofs.TheoremNeverLowers` | src/common/QueryInterface.cpp:1089-1153 | Proving one more conjecture never lowers an answer of `tv`, never creates or removes a cycle, and makes proven exactly what rests on theorems but for it. |
| `TvQuery.Tv` | src/common/QueryInterface.cpp:1058-1156 | The query over note files that are well formed: an unstated root is refused; otherwise it ends with a status iff no cycle and no unresolvable name can be reached in the graph of the files, and the status is Proven iff everything reachable is a theorem, conditional iff the proposition is but something reachable is not, Unproven otherwise. With all names resolvable it throws iff a cycle is reachable. |
| `TvQuery.Lookup` | src/common/QueryInterface.cpp:1106-1148 | One visit opens the note file of the global, searches it and reads the proposition: what the graph of the files holds. |
| `TvQuery.Resolver.Resolve` | src/common/QueryInterface.cpp:1089-1153 | One call under a path of ancestors and a memo: its answer is the status that the graph alone determines, the path is restored, the memo stays correct; a cycle error comes with the path that closes it. |
| `TvQuery.Resolver.ResolvePremises` | src/common/QueryInterface.cpp:1139-1148 | The loop over the premises: all are visited, and the status so far is that of the premises so far. |
| `ProofTree.SoundFromPremises` | src/common/QueryInterface.cpp:1089-1153 | A proposition is free of reachable cycles and bad names once its premises lie in a closed set of such propositions that does not contain it. |
| `ProofTree.StatusFromPremises` | src/common/QueryInterface.cpp:1139-1147 | The status of a proposition from those of its direct premises. |
| `TvQuery.Prove` | src/common/QueryInterface.cpp:889-943 | `-p` in the file of a global, with a one-line proof, changes the graph of all files in one place: the conjecture becomes a theorem. |
| `TvQuery.ProvingNeverLowers` | src/common/QueryInterface.cpp:1089-1153 | After it no answer of the query is taken away or lowered, and proven becomes exactly what rests on theorems but for that conjecture. |
| `Tokens.EatToken` | src/common/QueryInterface.cpp:61-89 | The tokenizer loop equals its specification, which splits off one decoded token and the unread rest. |
| `Tokens.Encode` | src/common/QueryInterface.cpp:177-188 | The encoding loop quotes the string and escapes quotes and backslashes. |
| `Tokens.EncodeRoundTrip` | src/common/QueryInterface.cpp:61-89 | For every string, the empty one included, and every text after it: eating gives the string back with the text intact if and only if the text is empty or starts with a space. |
| `Tokens.TextBehindQuote` | src/common/QueryInterface.cpp:61-89 | Text right behind the closing quote becomes part of the token. |
| `Tokens.EncodeIfNecessaryRoundTrip` | src/common/QueryInterface.cpp:190-194 | Encoding only when needed round-trips every non-empty string under the same exact condition on the text after it. |
| `Tokens.JoinArguments` | python/client.py:31-40 | The client joins its arguments, each encoded when necessary, with single spaces. |
| `Tokens.ArgumentsRoundTrip` | python/client.py:68-70 | For every argument list, repeated tokenizing of the joined query gives exactly the non-empty arguments in order. |
| `Tokens.ArgumentsSurvive` | python/client.py:68-70 | The argument list survives unchanged iff it holds no empty string. |
| `Tokens.EmptyArgumentIsLost` | python/client.py:68-70 | An empty argument between two others is lost. |
| `CommandLine.Go` | src/common/CommandLine.cpp:18-103 | The one-pass state machine over argv keeps the program name and exactly what the two-phase reading keeps, and makes the same offers in the same order; the interceptor may remember earlier offers. That reading is told from the characters by `OptionReading.GroupIsReading`. |
| `CommandLine.Step` | src/common/CommandLine.cpp:57-93 | One token before `--`: the state machine stays on the track of the two-phase reading. |
| `CommandLine.GroupPartitions` | src/common/CommandLine.cpp:36-95 | Grouping tokens into options, options with values and plain tokens up to `--` loses and reorders nothing. |
| `CommandLine.FilteredIsSubsequence` | src/common/CommandLine.cpp:18-103 | The kept tokens are a subsequence of argv. |
| `CommandLine.UnchangedIffAllRefused` | src/common/CommandLine.cpp:60-99 | argv comes back unchanged iff every offer is refused. |
| `CommandLine.KeptHasNoneWanted` | src/common/CommandLine.cpp:60-99 | With an interceptor that decides by key, no wanted option is left before `--`. |
| `CommandLine.Idempotent` | src/common/CommandLine.cpp:18-103 | With such an interceptor a second pass changes nothing. |
| `OptionReading.GroupIsReading` | src/common/CommandLine.cpp:46-93 | A command line has one reading, and it is the computed one: the tokens before `--` fall into plain tokens and options; an option is spelled by one or two dashes, its key without equals sign, and either an equals sign and the value, or the next token as value, or no value where none can follow; a key after one dash opens with no dash. |
| `OptionReading.FirstSays` | src/common/CommandLine.cpp:46-78 | Whatever the tokens, the first item is what its characters say. |
| `OptionReading.SpelledIsFirst` | src/common/CommandLine.cpp:46-90 | Conversely, tokens that spell an offer are read as that offer. |
| `OptionReading.OffersOfReading` | src/common/CommandLine.cpp:18-103 | The kept tokens and the offers are those of that reading. |
| `OptionReading.SettleLast` | src/common/CommandLine.cpp:60-99 | One more item: its offer comes after all earlier ones, and its tokens stay at the end unless the interceptor, knowing those offers, takes it. |
| `HookBuffer.Hook.Push` | src/hook/hook.cpp:20-23 | Buffers a record and flushes when the buffer is full; buffered and consumed records together are always the records sent. |
| `HookBuffer.Hook.StopAndConsume` | src/hook/PointerSymbolTable.cpp:109-287 | Consuming the buffer leaves the runtime in the state of the whole trace. |
| `HookBuffer.Hook.Dump` | src/hook/hook.cpp:28-31 | At the dump every field denotes the state of the whole trace, for every buffer size and every flush schedule. |
| `PtaHook.PtaHook.Consume` | src/hook/PointerSymbolTable.cpp:112-285 | One record: every field of the runtime again denotes the state that the extended trace specifies; the pools, offsets and slices are those of the source. |
| `PtaHook.PtaHook.ConsumePtr` | src/hook/PointerSymbolTable.cpp:115-161 | The pointer half of a record gives the specified state; what is live in that state is told from the trace alone by `HookLiveness.LiveIsTold`, and what its probes record by `HookLiveness.TableIsTold`. |
| `PtaHook.PtaHook.ConsumeCg` | src/hook/PointerSymbolTable.cpp:162-202 | The call-graph half of a record gives the specified state, which `HookCalls` tells from the trace alone. |
| `PtaHook.PtaHook.Probe` | src/hook/PointerSymbolTable.cpp:143-161 | A probe records the region found by upper bound and one step back, with the outermost scopes as context; the end of a region wraps at 64 bits as in the source. |
| `PtaHook.PtaHook.FindFloor` | src/hook/PointerSymbolTable.cpp:146-150 | The greatest base not above the address, or none. |
| `PtaHook.PtaHook.BasicBlock` | src/hook/PointerSymbolTable.cpp:267-280 | The sliding window of blocks is pushed to the pool, and truncated away again when an equal one is interned. |
| `PtaHook.PtaHook.BeginCgScope` | src/hook/PointerSymbolTable.cpp:203-238 | Types and arguments are copied to the pools, the window slides, and it is interned once. |
| `PtaHook.PtaHook.RecordWindow` | src/hook/PointerSymbolTable.cpp:228-235 | The interned call windows after one more call: pairwise distinct, exactly the windows of the history, pool size width times their number. |
| `PtaHook.PtaHook.PushArg` | src/hook/PointerSymbolTable.cpp:162-187 | An argument is classified, and a non-null pointer takes a slice of a copy of the types at its address. |
| `PtaHook.PtaHook.LandPtr` | src/hook/PointerSymbolTable.cpp:250-259 | Landing pops scopes, erasing the slice of each, until the function is on top or none is left. |
| `HookSpec.ProbeIsScan` | src/hook/PointerSymbolTable.cpp:143-161 | When live regions lie apart without wrapping, the ordered lookup finds exactly what a scan of the live regions finds. |
| `HookSpec.TableIsHits` | src/hook/PointerSymbolTable.cpp:109-161 | For every trace, an entry is in the points-to table iff some probe of the trace hit it, under the outermost min(K, depth) scopes then open. |
| `HookSpec.TableIsScans` | src/hook/PointerSymbolTable.cpp:109-161 | For every trace whose live regions always lie apart, an entry is in the points-to table iff some probe of the trace found it by a scan, under the outermost min(K, depth) scopes then open. |
| `HookSpec.ScanIsUnique` | src/hook/PointerSymbolTable.cpp:143-161 | A scan of regions that lie apart finds at most one. |
| `HookLiveness.LiveIsTold` | src/hook/PointerSymbolTable.cpp:115-161 | For every legal trace, a region is live at an address iff it is that of the last record that allocates there (alloca, heap allocation or region), and no later record kills it: a free of the address, or a scope end or landing that closes a scope with the address among its early ones. |
| `HookLiveness.LiveIff` | src/hook/PointerSymbolTable.cpp:115-161 | For every legal trace, an address is live iff some record allocates at it and no later one kills it. |
| `HookLiveness.TableIsFloors` | src/hook/PointerSymbolTable.cpp:143-161 | For every legal trace, overlapping regions and wrapping ends included, an entry is in the points-to table iff at some probe the region at the greatest base not above the address covers it: regions and scopes are told from the trace alone. |
| `HookLiveness.TableIsTold` | src/hook/PointerSymbolTable.cpp:143-161 | For every legal trace whose regions lie apart, an entry is in the points-to table iff some probe covers it: the regions scanned, the outermost scopes and the condition are told from the trace alone. |
| `HookLiveness.LegalIsScoped` | src/hook/PointerSymbolTable.cpp:115-121 | A trace is legal iff a scope is open at every alloca and scope end, told from its scopes. |
| `HookLiveness.PopUntilKills` | src/hook/PointerSymbolTable.cpp:250-259 | Landing kills exactly the early addresses of the scopes it closes. |
| `HookFrames.FramesAreTold` | src/hook/PointerSymbolTable.cpp:115-128 | Each open scope, told from positions: the record that began it, the allocas since then, and as early ones those before its own newest alloca. |
| `HookFrames.LandingTold` | src/hook/PointerSymbolTable.cpp:250-259 | Landing leaves the scopes up to the innermost one of the function, or none. |
| `HookScopes.FramesMatch` | src/hook/PointerSymbolTable.cpp:115-128 | After every legal trace the recorded ranges are those that the trace alone shows for each open scope. |
| `HookScopes.EndIsNewestAlloca` | src/hook/PointerSymbolTable.cpp:124-126 | The recorded end of an open scope is the index of the newest alloca of its own, or its start when it has none. |
| `HookScopes.EndKills` | src/hook/PointerSymbolTable.cpp:239-245 | A scope end kills exactly the addresses allocated since the scope began and before its own newest alloca. |
| `HookScopes.EndFreesOwnIff` | src/hook/PointerSymbolTable.cpp:239-245 | For every legal trace a scope end frees the allocas of the scope if and only if it has none, or its newest address is dead already or was allocated before in the scope. That it always does is false of the code; this is the exact condition. |
| `HookScopes.AllocaOutlivesScope` | src/hook/PointerSymbolTable.cpp:115-128 | An alloca followed by the end of its scope outlives it iff its address was not allocated since the scope began. |
| `HookBuffer.NewestAllocaSurvives` | src/hook/PointerSymbolTable.cpp:124-126 | A failing trace: a scope with one alloca, ended, and a probe that still finds the dead object. |
| `HookCons.TypesAreUncovered` | src/hook/PointerSymbolTable.cpp:193-202 | For every trace, the types kept at an address are the constructions there whose size exceeds every later one, in order, hence strictly decreasing in size. |
| `HookCons.ArgumentSnapshot` | src/hook/PointerSymbolTable.cpp:162-187 | A non-null pointer argument snapshots exactly that list. |
| `HookCalls.CallsTold` | src/hook/PointerSymbolTable.cpp:203-227 | The calls of a run are the records that begin scopes, in order, each with one argument for every argument record since the last call or clearing. |
| `HookCalls.PendingTold` | src/hook/PointerSymbolTable.cpp:162-192 | The arguments not yet taken are those passed since they were last cleared: the sign of the 64-bit number, null, or the uncovered constructions at the pointer when it was passed. |
| `HookCalls.BlocksTold` | src/hook/PointerSymbolTable.cpp:267-272 | The blocks of a run are its block records in order, each the low 32 bits of the size as a signed number. |
| `HookCalls.ContextIsTold` | src/hook/PointerSymbolTable.cpp:209-264 | The call context has one entry for each open scope: its function, and the types of the arguments of that call. |
| `Interning.InternNew` | src/hook/PointerSymbolTable.cpp:228-235 | Interning a new window keeps the pool invariant for the longer history. |
| `Interning.InternOld` | src/hook/PointerSymbolTable.cpp:228-235 | Dropping a window that is already interned keeps it too. |
| `Interning.RecentShift` | src/hook/PointerSymbolTable.cpp:228-229 | Dropping the first and appending the newest element gives the last W elements of the longer history. |
| `CgPool.ValuesGrow` | src/hook/PointerSymbolTable.cpp:208-226 | Arguments keep their meaning as the type pool grows. |
| `CgPool.LevelsGrow` | src/hook/PointerSymbolTable.cpp:208-226 | Stored windows keep their meaning as the argument and type pools grow. |
| `CgPool.WindowLess` | src/hook/PointerSymbolTable.h:150-182 | The comparison of two offsets by nested loops over the three pools is the order of the windows they denote. |
| `CgPool.WindowSame` | src/hook/PointerSymbolTable.h:184-210 | The equality functor holds iff the windows are equal. |
| `CgPool.WindowHash` | src/hook/PointerSymbolTable.h:212-233 | The 64-bit hash depends on the denoted window only, so equal windows hash alike wherever they are stored. |
| `CgPool.CompareArgs` | src/hook/PointerSymbolTable.h:159-180 | Comparing two argument lists: first by length, then by the first difference. |
| `CgPool.CompareTypes` | src/hook/PointerSymbolTable.h:169-177 | Comparing two type lists: first by length, then by the first id or size that differs. |
| `WindowOrder.WindowOrderIsTotal` | src/hook/PointerSymbolTable.h:150-182 | The order on windows of one width is irreflexive and transitive, and two windows are unordered iff equal. |
| `WindowOrder.WindowsDiffer` | src/hook/PointerSymbolTable.h:150-182 | Different windows of one width have keys that differ at some position both have. |
| `BlockWindows.BlockLess` | src/hook/PointerSymbolTable.h:127-134 | The comparison of two block windows by offset is the lexicographic order of the windows. |
| `BlockWindows.BlockOrderIsTotal` | src/hook/PointerSymbolTable.h:127-134 | That order is transitive, and two windows are unordered iff equal. |
| `BlockWindows.BlockHash` | src/hook/PointerSymbolTable.h:142-148 | The hash of a block window depends on the window only. |
| `PtaHook.SameBlocks` | src/hook/PointerSymbolTable.h:136-140 | The equality functor of block windows holds iff the windows are equal. |
| `Listings.SortBlocks` | src/hook/PointerSymbolTable.cpp:346-347 | Sorts the interned offsets with the block comparator: every offset once, windows strictly ascending. |
| `Listings.SortCalls` | src/hook/PointerSymbolTable.cpp:372-373 | Sorts the interned offsets with the call comparator, likewise. |
| `Listings.SortedOffsetsList` | src/hook/PointerSymbolTable.cpp:372-373 | The sorted offsets of interned windows list exactly the windows of the history, strictly ascending. |
| `Listings.CallsDistinct` | src/hook/PointerSymbolTable.cpp:372-373 | Interned call windows have distinct keys, so the comparator leaves none unordered. |
| `Sorting.ListingIsUnique` | src/hook/PointerSymbolTable.cpp:372-373 | A set has one ascending listing. |
| `PtsDump.DumpPts` | src/hook/PointerSymbolTable.cpp:311-334 | Prints every key once in ascending order, with its targets in the order of their set and their contexts; flushing the buffer at any point changes nothing. |
| `PtsDump.PtsFileDetermined` | src/hook/PointerSymbolTable.cpp:311-334 | A table has one points-to file. |
| `PtsDump.SortedKeys` | src/hook/PointerSymbolTable.cpp:314-317 | The keys of the table, ascending and complete. |
| `PtsDump.ReadPts` | src/common/QueryInterface.cpp:627-657 | The reader of the query tool: optional magic line, empty lines and keys skipped, targets cut at the first comma, keys without a value counted as unresolved. |
| `PtsDump.PtsRoundTrip` | src/common/QueryInterface.cpp:627-657 | Every printed table of 32-bit ids is read back as its keys in order, each with its targets in order and without contexts. |
| `Fields.StrictIntOfDecimal` | src/common/QueryInterface.cpp:43-53 | A printed 32-bit number is read back as itself. |
| `Fields.SplitChar` | src/common/QueryInterface.cpp:634-642 | The find loop cuts the line at every separator. |
| `Fields.SplitOfJoin` | src/common/QueryInterface.cpp:634-642 | Splitting at a separator undoes joining parts that do not contain it. |
| `CoverageDump.PrintBlockWindow` | src/hook/PointerSymbolTable.cpp:350-353 | A basic-block line: the ids separated by spaces. |
| `CoverageDump.PrintCallWindow` | src/hook/PointerSymbolTable.cpp:376-396 | A call line: the levels separated by a comma and a space, each with its arguments. |
| `DumpReading.BlockLineTells` | src/hook/PointerSymbolTable.cpp:350-353 | Two printed block windows are the same text iff they are the same window. |
| `DumpReading.CallLineTells` | src/hook/PointerSymbolTable.cpp:376-396 | Two printed call windows are the same text iff they agree in the functions of all levels, the kinds of all arguments, and the type ids of pointers. |
| `DumpReading.TokensOfRecord` | src/hook/PointerSymbolTable.cpp:166-184 | The tokens printed of an argument, told from the record that passed it. |
| `CoverageDump.DumpBlocks` | src/hook/PointerSymbolTable.cpp:343-361 | Sorts the interned offsets and prints them: the header and one line for each window of the history, in order. |
| `CoverageDump.DumpCalls` | src/hook/PointerSymbolTable.cpp:369-404 | The same for call windows, read from the three pools. |
| `HookDump.WriteFiles` | src/hook/PointerSymbolTable.cpp:289-406 | From any run of the hook to its three files: each is the file of the trace that was sent, whatever the buffer size and the flushes. |
| `HookDump.FilesDetermined` | src/hook/PointerSymbolTable.cpp:289-406 | A trace has one file of each kind. |
| `HookDump.FilesAccepted` | scripts/validate_dump.py:79-151 | Every file of a dump is accepted by the validator. |
| `HookDump.DumpIsReadBack` | src/common/QueryInterface.cpp:627-657 | The points-to file of a trace with 32-bit ids is read back as its table: the same keys, each with the same targets. |
| `CoverageDump.PtsAccepted` | scripts/validate_dump.py:79-105 | The validator accepts the points-to file of every table. |
| `CoverageDump.BlocksAccepted` | scripts/validate_dump.py:108-128 | It accepts the basic-block file of windows of one width. |
| `CoverageDump.CallsAccepted` | scripts/validate_dump.py:131-151 | It accepts the call-graph file of windows of one width. |
| `CoverageDump.LevelIsRecord` | scripts/validate_dump.py:33-65 | A printed level is a record of the call-graph grammar, with balanced braces. |
| `DumpValidator.Validate` | scripts/validate_dump.py:166-206 | For every list of lines the nested, index-advancing validator reports no problem iff all lines are printable and one pass over them follows the grammar, with the width of each section fixed by its first line. |
| `DumpValidator.ValidatePts` | scripts/validate_dump.py:79-105 | The points-to section: reads on from the next header, or the section has a bad line. |
| `DumpValidator.ValidateBasicBlock` | scripts/validate_dump.py:108-128 | The basic-block section, likewise. |
| `DumpValidator.ValidateCallGraph` | scripts/validate_dump.py:131-151 | The call-graph section, likewise. |
| `DumpValidator.ParseRecord` | scripts/validate_dump.py:33-65 | The token index loop, with its inner loop between braces, accepts exactly the records of the grammar. |
| `CallGraph.CallGraph.BuildCG` | src/common/CallGraph.cpp:24-70 | The edges are those of the module, with contiguous ranges by caller; a throwing resolver leaves the graph unbuilt and a built graph is left alone. Which calls have an edge, and in which order, is told by `CallPlaces.EdgesArePlaced`. |
| `CallPlaces.EdgesArePlaced` | src/common/CallGraph.cpp:29-63 | The edges of a module are those at its places, both ways and in their order: function by function without skipped ones and declarations, call by call, one direct edge for a named callee that is not skipped, one edge per target of the resolver for an unnamed call, the targets of the patch last. |
| `CallPlaces.FailsIffThrows` | src/common/CallGraph.cpp:45-56 | Building fails iff the resolver throws at an unnamed call of a function that is walked, or at its patch. |
| `CallPlaces.NamedCallIsPath` | src/common/CallGraph.cpp:39-43 | A call that names a function makes a call path of one edge. |
| `CallPlaces.ReachNamed` | src/common/CallGraph.cpp:112-123 | On a graph built for the module, the search from a function to one that it names finds a path. |
| `CallGraph.CallGraph.BuildReverseCG` | src/common/CallGraph.cpp:72-81 | Every edge is in the list of its callee, in order, or in the one list of edges that may call anything. |
| `CallGraph.CallGraph.Rebuild` | src/common/CallGraph.cpp:15-22 | Forgets everything that was built. |
| `CallGraph.CallGraph.GetOutEdges` | src/common/CallGraph.cpp:125-133 | All edges with that caller, in order. |
| `CallGraph.CallGraph.GetOutEdgesAtCallSite` | src/common/CallGraph.cpp:135-165 | All edges with that call site, in order. |
| `CallGraph.CallGraph.GetInEdges` | src/common/CallGraph.cpp:171-176 | All edges that name the function as callee, in order. |
| `CallGraph.CallGraph.GetCallAnythingEdges` | src/common/CallGraph.cpp:167-169 | All edges that may call anything, in order. |
| `CallGraph.FunctionShape` | src/common/CallGraph.cpp:32-63 | The edges of one function have it as caller, and those of one call site lie side by side. |
| `Reachability.KnownModule` | src/common/CallGraph.cpp:24-70 | A resolver that leaves out the callee exactly of targets that may be anything yields edges that do so: what the searches ask of a built graph. |
| `Reachability.Reach` | src/common/CallGraph.cpp:112-123 | A non-empty result is a call path that ends at the target, or at an edge that may call anything unless those are ignored, without repeated callees; an empty result means that there is no such path at all. |
| `Reachability.ReachIter` | src/common/CallGraph.cpp:83-110 | One level of the depth-first search: on failure the path is restored and everything newly visited is exhausted. |
| `Reachability.TryEdge` | src/common/CallGraph.cpp:90-107 | One edge: it ends the search, or its callee is visited and exhausted afterwards. |
| `Reachability.ExhaustedHasNoPath` | src/common/CallGraph.cpp:83-110 | No path of any length leaves a set of exhausted functions. |
| `CallTree.BuildTree` | src/common/PAWrapper.cpp:204-228 | Every listed function has exactly its shown callees; each lies within the depth when silenced calls cost nothing, and every function within the depth when they cost one is listed. When no callee in the graph is silenced, the listed functions are exactly those with out-edges in fewer than maxDepth calls of the root, each with all its callees. |
| `CallTree.ChainCost` | src/common/PAWrapper.cpp:219-222 | When no callee in the graph is silenced, every call of a walk costs one. |
| `CallTree.Follow` | src/common/PAWrapper.cpp:216-225 | The loop over the out-edges of one function: shown callees gathered, new ones queued once, in order of distance. |
| `CallTree.Within` | src/common/PAWrapper.cpp:210-214 | When the queue is empty, every function few enough calls away has been visited no later than that many calls. |
| `StructuralHash.EvalRenamed` | src/tools/irHash.cpp:192-247 | Hashing commutes with renaming of types and values over graphs with cycles, whatever is memoised or in progress. |
| `StructuralHash.EvalIsValue` | src/tools/irHash.cpp:192-247 | On acyclic types the memoised hash with placeholders equals plain recursion. |
| `StructuralHash.HistoryIrrelevant` | src/tools/irHash.cpp:192-247 | On acyclic types a hash does not depend on what was hashed before. |
| `IrHash.OrderMatters` | src/tools/irHash.cpp:192-247 | On a recursive type it does: hashing a list node after the pointer to it gives another hash than hashing it first, with the real 64-bit mixers. |
| `IrModule.StripKeepsHash` | src/tools/irHash.cpp:350-377 | Removing all `llvm.dbg.` declarations and calls changes neither the numbering nor the hash. |
| `IrReading.ModuleTells` | src/tools/irHash.cpp:103-118 | Two modules have the same term iff they agree, in order, in every item that is read: type, linkage, flags and initialiser of globals, type, linkage and aliasee of aliases, type and resolver of ifuncs, and signature, linkage, visibility, declaration and kept instructions of kept functions. |
| `IrReading.FunctionTells` | src/tools/irHash.cpp:358-377 | Two functions have the same term iff they agree in type, linkage, visibility, being declarations, number of blocks, and the kept instructions of each. |
| `IrReading.InstructionTells` | src/tools/irHash.cpp:311-346 | Two instructions have the same term iff they agree in opcode, type, operands, and all that is read of one kind of instruction only. |
| `IrReading.OperandTells` | src/tools/irHash.cpp:249-261 | Operands with the same term are the same. |
| `IrReading.ConstantTells` | src/tools/irHash.cpp:263-309 | Constants with the same term are the same, nested ones included. |
| `IrReading.NodeTells` | src/tools/irHash.cpp:192-242 | Types of one kind have the same term iff they are the same. |
| `IrReading.GlobalTells` | src/tools/irHash.cpp:379-389 | Two global variables have the same term iff they agree in type, linkage, both flags and initialiser. |
| `IrReading.KeptOfOne` | src/tools/irHash.cpp:128-130 | Of one instruction, a call of a debug function is left out and nothing else. |
| `IrReading.KeptOfBoth` | src/tools/irHash.cpp:364-375 | What is kept of two lists is what is kept of each. |
| `IrReading.FunctionsOfOne` | src/tools/irHash.cpp:128-130 | Of one function, a debug function is left out and nothing else. |
| `IrReading.FunctionsOfBoth` | src/tools/irHash.cpp:113-116 | What is kept of two lists of functions is what is kept of each. |
| `IrOrder.OrderIsPlaced` | src/tools/irHash.cpp:132-155 | The values that are numbered are those at the spots of the module, both ways and in their order: globals, aliases, ifuncs, and of each kept function itself, its arguments, and its blocks with the instructions kept of them. |
| `IrOrder.NumbersAre` | src/tools/irHash.cpp:132-160 | Values that occur once are numbered from 1 in that order; all others get no number. |
| `IrRenaming.RenamingKeepsHash` | src/tools/irHash.cpp:103-118 | Two modules related by renaming, injective on values and on the types used, with debug names kept apart, have the same hash; types may be recursive. |
| `IrRenaming.ModuleRenamed` | src/tools/irHash.cpp:103-118 | What is hashed of a renamed module is the renamed term: the names and ids enter nowhere else. |
| `IrRenaming.NumbersRenamed` | src/tools/irHash.cpp:133-160 | Renamed values get the same numbers. |
| `IrHash.StructuralHasher.Hash` | src/tools/irHash.cpp:103-118 | A new hasher returns the structural hash of the module; the result is proved about that function. |
| `IrHash.StructuralHasher.AssignIds` | src/tools/irHash.cpp:133-155 | Numbers the values from 1 in order, leaving out debug functions and calls. |
| `IrHash.StructuralHasher.HashType` | src/tools/irHash.cpp:192-247 | Memo, placeholder and recursion for one type; the types in progress are restored and the recursion ends on every finite type graph. |
| `IrHash.StructuralHasher.HashKind` | src/tools/irHash.cpp:201-242 | The switch over the kinds of type. |
| `IrHash.StructuralHasher.HashPointerType` | src/tools/irHash.cpp:174-190 | Pointer types, opaque or not. |
| `IrHash.StructuralHasher.HashConstant` | src/tools/irHash.cpp:263-309 | All kinds of constant, nested ones recursively. |
| `IrHash.StructuralHasher.HashOperand` | src/tools/irHash.cpp:249-261 | All kinds of operand. |
| `IrHash.StructuralHasher.HashInstruction` | src/tools/irHash.cpp:311-346 | What is read of an instruction, in order: the hash of its term, which `IrReading.InstructionTells` proves to hold opcode, type, details and operands. |
| `IrHash.StructuralHasher.HashBlock` | src/tools/irHash.cpp:364-375 | The instructions of a block that are not debug calls: their number and their mix. |
| `IrHash.StructuralHasher.HashFunction` | src/tools/irHash.cpp:358-377 | Signature, linkage, visibility, and the blocks in order. |
| `IrHash.StructuralHasher.HashGlobal` | src/tools/irHash.cpp:379-389 | Global variables with their initialisers. |
| `ModuleIndex.Index.BuildModuleIndex` | src/common/IRManager.cpp:63-192 | After indexing, the ids below the counter are shared out between values and structs without overlap, each map is inverse to its partner, values are numbered in module order, and the registered structs are exactly the named types reachable from the recorded types; the entries are, for every struct, global and function, the one of its IR name and its aliases, and no others. |
| `ModuleIndex.Index.RecordStructTypes` | src/common/IRManager.cpp:71-106 | The worklist ends on cyclic types and registers exactly the named structs reachable from the type. |
| `ModuleIndex.Index.AddNames` | src/common/IRManager.cpp:86-98 | Keeps all earlier entries and adds the one of the IR name and, as aliases, the names of the chain that differ from it: the whole new state. |
| `ModuleIndex.AliasesAre` | src/common/IRManager.cpp:86-98 | In a finished index the aliases of an id are exactly the names of its chain other than its own. |
| `ModuleIndex.EmptyAliasIff` | src/common/IRManager.cpp:87-98 | A struct has an empty alias if and only if dropping its kind and then its namespaces reaches the empty string. |
| `ModuleIndex.EmptyAliases` | src/common/IRManager.cpp:87-98 | Three names that do: no kind, nothing behind the kind, nothing behind the last namespace. |
| `ModuleIndex.RootDone` | src/common/IRManager.cpp:71-106 | An emptied worklist has reached everything reachable. |
| `GlobalNames.ListGlobal` | src/common/IRManager.cpp:323-329 | On the sorted index the slice between two lower bounds is, in order, the entries whose name continues the prefix with no byte 255. |
| `GlobalNames.PrefixListIff` | src/common/IRManager.cpp:323-329 | That is the list of all names with the prefix iff no name continues it with byte 255. |
| `GlobalNames.LastByteIsMissed` | src/common/IRManager.cpp:323-329 | A name that goes on with byte 255 and is missed. |
| `GlobalNames.GetGlobal` | src/common/IRManager.cpp:331-357 | Returns the one value with that IR name; not found and ambiguous exactly when there is none or more than one. |
| `GlobalNames.LowerBound` | src/common/IRManager.h:56-60 | Binary search by name, id and kind of name splits the sorted index at the key. |
| `GlobalNames.InRange` | src/common/IRManager.cpp:323-329 | Which names lie between the two bounds. |

Names above are qualified by module and class. The specification functions that the methods are
proved against stand beside them: `NoteFile.Records` and `LowerBound`, `NoteLines.Entry`, `Promoted`,
`PremiseAdded` and `PremiseRemoved`, `ProofTree.Status` and `Sound`, `CommandLine.Filtered`,
`HookSpec.Run`, `HookScopes.Frames`,
`CallGraph.ModuleEdges`, `Reachability.CallPath`, `StructuralHash.Eval`,
`IrModule.ModuleTerm`, `DumpValidator.Scan` and `ModuleIndex.Registered`.

## Left out

- NoteStore.Note.Write: says nothing about a file that is not well formed, where the search may stop at another record than a scan would; the same holds for the other forms of the command.
- TvQuery.Tv: the lookup of a global and of its note file is one set of names and one map from names to files; missing debug information, a missing file, a missing heading and an unstated root get one reply for the root (`NotStated`) and count as unproven below it, where the source has one message each. It asks for well-formed files.
- TvQuery.Prove: speaks of proofs of one line; for any other text `NoteStore.Note.Prove` says what happens to the file.
- NoteStore.Note.Show: the form that prints a line number, the choice and creation of the note file, and file errors are not modelled.
- CallTree.BuildTree: with silenced callees the listed functions are bounded from both sides, not determined: the queue is not ordered by cost there, and a function can be recorded deeper than its cheapest path.
- PtaHook.PtaHook.Consume: records that make the source abort or read an empty stack (an alloca or a scope end without an open scope, an unknown action) are excluded by `HookSpec.Legal`.
- PtsDump.DumpPts: the order of pairs and vectors, the library's, is written out as `PtsDump.TargetKey`, and library sorts as selections. `PtsDump.PtsRoundTrip` asks for ids that fit 32 bits, as the ids of the source do.
- DumpValidator.Validate: counts no messages, only whether there is a problem; digits and white space are those of ASCII, and the splitting of the file into lines comes before it.
- ModuleIndex.Index.BuildModuleIndex: the final sort of the names is the library's, and the demangler is an arbitrary function; `GlobalNames` starts from a sorted index.
- IrHash.StructuralHasher.Hash: that a changed module hashes differently cannot be proved of a 64-bit hash; `IrReading.ModuleTells` says it of the term that is hashed.
- Hash tables and ordered maps of the libraries are mathematical maps and sets; lookups that need an order, a hash or an equality functor are written as scans that use the modelled functor. A hash table is thereby assumed to find an element iff equal ones hash alike, which `CgPool.WindowHash` and `BlockWindows.BlockHash` prove.
- Points-to and alias caches and the allocation-site index of src/common/PAWrapper.cpp: one lookup each in front of the backend.
- Drivers, LLVM calls, IR parsing, demangling, the instrumenter and the memory-builtin tables: library code or tables, taken as parameters.
- Environment variables, signal handlers, processes, HTTP, timing and messages.
- Strings are sequences of characters; where the order or the byte range of names matters, the order is that of the characters and the range is a precondition (`GlobalNames.Bytes`).
