# libperf: JIT symbol registry, inline unfolder and sample aggregator

This project models two sequential pieces of `libperf` in Dafny.

**The JVMTI agent's JIT symbol side** (`libperf/jvmti-agent.cpp`):

- The global registry `methods` (a `std::map` from `jmethodID` to
  `jit_compiled_method`) is modelled as a class. Each record holds an ordered,
  deduplicated set of code regions. The class covers a load event, an unload
  event and the dump into the perf map file.
- The dump is modelled as the sequence of `(addr, len, name)` entries it writes.
- The option flags derived in `Agent_OnLoad`.
- `class_name_from_sig`, modelled on an array buffer.
- `sig_string`, modelled over an abstract metadata record in which every
  JVMTI lookup may fail.
- The unused `get_line_number`.
- The inline-range unfolder: `generate_unfolded_entries`,
  `write_unfolded_entry` and `generate_unfolded_entry`. It cuts a compiled
  blob into address ranges wherever the top-of-stack method changes, and
  names each range in one of three modes.

**The sample aggregator** (`libperf/profiler-backend.cpp`):

- `visit_sample` folds a stream of `(timestamp, symbol, dso)` samples into
  per-`symbol@dso` routines. Each routine keeps its self time and its
  invocation count, with 64-bit wrap-around written out.
- `prepare_top` ranks the routines by self time, in descending order.
- The index getters read that ranking.

Modules:

- `Wrappers`, `Jvmti` and `PerfMap` (`common.dfy`): shared types.
- `AgentOptions` (`agent_options.dfy`): the option flags.
- `Formatter` (`formatter.dfy`): the class-name, signature and line-number
  helpers.
- `Registry` (`registry.dfy`): the JIT registry and the dump.
- `Unfolder` (`unfolder.dfy`): the inline-range unfolder.
- `ProfilerBackend` (`profiler_backend.dfy`): the aggregator.

The imperative code is modelled as methods, on classes for the two globals.
Each method is proved against a specification function:

- `JitRegistry` against `Loaded`, `Unloaded` and `Tagged`.
- `SampleAggregator` against `Visit` and `SortByTime`.
- `ClassNameFromSig`, a module-level method over an array buffer, against
  `FilledBuffer`.
- `GenerateUnfoldedEntries`, a module-level method that returns the entries
  it writes and changes no state, against `UnfoldedEntries`.

The lemmas state what the source promises about those functions.

## Model

| member | source | states |
|---|---|---|
| AgentOptions.Contains | libperf/jvmti-agent.cpp:479-485 | `strstr(s, needle) != NULL` holds exactly when `needle` occurs at some position of `s` |
| AgentOptions.ParseOptions | libperf/jvmti-agent.cpp:479-485 | each flag is a substring test on the options string; `unfoldsimple` and `unfoldall` both imply the unfolding flag |
| AgentOptions.UnfoldingFlag | libperf/jvmti-agent.cpp:481 | unfolding is on exactly when "unfold" occurs in the options, and `debug_dump_unfold_entries` switches it on as well |
| Formatter.CleanClassName | libperf/jvmti-agent.cpp:181-190 | the cleaned name is a prefix of the signature after `L`, with `/` mapped to `.`, holding no `;`, and ends at the cap, at the end of the signature or at the first `;` |
| Formatter.FilledBufferCString | libperf/jvmti-agent.cpp:180-193 | the C string read back from the filled buffer is the cleaned name, or the signature when it fits, and is absent when `strncpy` filled the buffer |
| Formatter.ClassNameFromSig | libperf/jvmti-agent.cpp:180-193 | the array loop fills `dest` exactly as `FilledBuffer` says, so it reads back as the modelled C string |
| Formatter.UnterminatedClassName | libperf/jvmti-agent.cpp:192 | a signature at least as long as the buffer leaves it without a terminating NUL when the name is copied unchanged |
| Formatter.ClassName | libperf/jvmti-agent.cpp:180-193 | the terminated class name: always shorter than the buffer, equal to the loop's result when that is terminated, otherwise a prefix of the signature cut at `dest_size - 1` |
| Formatter.SigString | libperf/jvmti-agent.cpp:195-241 | the result is the sentinel `<error writing signature>` exactly when the method-name, declaring-class or class-signature lookup fails; otherwise it starts with `class::method` |
| Formatter.SignatureOnlyWhenEnabled | libperf/jvmti-agent.cpp:229-230 | with method signatures off, the method's signature does not affect the name |
| Formatter.SignatureShown | libperf/jvmti-agent.cpp:229-233 | with method signatures on and the signature known, `class::method` is followed directly by that signature |
| Formatter.SourcePositionShown | libperf/jvmti-agent.cpp:216-221 | with source positions on and both lookups answered on a non-empty table, the name ends with `(file:line)`, the line being the first entry's |
| Formatter.SourcePositionOnlyWhenKnown | libperf/jvmti-agent.cpp:216-227 | the `(file:line)` suffix depends on the source file and line table only when source positions are on and both lookups succeed |
| Formatter.EmptyLineTable | libperf/jvmti-agent.cpp:219-221 | an empty line table yields line `-1` in the suffix |
| Formatter.NatToString | libperf/jvmti-agent.cpp:221 | the `%d` digits of a non-negative number: non-empty, all decimal digits, with a leading `0` exactly for zero |
| Formatter.IntToString | libperf/jvmti-agent.cpp:221 | `%d`: a leading `-` exactly for negative numbers, followed by decimal digits |
| Formatter.NatToStringRoundTrip | libperf/jvmti-agent.cpp:221 | the printed digits read back as the number printed |
| Formatter.IntToStringRoundTrip | libperf/jvmti-agent.cpp:221 | the printed line number reads back as its sign and magnitude |
| Formatter.FirstStartAfter | libperf/jvmti-agent.cpp:174-175 | finds the first line-table entry starting after `loc`, and no earlier entry does |
| Formatter.GetLineNumber | libperf/jvmti-agent.cpp:172-178 | the loop computes the as-written line lookup; the model requires that the first entry does not start after `loc`, where the source would read `table[-1]` |
| Formatter.LineNumberAsWritten | libperf/jvmti-agent.cpp:172-178 | as written: `-1` when no entry starts after `loc`, otherwise the line of the entry just before the first one that does |
| Formatter.LineNumberAt | libperf/jvmti-agent.cpp:172-178 | corrected: `-1` when the table is empty or starts after `loc`, otherwise the line of the entry the corrected index picks, including the last entry |
| Formatter.LineIndexAt | libperf/jvmti-agent.cpp:172-178 | the entry before the first one starting after `loc`, or the last entry when none does, with no entry up to it starting after `loc`; none exactly when the table is empty or its first entry starts after `loc` |
| Formatter.LineNumberAtAgrees | libperf/jvmti-agent.cpp:172-178 | the as-written lookup and the corrected one agree whenever some entry starts after `loc` |
| Formatter.LastRangeLosesLine | libperf/jvmti-agent.cpp:174-177 | a location inside the last range gets `-1` as written, but its line from the corrected lookup |
| Registry.InsertRegion | libperf/jvmti-agent.cpp:57-63 | after an insert some region starts at the new region's start address, and the set grows by at most one |
| Registry.InsertRegionFrom | libperf/jvmti-agent.cpp:57-63 | inserting adds nothing but the new region |
| Registry.InsertRegionAscending | libperf/jvmti-agent.cpp:57-63 | inserting into a region set keeps it in strictly ascending start order |
| Registry.InsertRegionPresent | libperf/jvmti-agent.cpp:57-63 | a region whose start address is already present leaves the set unchanged, since regions compare by start address only |
| Registry.InsertRegionFresh | libperf/jvmti-agent.cpp:57-63 | a region with a new start address is added once and nothing else changes |
| Registry.Loaded | libperf/jvmti-agent.cpp:412-418 | after a load of `m` its record holds exactly the one new region, and every other record is unchanged |
| Registry.Unloaded | libperf/jvmti-agent.cpp:118-123 | unloading drops `m`'s record, is a no-op when `m` is absent, and leaves every other record unchanged |
| Registry.MinKey | libperf/jvmti-agent.cpp:101-103 | the next record of the ordered map is the least remaining handle |
| Registry.TaggedSpec | libperf/jvmti-agent.cpp:125-149 | the dump lists records in ascending handle order and regions in ascending start order, and holds exactly the stored regions |
| Registry.DumpCount | libperf/jvmti-agent.cpp:128-135 | the dump has one entry per stored region, summed over all records |
| Registry.OneRegionEachCount | libperf/jvmti-agent.cpp:125-149 | when each record holds one region, the dump has one entry per record |
| Registry.LoadUnloadKeepOneRegion | libperf/jvmti-agent.cpp:412-418 | loads and unloads keep every record at exactly one region |
| Registry.ReloadKeepsLatest | libperf/jvmti-agent.cpp:416-418 | after two loads of `m`, the dump holds only the later region for `m` |
| Registry.UnloadRemovesFromDump | libperf/jvmti-agent.cpp:118-123 | after an unload, the dump holds no region of `m` and the same regions for every other handle |
| Registry.DumpStep | libperf/jvmti-agent.cpp:129-144 | emitting the least remaining record's regions advances the dump toward the whole specified sequence |
| Registry.JitRegistry.constructor | libperf/jvmti-agent.cpp:101-103 | the registry starts empty |
| Registry.JitRegistry.GetJitInfo | libperf/jvmti-agent.cpp:105-116 | returns the record for `m`, and creates an empty one filed under `m` only when it is absent |
| Registry.JitRegistry.RemoveJitInfo | libperf/jvmti-agent.cpp:118-123 | the registry becomes `Unloaded(old, m)` |
| Registry.JitRegistry.CompiledMethodLoad | libperf/jvmti-agent.cpp:412-418 | the registry becomes `Loaded(old, m, region)`, the region holding the address, the size and the name `sig_string` gives for `m`'s own metadata |
| Registry.JitRegistry.CompiledMethodUnload | libperf/jvmti-agent.cpp:430 | the registry becomes `Unloaded(old, m)` |
| Registry.JitRegistry.DumpPerfFile | libperf/jvmti-agent.cpp:125-149 | the nested loops emit exactly the specified ordered dump, and the counter equals the number of entries |
| Unfolder.ChangesSpec | libperf/jvmti-agent.cpp:359-377 | the recorded break points strictly increase, and an index is one exactly when the top method differs from the current method there |
| Unfolder.ChainOutermostFirst | libperf/jvmti-agent.cpp:281-286 | the full-chain name lists the outermost frame first, followed by `->` and the inner frames |
| Unfolder.FullChainName | libperf/jvmti-agent.cpp:277-287 | the loop from the last frame down to frame 0 builds the `->`-joined chain |
| Unfolder.ChainEnds | libperf/jvmti-agent.cpp:281-286 | the full-chain name starts with the outermost frame's name and ends with the top frame's name |
| Unfolder.InlinedName | libperf/jvmti-agent.cpp:250-258 | in simple mode the inlined method's own name; otherwise that name, then ` in `, then the root name |
| Unfolder.RangeName | libperf/jvmti-agent.cpp:277-295 | in full-chain mode the `->`-joined chain of the stack, ending with the top method's name; otherwise the root name when the top is the root, and the inlined name of the top method, starting with its name, when it is not |
| Unfolder.WriteUnfoldedEntry | libperf/jvmti-agent.cpp:266-299 | the entry covers `[start, end)` and is named by the full chain, by the top method (alone or as `top in root`) when it differs from the root, or by the root name |
| Unfolder.ScanStep | libperf/jvmti-agent.cpp:364-377 | one loop iteration closes a range exactly at a change of top method and otherwise changes nothing |
| Unfolder.ScanBreakpoints | libperf/jvmti-agent.cpp:353-378 | the loop emits the closed ranges and leaves the start address at the last break point |
| Unfolder.GenerateUnfoldedEntries | libperf/jvmti-agent.cpp:333-394 | the entries written are exactly the specified unfolding of the blob |
| Unfolder.NoInlineSingleEntry | libperf/jvmti-agent.cpp:392-393 | without inline info there is one entry covering the whole blob, named by the root |
| Unfolder.UnfoldPartition | libperf/jvmti-agent.cpp:350-391 | with inline info the ranges run contiguously from `code_addr` to `code_addr + code_size`, one per break point plus at most one tail; sizes are signed address differences, before the `unsigned int` narrowing |
| Unfolder.RangesEndAtChanges | libperf/jvmti-agent.cpp:359-377 | each closed range ends exactly at the pc of a change of top method, and every change closes one |
| Unfolder.UnfoldSizesNonNegative | libperf/jvmti-agent.cpp:366-389 | when the pcs ascend within the blob, no range has a negative length and none is longer than the blob |
| Unfolder.WrittenSizesExact | libperf/jvmti-agent.cpp:366-389 | for a blob under 2^31 bytes with pcs ascending inside it, the narrowing to `unsigned int` keeps every size |
| Unfolder.BreakpointBeforeBlobWraps | libperf/jvmti-agent.cpp:366-372 | a first change at pc 50 in a blob at 100 gives the signed size -50, which reaches the map file as 4294967246 |
| Unfolder.FirstBreakpointChange | libperf/jvmti-agent.cpp:368-373 | a change at index 0 emits the root-named range `[code_addr, pc0)` |
| Unfolder.SameTopOverRange | libperf/jvmti-agent.cpp:369 | the stack used to name a closed range has the top method that was current over that range |
| Unfolder.RangesNamedByOwner | libperf/jvmti-agent.cpp:288-295 | outside full-chain mode each range is named by the method that owned it: the root name, or the inlined name |
| PerfMap.WrittenSize | libperf/perf-map-file.hpp:14 | the `unsigned int` a length becomes: congruent to it modulo 2^32, below 2^32, and equal to it when it is already in range |
| ProfilerBackend.Wrap | libperf/profiler-backend.cpp:55 | 64-bit unsigned arithmetic lands in the `uint64_t` range and is the identity on values in range |
| ProfilerBackend.WrapCongruent | libperf/profiler-backend.cpp:55 | the wrapped result is congruent to the exact value modulo 2^64 |
| ProfilerBackend.AsInt32 | libperf/profiler-backend.cpp:86-88 | the conversion to `int` is congruent modulo 2^32, lands in the signed 32-bit range, and keeps values that fit |
| ProfilerBackend.RoutineKeyInjective | libperf/profiler-backend.cpp:44-48 | the `symbol@dso` key tells samples apart when the symbol holds no `@` |
| ProfilerBackend.RoutineKeyAmbiguous | libperf/profiler-backend.cpp:44-48 | two different (symbol, dso) pairs can share one key when a symbol holds `@` |
| ProfilerBackend.Credit | libperf/profiler-backend.cpp:54-56 | crediting elapsed time keeps the same routines and names |
| ProfilerBackend.CountInvocation | libperf/profiler-backend.cpp:58-66 | counting an arrival adds the key's routine if absent and keeps every routine filed under its own name |
| ProfilerBackend.Visit | libperf/profiler-backend.cpp:44-69 | a sample keeps routine names unique and filed under their keys, adds its key, and makes it the current routine |
| ProfilerBackend.VisitSameRoutine | libperf/profiler-backend.cpp:50-53 | a sample of the current routine changes no counters, and only sets the start timestamp while it is still 0 |
| ProfilerBackend.VisitOtherRoutine | libperf/profiler-backend.cpp:53-68 | on a key change, the previous routine gains the elapsed time, a new key starts at `(0, 1)`, an existing key gains one invocation, the start timestamp becomes the sample's, and other routines are unchanged |
| ProfilerBackend.VisitAll | libperf/profiler-backend.cpp:44-69 | folding samples keeps the state well formed |
| ProfilerBackend.LastRunStartBounds | libperf/profiler-backend.cpp:67 | the start of the current run lies between the first and last timestamps |
| ProfilerBackend.FirstSampleAccounted | libperf/profiler-backend.cpp:50-62 | the first sample credits no time and counts one invocation |
| ProfilerBackend.CreditSums | libperf/profiler-backend.cpp:55 | crediting adds the elapsed time to the total self time and leaves the invocation total alone |
| ProfilerBackend.CountSums | libperf/profiler-backend.cpp:58-66 | counting an arrival adds one to the invocation total and leaves the self-time total alone |
| ProfilerBackend.SwitchAccounted | libperf/profiler-backend.cpp:53-67 | a key change keeps the time and invocation totals in balance with the runs seen |
| ProfilerBackend.StayAccounted | libperf/profiler-backend.cpp:50-53 | a sample of the current routine keeps the totals in balance |
| ProfilerBackend.Conservation | libperf/profiler-backend.cpp:50-67 | for nonzero non-decreasing timestamps, total self time equals the current run's start minus the first timestamp, and total invocations equal the number of maximal runs |
| ProfilerBackend.AlternatingRuns | libperf/profiler-backend.cpp:44-69 | samples A, A, B, A at 1, 2, 5, 9 give A four time units and two invocations, B four units and one, with A current from 9 |
| ProfilerBackend.KeysOf | libperf/profiler-backend.cpp:44-48 | the keys of a sample stream are exactly the keys of its samples |
| ProfilerBackend.RoutinesAreKeys | libperf/profiler-backend.cpp:58-66 | the routines after a stream are exactly one per distinct key |
| ProfilerBackend.InsertByTime | libperf/profiler-backend.cpp:80-83 | inserting into the ranking adds exactly one copy of the routine |
| ProfilerBackend.InsertKeepsRanked | libperf/profiler-backend.cpp:30-34 | inserting keeps the ranking non-increasing in self time |
| ProfilerBackend.SortByTime | libperf/profiler-backend.cpp:80-83 | sorting is a permutation of the ranking |
| ProfilerBackend.SortByTimeRanked | libperf/profiler-backend.cpp:80-83 | the sorted ranking is non-increasing in self time |
| ProfilerBackend.SampleAggregator.constructor | libperf/profiler-backend.cpp:36-41 | no current routine, start timestamp 0, no routines, an empty ranking |
| ProfilerBackend.SampleAggregator.VisitSample | libperf/profiler-backend.cpp:44-69 | the globals become `Visit` of the old state and the sample; the ranking is untouched |
| ProfilerBackend.SampleAggregator.PrepareTop | libperf/profiler-backend.cpp:71-84 | appends one key per routine, ranks the vector by self time, and on an empty ranking holds each routine exactly once |
| ProfilerBackend.SampleAggregator.GetTopLen | libperf/profiler-backend.cpp:86-88 | the ranking's length converted to `int` |
| ProfilerBackend.SampleAggregator.GetTopByIdx | libperf/profiler-backend.cpp:90-99 | the name of the idx-th ranked routine, which is a stored routine |
| ProfilerBackend.SampleAggregator.GetCountersByIdx | libperf/profiler-backend.cpp:101-103 | the idx-th routine's self time, at least that of every later one once ranked |
| ProfilerBackend.SampleAggregator.GetInvokeCountByIdx | libperf/profiler-backend.cpp:105-107 | the idx-th routine's invocation count converted to `int` |

## Left out

- `libperf/profiler.cpp` (the session coordinator with its mutex, condition variable, spin-waits and worker thread) is not part of this model; its substance is thread coordination.
- `libperf/perf.c` (glue driving Linux perf's record and script commands) and `libperf/jni-wrapper.cpp` (JNI forwarding) are not part of this model.
- JVMTI calls are a metadata oracle (`Jvmti.MetadataOracle`): each lookup may fail. `Deallocate`, capability and callback setup and event generation are left out.
- Perf map writes are a sequence of `(addr, len, name)` entries. The text format of `perf_map_write_entry` and the opening and closing of the map file are not modelled, because only the declarations of `perf_map_open`, `perf_map_close` and `perf_map_write_entry` are available (perf-map-file.hpp:12-14), not their implementations.
- `cbDynamicCodeGenerated` (jvmti-agent.cpp:433-439) writes straight to the map file and does not touch the registry, so it is left out.
- The `dump_entries` debug printing and the "Processed:" console line are left out; they are output only.
- Nothing calls the unfolder, because its call site in `cbCompiledMethodLoad` is commented out (jvmti-agent.cpp:405-410). The unfolder is therefore modelled on its own and is not wired into `CompiledMethodLoad`.
- Unfolder.GenerateUnfoldedEntries: the naming function `sig_string` is a parameter `sig`. `Unfolder.SigNames` instantiates it from the metadata oracle and the options. This keeps the range proofs independent of the name format.
- Formatter.SigString: the 2000-byte output cap of `snprintf` and the 1000-byte source-info cap are not modelled; names are unbounded.
- Unfolder.FullChainName: the 20000-byte cap and the `strncat` bound are not modelled. That bound is wrong at jvmti-agent.cpp:285, where it passes the whole buffer size.
- Unfolder.UnfoldedEntries: its sizes are the signed `ptrdiff_t` differences. `perf_map_write_entry` takes them as `unsigned int` (perf-map-file.hpp:14), and the model applies that narrowing only in `PerfMap.WrittenSize`, `Unfolder.WrittenSizesExact` and `Unfolder.BreakpointBeforeBlobWraps`. The partition lemmas speak of the signed sizes.
- Addresses are naturals. The pointer differences in `ptr_diff_in_bytes` become integer differences, and `code_size` is taken as non-negative.
- A NULL options string in `Agent_OnLoad` is not modelled; the options are a string.
- The concurrent access between the JVMTI callbacks and `dump_perf_file` is not modelled; every operation is sequential.
- Registry.JitRegistry.DumpPerfFile: `total_symbols` is an `int` in the source. Its overflow past 2^31 - 1 regions is not modelled.
- ProfilerBackend.SampleAggregator.PrepareTop: `std::sort` is not stable, so the contract leaves open the order of routines with equal self time. It states a permutation and non-increasing order only.
- ProfilerBackend.SampleAggregator.GetTopByIdx: it returns the routine's key rather than a `char*` into the set. The lifetime of that pointer is not modelled.
- ProfilerBackend.Conservation: it is stated for fewer than 2^64 samples with nonzero, non-decreasing timestamps. Beyond that the totals wrap modulo 2^64, and no balance is stated.
- ProfilerBackend.RoutineKeyInjective: it assumes symbol names without `@`, which the source does not guarantee. `RoutineKeyAmbiguous` shows the collision otherwise.
- Formatter.GetLineNumber: when the first entry starts after `loc`, the source reads `table[-1]`. The model makes that its precondition rather than modelling the out-of-bounds read.

## Findings

| source | as written | input that shows it | evidently intended | confidence | as-written member | corrected member |
|---|---|---|---|---|---|---|
| libperf/jvmti-agent.cpp:192 | `strncpy(dest, sig, dest_size)` copies a signature of `dest_size` or more characters without a terminating NUL, and `snprintf` then reads past `class_name` | a class signature of 2000 or more characters with `dottedclass` off | a NUL-terminated copy cut at `dest_size - 1` characters | not executed | Formatter.UnterminatedClassName | Formatter.ClassName |
| libperf/jvmti-agent.cpp:172-178 | the loop returns the previous entry's line only when a later entry starts after `loc`, so a location inside the last range gets `-1` | table `[(start 0, line 7)]`, location 3 | line 7, the line of the entry before the first one starting after `loc`, or of the last entry when none does | not executed | Formatter.LastRangeLosesLine | Formatter.LineNumberAt |
