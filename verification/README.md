# Verified models of the L1 data cache and its trace tools

This Dafny project models three parts of the repository and proves what each is for.

**The cache.** `l1d_cache_legacy` is a ten-state clocked machine: a one- or two-way write-back L1
with a fully associative victim cache, deferred write-back, a swap on victim hits, and a one-entry
next-line prefetch generator. `CacheSpec` gives one clock edge as a function of the registers,
`Machine.Cache` is the machine itself with registers and arrays updated in place, each method proved
equal to that function. `Systems` closes the machine with an arbitrary environment: any stalls, any
external prefetches, any changes of the configuration inputs, and a lower memory that takes a write
when it accepts it and answers each read once, with the data it held when the read was accepted.
The geometry is a parameter: 1 or 2 ways, and any power-of-two sets, line size and victim entries that
elaboration allows. `Invariant` and `Preservation` hold the inductive invariant through every
mid-request state; `Correctness`, `DirtyLines`, `Progress`, `Prefetching`, `Accounting`, `CounterEvents`,
`Measurement`, `Replacement`, `Lru` and `WorkingSet` draw the conclusions.

**The replay analyzer.** The Fenwick tree and the reuse-distance loop (`FenwickTrees`, `Reuse`), the
per-transaction sidecar checker (`Sidecar`) and the help/pollution attribution with its aggregation
(`Pairing`). Reuse distances are tied back to the cache: the list that the loop returns decides its hits.

**The trace capture pipeline.** The memory tracer as a callback-driven state machine (`Tracer` on
values, `TracerMachine.Plugin` in place), what its files say about the callbacks that made them
(`TracerRuns`, `TracerResults`, `TracerSessions`), the strict reader of those files (`Splitter`), the
canonicalisation of misaligned accesses on both sides (`Canonical`), the window text that the host
prints and the tracer parses (`WindowText`), and the comparison plan with its evidence
(`ComparePlans`). Trace files are sequences of records; window and plan texts are strings of characters.

How to read the table: a method or class member is proved against a function on values, and the lemmas
are about that function. `After` is the state at the end of an arbitrary input sequence, so a lemma about
`After` holds in every reachable state. Where a statement has a condition, the condition is the
`requires` clause of the member and nothing else.

Two places where documentation and code differ, and the code is followed: the tracer's header comment
speaks of schema-v2 rows while it writes `schema=3`, and the cache's word "victim hit" counts as a miss
in its counters.

## Model

| member | source | states |
|---|---|---|
| Correctness.CacheIsInvisible | src/l1d_cache_legacy.sv:444-805 | Under every stall, prefetch and configuration schedule the responses taken are the answers of a flat byte memory to the accepted requests, in acceptance order; at most one request is unanswered and a response on offer is the next answer |
| Correctness.QuietMemoryIsFlat | src/l1d_cache_legacy.sv:697-794 | Between requests, cache and lower memory together hold at every line exactly what the accepted stores, each applied once, made of the initial memory |
| Correctness.CachesAreIndistinguishable | src/l1d_cache_legacy.sv:370-442 | Two caches with different ways, sets, line size, victim entries or prefetching, under different schedules, give the same responses to the same requests |
| Correctness.FatalAssertionsUnreachable | src/l1d_cache_legacy.sv:838-862 | In every reachable state: accepts are one-hot, no line is in L1 and victim cache at once, no duplicate in the victim cache, and a swap always has a valid line to move down |
| Correctness.CleanCopiesEqualMemory | src/l1d_cache_legacy.sv:444-805 | In every reachable state, mid-eviction included, a valid clean copy equals lower memory |
| DirtyLines.DirtyExactlyWhenChanged | src/l1d_cache_legacy.sv:697-794 | In every reachable state a held line is marked dirty exactly when a store has changed it since it was last read from memory, and only such a line is ever written back |
| Correctness.RunIsGood | src/l1d_cache_legacy.sv:444-805 | The whole invariant, and the history kept beside it, hold after every input sequence |
| Systems.BootExists | src/l1d_cache_legacy.sv:807-836 | Every geometry that the elaboration checks allow has a reset state in front of every memory, so the results about runs from reset speak about all of them |
| Preservation.StepKeepsGood | src/l1d_cache_legacy.sv:521-803 | One clock edge keeps the invariant: unique, placed copies that agree with the flat memory, dirty or backed, consistent snapshots per state, and a full set behind each victim entry |
| Invariant.DatapathIsArchitectural | src/l1d_cache_legacy.sv:575-593 | On a line that equals memory, the load data and the merged store line are those of the flat memory's answer and update |
| Invariant.MissMeansAbsent | src/l1d_cache_legacy.sv:337-368 | When neither lookup loop finds the line, no copy of it exists anywhere, so refilling it from memory is right |
| Invariant.VictimHitMeansFull | src/l1d_cache_legacy.sv:596-625 | A victim hit finds its set full, so the swap with an invalid way never happens |
| Coherence.KeepsWhenSwapped | src/l1d_cache_legacy.sv:703-722 | Exchanging an L1 line and a victim line keeps every copy unique, placed, current and backed |
| Coherence.KeepsWhenMoved | src/l1d_cache_legacy.sv:732-751 | Moving an L1 line into the victim entry that just lost its own keeps them too |
| Coherence.KeepsWhenFilled | src/l1d_cache_legacy.sv:780-794 | Installing a line that no copy holds, with or without a merged store, keeps them too |
| Coherence.KeepsWhenWrittenBack | src/l1d_cache_legacy.sv:724-730 | Writing a dirty victim line to lower memory keeps them and leaves the victim entry free to go |
| LoadStore.ExtendIsArchitectural | src/l1d_cache_legacy.sv:225-266 | Loads zero- or sign-extend as section 5.3 of the RISC-V Unprivileged ISA (20191213) says, as numbers |
| LoadStore.LineLoadData | src/l1d_cache_legacy.sv:225-266 | The byte loop returns the extended bytes of the access, for every line, offset and size |
| LoadStore.MergeStoreData | src/l1d_cache_legacy.sv:268-288 | The byte loop changes exactly the accessed bytes of the line |
| LoadStore.AlignedAccess | src/l1d_cache_legacy.sv:211-223 | The misalignment test is natural alignment, and an aligned access never wraps past the address space |
| LoadStore.AnswerErrors | src/l1d_cache_legacy.sv:526-541 | The architectural answer is an error exactly for accesses that are not naturally aligned: zero data, cause 1 for loads and 2 for stores, and memory stays as it is |
| Geometries.Geometry.ComposeSlices | src/l1d_cache_legacy.sv:173-196 | An address is (tag times sets plus set index) times the line size plus the offset, and composing tag and set gives the line address |
| Geometries.Geometry.SlicesOfComposed | src/l1d_cache_legacy.sv:173-196 | Composing tag and set and slicing gives them back |
| Geometries.Geometry.AccessInsideLine | src/l1d_cache_legacy.sv:211-223 | A naturally aligned access lies inside one line |
| Progress.BusyRunIsBounded | src/l1d_cache_legacy.sv:560-800 | While the machine stays busy, non-stalled cycles are bounded by a decreasing measure of at most 7, with at most one read and one write of memory |
| Progress.StepAdvances | src/l1d_cache_legacy.sv:560-800 | Every non-stalled busy edge decreases the measure |
| Progress.OffersAreStable | src/l1d_cache_legacy.sv:430-441 | Memory requests (kind, address, data) and responses stay as they are until they are taken |
| Progress.WorldFollowsPorts | src/l1d_cache_legacy.sv:387-442 | The requests, answers, reads and writes that the world records are exactly the handshakes visible on the CPU and memory ports, with the addresses and data shown there |
| Prefetching.HandshakesAsk | src/l1d_cache_legacy.sv:370-386 | Every handshake with a prefetch source, and nothing else, takes on a prefetch: the line of the external address, or else the own candidate |
| Prefetching.PrefetchIsServed | src/l1d_cache_legacy.sv:541-560 | An idle cache that takes on a prefetch works on that line until it is idle again: a line that was held is not read and nothing moves; any other is the only line read, exactly once, and ends up in the cache clean and marked as prefetched |
| Prefetching.CandidateFollowsDemand | src/l1d_next_line_prefetch.sv:25-51 | From reset, in the whole cache, a candidate is on offer exactly when some accepted CPU request had its line installed while next-line prefetching was on and the offer was free, and nothing took or cancelled it since; it is the line after that request's line |
| Accounting.PrefetchesAreConserved | src/l1d_cache_legacy.sv:570-574 | In every reachable state prefetch fills = useful + useless + prefetched lines resident in L1 and victim cache, with the one-step correction in the swap state |
| Accounting.IdleCountersAreLawful | scripts/summarize_spec_replay.py:1066-1153 | In every idle state the counters since reset satisfy the analyzer's schema-2 equations on hits, misses, reads, write-backs and prefetch fates; with prefetching off all prefetch counters are zero |
| CounterEvents.CountersCountEvents | src/l1d_cache_legacy.sv:561-790 | In every run each counter is the number of cycles in which its event happened: hits, misses, victim hits, write-backs, fills, first uses of prefetched lines, prefetched lines thrown away unused, and demanded lines displaced by prefetches |
| Measurement.MeasuredCountersAreLawful | src/tb_l1d_cache.sv:578-611 | What the bench reports, the differences between two idle states with the resident lines counted at the end, satisfies the same equations if and only if no prefetched line was resident at the snapshot; a warm-up without prefetching guarantees that |
| Measurement.CandidatesAreConserved | src/l1d_cache_legacy.sv:375-388 | In every reachable state of the whole cache: demand lines installed with next-line prefetching on = drop counter (plus the drop about to be counted) + candidates taken as prefetches + cancelled + pending |
| Lru.HitsAreExactLru | src/l1d_cache_legacy.sv:561-569 | With prefetching off, a demand hits exactly when its line was demanded before and fewer than NUM_WAYS other lines of its set were demanded since: the replacement register is exact LRU |
| Lru.HitsIgnoreVictimEntries | src/l1d_cache_legacy.sv:603-607 | The hit/miss sequence does not depend on the victim entries, the schedule or the data |
| Replacement.ArrayIsLru | src/l1d_cache_legacy.sv:697-794 | With or without prefetching, L1 holds in every reachable state exactly the NUM_WAYS most recently used lines of every set that is not being refilled; a line is used by a demand that hits it and when it is brought in, by a demand or a prefetch |
| Replacement.LookupsAreLru | src/l1d_cache_legacy.sv:561-569 | In every reachable state the look-up of a demand or a prefetch hits L1 exactly when its line was used before and fewer than NUM_WAYS different lines of its set were used since |
| Replacement.StepKeepsInOrder | src/l1d_cache_legacy.sv:521-803 | Every edge, prefetches included, keeps the ways of every set in recency order with the replacement register on the least recent |
| Replacement.VictimsAreRoundRobin | src/l1d_cache_legacy.sv:697-751 | The n-th line pushed out of L1 goes to victim entry n modulo NUM_VICTIMS, a victim hit leaves the displaced line where the hit line was, and nothing else changes an entry |
| WorkingSet.FittingWorkingSetIsReadOnce | src/l1d_cache_legacy.sv:653-694 | From reset without prefetching, while the lines beyond NUM_WAYS summed over the sets fit the victim entries, no line is read twice and nothing is written back |
| NextLine.FillsAreConserved | src/l1d_next_line_prefetch.sv:25-51 | Enabled fills = dropped + accepted + cancelled + pending after every input sequence; a candidate taken in the disabling cycle counts once |
| NextLine.CandidateIsNextLine | src/l1d_next_line_prefetch.sv:37-49 | A candidate is pending exactly when an enabled fill found the register free, or just being emptied, and nothing took or cancelled it since; its line number is that fill's plus one, the last line being followed by the first |
| Systems.SuccessorAligned | src/l1d_next_line_prefetch.sv:44-47 | Candidates are line-aligned, also where the address wraps |
| NextLine.Generator.Edge | src/l1d_next_line_prefetch.sv:25-51 | The clocked registers follow the specified step, last assignment winning |
| Machine.Cache.constructor | src/l1d_cache_legacy.sv:444-520 | Reset clears every register, the request, response, working, evicted, write-back and victim registers included, and leaves the SRAM words arbitrary |
| Machine.Cache.Edge | src/l1d_cache_legacy.sv:444-805 | One clock of registers and arrays in place equals the specified step, with the specified outputs before it |
| Machine.Cache.FindHitWay | src/l1d_cache_legacy.sv:342-356 | The way loop keeps the last matching way |
| Machine.Cache.FindInvalidWay | src/l1d_cache_legacy.sv:342-356 | The way loop keeps the first invalid way |
| Machine.Cache.FindVictim | src/l1d_cache_legacy.sv:358-367 | The victim loop finds the entry that holds the line |
| Machine.Cache.EdgeLookupHit | src/l1d_cache_legacy.sv:561-593 | The hit branch in place |
| Machine.Cache.EdgeLookupVictim | src/l1d_cache_legacy.sv:594-652 | The victim-hit branch in place |
| Machine.Cache.EdgeLookupMiss | src/l1d_cache_legacy.sv:653-695 | The miss branch in place |
| Machine.Cache.EdgeVcSwap | src/l1d_cache_legacy.sv:703-722 | The swap in place |
| Machine.Cache.EdgeVcInsert | src/l1d_cache_legacy.sv:732-751 | The eviction into the victim cache in place |
| Machine.Cache.EdgeInstall | src/l1d_cache_legacy.sv:780-794 | The installation in place |
| FenwickTrees.LowBitIsLowestOne | scripts/summarize_spec_replay.py:1569-1580 | The step of both loops is the lowest one bit: a power of two that divides the index an odd number of times |
| FenwickTrees.ClimbVisitsCovers | scripts/summarize_spec_replay.py:1569-1573 | Climbing by the lowest bit visits exactly the nodes whose range contains the position |
| FenwickTrees.Fenwick.Add | scripts/summarize_spec_replay.py:1569-1573 | Terminates, keeps the tree invariant and adds to one frequency |
| FenwickTrees.Fenwick.Prefix | scripts/summarize_spec_replay.py:1575-1580 | Terminates and returns the plain prefix sum |
| FenwickTrees.Fenwick.RangeSum | scripts/summarize_spec_replay.py:1582-1583 | Returns the plain sum of the range |
| Reuse.Analyze | scripts/summarize_spec_replay.py:1687-1698 | For every trace the loop yields, reuse by reuse, the number of different lines strictly between the two uses |
| Reuse.ColdPlusReuses | scripts/summarize_spec_replay.py:1709-1739 | Accesses = first uses (unique lines) + reuses |
| Reuse.WholeTraceReuse | src/l1d_cache_legacy.sv:561-569 | In any run of the cache without prefetching, a demand whose reuse distance in the whole trace is below NUM_WAYS hits; when only lines of its own set were used since, it hits exactly then |
| Reuse.ReuseDistancesDecideHits | src/l1d_cache_legacy.sv:561-569 | In any run of the cache without prefetching, demand k hits exactly when it appends a distance below NUM_WAYS to the list that the analyzer's loop returns for the trace of its own set |
| Reuse.DistancesIgnoreNames | scripts/summarize_spec_replay.py:1687-1698 | Renaming the lines one to one leaves the list of reuse distances unchanged |
| Reuse.NumbersAndAddressesAgree | scripts/summarize_spec_replay.py:1674 | The analyzer's line numbers give the same distances as the cache's line addresses |
| Sidecar.ParseSidecar | scripts/summarize_spec_replay.py:1303-1562 | Accepts exactly the row lists described by `Accepted`, and returns the completed demands in order and the event counts |
| Sidecar.CheckLifecycle | scripts/summarize_spec_replay.py:1511-1561 | The chain of checks on one transaction is the lifecycle: one address, admit from candidate, issue and return together, exactly one outcome per return, ordered cycles |
| Sidecar.TakePrefetch | scripts/summarize_spec_replay.py:1380-1437 | A prefetch row is taken exactly when it fits all earlier rows |
| Sidecar.TakeDemand | scripts/summarize_spec_replay.py:1439-1479 | A demand row is taken exactly when it fits all earlier rows |
| Sidecar.AcceptedPrefetchesAreConserved | scripts/summarize_spec_replay.py:1482-1561 | In every accepted schema-3 file with identified prefetches: issued = returned = installed + merged + discarded, issued <= admitted <= candidates, admitted <= issued + cancelled, used + evicted <= installed |
| Sidecar.EqualCountsMeanAnsweredOnce | scripts/summarize_spec_replay.py:1899-1911 | An accepted schema-3 file has equal present, accept and response counts if and only if every presented demand was accepted and answered exactly once |
| Sidecar.AccessesAreRows | scripts/summarize_spec_replay.py:1474-1482 | The accesses returned are the finished demands of the file, one for each and in its order, with the row's own number, cycle, address, operation, size and outcome |
| Sidecar.AcceptedRowsMakeSense | scripts/summarize_spec_replay.py:1354-1453 | What every single row of an accepted file is like: schema, event, cycle, operation, size, alignment, outcome, latency and metadata |
| Sidecar.TransactionRowsInOrder | scripts/summarize_spec_replay.py:1511-1561 | Two rows of one transaction in an accepted file have one address and one origin, different events, never two outcomes of one stage, and cycles in the order of their stages |
| Sidecar.AnsweredInOrder | scripts/summarize_spec_replay.py:1439-1510 | A finished demand of an accepted schema-3 file was presented, then accepted, then answered; its latency is the time since acceptance and its number is above those of all demands finished before it |
| Pairing.Compare | scripts/summarize_spec_replay.py:2096-2115 | The comparison loop counts exactly the demands gained and lost as L1 hits and as lower-memory accesses, or finds a demand that differs |
| Pairing.PairSidecars | scripts/summarize_spec_replay.py:2082-2142 | Every outcome of pairing: none without sidecars, an error for one sidecar, for different demands or for deltas that do not reconcile, the attribution otherwise |
| Pairing.MatchingRunsReconcile | scripts/summarize_spec_replay.py:1912-1930 | If both runs' counters are valid and match their outcome counts, the L1 and required-lower identities hold; that schema 2 merges nothing follows from its equations |
| Pairing.AggregatePairs | scripts/summarize_spec_replay.py:2261-2329 | Groups are exactly the keys, each aggregate holds the sum of every raw counter over its pairs and the summed attribution, and it fails exactly when some group's identities fail |
| Pairing.SumsHold | scripts/summarize_spec_replay.py:2306-2327 | Identities that hold pair by pair hold for the sums |
| Pairing.MatchingCampaignReconciles | scripts/summarize_spec_replay.py:2306-2327 | A campaign of matching runs never fails an aggregate identity |
| Pairing.CampaignsAdd | scripts/summarize_spec_replay.py:2261-2305 | Putting two campaigns together adds up, group by group, pair counts, every counter on both sides, and the attribution when both have one |
| Pairing.CampaignOfOne | scripts/summarize_spec_replay.py:2261-2305 | A campaign of one pair has that pair's counters and attribution in its own group and nothing in any other |
| Canonical.PlanLineTouches | scripts/qemu_memtrace_canonical.h:27-58 | Fills the plan structure in place with the specified plan, or reports the specified failure |
| Canonical.CrossLineIsMisaligned | scripts/split_qemu_memtrace_windows.py:64-78 | An access that crosses a line is misaligned |
| Canonical.ReplayTouchesBothEnds | scripts/split_qemu_memtrace_windows.py:280-287 | The replay of an event touches exactly the physical lines of its first and last byte, has 1 access or 2 when it crosses, keeps the operation, and holds none that the cache would call misaligned |
| Canonical.ReplayCoversBytes | scripts/split_qemu_memtrace_windows.py:273-287 | The replay of an aligned event covers exactly the bytes of the access; that of a misaligned one covers the first byte of the line of its first byte, then that of the line of its last byte when it crosses |
| Canonical.PlannerAgrees | scripts/qemu_memtrace_canonical.h:27-58 | What the tracer plans and records is well-formed for the splitter, with the same misalignment, crossing, end and access count |
| WindowText.TokensOfJoin | scripts/qemu_memtrace.c:176-233 | Splitting undoes joining when no part is empty or holds a delimiter |
| WindowText.ParseOfDecimal | scripts/qemu_memtrace.c:145-159 | Reading a printed number with automatic base gives it back, for every 64-bit value |
| WindowText.ParsesNumerals | scripts/qemu_memtrace.c:145-159 | A text is read as v exactly when it is white space, an optional sign and a numeral of a 64-bit number, hexadecimal behind 0x, octal behind 0, decimal otherwise; a minus sign wraps and may not come first |
| WindowText.DigitsAre | scripts/qemu_memtrace.c:145-159 | The digits of the numerals and their values, letters in either case |
| WindowText.ParseWindows | scripts/qemu_memtrace.c:176-233 | The two nested token loops accept exactly the texts described by `ParsedWindows` and build that table |
| WindowText.ParsedWindowsAreValid | scripts/qemu_memtrace.c:204-230 | Whatever text is accepted, the table is in order, disjoint, within 64 bits and the limits, with warmup + measure = count |
| WindowText.WindowsReadBack | scripts/capture_spec_qemu_windows.py:106-107 | Every valid window table is read back from its printed entries, with either separator between them |
| WindowText.ComputeWindows | scripts/capture_spec_qemu_windows.py:461-479 | Exactly the non-positive totals are refused: the overlap and range errors never fire; small totals get one whole window, others five windows of 5000 warm-up and 5000 measured events that meet at the 10th, 30th, 50th, 70th and 90th percentile, all inside the region |
| WindowText.CaptureWindows | scripts/capture_spec_qemu_windows.py:461-479 | For every positive total below 2^64 the printed windows are parsed by the tracer to the same windows |
| TracerRuns.RunIsSound | scripts/qemu_memtrace.c:415-589 | After every callback sequence the counters count the attributed events, each window tally those inside the window, and the reader can follow the file written so far |
| TracerResults.AcceptedExactlyWhenPassed | scripts/split_qemu_memtrace_windows.py:290-454 | The file of a capture run is accepted exactly when the run passes; then window i holds exactly the attributed events start to start+count-1, in order |
| TracerResults.PassMeansOneRegion | scripts/qemu_memtrace.c:624-655 | PASS means one accepted START, then one matching STOP that reports the number of attributed events, all captured rows between them, no violation in the file, a bound user process, the expected total, and every window exactly full |
| TracerResults.PassesExactlyWhen | scripts/qemu_memtrace.c:624-655 | The exact condition: a run passes if and only if it is complete (registers ready, region started and stopped, no violation) and, in capture mode, the attributed events are as many as expected and every window lies inside that number |
| TracerResults.CaptureAfterCount | scripts/capture_spec_qemu_windows.py:1425-1470 | After a count pass with N events, a capture pass over the same callbacks attributes the same events and passes if and only if it expects N and its windows lie inside N |
| TracerResults.WindowsThatPass | scripts/capture_spec_qemu_windows.py:461-479 | The windows that the host computes from the counted total are parsed back by the tracer and let every such capture pass succeed |
| TracerResults.PassCountsExactlyTargets | scripts/qemu_memtrace.c:415-485 | In a PASS run, while tracing, a memory callback is counted as the next event exactly when the one CPU made it in user mode under the locked SATP: nothing of the target is dropped and nothing foreign is counted |
| TracerResults.InvalidIsAbsorbing | scripts/qemu_memtrace.c:266-280 | Once invalid, a run stays invalid and never passes |
| TracerResults.TotalsIgnoreWindows | scripts/qemu_memtrace.c:415-512 | Totals, flags and attributed events depend on the callbacks alone, not on mode or windows |
| TracerResults.CountersAlwaysBalance | scripts/qemu_memtrace.c:635-653 | The conservation conditions of the exit checks hold in every reachable state, for the file and for each window |
| TracerResults.ConservationIsNeverViolated | scripts/qemu_memtrace.c:635-653 | The two canonicalisation violations are in no trace file |
| TracerSessions.PassesExactlyWhenOrderly | scripts/qemu_memtrace.c:415-712 | The exact condition for PASS in terms of the callbacks alone, and which code is reported first when it fails: the first requirement that a callback breaks, otherwise the first one unmet at exit |
| TracerSessions.ComplaintDecides | scripts/qemu_memtrace.c:311-589 | After every callback sequence the tracer's flags, bound process and counts are those of the markers and accesses so far, or the first broken requirement is recorded |
| TracerSessions.EventsAreAccesses | scripts/qemu_memtrace.c:391-512 | In any run, what a callback adds to the events is its own access: operation, size, program counter, virtual and physical ends, SATP, numbered by the events before it |
| TracerSessions.EventsMirrorTargets | scripts/qemu_memtrace.c:415-512 | In a run without complaint the events are, one by one, the user accesses of the bound process between the two markers |
| TracerSessions.RowsAreAccesses | scripts/split_qemu_memtrace_windows.py:290-454 | Row k of window i in an accepted file is the access that the bound process made as number start + k, with its own operation, size and addresses |
| TracerSessions.SummaryTellsTheRun | scripts/qemu_memtrace.c:656-712 | Every file has a summary line that says PASS exactly when nothing was wrong and names the first trouble; in a run that passes its identity, totals and filter counts are those of the callbacks |
| TracerSessions.WindowLinesTellTheRun | scripts/qemu_memtrace.c:692-705 | Every file has a summary line for each window that counts the attributed events falling into it, their misaligned and crossing ones and their replay accesses, and says PASS exactly when the window ends inside the region |
| TracerSessions.ViolationsAreWritten | scripts/qemu_memtrace.c:266-280 | The summary counts the violation lines of its file, repeats the first of them, counts those about unreadable registers, and says PASS exactly when there are none |
| TracerSessions.ViolationsCarryTotals | scripts/qemu_memtrace.c:266-280 | Each violation line carries the number of events attributed before the callback, or before the exit, that wrote it |
| TracerMachine.Plugin.MemoryCallback | scripts/qemu_memtrace.c:415-512 | The memory callback in place equals the specified step |
| TracerMachine.Plugin.FindWindow | scripts/qemu_memtrace.c:489-508 | The window scan with its early break finds the specified window |
| TracerMachine.Plugin.MarkerCallback | scripts/qemu_memtrace.c:514-589 | The marker callback in place equals the specified step |
| TracerMachine.Plugin.VcpuInitCallback | scripts/qemu_memtrace.c:311-375 | Register discovery's outcomes in place |
| TracerMachine.Plugin.RecordViolation | scripts/qemu_memtrace.c:266-280 | Invalidates, stops tracing, counts, keeps the first code and writes the line |
| TracerMachine.Plugin.WriteSummary | scripts/qemu_memtrace.c:624-712 | The exit checks and the summary lines finish exactly the specified file |
| Splitter.ParseCapture | scripts/split_qemu_memtrace_windows.py:290-454 | The reader's loops compute the specified verdict and windows |
| Splitter.ReplayIsConserved | scripts/split_qemu_memtrace_windows.py:462-484 | The derived replay has one access per event plus one per crossing, so the expansion error never fires |
| Splitter.AcceptedFilesAreWhole | scripts/split_qemu_memtrace_windows.py:290-454 | Whatever the file: if it is accepted, its rows are exactly those of the windows, in order, each window is announced, complete and summed up correctly, all belong to one region of one process, and the replay of all rows is as long as the summary says |
| ComparePlans.SplitOfText | scripts/capture_spec_qemu_windows.py:136-140 | Lines joined with newlines are split back into the same lines |
| ComparePlans.SplitAtLineEnd | scripts/capture_spec_qemu_windows.py:324-340 | Each of Python's ten line ends ends a line; a carriage return takes the newline behind it along |
| ComparePlans.ParseCompareCmd | scripts/capture_spec_qemu_windows.py:324-407 | The two loops compute the specified plan or refuse |
| ComparePlans.KindsOfLine | scripts/capture_spec_qemu_windows.py:324-379 | What a line is, told from its words: skipped, a directive with as many values as it takes, or a comparison with exactly one redirection, whose output is the word before it; anything else is refused |
| ComparePlans.PlanListsOutputs | scripts/capture_spec_qemu_windows.py:324-407 | The commands of a plan are exactly its comparison lines, in order and numbered, and their outputs are made absolute, strictly inside the run directory and all different |
| ComparePlans.SelectionParsesBack | scripts/capture_spec_qemu_windows.py:128-140 | The text of any non-empty selection parses again, in the plan's directory, to the same directives and exactly the selected commands and outputs |
| ComparePlans.ValidateComparisonEvidence | scripts/capture_spec_qemu_windows.py:933-1009 | The evidence check accepts if and only if both comparisons passed, both digests are those of their texts, the full text is a plan in the evidence's directory with exactly the listed commands, and the selected text is the plan of a non-empty list of distinct ones of them |
| ComparePlans.EvidenceAttests | scripts/capture_spec_qemu_windows.py:933-1009 | Evidence passes exactly when it attests a parsed plan and a selection of it, both directions, for the predicate the method computes |
| ComparePlans.EvidenceIsValid | scripts/capture_spec_qemu_windows.py:150-163 | Evidence built from a parsed plan with both comparisons PASS always passes the check that parses it again |

## Left out

- The optimized cache engine, the stream detector, the prefetch controller, the shadow cache, the FPGA harness and, apart from the counter differences it reports, the replay bench are not part of this model; `src/l1d_cache.sv` and `src/l1d_cache_deploy.sv` are wiring.
- `src/l1d_sram.sv` appears only as a registered read port per way: a read launched in one cycle is visible in the next.
- Counter width: the cache's 32-bit statistics and the tracer's 64-bit counters are natural numbers; the laws are about the unwrapped counts.
- Four-valued logic, reset timing, single-cycle event outputs and simulation delays.
- A line-aligned write outside the 64-bit address space cannot be asked of the lower memory model.
- Parsing of single lines of sidecar and trace files into fields, including malformed numbers and field-set checks: rows and records are typed values. Window and plan texts are modelled as text.
- Error messages: a refusal carries a short text or nothing, and contracts say when it happens.
- WindowText.ParseU64: reads decimal, octal and hexadecimal prefixes; the binary prefix that newer C libraries also take is not modelled.
- Canonical.ReplayTouchesBothEnds: assumes that translation keeps an address modulo 16, as paging does.
- ComparePlans.EvidenceAttests: commands of the two texts are compared by digest and output, as the check does; that different texts have different digests is a property of the hash.
- ComparePlans.SelectionParsesBack: word splitting, stripping, path cleaning and hashing are parameters; path cleaning is assumed idempotent and never empty, hashes are assumed to be 64 hex digits.
- Pairing.AggregatePairs: sums every raw counter; the order of the groups, and the ratios and harmful/neutral/helpful labels computed from the sums, are simple formulas outside it.
- Accounting.IdleCountersAreLawful: byte counters are the bench's products of reads and writes with the line size and schema-2 lifecycle counters are copies it makes of these counters, so neither is modelled; total memory reads are the sum of both kinds by definition.
- The part of the capture script that talks to the guest, hashes files or reads manifests, including `validate_benchmark_plan`: file and process plumbing around the checks modelled here.
- TracerResults.CaptureAfterCount: takes the two passes to deliver the same callbacks; that two boots of the emulator do is outside the model, and the exit checks catch a differing total.
- Locking in the tracer: callbacks take one mutex, so they are modelled as a sequence.
- Header and trailer lines that the splitter copies into each window file, apart from the first header line.
- Percentiles, strides and set-pressure ratios of `analyze_trace`: formulas over the same line trace.
