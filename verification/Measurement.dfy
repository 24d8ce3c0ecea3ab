/**
 Counters over a measured part of a run, as the replay bench reports them: differences from a
 snapshot taken after a warm-up (src/tb_l1d_cache.sv:578-611), and the fate of every next-line
 candidate inside the cache.
 */
module Measurement {
  import opened Accounting
  import opened CacheSpec
  import opened Correctness
  import opened Counting
  import opened Geometries
  import opened Invariant
  import opened LoadStore
  import opened Progress
  import opened Systems
  import NextLine

  // ------------------------------------------------------------------- counters only grow

  predicate StatsGrow(t: Stats, t': Stats) {
    && t.cpuHits <= t'.cpuHits && t.cpuMisses <= t'.cpuMisses && t.victimHits <= t'.victimHits
    && t.writebacks <= t'.writebacks && t.prefetchFills <= t'.prefetchFills
    && t.prefetchUseful <= t'.prefetchUseful && t.prefetchUseless <= t'.prefetchUseless
    && t.prefetchPollution <= t'.prefetchPollution && t.prefetchDropped <= t'.prefetchDropped
  }

  lemma LookupStatsGrow(g: Geometry, s: State)
    requires Sized(g, s) && s.fsm == Lookup
    ensures StatsGrow(s.stats, FromLookup(g, s).stats)
    ensures FromLookup(g, s).stats.prefetchDropped == s.stats.prefetchDropped
  {
    hide LoadOf, MergedLine, Snapshot, Launch;
  }

  lemma CoreStatsGrow(g: Geometry, w: World, i: Inputs)
    requires Fit(g, w)
    ensures StatsGrow(w.cache.stats, CoreStep(g, w, i).stats)
    ensures CoreStep(g, w, i).stats.prefetchDropped == w.cache.stats.prefetchDropped
  {
    hide Sized, FromLookup, Core, Driven;
    DrivenFits(g, w, i);
    if w.cache.fsm == Lookup {
      LookupStatsGrow(g, w.cache);
      LookupIsCore(g, w.cache, Driven(w, i));
    } else {
      CoreStats(g, w.cache, Driven(w, i));
    }
  }

  lemma LookupIsCore(g: Geometry, s: State, i: Inputs)
    requires Sized(g, s) && InputsFit(g, s, i) && s.fsm == Lookup
    ensures Core(g, s, i) == FromLookup(g, s)
  {
  }

  /** Everything but the number of resident prefetched lines. */
  ghost predicate Grown(k: Counters, k': Counters) {
    && k.accesses <= k'.accesses && k.hits <= k'.hits && k.misses <= k'.misses && k.victimHits <= k'.victimHits
    && k.demandMemReads <= k'.demandMemReads && k.prefetchMemReads <= k'.prefetchMemReads
    && k.memReads <= k'.memReads && k.memWrites <= k'.memWrites && k.writebacks <= k'.writebacks
    && k.fills <= k'.fills && k.useful <= k'.useful && k.uselessEvicted <= k'.uselessEvicted
    && k.pollution <= k'.pollution && k.dropped <= k'.dropped
  }

  lemma StepGrows(g: Geometry, w: World, i: Inputs)
    requires Fit(g, w) && Fit(g, Step(g, w, i))
    ensures Grown(CountersOf(g, w), CountersOf(g, Step(g, w, i)))
  {
    hide Step, CoreStep, Held, Prefetched, Misaligned;
    StepStats(g, w, i);
    CoreStatsGrow(g, w, i);
    StepTraffic(g, w, i);
  }

  lemma {:induction false} RunGrows(g: Geometry, w: World, run: seq<Inputs>, k: nat)
    requires Fit(g, w) && k <= |run|
    ensures Grown(CountersOf(g, After(g, w, run[..k])), CountersOf(g, After(g, w, run)))
    decreases |run|
  {
    hide Fit, CountersOf, Step;
    if k == |run| {
      assert run[..k] == run;
    } else {
      var before := run[..|run| - 1];
      assert before[..k] == run[..k];
      RunGrows(g, w, before, k);
      StepKeepsFit(g, After(g, w, before), run[|run| - 1]);
      StepGrows(g, After(g, w, before), run[|run| - 1]);
    }
  }

  // -------------------------------------------------------------------- measured segments

  /** What the bench reports between a snapshot and the end; resident lines are counted at the end. */
  ghost function Measured(start: Counters, end: Counters): Counters
    requires Grown(start, end)
  {
    Counters(end.accesses - start.accesses, end.hits - start.hits, end.misses - start.misses,
             end.victimHits - start.victimHits, end.demandMemReads - start.demandMemReads,
             end.prefetchMemReads - start.prefetchMemReads, end.memReads - start.memReads,
             end.memWrites - start.memWrites, end.writebacks - start.writebacks, end.fills - start.fills,
             end.useful - start.useful, end.uselessEvicted - start.uselessEvicted, end.unusedResident,
             end.pollution - start.pollution, end.dropped - start.dropped)
  }

  /**
   From one idle state to a later one, the measured counters pass the analyzer's schema-2 checks
   exactly when no prefetched line was resident at the snapshot, which a warm-up without
   prefetching guarantees.
   */
  lemma MeasuredCountersAreLawful(g: Geometry, w: World, mem: Memory, run: seq<Inputs>, k: nat)
    requires Boot(g, w, mem) && k <= |run|
    requires After(g, w, run[..k]).cache.fsm == Idle && After(g, w, run).cache.fsm == Idle
    ensures var start, end := CountersOf(g, After(g, w, run[..k])), CountersOf(g, After(g, w, run));
      && Grown(start, end)
      && (SchemaTwoLaws(Measured(start, end), !PrefetchOff(g, run)) <==> start.unusedResident == 0)
      && (PrefetchOff(g, run[..k]) ==> start.unusedResident == 0)
  {
    RunGrows(g, w, run, k);
    IdleCountersAreLawful(g, w, mem, run[..k]);
    IdleCountersAreLawful(g, w, mem, run);
    OffBefore(g, run, k);
    hide Boot, After, CountersOf, PrefetchOff;
    DifferencesAreLawful(CountersOf(g, After(g, w, run[..k])), CountersOf(g, After(g, w, run)),
                         !PrefetchOff(g, run[..k]), !PrefetchOff(g, run));
    hide SchemaTwoLaws, Measured, Grown;
  }

  lemma DifferencesAreLawful(start: Counters, end: Counters, onBefore: bool, on: bool)
    requires Grown(start, end) && SchemaTwoLaws(start, onBefore) && SchemaTwoLaws(end, on) && (onBefore ==> on)
    ensures SchemaTwoLaws(Measured(start, end), on) <==> start.unusedResident == 0
    ensures !onBefore ==> start.unusedResident == 0
  {
  }

  lemma OffBefore(g: Geometry, run: seq<Inputs>, k: nat)
    requires k <= |run|
    ensures PrefetchOff(g, run) ==> PrefetchOff(g, run[..k])
  {
  }

  // --------------------------------------------------------------- next-line candidates

  datatype Event = DemandInstalled | CandidateTaken | CandidateCancelled

  predicate Enabled(g: Geometry, i: Inputs) {
    g.enablePrefetch && i.cfgPrefetch && i.cfgNextLine
  }

  /** What happens to the candidate generator at the cache's own boundary in one cycle. */
  predicate Happens(g: Geometry, c: State, i: Inputs, e: Event) {
    match e
    case DemandInstalled => c.fsm == Install && !c.reqIsPrefetch && Enabled(g, i)
    case CandidateTaken => AcceptNext(g, c, i)
    case CandidateCancelled => c.nextLine.pending && !CandidateReady(g, c, i) && !Enabled(g, i)
  }

  ghost function Occurrences(g: Geometry, w: World, run: seq<Inputs>, e: Event): nat
    requires Fit(g, w)
  {
    if run == [] then 0
    else
      var before, i := run[..|run| - 1], run[|run| - 1];
      Occurrences(g, w, before, e) + Bit(Happens(g, After(g, w, before).cache, i, e))
  }

  ghost predicate CandidatesAddUp(w: World, installed: nat, taken: nat, cancelled: nat) {
    var c := w.cache;
    installed == c.stats.prefetchDropped + Bit(c.nextLine.dropped) + taken + cancelled + Bit(c.nextLine.pending)
  }

  lemma StepKeepsCandidates(g: Geometry, w: World, i: Inputs, installed: nat, taken: nat, cancelled: nat)
    requires Fit(g, w) && CandidatesAddUp(w, installed, taken, cancelled)
    ensures CandidatesAddUp(Step(g, w, i), installed + Bit(Happens(g, w.cache, i, DemandInstalled)),
                            taken + Bit(Happens(g, w.cache, i, CandidateTaken)),
                            cancelled + Bit(Happens(g, w.cache, i, CandidateCancelled)))
  {
    hide Step, CoreStep, Fit;
    StepStats(g, w, i);
    CoreStatsGrow(g, w, i);
    hide StatsGrow, NextLine.Successor;
  }

  /**
   Every demand line installed while next-line prefetching is on is accounted for: its candidate
   was dropped (counted, or about to be), taken as a prefetch, cancelled by a configuration
   change, or is still pending.
   */
  lemma {:induction false} CandidatesAreConserved(g: Geometry, w: World, mem: Memory, run: seq<Inputs>)
    requires Boot(g, w, mem)
    ensures CandidatesAddUp(After(g, w, run), Occurrences(g, w, run, DemandInstalled),
                            Occurrences(g, w, run, CandidateTaken), Occurrences(g, w, run, CandidateCancelled))
  {
    if run != [] {
      var before, i := run[..|run| - 1], run[|run| - 1];
      CandidatesAreConserved(g, w, mem, before);
      hide Boot, Step, Happens, CandidatesAddUp;
      StepKeepsCandidates(g, After(g, w, before), i, Occurrences(g, w, before, DemandInstalled),
                          Occurrences(g, w, before, CandidateTaken), Occurrences(g, w, before, CandidateCancelled));
    }
  }
}
