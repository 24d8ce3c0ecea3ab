/**
 What the statistics counters count: each is the number of times that something happened to the
 copies of the lines or at the memory port, over any run from reset.
 */
module CounterEvents {
  import opened Counting
  import opened Geometries
  import opened LoadStore
  import opened CacheSpec
  import opened Coherence
  import opened Systems
  import opened Invariant
  import opened Preservation
  import opened Correctness
  import opened Progress
  import opened Accounting

  datatype Counted = Hit | Miss | Rescued | WriteBack | Filled | Useful | Useless | Polluted

  /** The line that a demand looks up in this cycle is held in slot p. */
  ghost predicate Finds(g: Geometry, w: World, p: Slot)
    requires Fit(g, w)
  {
    LooksUpDemand(w) && Holds(Held(g, w.cache), p, ReqLine(g, w.cache))
  }

  /** An L1 line that nothing prefetched is about to move out for a prefetch. */
  ghost predicate Displacing(g: Geometry, w: World)
    requires Fit(g, w)
  {
    var c := w.cache;
    && (c.fsm == WbReq || c.fsm == VcInsert) && c.reqIsPrefetch
    && Way(g, c) in Held(g, c) && !Held(g, c)[Way(g, c)].prefetched
  }

  ghost predicate Occurs(g: Geometry, w: World, i: Inputs, e: Counted)
    requires Fit(g, w)
  {
    var c, m, o := w.cache, Held(g, w.cache), OutputsOf(g, w.cache, i);
    match e
    case Hit => exists p :: Finds(g, w, p) && p.L1?
    case Miss => LooksUpDemand(w) && !exists p :: Finds(g, w, p) && p.L1?
    case Rescued => exists p :: Finds(g, w, p) && p.VC?
    case WriteBack => o.memValid && o.memWrite && i.memReady
    case Filled => c.fsm == Install && c.reqIsPrefetch
    case Useful => exists p :: Finds(g, w, p) && m[p].prefetched
    case Useless => c.fsm == VcInsert && Victim(c) in m && m[Victim(c)].valid && m[Victim(c)].prefetched
    case Polluted => c.fsm == VcInsert && Displacing(g, w)
  }

  ghost function Times(g: Geometry, w: World, run: seq<Inputs>, e: Counted): nat
    requires Fit(g, w)
  {
    if run == [] then 0
    else
      var k := |run| - 1;
      Times(g, w, run[..k], e) + Bit(Occurs(g, After(g, w, run[..k]), run[k], e))
  }

  function CounterOf(t: Stats, e: Counted): nat {
    match e
    case Hit => t.cpuHits
    case Miss => t.cpuMisses
    case Rescued => t.victimHits
    case WriteBack => t.writebacks
    case Filled => t.prefetchFills
    case Useful => t.prefetchUseful
    case Useless => t.prefetchUseless
    case Polluted => t.prefetchPollution
  }

  /** A line counted as polluted before it has moved out. */
  ghost function Ahead(g: Geometry, w: World, e: Counted): nat
    requires Fit(g, w)
  {
    Bit(e.Polluted? && Displacing(g, w))
  }

  // ----------------------------------------------------------------------------- lookups

  /** The searches of a lookup find the copies of the line, where they are. */
  lemma LookupFinds(g: Geometry, w: World)
    requires Good(g, w) && Fit(g, w) && LooksUpDemand(w)
    ensures var c, m := w.cache, Held(g, w.cache);
            var way, v := HitWay(g, c, g.ways), VictimHit(g, c, g.victims);
            && (way >= 0 <==> exists p :: Finds(g, w, p) && p.L1?)
            && (v >= 0 <==> exists p :: Finds(g, w, p) && p.VC?)
            && (way >= 0 ==> Finds(g, w, L1(ReqSet(g, c), way)) && v < 0)
            && (v >= 0 ==> Finds(g, w, VC(v)))
            && (forall p, q :: Finds(g, w, p) && Finds(g, w, q) ==> p == q)
  {
    hide Owed, FullBehindVictims, Backed, Agrees, Sized, Geometry.LineAddr, Geometry.SetOf, CopiesOf;
    var c, m := w.cache, Held(g, w.cache);
    var way, v := HitWay(g, c, g.ways), VictimHit(g, c, g.victims);
    g.LineAddrIdempotent(c.req.addr);
    if way >= 0 {
      MatchIsCopy(g, c, way);
    }
    if v >= 0 {
      VictimMatchIsCopy(g, c, v);
    }
    forall p | Finds(g, w, p)
      ensures if p.L1? then way >= 0 else v >= 0
    {
      SlotBounds(g, c, p);
      if p.L1? {
        MatchIsCopy(g, c, p.way);
        assert p == L1(ReqSet(g, c), p.way);
        assert WayMatches(g, c, p.way);
      } else {
        VictimMatchIsCopy(g, c, p.index);
        assert VictimMatches(g, c, p.index);
      }
    }
    assert forall p, q :: Finds(g, w, p) && Finds(g, w, q) ==> m[p].addr == m[q].addr;
  }

  lemma SlotBounds(g: Geometry, c: State, p: Slot)
    requires Sized(g, c) && p in Held(g, c)
    ensures if p.L1? then p.si < g.sets && p.way < g.ways else p.index < g.victims
  {
  }

  lemma PrefetchedBit(g: Geometry, c: State, way: nat, v: nat)
    requires Sized(g, c) && way < g.ways && v < g.victims
    ensures var m, p := Held(g, c), L1(ReqSet(g, c), way);
            && p in m && VC(v) in m && m[p].prefetched == c.l1[way][ReqSet(g, c)].prefetched
            && m[p].valid == c.l1[way][ReqSet(g, c)].valid && m[VC(v)] == c.vc[v]
  {
    assert L1(ReqSet(g, c), way) in AllSlots(g) && VC(v) in AllSlots(g);
  }

  // --------------------------------------------------------------------------- one step

  /** A prefetch pollutes when it takes the way of a line that nothing prefetched. */
  lemma LookupPollutes(g: Geometry, s: State)
    requires Sized(g, s) && s.fsm == Lookup
    ensures var c, n := FromLookup(g, s), ReqSet(g, s);
            var displaces := HitWay(g, s, g.ways) < 0 && VictimHit(g, s, g.victims) < 0 && InvalidWay(g, s, g.ways) < 0;
            && c.stats.prefetchPollution == s.stats.prefetchPollution
                 + Bit(s.reqIsPrefetch && displaces && !s.l1[s.replacement[n]][n].prefetched)
            && (s.reqIsPrefetch && displaces ==>
                  (c.fsm == WbReq || c.fsm == VcInsert) && c.selectedWay == s.replacement[n] && c.l1 == s.l1
                  && c.vc == s.vc)
            && (s.reqIsPrefetch && !displaces ==> c.fsm != WbReq && c.fsm != VcInsert)
            && c.req == s.req && c.reqIsPrefetch == s.reqIsPrefetch
  {
    hide LoadOf, MergedLine, Snapshot, Launch, HitWay, VictimHit, InvalidWay;
  }

  /** What a lookup counts, event by event. */
  lemma LookupOccurs(g: Geometry, w: World, i: Inputs)
    requires Good(g, w) && Fit(g, w) && w.cache.fsm == Lookup
    ensures var c, way, v := w.cache, HitWay(g, w.cache, g.ways), VictimHit(g, w.cache, g.victims);
            var demand := LooksUpDemand(w);
            && (Occurs(g, w, i, Hit) <==> demand && way >= 0) && (Occurs(g, w, i, Miss) <==> demand && way < 0)
            && (Occurs(g, w, i, Rescued) <==> demand && way < 0 && v >= 0)
            && (Occurs(g, w, i, Useful) <==>
                  demand && if way >= 0 then c.l1[way][ReqSet(g, c)].prefetched else v >= 0 && c.vc[v].prefetched)
            && !Occurs(g, w, i, WriteBack) && !Occurs(g, w, i, Filled) && !Occurs(g, w, i, Useless)
            && !Occurs(g, w, i, Polluted) && !Displacing(g, w)
  {
    hide Good, Held, HitWay, VictimHit, Sized, Geometry.LineAddr, Geometry.SetOf;
    if LooksUpDemand(w) {
      LookupFinds(g, w);
    }
    UsefulFind(g, w);
  }

  lemma LookupCounts(g: Geometry, w: World, i: Inputs, e: Counted)
    requires Good(g, w) && Fit(g, w) && Fit(g, Step(g, w, i)) && w.cache.fsm == Lookup
    ensures CounterOf(Step(g, w, i).cache.stats, e) + Ahead(g, w, e)
         == CounterOf(w.cache.stats, e) + Bit(Occurs(g, w, i, e)) + Ahead(g, Step(g, w, i), e)
  {
    hide Step, Good, Occurs, Displacing, HitWay, VictimHit, Sized, ReqSet;
    StepLookupStats(g, w, i);
    LookupOccurs(g, w, i);
    LookupAhead(g, w, i);
  }

  lemma UsefulFind(g: Geometry, w: World)
    requires Good(g, w) && Fit(g, w) && w.cache.fsm == Lookup
    ensures var c, way, v := w.cache, HitWay(g, w.cache, g.ways), VictimHit(g, w.cache, g.victims);
            (exists p :: Finds(g, w, p) && Held(g, c)[p].prefetched) <==>
              LooksUpDemand(w) && if way >= 0 then c.l1[way][ReqSet(g, c)].prefetched else v >= 0 && c.vc[v].prefetched
  {
    hide Good, CopiesOf, Geometry.LineAddr, Geometry.SetOf;
    if LooksUpDemand(w) {
      LookupFinds(g, w);
      var c, way, v := w.cache, HitWay(g, w.cache, g.ways), VictimHit(g, w.cache, g.victims);
      PrefetchedBit(g, c, if way >= 0 then way else 0, if v >= 0 then v else 0);
    }
  }

  lemma LookupAhead(g: Geometry, w: World, i: Inputs)
    requires Fit(g, w) && Fit(g, Step(g, w, i)) && w.cache.fsm == Lookup
    ensures Step(g, w, i).cache.stats.prefetchPollution
         == w.cache.stats.prefetchPollution + Bit(Displacing(g, Step(g, w, i)))
  {
    hide Step, CoreStep, CopiesOf, HitWay, VictimHit, InvalidWay, FromLookup, Geometry.LineAddr, Geometry.SetOf;
    var c, w', n := w.cache, Step(g, w, i), ReqSet(g, w.cache);
    StepStats(g, w, i);
    StepIsCore(g, w, i);
    DrivenFits(g, w, i);
    CoreIsLookup(g, w, i);
    LookupPollutes(g, c);
    PrefetchedBit(g, w'.cache, w'.cache.selectedWay, 0);
  }

  lemma CoreIsLookup(g: Geometry, w: World, i: Inputs)
    requires Fit(g, w) && w.cache.fsm == Lookup
    ensures CoreStep(g, w, i) == FromLookup(g, w.cache)
  {
    hide FromLookup;
  }

  lemma OtherCounts(g: Geometry, w: World, i: Inputs, e: Counted)
    requires Good(g, w) && Fit(g, w) && Fit(g, Step(g, w, i)) && w.cache.fsm != Lookup
    ensures CounterOf(Step(g, w, i).cache.stats, e) + Ahead(g, w, e)
         == CounterOf(w.cache.stats, e) + Bit(Occurs(g, w, i, e)) + Ahead(g, Step(g, w, i), e)
  {
    hide Step, Good, Held, Displacing, Geometry.LineAddr, Geometry.SetOf, Sized;
    StepOtherStats(g, w, i);
    OtherAhead(g, w, i);
    VictimEntry(g, w.cache);
  }

  lemma VictimEntry(g: Geometry, c: State)
    requires Sized(g, c)
    ensures Victim(c) in Held(g, c) && Held(g, c)[Victim(c)] == c.vc[c.selectedVc]
  {
    assert Victim(c) in AllSlots(g);
  }

  /** Until the line has moved out it stays the one that the prefetch displaces. */
  lemma OtherAhead(g: Geometry, w: World, i: Inputs)
    requires Good(g, w) && Fit(g, w) && Fit(g, Step(g, w, i)) && w.cache.fsm != Lookup
    ensures Displacing(g, Step(g, w, i)) <==> Displacing(g, w) && w.cache.fsm != VcInsert
    ensures Displacing(g, w) ==> w.cache.fsm == WbReq || w.cache.fsm == VcInsert
  {
    hide Step, Good, Sized, CopiesOf, Geometry.LineAddr, Geometry.SetOf;
    StepTargets(g, w, i);
    if w.cache.fsm == WbReq {
      WbReqEffect(g, w, i);
    }
  }

  lemma {:induction false} CountersAdd(g: Geometry, w: World, mem: Memory, run: seq<Inputs>, e: Counted)
    requires Boot(g, w, mem)
    ensures CounterOf(After(g, w, run).cache.stats, e) == Times(g, w, run, e) + Ahead(g, After(g, w, run), e)
  {
    hide Good, Step, Occurs, Ahead, CounterOf, Sized;
    if run == [] {
      NothingCounted(g, w, mem, e);
    } else {
      var k := |run| - 1;
      var before := After(g, w, run[..k]);
      RunIsGood(g, w, mem, run[..k]);
      StepKeepsFit(g, before, run[k]);
      CountersAdd(g, w, mem, run[..k], e);
      if before.cache.fsm == Lookup {
        LookupCounts(g, before, run[k], e);
      } else {
        OtherCounts(g, before, run[k], e);
      }
    }
  }

  lemma NothingCounted(g: Geometry, w: World, mem: Memory, e: Counted)
    requires Boot(g, w, mem)
    ensures CounterOf(w.cache.stats, e) == 0 && Ahead(g, w, e) == 0
  {
  }

  /**
   Every counter is the number of times its event occurred: demands found in L1 or not, found in
   the victim cache, found prefetched; lines written back; prefetched lines installed, prefetched
   lines that left the victim cache unused, and L1 lines that prefetches displaced although no
   prefetch had brought them, the last counted when the way is chosen.
   */
  lemma CountersCountEvents(g: Geometry, w: World, mem: Memory, run: seq<Inputs>)
    requires Boot(g, w, mem)
    ensures var e := After(g, w, run);
            var t := e.cache.stats;
            && t.cpuHits == Times(g, w, run, Hit) && t.cpuMisses == Times(g, w, run, Miss)
            && t.victimHits == Times(g, w, run, Rescued) && t.writebacks == Times(g, w, run, WriteBack)
            && t.prefetchFills == Times(g, w, run, Filled) && t.prefetchUseful == Times(g, w, run, Useful)
            && t.prefetchUseless == Times(g, w, run, Useless)
            && t.prefetchPollution == Times(g, w, run, Polluted) + Bit(Displacing(g, e))
  {
    hide IsReset, Sized, Times, Displacing, Step;
    CountersAdd(g, w, mem, run, Hit);
    CountersAdd(g, w, mem, run, Miss);
    CountersAdd(g, w, mem, run, Rescued);
    CountersAdd(g, w, mem, run, WriteBack);
    CountersAdd(g, w, mem, run, Filled);
    CountersAdd(g, w, mem, run, Useful);
    CountersAdd(g, w, mem, run, Useless);
    CountersAdd(g, w, mem, run, Polluted);
  }
}
