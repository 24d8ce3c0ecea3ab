/**
 The statistics counters: prefetch conservation in every state, and at every idle state the
 counter laws that the replay analyzer demands of a schema-2 result
 (scripts/summarize_spec_replay.py:1066-1153 and 1216-1219).
 */
module Accounting {
  import opened Counting
  import opened Geometries
  import opened LoadStore
  import opened CacheSpec
  import opened Coherence
  import opened Systems
  import opened Invariant
  import opened Preservation
  import opened Correctness
  import opened Progress
  import NextLine

  // ------------------------------------------------------------ prefetched lines resident

  predicate IsPrefetched(c: Copy) {
    c.valid && c.prefetched
  }

  ghost function Prefetched(m: Copies): set<Slot> {
    set p | p in m && IsPrefetched(m[p])
  }

  lemma PrefetchedUpdate(m: Copies, p: Slot, c: Copy)
    requires p in m
    ensures |Prefetched(m[p := c])| + Bit(IsPrefetched(m[p])) == |Prefetched(m)| + Bit(IsPrefetched(c))
  {
    var others := Prefetched(m) - {p};
    assert Prefetched(m) == if IsPrefetched(m[p]) then others + {p} else others;
    assert Prefetched(m[p := c]) == if IsPrefetched(c) then others + {p} else others;
  }

  lemma PrefetchedUpdate2(m: Copies, p: Slot, c: Copy, q: Slot, d: Copy)
    requires p in m && q in m && p != q
    ensures |Prefetched(m[p := c][q := d])| + Bit(IsPrefetched(m[p])) + Bit(IsPrefetched(m[q]))
         == |Prefetched(m)| + Bit(IsPrefetched(c)) + Bit(IsPrefetched(d))
  {
    PrefetchedUpdate(m, p, c);
    PrefetchedUpdate(m[p := c], q, d);
  }

  // --------------------------------------------------------------- counters of one step

  /** How the counters move in a step; the drop counter follows the generator instead. */
  lemma LookupStats(g: Geometry, s: State)
    requires Sized(g, s) && s.fsm == Lookup
    ensures var t, t' := s.stats, FromLookup(g, s).stats;
            var w, v := HitWay(g, s, g.ways), VictimHit(g, s, g.victims);
            var demand := !s.reqIsPrefetch;
            && t'.cpuHits == t.cpuHits + Bit(demand && w >= 0)
            && t'.cpuMisses == t.cpuMisses + Bit(demand && w < 0)
            && t'.victimHits == t.victimHits + Bit(demand && w < 0 && v >= 0)
            && t'.prefetchUseful == t.prefetchUseful
                 + Bit(demand && (if w >= 0 then s.l1[w][ReqSet(g, s)].prefetched else v >= 0 && s.vc[v].prefetched))
            && t'.writebacks == t.writebacks && t'.prefetchFills == t.prefetchFills
            && t'.prefetchUseless == t.prefetchUseless && t'.prefetchDropped == t.prefetchDropped
            && (demand ==> t'.prefetchPollution == t.prefetchPollution)
  {
    hide LoadOf, MergedLine, Snapshot, Launch;
  }

  lemma LookupTarget(g: Geometry, s: State)
    requires Sized(g, s) && s.fsm == Lookup
    ensures var f := FromLookup(g, s).fsm;
            var w, v := HitWay(g, s, g.ways), VictimHit(g, s, g.victims);
            if w >= 0 then f == (if s.reqIsPrefetch then Idle else if s.req.write then HitWrite else Resp)
            else if v >= 0 then f == (if s.reqIsPrefetch then Idle else VcSwap)
                                && (!s.reqIsPrefetch ==> FromLookup(g, s).selectedVc == v)
            else Refilling(f)
    ensures FromLookup(g, s).reqIsPrefetch == s.reqIsPrefetch
  {
    hide LoadOf, MergedLine, Snapshot, Launch;
  }

  lemma CoreStats(g: Geometry, s: State, i: Inputs)
    requires Sized(g, s) && InputsFit(g, s, i) && s.fsm != Lookup
    ensures var v := s.vc[s.selectedVc];
            Core(g, s, i).stats == s.stats.(
              writebacks := s.stats.writebacks + Bit(s.fsm == WbReq && i.memReady),
              prefetchUseless := s.stats.prefetchUseless + Bit(s.fsm == VcInsert && v.valid && v.prefetched),
              prefetchFills := s.stats.prefetchFills + Bit(s.fsm == Install && s.reqIsPrefetch))
  {
    hide Launch, LoadOf, MergedLine, Misaligned, FromLookup;
  }

  lemma StepStats(g: Geometry, w: World, i: Inputs)
    requires Fit(g, w)
    ensures var t := Step(g, w, i).cache.stats;
            t == CoreStep(g, w, i).stats.(prefetchDropped := t.prefetchDropped)
    ensures Step(g, w, i).cache.stats.prefetchDropped
         == CoreStep(g, w, i).stats.prefetchDropped + Bit(w.cache.nextLine.dropped)
    ensures Step(g, w, i).cache.nextLine
         == NextLine.Clock(g, w.cache.nextLine, GeneratorInput(g, w.cache, Driven(w, i)))
  {
    hide Core, Apply, Answer, Misaligned, NextLine.Clock, Sized;
  }

  // ------------------------------------------------------------------ prefetch ledger

  /**
   Every prefetched line that was filled has been used, has been thrown away unused, or is
   still resident. In ST_VC_SWAP the use is already counted while the copy still carries its bit.
   */
  ghost predicate PrefetchLedger(g: Geometry, w: World)
    requires Fit(g, w)
  {
    var c, m, t := w.cache, Held(g, w.cache), w.cache.stats;
    && t.prefetchFills + Bit(c.fsm == VcSwap && c.vc[c.selectedVc].prefetched)
         == t.prefetchUseful + t.prefetchUseless + |Prefetched(m)|
    && (c.fsm == HitWrite ==> Way(g, c) in m && !m[Way(g, c)].prefetched)
  }

  /** A replacement or refill is under way but the line has not been requested yet. */
  predicate Refilling(f: Fsm) {
    f == WbReq || f == VcInsert || f == MemReadReq
  }

  /** The same counters, read off the stepped world. */
  lemma StepLookupStats(g: Geometry, w: World, i: Inputs)
    requires Fit(g, w) && w.cache.fsm == Lookup
    ensures var c, c' := w.cache, Step(g, w, i).cache;
            var t, t', f' := c.stats, c'.stats, c'.fsm;
            var way, v := HitWay(g, c, g.ways), VictimHit(g, c, g.victims);
            var useful := !c.reqIsPrefetch
              && (if way >= 0 then c.l1[way][ReqSet(g, c)].prefetched else v >= 0 && c.vc[v].prefetched);
            && t'.prefetchUseful == t.prefetchUseful + Bit(useful)
            && t'.prefetchFills == t.prefetchFills && t'.prefetchUseless == t.prefetchUseless
            && (f' == VcSwap <==> !c.reqIsPrefetch && way < 0 && v >= 0)
            && (f' == HitWrite ==> way >= 0 && !c.reqIsPrefetch)
            && (f' == VcSwap ==> c'.selectedVc == v)
            && t'.cpuHits == t.cpuHits + Bit(!c.reqIsPrefetch && way >= 0)
            && t'.cpuMisses == t.cpuMisses + Bit(!c.reqIsPrefetch && way < 0)
            && t'.victimHits == t.victimHits + Bit(f' == VcSwap) && t'.writebacks == t.writebacks
            && (!c.reqIsPrefetch ==> t'.prefetchPollution == t.prefetchPollution)
            && (Refilling(f') <==> way < 0 && v < 0)
            && f' != Lookup && f' != MemReadWait && f' != Install
            && c'.reqIsPrefetch == c.reqIsPrefetch
  {
    hide FromLookup;
    hide Step, Driven, Sized;
    DrivenFits(g, w, i);
    StepStats(g, w, i);
    StepIsCore(g, w, i);
    LookupStats(g, w.cache);
    LookupTarget(g, w.cache);
    assert CoreStep(g, w, i) == FromLookup(g, w.cache);
  }

  lemma HitStats(g: Geometry, w: World, i: Inputs)
    requires Fit(g, w) && w.cache.fsm == Lookup && HitWay(g, w.cache, g.ways) >= 0
    ensures var c, c' := w.cache, Step(g, w, i).cache;
            && c'.stats.prefetchUseful == c.stats.prefetchUseful
                 + Bit(!c.reqIsPrefetch && c.l1[HitWay(g, c, g.ways)][ReqSet(g, c)].prefetched)
            && c'.stats.prefetchFills == c.stats.prefetchFills && c'.stats.prefetchUseless == c.stats.prefetchUseless
            && c'.fsm != VcSwap && (c'.fsm == HitWrite ==> !c.reqIsPrefetch)
  {
    hide Step, HitWay, VictimHit;
    StepLookupStats(g, w, i);
  }

  lemma LedgerHit(g: Geometry, w: World, i: Inputs)
    requires Consistent(g, w) && w.cache.fsm == Lookup && InLookup(g, w) && PrefetchLedger(g, w)
    requires HitWay(g, w.cache, g.ways) >= 0 && Fit(g, Step(g, w, i))
    ensures PrefetchLedger(g, Step(g, w, i))
  {
    hide Step, Coherent, FullBehindVictims, Owed, HitWay, VictimHit, LoadOf, MergedLine, IsPrefetched, Prefetched;
    hide Geometry.Compose, Geometry.SetOf, Geometry.LineAddr, Geometry.TagOf;
    HitStats(g, w, i);
    LookupHitEffect(g, w, i);
    var c, way, n := w.cache, HitWay(g, w.cache, g.ways), ReqSet(g, w.cache);
    MatchIsCopy(g, c, way);
    var e := c.l1[way][n].(prefetched := false);
    EntryUpdate(g, c.l1, c.vc, way, n, e);
    PrefetchedUpdate(Held(g, c), L1(n, way), CopyOfEntry(g, n, e));
    BitOfCopy(g, c, way);
  }

  lemma BitOfCopy(g: Geometry, c: State, way: nat)
    requires Sized(g, c) && way < g.ways && WayMatches(g, c, way)
    ensures var p := L1(ReqSet(g, c), way);
            && p in Held(g, c) && IsPrefetched(Held(g, c)[p]) == c.l1[way][ReqSet(g, c)].prefetched
            && !IsPrefetched(Held(g, c)[p].(prefetched := false))
  {
    assert L1(ReqSet(g, c), way) in AllSlots(g);
  }

  lemma LedgerVictim(g: Geometry, w: World, i: Inputs)
    requires Consistent(g, w) && w.cache.fsm == Lookup && InLookup(g, w) && PrefetchLedger(g, w)
    requires HitWay(g, w.cache, g.ways) < 0 && VictimHit(g, w.cache, g.victims) >= 0 && Fit(g, Step(g, w, i))
    ensures PrefetchLedger(g, Step(g, w, i))
  {
    hide Step, Coherent, FullBehindVictims, Owed, Fresh, LoadOf, MergedLine, IsPrefetched;
    var c, v := w.cache, VictimHit(g, w.cache, g.victims);
    VictimHitMeansFull(g, c, v);
    StepLookupStats(g, w, i);
    LookupVictimEffect(g, w, i);
  }

  lemma LedgerMiss(g: Geometry, w: World, i: Inputs)
    requires Consistent(g, w) && w.cache.fsm == Lookup && PrefetchLedger(g, w)
    requires HitWay(g, w.cache, g.ways) < 0 && VictimHit(g, w.cache, g.victims) < 0 && Fit(g, Step(g, w, i))
    ensures PrefetchLedger(g, Step(g, w, i))
  {
    hide Step, Coherent, FullBehindVictims, LoadOf, MergedLine, IsPrefetched;
    StepLookupStats(g, w, i);
    LookupMissEffect(g, w, i);
  }

  lemma StepOtherStats(g: Geometry, w: World, i: Inputs)
    requires Fit(g, w) && w.cache.fsm != Lookup
    ensures var c, c' := w.cache, Step(g, w, i).cache;
            var t, t', v := c.stats, c'.stats, c.vc[c.selectedVc];
            && t'.prefetchUseful == t.prefetchUseful
            && t'.prefetchFills == t.prefetchFills + Bit(c.fsm == Install && c.reqIsPrefetch)
            && t'.prefetchUseless == t.prefetchUseless + Bit(c.fsm == VcInsert && v.valid && v.prefetched)
            && t'.cpuHits == t.cpuHits && t'.cpuMisses == t.cpuMisses && t'.victimHits == t.victimHits
            && t'.writebacks == t.writebacks + Bit(c.fsm == WbReq && i.memReady)
            && t'.prefetchPollution == t.prefetchPollution
  {
    hide Core, Sized, Driven;
    DrivenFits(g, w, i);
    StepStats(g, w, i);
    CoreStats(g, w.cache, Driven(w, i));
    assert Driven(w, i).memReady == i.memReady by { DrivenKeeps(w, i); }
  }

  lemma LedgerHitWrite(g: Geometry, w: World, i: Inputs)
    requires w.cache.fsm == HitWrite && Fit(g, w) && InHitWrite(g, w)
    requires PrefetchLedger(g, w) && Fit(g, Step(g, w, i))
    ensures PrefetchLedger(g, Step(g, w, i))
  {
    hide Step, Owed, Target, Geometry.Compose, Geometry.SetOf, Geometry.TagOf;
    StepOtherStats(g, w, i);
    HitWriteEffect(g, w, i);
    var c, n := w.cache, ReqSet(g, w.cache);
    var e := Entry(c.l1[c.selectedWay][n].valid, true, false, g.TagOf(c.req.addr), c.workingLine);
    EntryUpdate(g, c.l1, c.vc, c.selectedWay, n, e);
    PrefetchedUpdate(Held(g, c), Way(g, c), CopyOfEntry(g, n, e));
  }

  lemma LedgerVcSwap(g: Geometry, w: World, i: Inputs)
    requires w.cache.fsm == VcSwap && Fit(g, w) && InVcSwap(g, w)
    requires PrefetchLedger(g, w) && Fit(g, Step(g, w, i))
    ensures PrefetchLedger(g, Step(g, w, i))
  {
    hide Step, Owed, Target, Geometry.Compose, Geometry.SetOf, Geometry.TagOf;
    StepOtherStats(g, w, i);
    VcSwapEffect(g, w, i);
    var c, n := w.cache, ReqSet(g, w.cache);
    var e := Entry(true, c.workingDirty, false, g.TagOf(c.req.addr), c.workingLine);
    EntryUpdate(g, c.l1, c.vc, c.selectedWay, n, e);
    VictimUpdate(g, c.l1[c.selectedWay := c.l1[c.selectedWay][n := e]], c.vc, c.selectedVc, c.evicted);
    PrefetchedUpdate2(Held(g, c), Way(g, c), CopyOfEntry(g, n, e), Victim(c), c.evicted);
  }

  lemma LedgerVcInsert(g: Geometry, w: World, i: Inputs)
    requires w.cache.fsm == VcInsert && Fit(g, w) && InVcInsert(g, w)
    requires PrefetchLedger(g, w) && Fit(g, Step(g, w, i))
    ensures PrefetchLedger(g, Step(g, w, i))
  {
    hide Step, Owed, Geometry.Compose, Geometry.SetOf, Geometry.TagOf, LineAt;
    StepOtherStats(g, w, i);
    VcInsertEffect(g, w, i);
    var c, n := w.cache, ReqSet(g, w.cache);
    var e := c.l1[c.selectedWay][n].(valid := false, dirty := false, prefetched := false);
    VictimUpdate(g, c.l1, c.vc, c.selectedVc, c.evicted);
    EntryUpdate(g, c.l1, c.vc[c.selectedVc := c.evicted], c.selectedWay, n, e);
    PrefetchedUpdate2(Held(g, c), Victim(c), c.evicted, Way(g, c), CopyOfEntry(g, n, e));
  }

  lemma LedgerInstall(g: Geometry, w: World, i: Inputs)
    requires w.cache.fsm == Install && Fit(g, w) && InInstall(g, w)
    requires PrefetchLedger(g, w) && Fit(g, Step(g, w, i))
    ensures PrefetchLedger(g, Step(g, w, i))
  {
    hide Step, Owed, Target, Geometry.Compose, Geometry.SetOf, Geometry.TagOf;
    StepOtherStats(g, w, i);
    InstallEffect(g, w, i);
    var c, n := w.cache, ReqSet(g, w.cache);
    var e := Entry(true, !c.reqIsPrefetch && c.req.write, c.reqIsPrefetch, g.TagOf(c.req.addr), c.fillLine);
    EntryUpdate(g, c.l1, c.vc, c.selectedWay, n, e);
    PrefetchedUpdate(Held(g, c), Way(g, c), CopyOfEntry(g, n, e));
  }

  /** The remaining states leave arrays and prefetch counters alone. */
  lemma LedgerElsewhere(g: Geometry, w: World, i: Inputs)
    requires Fit(g, w) && w.cache.fsm in {Idle, WbReq, MemReadReq, MemReadWait, Resp}
    requires PrefetchLedger(g, w) && Fit(g, Step(g, w, i))
    ensures PrefetchLedger(g, Step(g, w, i))
  {
    hide Step, Driven, Core, LoadOf, MergedLine, Misaligned;
    StepOtherStats(g, w, i);
    StepIsCore(g, w, i);
    DrivenFits(g, w, i);
    CoreKeepsArrays(g, w.cache, Driven(w, i));
  }

  lemma CoreKeepsArrays(g: Geometry, s: State, i: Inputs)
    requires Sized(g, s) && InputsFit(g, s, i) && s.fsm in {Idle, WbReq, MemReadReq, MemReadWait, Resp}
    ensures var c := Core(g, s, i);
            && c.l1 == s.l1 && c.vc == s.vc && c.fsm != HitWrite && c.fsm != VcSwap
            && c.replacement == s.replacement && c.vcRr == s.vcRr
            && (s.fsm != Idle ==> c.selectedWay == s.selectedWay && c.evicted == s.evicted)
  {
    hide Launch, LoadOf, MergedLine, Misaligned, FromLookup, FromHitWrite, FromVcSwap, FromVcInsert, FromInstall;
  }

  lemma StepKeepsLedger(g: Geometry, w: World, i: Inputs)
    requires Good(g, w) && PrefetchLedger(g, w)
    ensures Fit(g, Step(g, w, i)) && PrefetchLedger(g, Step(g, w, i))
  {
    hide Step, PrefetchLedger, InLookup, InHitWrite, InVcSwap, InWbReq, InVcInsert, InMemRead, InInstall;
    StepKeepsFit(g, w, i);
    match w.cache.fsm {
      case Lookup =>
        if HitWay(g, w.cache, g.ways) >= 0 {
          LedgerHit(g, w, i);
        } else if VictimHit(g, w.cache, g.victims) >= 0 {
          LedgerVictim(g, w, i);
        } else {
          LedgerMiss(g, w, i);
        }
      case HitWrite => LedgerHitWrite(g, w, i);
      case VcSwap => LedgerVcSwap(g, w, i);
      case VcInsert => LedgerVcInsert(g, w, i);
      case Install => LedgerInstall(g, w, i);
      case _ => LedgerElsewhere(g, w, i);
    }
  }

  // ------------------------------------------------------------------- traffic ledger

  /** What the ports have seen, against the counters. */
  ghost predicate TrafficLedger(w: World) {
    var c, t := w.cache, w.cache.stats;
    && t.cpuHits + t.cpuMisses + Bit(LooksUpDemand(w)) == |w.demands|
    && |w.hits| + Bit(LooksUpDemand(w)) == |w.demands|
    && |w.demandReads| + t.victimHits + Bit(!c.reqIsPrefetch && Refilling(c.fsm)) == t.cpuMisses
    && w.prefetchReads == t.prefetchFills + Bit(c.reqIsPrefetch && (c.fsm == MemReadWait || c.fsm == Install))
    && w.writes == t.writebacks
  }

  lemma CoreTargets(g: Geometry, s: State, i: Inputs)
    requires Sized(g, s) && InputsFit(g, s, i) && s.fsm != Lookup
    ensures var f, f' := s.fsm, Core(g, s, i).fsm;
            && (f == Idle ==> f' == if i.cpuValid then (if Misaligned(i.cpu.addr, i.cpu.size) then Resp else Lookup)
                                   else if AcceptExt(g, s, i) || AcceptNext(g, s, i) then Lookup else Idle)
            && (f == HitWrite || f == VcSwap ==> f' == Resp)
            && (f == WbReq ==> f' == if i.memReady then VcInsert else f)
            && (f == VcInsert ==> f' == MemReadReq)
            && (f == MemReadReq ==> f' == if i.memReady then MemReadWait else f)
            && (f == MemReadWait ==> f' == if i.memRspValid then Install else f)
            && (f == Install ==> f' == if s.reqIsPrefetch then Idle else Resp)
            && (f == Resp ==> f' == if i.rspReady then Idle else f)
    ensures s.fsm != Idle ==> Core(g, s, i).reqIsPrefetch == s.reqIsPrefetch && Core(g, s, i).req == s.req
    ensures s.fsm == Idle && Core(g, s, i).fsm == Lookup ==> Core(g, s, i).reqIsPrefetch == !i.cpuValid
  {
    hide Launch, LoadOf, MergedLine, Misaligned, FromLookup;
  }

  lemma StepTargets(g: Geometry, w: World, i: Inputs)
    requires Fit(g, w) && w.cache.fsm != Lookup
    ensures var c, f, f' := w.cache, w.cache.fsm, Step(g, w, i).cache.fsm;
            && (f == Idle ==>
                  if i.cpuValid then f' == (if Misaligned(i.cpu.addr, i.cpu.size) then Resp else Lookup)
                  else f' == Idle || (f' == Lookup && g.enablePrefetch && i.cfgPrefetch))
            && (f == HitWrite || f == VcSwap ==> f' == Resp)
            && (f == WbReq ==> f' == if i.memReady then VcInsert else f)
            && (f == VcInsert ==> f' == MemReadReq)
            && (f == MemReadReq ==> f' == if i.memReady then MemReadWait else f)
            && (f == MemReadWait ==> f' == if i.memRspValid && w.inFlight.Some? then Install else f)
            && (f == Install ==> f' == if c.reqIsPrefetch then Idle else Resp)
            && (f == Resp ==> f' == if i.rspReady then Idle else f)
    ensures var c, c' := w.cache, Step(g, w, i).cache;
            && (c.fsm != Idle ==> c'.reqIsPrefetch == c.reqIsPrefetch && c'.req == c.req)
            && (c.fsm == Idle && c'.fsm == Lookup ==> c'.reqIsPrefetch == !i.cpuValid)
  {
    hide Step, Core, Sized, Misaligned, Driven;
    DrivenFits(g, w, i);
    DrivenKeeps(w, i);
    StepIsCore(g, w, i);
    CoreTargets(g, w.cache, Driven(w, i));
  }

  lemma StepKeepsArrays(g: Geometry, w: World, i: Inputs)
    requires Fit(g, w) && w.cache.fsm in {Idle, WbReq, MemReadReq, MemReadWait, Resp}
    ensures var c, c' := w.cache, Step(g, w, i).cache;
            && c'.l1 == c.l1 && c'.vc == c.vc && c'.replacement == c.replacement && c'.vcRr == c.vcRr
            && c'.fsm != HitWrite && c'.fsm != VcSwap
            && (c.fsm != Idle ==> c'.selectedWay == c.selectedWay && c'.evicted == c.evicted)
  {
    hide Step, Core, Sized, Driven;
    DrivenFits(g, w, i);
    StepIsCore(g, w, i);
    CoreKeepsArrays(g, w.cache, Driven(w, i));
  }

  lemma StepTraffic(g: Geometry, w: World, i: Inputs)
    requires Fit(g, w)
    ensures var w', c := Step(g, w, i), w.cache;
            && |w'.demands| == |w.demands| + Bit(c.fsm == Idle && i.cpuValid && !Misaligned(i.cpu.addr, i.cpu.size))
            && |w'.hits| == |w.hits| + Bit(LooksUpDemand(w))
            && |w'.demandReads| == |w.demandReads| + Bit(c.fsm == MemReadReq && i.memReady && !c.reqIsPrefetch)
            && w'.prefetchReads == w.prefetchReads + Bit(c.fsm == MemReadReq && i.memReady && c.reqIsPrefetch)
            && w'.writes == w.writes + Bit(c.fsm == WbReq && i.memReady)
  {
    hide Clock, Sized, Apply, Answer, Misaligned;
  }

  lemma LookupKeepsTraffic(g: Geometry, w: World, i: Inputs)
    requires Fit(g, w) && w.cache.fsm == Lookup && TrafficLedger(w)
    ensures TrafficLedger(Step(g, w, i))
  {
    hide Step, Sized, Misaligned;
    StepTraffic(g, w, i);
    StepLookupStats(g, w, i);
  }

  lemma OtherKeepsTraffic(g: Geometry, w: World, i: Inputs)
    requires Fit(g, w) && Serves(w) && w.cache.fsm != Lookup && TrafficLedger(w)
    requires w.cache.fsm == MemReadWait ==> w.inFlight.Some?
    ensures TrafficLedger(Step(g, w, i))
  {
    hide Step, Sized, Misaligned;
    StepTraffic(g, w, i);
    StepOtherStats(g, w, i);
    StepTargets(g, w, i);
  }

  lemma StepKeepsTraffic(g: Geometry, w: World, i: Inputs)
    requires Good(g, w) && TrafficLedger(w)
    ensures TrafficLedger(Step(g, w, i))
  {
    hide Good, Step, TrafficLedger;
    WaitHasRead(g, w);
    GoodServes(g, w);
    if w.cache.fsm == Lookup {
      LookupKeepsTraffic(g, w, i);
    } else {
      OtherKeepsTraffic(g, w, i);
    }
  }

  /** Lower-memory traffic and prefetch counters of a run that has come to rest. */
  datatype Counters = Counters(
    accesses: nat, hits: nat, misses: nat, victimHits: nat, demandMemReads: nat, prefetchMemReads: nat,
    memReads: nat, memWrites: nat, writebacks: nat, fills: nat, useful: nat, uselessEvicted: nat,
    unusedResident: nat, pollution: nat, dropped: nat)

  ghost function CountersOf(g: Geometry, w: World): Counters
    requires Fit(g, w)
  {
    var t := w.cache.stats;
    Counters(|w.demands|, t.cpuHits, t.cpuMisses, t.victimHits, |w.demandReads|, w.prefetchReads,
             Reads(w), w.writes, t.writebacks, t.prefetchFills, t.prefetchUseful, t.prefetchUseless,
             |Prefetched(Held(g, w.cache))|, t.prefetchPollution, t.prefetchDropped)
  }

  /** The checks of `validate_counters` that speak about these counters, for schema 2. */
  predicate SchemaTwoLaws(k: Counters, prefetchOn: bool) {
    && k.hits + k.misses == k.accesses
    && k.victimHits <= k.misses
    && k.demandMemReads == k.misses - k.victimHits
    && k.memReads == k.demandMemReads + k.prefetchMemReads
    && k.prefetchMemReads == k.fills
    && k.memWrites == k.writebacks
    && k.fills == k.useful + k.uselessEvicted + k.unusedResident
    && (!prefetchOn ==>
          && k.fills == k.useful == k.uselessEvicted == k.unusedResident == 0
          && k.pollution == k.dropped == k.prefetchMemReads == 0)
  }

  /** No input of the run ever enables prefetching. */
  ghost predicate PrefetchOff(g: Geometry, run: seq<Inputs>) {
    !g.enablePrefetch || forall k :: 0 <= k < |run| ==> !run[k].cfgPrefetch
  }

  /** With prefetching off no candidate, prefetch request or prefetch counter ever appears. */
  ghost predicate Silent(w: World) {
    var c, t := w.cache, w.cache.stats;
    && !c.reqIsPrefetch && !c.nextLine.pending && !c.nextLine.dropped
    && t.prefetchFills == 0 && t.prefetchPollution == 0 && t.prefetchDropped == 0
  }

  lemma StepKeepsSilent(g: Geometry, w: World, i: Inputs)
    requires Fit(g, w) && Silent(w) && (!g.enablePrefetch || !i.cfgPrefetch)
    ensures Silent(Step(g, w, i))
  {
    StepStats(g, w, i);
    DrivenKeeps(w, i);
    if w.cache.fsm == Lookup {
      StepLookupStats(g, w, i);
      LookupStats(g, w.cache);
    } else {
      StepOtherStats(g, w, i);
      StepTargets(g, w, i);
      DrivenFits(g, w, i);
      CoreStats(g, w.cache, Driven(w, i));
    }
    hide Step, Driven, Sized, Misaligned;
    hide FromLookup, FromIdle, FromHitWrite, FromVcSwap, FromVcInsert, FromInstall, FromMemReadWait;
  }

  lemma BootLedgers(g: Geometry, w: World, mem: Memory)
    requires Boot(g, w, mem) && Fit(g, w)
    ensures PrefetchLedger(g, w) && TrafficLedger(w) && Silent(w)
  {
    assert Prefetched(Held(g, w.cache)) == {};
  }

  lemma {:induction false} LedgersHold(g: Geometry, w: World, mem: Memory, run: seq<Inputs>)
    requires Boot(g, w, mem)
    ensures var e := After(g, w, run);
            && Good(g, e) && PrefetchLedger(g, e) && TrafficLedger(e) && (PrefetchOff(g, run) ==> Silent(e))
  {
    RunIsGood(g, w, mem, run);
    if run == [] {
      BootLedgers(g, w, mem);
    } else {
      hide Good, Boot, Fit, Sized, Step, PrefetchLedger, TrafficLedger, Silent;
      var k := |run| - 1;
      var before := After(g, w, run[..k]);
      LedgersHold(g, w, mem, run[..k]);
      GoodServes(g, before);
      StepKeepsLedger(g, before, run[k]);
      StepKeepsTraffic(g, before, run[k]);
      if PrefetchOff(g, run) {
        StepKeepsSilent(g, before, run[k]);
      }
    }
  }

  /** Prefetch conservation in every state of every run. */
  lemma PrefetchesAreConserved(g: Geometry, w: World, mem: Memory, run: seq<Inputs>)
    requires Boot(g, w, mem)
    ensures var e := After(g, w, run);
            var c, t := e.cache, e.cache.stats;
            t.prefetchFills + Bit(c.fsm == VcSwap && c.vc[c.selectedVc].prefetched)
              == t.prefetchUseful + t.prefetchUseless + |Prefetched(Held(g, c))|
  {
    hide Boot, Good, Step, TrafficLedger;
    LedgersHold(g, w, mem, run);
  }

  /** Whenever the cache is idle, its counters pass the analyzer's schema-2 checks. */
  lemma IdleCountersAreLawful(g: Geometry, w: World, mem: Memory, run: seq<Inputs>)
    requires Boot(g, w, mem) && After(g, w, run).cache.fsm == Idle
    ensures SchemaTwoLaws(CountersOf(g, After(g, w, run)), !PrefetchOff(g, run))
  {
    hide Boot, Good, Step, Held, Prefetched;
    LedgersHold(g, w, mem, run);
  }
}
