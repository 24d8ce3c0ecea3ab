/** Every clock edge keeps the invariant, one state of the machine at a time. */
module Preservation {
  import opened Arithmetic
  import opened Wrappers
  import opened Geometries
  import opened Bytes
  import opened LoadStore
  import opened CacheSpec
  import opened Coherence
  import opened Systems
  import opened Invariant
  import NextLine

  // The effect of a step on the fields the invariant speaks about, in the long cases.

  ghost predicate SamePorts(w: World, w': World) {
    && w'.lower == w.lower && w'.inFlight == w.inFlight && w'.expected == w.expected
    && w'.cache.req == w.cache.req && w'.cache.reqIsPrefetch == w.cache.reqIsPrefetch
  }

  /** A coherent copy of a line is the line. */
  lemma CopyAgrees(g: Geometry, w: World, p: Slot)
    requires Consistent(g, w) && p in Held(g, w.cache) && Held(g, w.cache)[p].valid
    ensures var m := Held(g, w.cache);
            InSpace(g, m[p].addr) && m[p].line == LineAt(g, w.flat, m[p].addr) && (p.L1? ==> g.SetOf(m[p].addr) == p.si)
  {
    hide Geometry.SetOf, Geometry.LineAddr, Geometry.TagOf, Geometry.Offset, Geometry.Compose, Geometry.Aligned, IsPow2;
  }

  lemma ArraysUntouched(g: Geometry, w: World, w': World)
    requires Consistent(g, w) && Fit(g, w')
    requires w'.cache.l1 == w.cache.l1 && w'.cache.vc == w.cache.vc
    requires w'.lower == w.lower && w'.flat == w.flat
    requires Hole(g, w'.cache) == Hole(g, w.cache) || Hole(g, w.cache) == None
    ensures Consistent(g, w')
  {
    hide Geometry.SetOf, Geometry.LineAddr, Geometry.TagOf, Geometry.Offset, Geometry.Compose, Geometry.Aligned, IsPow2;
  }

  // ------------------------------------------------------------------------- idle

  lemma MisalignedAnswer(m: Memory, r: Request)
    requires IsMemory(m)
    ensures Misaligned(r.addr, r.size) ==>
      Answer(m, r) == Response(ZERO_WORD, true, if r.write then RSP_STORE_MISALIGNED else RSP_LOAD_MISALIGNED)
  {
  }

  /** What the registers hold after an idle cycle. */
  lemma IdleCore(g: Geometry, s: State, i: Inputs)
    requires Sized(g, s) && s.fsm == Idle
    ensures var c := FromIdle(g, s, i);
            && c.l1 == s.l1 && c.vc == s.vc
            && if i.cpuValid then c == AcceptDemand(g, s, i.cpu)
               else (c.fsm == Idle
                     || (c.fsm == Lookup && c.q == Launch(g, s, ReqSet(g, c)) && c.reqIsPrefetch && !c.req.write))
  {
    hide Geometry.SetOf, Geometry.LineAddr, Geometry.Aligned, Misaligned, Launch;
    g.LineAddrIdempotent(i.extAddr);
    PrefetchAccepted(g, s, g.LineAddr(i.extAddr), i.extAddr);
    PrefetchAccepted(g, s, s.nextLine.addr, s.nextLine.addr);
    hide AcceptPrefetch, Sized;
  }

  lemma DemandAccepted(g: Geometry, s: State, r: Request)
    requires Sized(g, s)
    ensures var c := AcceptDemand(g, s, r);
            && c.l1 == s.l1 && c.vc == s.vc && c.req == r && !c.reqIsPrefetch
            && if Misaligned(r.addr, r.size)
               then c.fsm == Resp && c.response ==
                      Response(ZERO_WORD, true, if r.write then RSP_STORE_MISALIGNED else RSP_LOAD_MISALIGNED)
               else c.fsm == Lookup && c.response == Response(ZERO_WORD, false, RSP_OK)
                    && c.q == Launch(g, s, ReqSet(g, c))
  {
    hide Misaligned, Launch, Sized;
  }

  lemma IdleStepPorts(g: Geometry, w: World, i: Inputs)
    requires Fit(g, w) && w.cache.fsm == Idle
    ensures var w', c := Step(g, w, i), FromIdle(g, w.cache, Driven(w, i));
            && w'.lower == w.lower && w'.inFlight == w.inFlight && w'.flat == w.flat
            && w'.expected == (if i.cpuValid then Answer(w.flat, i.cpu) else w.expected)
            && w'.cache == c.(nextLine := w'.cache.nextLine, stats := w'.cache.stats)
    ensures Driven(w, i).cpuValid == i.cpuValid && Driven(w, i).cpu == i.cpu
  {
    hide FromIdle, Answer, Apply, Sized, NextLine.Clock;
  }

  lemma CpuAcceptEffect(g: Geometry, w: World, i: Inputs)
    requires Fit(g, w) && w.cache.fsm == Idle && i.cpuValid
    ensures var w', c := Step(g, w, i), Step(g, w, i).cache;
            && w'.lower == w.lower && w'.inFlight == w.inFlight && w'.flat == w.flat
            && w'.expected == Answer(w.flat, i.cpu)
            && c.l1 == w.cache.l1 && c.vc == w.cache.vc && c.req == i.cpu && !c.reqIsPrefetch
            && if Misaligned(i.cpu.addr, i.cpu.size)
               then c.fsm == Resp && c.response == Answer(w.flat, i.cpu)
               else c.fsm == Lookup && c.response == Response(ZERO_WORD, false, RSP_OK)
                    && c.q == Launch(g, w.cache, ReqSet(g, c))
  {
    hide Step, Driven, FromIdle, AcceptDemand, Answer, Misaligned, Launch, Geometry.SetOf;
    MisalignedAnswer(w.flat, i.cpu);
    IdleStepPorts(g, w, i);
    IdleCore(g, w.cache, Driven(w, i));
    DemandAccepted(g, w.cache, i.cpu);
  }

  lemma IdleEffect(g: Geometry, w: World, i: Inputs)
    requires Fit(g, w) && w.cache.fsm == Idle && !i.cpuValid
    ensures var w', c := Step(g, w, i), Step(g, w, i).cache;
            && w'.lower == w.lower && w'.inFlight == w.inFlight && w'.flat == w.flat
            && c.l1 == w.cache.l1 && c.vc == w.cache.vc
            && (c.fsm == Idle || c.fsm == Lookup)
            && (c.fsm == Lookup ==> c.q == Launch(g, w.cache, ReqSet(g, c)) && c.reqIsPrefetch && !c.req.write)
  {
    hide Step, Driven, FromIdle, Answer, Launch, Geometry.SetOf;
    IdleStepPorts(g, w, i);
    IdleCore(g, w.cache, Driven(w, i));
  }

  lemma PrefetchAccepted(g: Geometry, s: State, a: Address, candidate: Address)
    requires Sized(g, s)
    ensures var c := AcceptPrefetch(g, s, a, candidate);
            && c.l1 == s.l1 && c.vc == s.vc && c.fsm == Lookup && c.reqIsPrefetch && !c.req.write
            && c.req.addr == a && c.q == Launch(g, s, g.SetOf(candidate))
  {
    hide Launch, Sized;
  }

  lemma IdleGood(g: Geometry, w: World, i: Inputs)
    requires Consistent(g, w) && w.cache.fsm == Idle && !w.inFlight.Some?
    ensures Good(g, Step(g, w, i))
  {
    hide Step, Misaligned, Answer, Apply;
    hide Geometry.SetOf, Geometry.LineAddr, Geometry.TagOf, Geometry.Offset, Geometry.Compose, Geometry.Aligned, IsPow2;
    StepKeepsFit(g, w, i);
    if i.cpuValid {
      CpuAcceptEffect(g, w, i);
    } else {
      IdleEffect(g, w, i);
    }
    ArraysUntouched(g, w, Step(g, w, i));
  }

  // ----------------------------------------------------------------------- lookup

  lemma LookupHitEffect(g: Geometry, w: World, i: Inputs)
    requires Fit(g, w) && w.cache.fsm == Lookup && HitWay(g, w.cache, g.ways) >= 0
    ensures var w', c, way, n := Step(g, w, i), w.cache, HitWay(g, w.cache, g.ways), ReqSet(g, w.cache);
            && SamePorts(w, w') && w'.flat == w.flat && w'.cache.vc == c.vc && w'.cache.selectedWay == way
            && (c.reqIsPrefetch ==> w'.cache.fsm == Idle && w'.cache.l1 == c.l1)
            && (!c.reqIsPrefetch ==>
                  var line := MergedLine(g, c, c.q[way].line);
                  && w'.cache.l1 == c.l1[way := c.l1[way][n := c.l1[way][n].(prefetched := false)]]
                  && w'.cache.fsm == (if c.req.write then HitWrite else Resp)
                  && (c.req.write ==> w'.cache.workingLine == line)
                  && w'.cache.response == c.response.(data := LoadOf(g, c, line)))
  {
    hide FromIdle, FromHitWrite, FromVcSwap, FromVcInsert, FromMemReadWait, FromInstall;
    hide Geometry.SetOf, Geometry.LineAddr, Geometry.TagOf, Geometry.Offset, Geometry.Compose, Geometry.Aligned, IsPow2;
    hide LoadOf, MergedLine;
  }

  lemma LookupHitConsistent(g: Geometry, w: World, i: Inputs)
    requires Consistent(g, w) && w.cache.fsm == Lookup && InLookup(g, w) && !w.inFlight.Some?
    requires HitWay(g, w.cache, g.ways) >= 0
    ensures Consistent(g, Step(g, w, i))
  {
    hide Geometry.SetOf, Geometry.LineAddr, Geometry.TagOf, Geometry.Offset, Geometry.Compose, Geometry.Aligned, IsPow2;
    StepKeepsFit(g, w, i);
    LookupHitEffect(g, w, i);
    hide Step, Coherent, FullBehindVictims, MergedLine, LoadOf;
    var c, way := w.cache, HitWay(g, w.cache, g.ways);
    var m, n := Held(g, c), ReqSet(g, c);
    var e := c.l1[way][n].(prefetched := false);
    MatchIsCopy(g, c, way);
    if !c.reqIsPrefetch {
      EntryUpdate(g, c.l1, c.vc, way, n, e);
      KeepsWhenTouched(g, m, w.lower, w.flat, L1(n, way), CopyOfEntry(g, n, e));
      FullWhenTouched(g, m, None, L1(n, way), CopyOfEntry(g, n, e));
    }
  }

  lemma LookupHitSettled(g: Geometry, w: World, i: Inputs)
    requires Consistent(g, w) && w.cache.fsm == Lookup && InLookup(g, w) && !w.inFlight.Some?
    requires HitWay(g, w.cache, g.ways) >= 0
    ensures Settled(g, Step(g, w, i))
  {
    hide Geometry.SetOf, Geometry.LineAddr, Geometry.TagOf, Geometry.Offset, Geometry.Compose, Geometry.Aligned, IsPow2;
    hide Step, Consistent, Misaligned, Answer, Apply, LoadOf;
    ConsistentFits(g, w);
    StepKeepsFit(g, w, i);
    LookupHitEffect(g, w, i);
    var c, way, w' := w.cache, HitWay(g, w.cache, g.ways), Step(g, w, i);
    var n := ReqSet(g, c);
    if !c.reqIsPrefetch {
      MatchIsCopy(g, c, way);
      EntryUpdate(g, c.l1, c.vc, way, n, c.l1[way][n].(prefetched := false));
      assert Holds(Held(g, w'.cache), L1(n, way), ReqLine(g, c));
      CopyAgrees(g, w, L1(n, way));
      DatapathIsArchitectural(g, c, w.flat);
      assert Answered(w');
      assert c.req.write ==> Owed(w') && w'.cache.workingLine == Target(g, w');
    }
  }

  lemma LookupVictimEffect(g: Geometry, w: World, i: Inputs)
    requires Fit(g, w) && w.cache.fsm == Lookup
    requires HitWay(g, w.cache, g.ways) < 0 && VictimHit(g, w.cache, g.victims) >= 0
    requires InvalidWay(g, w.cache, g.ways) < 0
    ensures var w', c, v, n := Step(g, w, i), w.cache, VictimHit(g, w.cache, g.victims), ReqSet(g, w.cache);
            && SamePorts(w, w') && w'.flat == w.flat && w'.cache.vc == c.vc && w'.cache.l1 == c.l1
            && (c.reqIsPrefetch ==> w'.cache.fsm == Idle)
            && (!c.reqIsPrefetch ==>
                  var line := MergedLine(g, c, c.vc[v].line);
                  && w'.cache.fsm == VcSwap
                  && w'.cache.selectedVc == v && w'.cache.selectedWay == c.replacement[n]
                  && w'.cache.evicted == Snapshot(g, c, c.replacement[n])
                  && w'.cache.workingLine == line && w'.cache.workingDirty == (c.req.write || c.vc[v].dirty)
                  && w'.cache.response == c.response.(data := LoadOf(g, c, line)))
  {
    hide FromIdle, FromHitWrite, FromVcSwap, FromVcInsert, FromMemReadWait, FromInstall;
    hide Geometry.SetOf, Geometry.LineAddr, Geometry.TagOf, Geometry.Offset, Geometry.Compose, Geometry.Aligned, IsPow2;
    hide LoadOf, MergedLine;
  }

  lemma VictimSetFull(g: Geometry, w: World)
    requires Consistent(g, w) && w.cache.fsm == Lookup && VictimHit(g, w.cache, g.victims) >= 0
    ensures InvalidWay(g, w.cache, g.ways) < 0
  {
    hide Coherent;
    VictimHitMeansFull(g, w.cache, VictimHit(g, w.cache, g.victims));
  }

  lemma LookupVictimSettled(g: Geometry, w: World, i: Inputs)
    requires Consistent(g, w) && w.cache.fsm == Lookup && InLookup(g, w) && !w.inFlight.Some?
    requires HitWay(g, w.cache, g.ways) < 0 && VictimHit(g, w.cache, g.victims) >= 0
    ensures Settled(g, Step(g, w, i))
  {
    hide Geometry.SetOf, Geometry.LineAddr, Geometry.TagOf, Geometry.Offset, Geometry.Compose, Geometry.Aligned, IsPow2;
    hide Step, Consistent, Misaligned, Answer, Apply, LoadOf;
    ConsistentFits(g, w);
    var c, v := w.cache, VictimHit(g, w.cache, g.victims);
    VictimSetFull(g, w);
    StepKeepsFit(g, w, i);
    LookupVictimEffect(g, w, i);
    if !c.reqIsPrefetch {
      var w' := Step(g, w, i);
      VictimMatchIsCopy(g, c, v);
      assert Held(g, w'.cache) == Held(g, c);
      SnapshotIsCopy(g, c, c.replacement[ReqSet(g, c)]);
      assert Evicting(g, w'.cache, Held(g, c)) && Holds(Held(g, c), VC(v), ReqLine(g, c));
      CopyAgrees(g, w, VC(v));
      DatapathIsArchitectural(g, c, w.flat);
      assert w'.cache.workingLine == Target(g, w');
      assert Owed(w') && Answered(w');
    }
  }

  lemma LookupVictimConsistent(g: Geometry, w: World, i: Inputs)
    requires Consistent(g, w) && w.cache.fsm == Lookup && InLookup(g, w) && !w.inFlight.Some?
    requires HitWay(g, w.cache, g.ways) < 0 && VictimHit(g, w.cache, g.victims) >= 0
    ensures Consistent(g, Step(g, w, i))
  {
    hide Step, Consistent, Misaligned, Answer, Apply, LoadOf;
    ConsistentFits(g, w);
    StepKeepsFit(g, w, i);
    VictimSetFull(g, w);
    LookupVictimEffect(g, w, i);
    ArraysUntouched(g, w, Step(g, w, i));
  }

  lemma LookupMissEffect(g: Geometry, w: World, i: Inputs)
    requires Fit(g, w) && w.cache.fsm == Lookup
    requires HitWay(g, w.cache, g.ways) < 0 && VictimHit(g, w.cache, g.victims) < 0
    ensures var w', c, n, free := Step(g, w, i), w.cache, ReqSet(g, w.cache), InvalidWay(g, w.cache, g.ways);
            var v := c.vc[c.vcRr];
            && SamePorts(w, w') && w'.flat == w.flat && w'.cache.vc == c.vc && w'.cache.l1 == c.l1
            && w'.cache.vcRr == c.vcRr && w'.cache.response == c.response
            && (free >= 0 ==> w'.cache.fsm == MemReadReq && w'.cache.selectedWay == free)
            && (free < 0 ==>
                  && w'.cache.selectedWay == c.replacement[n] && w'.cache.selectedVc == c.vcRr
                  && w'.cache.evicted == Snapshot(g, c, c.replacement[n])
                  && w'.cache.fsm == (if v.valid && v.dirty then WbReq else VcInsert)
                  && (v.valid && v.dirty ==> w'.cache.wbAddr == v.addr && w'.cache.wbLine == v.line))
  {
    hide FromIdle, FromHitWrite, FromVcSwap, FromVcInsert, FromMemReadWait, FromInstall;
    hide Geometry.SetOf, Geometry.LineAddr, Geometry.TagOf, Geometry.Offset, Geometry.Compose, Geometry.Aligned, IsPow2;
  }

  lemma LookupMissConsistent(g: Geometry, w: World, i: Inputs)
    requires Consistent(g, w) && w.cache.fsm == Lookup && InLookup(g, w)
    requires HitWay(g, w.cache, g.ways) < 0 && VictimHit(g, w.cache, g.victims) < 0
    ensures Consistent(g, Step(g, w, i))
    ensures Absent(Held(g, w.cache), ReqLine(g, w.cache))
  {
    hide Geometry.SetOf, Geometry.LineAddr, Geometry.TagOf, Geometry.Offset, Geometry.Compose, Geometry.Aligned, IsPow2;
    MissMeansAbsent(g, w.cache, w.lower, w.flat);
    hide Step, Consistent, Owed, Fresh;
    ConsistentFits(g, w);
    StepKeepsFit(g, w, i);
    LookupMissEffect(g, w, i);
    ArraysUntouched(g, w, Step(g, w, i));
  }

  lemma LookupMissSettled(g: Geometry, w: World, i: Inputs)
    requires Consistent(g, w) && w.cache.fsm == Lookup && InLookup(g, w) && !w.inFlight.Some?
    requires HitWay(g, w.cache, g.ways) < 0 && VictimHit(g, w.cache, g.victims) < 0
    ensures Settled(g, Step(g, w, i))
  {
    hide Geometry.SetOf, Geometry.LineAddr, Geometry.TagOf, Geometry.Offset, Geometry.Compose, Geometry.Aligned, IsPow2;
    hide Step, Consistent, Misaligned, Answer, Apply;
    ConsistentFits(g, w);
    var c, free, w' := w.cache, InvalidWay(g, w.cache, g.ways), Step(g, w, i);
    StepKeepsFit(g, w, i);
    LookupMissConsistent(g, w, i);
    LookupMissEffect(g, w, i);
    assert Held(g, w'.cache) == Held(g, c) && Owed(w');
    if free >= 0 {
      SnapshotIsCopy(g, c, free);
      assert Filling(g, w'.cache, Held(g, c));
    } else {
      SnapshotIsCopy(g, c, c.replacement[ReqSet(g, c)]);
      NoInvalidWayMeansFull(g, c);
      CleanVictimIsMemory(g, w);
      assert Replacing(g, w');
    }
  }

  lemma CleanVictimIsMemory(g: Geometry, w: World)
    requires Consistent(g, w)
    ensures var v := w.cache.vc[w.cache.vcRr];
            && VC(w.cache.vcRr) in Held(g, w.cache) && Held(g, w.cache)[VC(w.cache.vcRr)] == v
            && (v.valid && !v.dirty ==>
                  InSpace(g, v.addr) && LineAt(g, w.lower, v.addr) == LineAt(g, w.flat, v.addr))
  {
    hide Geometry.SetOf, Geometry.LineAddr, Geometry.TagOf, Geometry.Offset, Geometry.Compose, Geometry.Aligned, IsPow2;
    var v, m := VC(w.cache.vcRr), Held(g, w.cache);
    assert v in AllSlots(g);
    if m[v].valid && !m[v].dirty {
      CleanCopyIsMemory(g, m, w.lower, w.flat, v);
    }
  }

  // -------------------------------------------------------------- hit write and swap

  lemma HitWriteEffect(g: Geometry, w: World, i: Inputs)
    requires Fit(g, w) && w.cache.fsm == HitWrite
    ensures var w', c, n := Step(g, w, i), w.cache, ReqSet(g, w.cache);
            var e := Entry(c.l1[c.selectedWay][n].valid, true, false, g.TagOf(c.req.addr), c.workingLine);
            && SamePorts(w, w') && w'.flat == Apply(w.flat, c.req) && w'.cache.fsm == Resp
            && w'.cache.l1 == c.l1[c.selectedWay := c.l1[c.selectedWay][n := e]] && w'.cache.vc == c.vc
            && w'.cache.response == c.response
  {
    hide FromIdle, FromLookup, FromVcSwap, FromVcInsert, FromMemReadWait, FromInstall;
    hide Geometry.SetOf, Geometry.LineAddr, Geometry.TagOf, Geometry.Offset, Geometry.Compose, Geometry.Aligned, IsPow2;
  }

  lemma HitWriteGood(g: Geometry, w: World, i: Inputs)
    requires Consistent(g, w) && w.cache.fsm == HitWrite && InHitWrite(g, w) && !w.inFlight.Some?
    ensures Good(g, Step(g, w, i))
  {
    hide Geometry.SetOf, Geometry.LineAddr, Geometry.TagOf, Geometry.Offset, Geometry.Compose, Geometry.Aligned, IsPow2;
    hide Step, Coherent, FullBehindVictims, Misaligned, Answer, Apply, LoadOf;
    StepKeepsFit(g, w, i);
    HitWriteEffect(g, w, i);
    var c, m, n, w' := w.cache, Held(g, w.cache), ReqSet(g, w.cache), Step(g, w, i);
    var e := Entry(c.l1[c.selectedWay][n].valid, true, false, g.TagOf(c.req.addr), c.workingLine);
    EntryUpdate(g, c.l1, c.vc, c.selectedWay, n, e);
    g.ComposeSlices(c.req.addr);
    DatapathIsArchitectural(g, c, w.flat);
    KeepsWhenWritten(g, m, w.lower, w.flat, w'.flat, Way(g, c), CopyOfEntry(g, n, e));
    FullWhenTouched(g, m, None, Way(g, c), CopyOfEntry(g, n, e));
    assert Consistent(g, w');
    assert Answered(w');
  }

  lemma VcSwapEffect(g: Geometry, w: World, i: Inputs)
    requires Fit(g, w) && w.cache.fsm == VcSwap && w.cache.evicted.valid
    ensures var w', c, n := Step(g, w, i), w.cache, ReqSet(g, w.cache);
            var e := Entry(true, c.workingDirty, false, g.TagOf(c.req.addr), c.workingLine);
            && SamePorts(w, w') && w'.flat == Apply(w.flat, c.req) && w'.cache.fsm == Resp
            && w'.cache.l1 == c.l1[c.selectedWay := c.l1[c.selectedWay][n := e]]
            && w'.cache.vc == c.vc[c.selectedVc := c.evicted]
            && w'.cache.response == c.response
  {
    hide FromIdle, FromLookup, FromHitWrite, FromVcInsert, FromMemReadWait, FromInstall;
    hide Geometry.SetOf, Geometry.LineAddr, Geometry.TagOf, Geometry.Offset, Geometry.Compose, Geometry.Aligned, IsPow2;
  }

  lemma VcSwapGood(g: Geometry, w: World, i: Inputs)
    requires Consistent(g, w) && w.cache.fsm == VcSwap && InVcSwap(g, w) && !w.inFlight.Some?
    ensures Good(g, Step(g, w, i))
  {
    hide Geometry.SetOf, Geometry.LineAddr, Geometry.TagOf, Geometry.Offset, Geometry.Compose, Geometry.Aligned, IsPow2;
    hide Step, Coherent, FullBehindVictims, Misaligned, Answer, Apply, LoadOf;
    StepKeepsFit(g, w, i);
    VcSwapEffect(g, w, i);
    var c, m, n, w' := w.cache, Held(g, w.cache), ReqSet(g, w.cache), Step(g, w, i);
    var e := Entry(true, c.workingDirty, false, g.TagOf(c.req.addr), c.workingLine);
    var up, down, copy := Way(g, c), Victim(c), CopyOfEntry(g, n, e);
    CopyAgrees(g, w, down);
    CopyAgrees(g, w, up);
    EntryUpdate(g, c.l1, c.vc, c.selectedWay, n, e);
    VictimUpdate(g, c.l1[c.selectedWay := c.l1[c.selectedWay][n := e]], c.vc, c.selectedVc, c.evicted);
    g.ComposeSlices(c.req.addr);
    g.LineAddrIdempotent(c.req.addr);
    DatapathIsArchitectural(g, c, w.flat);
    assert Held(g, w'.cache) == m[up := copy][down := m[up]];
    KeepsWhenSwapped(g, m, w.lower, w.flat, w'.flat, up, down, copy);
    FullWhenSwapped(g, m, up, down, copy);
    assert Consistent(g, w');
    assert Answered(w');
  }

  // ----------------------------------------------------------- write-back and insert

  lemma WbReqEffect(g: Geometry, w: World, i: Inputs)
    requires Fit(g, w) && w.cache.fsm == WbReq
    ensures var w', c, c' := Step(g, w, i), w.cache, Step(g, w, i).cache;
            && w'.inFlight == w.inFlight && w'.expected == w.expected && w'.flat == w.flat
            && c'.req == c.req && c'.reqIsPrefetch == c.reqIsPrefetch && c'.response == c.response
            && c'.l1 == c.l1 && c'.vc == c.vc && c'.vcRr == c.vcRr && c'.evicted == c.evicted
            && c'.selectedWay == c.selectedWay && c'.selectedVc == c.selectedVc
            && c'.wbAddr == c.wbAddr && c'.wbLine == c.wbLine
            && w'.lower == LowerAfter(w, i) && c'.fsm == (if i.memReady then VcInsert else WbReq)
  {
    hide FromIdle, FromLookup, FromHitWrite, FromVcSwap, FromVcInsert, FromMemReadWait, FromInstall;
    hide Geometry.SetOf, Geometry.LineAddr, Geometry.TagOf, Geometry.Offset, Geometry.Compose, Geometry.Aligned, IsPow2;
  }

  /** A write-back puts exactly the victim's line into lower memory. */
  lemma WriteBackConsistent(g: Geometry, w: World, i: Inputs)
    requires Consistent(g, w) && w.cache.fsm == WbReq && InWbReq(g, w) && i.memReady
    ensures Coherent(g, Held(g, w.cache), LowerAfter(w, i), w.flat)
    ensures var la := w.cache.wbAddr; InSpace(g, la) && LineAt(g, LowerAfter(w, i), la) == LineAt(g, w.flat, la)
  {
    hide Geometry.SetOf, Geometry.LineAddr, Geometry.TagOf, Geometry.Offset, Geometry.Compose, Geometry.Aligned, IsPow2;
    CopyAgrees(g, w, Victim(w.cache));
    var c, m := w.cache, Held(g, w.cache);
    PutReplacesLine(g, w.lower, c.wbAddr, c.wbAddr, c.wbLine);
    assert Put(LineAt(g, w.lower, c.wbAddr), 0, c.wbLine) == c.wbLine;
    KeepsWhenWrittenBack(g, m, w.lower, Put(w.lower, c.wbAddr, c.wbLine), w.flat, Victim(c));
  }

  lemma WbReqGood(g: Geometry, w: World, i: Inputs)
    requires Consistent(g, w) && w.cache.fsm == WbReq && InWbReq(g, w) && !w.inFlight.Some?
    ensures Good(g, Step(g, w, i))
  {
    hide Step, Coherent, FullBehindVictims, Misaligned, Answer, Apply;
    hide Geometry.SetOf, Geometry.LineAddr, Geometry.TagOf, Geometry.Offset, Geometry.Compose, Geometry.Aligned, IsPow2;
    StepKeepsFit(g, w, i);
    WbReqEffect(g, w, i);
    if i.memReady {
      WriteBackConsistent(g, w, i);
    }
  }

  lemma VcInsertEffect(g: Geometry, w: World, i: Inputs)
    requires Fit(g, w) && w.cache.fsm == VcInsert
    ensures var w', c, n := Step(g, w, i), w.cache, ReqSet(g, w.cache);
            var e := c.l1[c.selectedWay][n].(valid := false, dirty := false, prefetched := false);
            && SamePorts(w, w') && w'.flat == w.flat && w'.cache.fsm == MemReadReq
            && w'.cache.l1 == c.l1[c.selectedWay := c.l1[c.selectedWay][n := e]]
            && w'.cache.vc == c.vc[c.selectedVc := c.evicted]
            && w'.cache.response == c.response && w'.cache.selectedWay == c.selectedWay
  {
    hide FromIdle, FromLookup, FromHitWrite, FromVcSwap, FromMemReadWait, FromInstall;
    hide Geometry.SetOf, Geometry.LineAddr, Geometry.TagOf, Geometry.Offset, Geometry.Compose, Geometry.Aligned, IsPow2;
  }

  lemma VcInsertGood(g: Geometry, w: World, i: Inputs)
    requires Consistent(g, w) && w.cache.fsm == VcInsert && InVcInsert(g, w) && !w.inFlight.Some?
    ensures Good(g, Step(g, w, i))
  {
    hide Geometry.SetOf, Geometry.LineAddr, Geometry.TagOf, Geometry.Offset, Geometry.Compose, Geometry.Aligned, IsPow2;
    hide Step, Coherent, FullBehindVictims, Misaligned, Answer, Apply, LoadOf;
    StepKeepsFit(g, w, i);
    VcInsertEffect(g, w, i);
    var c, m, n, w' := w.cache, Held(g, w.cache), ReqSet(g, w.cache), Step(g, w, i);
    var e := c.l1[c.selectedWay][n].(valid := false, dirty := false, prefetched := false);
    var from, to, gone := Way(g, c), Victim(c), CopyOfEntry(g, n, e);
    CopyAgrees(g, w, from);
    VictimUpdate(g, c.l1, c.vc, c.selectedVc, c.evicted);
    EntryUpdate(g, c.l1, c.vc[c.selectedVc := c.evicted], c.selectedWay, n, e);
    assert Held(g, w'.cache) == m[to := m[from]][from := gone];
    if m[to].valid {
      CopyAgrees(g, w, to);
    }
    KeepsWhenMoved(g, m, w.lower, w.flat, from, to, gone);
    FullWhenMoved(g, m, from, to, gone);
    assert Consistent(g, w');
    assert Filling(g, w'.cache, Held(g, w'.cache));
    assert Owed(w');
  }

  // ---------------------------------------------------------------- refill and install

  lemma ReadEffect(g: Geometry, w: World, i: Inputs)
    requires Fit(g, w) && (w.cache.fsm == MemReadReq || (w.cache.fsm == MemReadWait && !i.memRspValid))
    ensures ReqLine(g, w.cache) + g.lineBytes <= ADDRESS_SPACE
    ensures var w', c, c' := Step(g, w, i), w.cache, Step(g, w, i).cache;
            && SamePorts(w, w'.(inFlight := w.inFlight)) && w'.flat == w.flat && c'.response == c.response
            && c'.l1 == c.l1 && c'.vc == c.vc && c'.selectedWay == c.selectedWay
            && (if c.fsm == MemReadReq && i.memReady
                then c'.fsm == MemReadWait && w'.inFlight == Some(LineAt(g, w.lower, ReqLine(g, c)))
                else c'.fsm == c.fsm && w'.inFlight == w.inFlight)
  {
    hide FromIdle, FromLookup, FromHitWrite, FromVcSwap, FromVcInsert, FromInstall;
    hide Geometry.SetOf, Geometry.LineAddr, Geometry.TagOf, Geometry.Offset, Geometry.Compose, Geometry.Aligned, IsPow2;
    hide LoadOf, MergedLine, Misaligned, Answer, Apply, ReqSet, FromResp, FromWbReq, GeneratorInput, OutputsOf;
    g.LineFits(w.cache.req.addr);
  }

  lemma MemReadReqGood(g: Geometry, w: World, i: Inputs)
    requires Consistent(g, w) && w.cache.fsm == MemReadReq && InMemRead(g, w) && !w.inFlight.Some?
    ensures Good(g, Step(g, w, i))
  {
    hide Step, Misaligned, Answer, Apply;
    hide Geometry.SetOf, Geometry.LineAddr, Geometry.TagOf, Geometry.Offset, Geometry.Compose, Geometry.Aligned, IsPow2;
    StepKeepsFit(g, w, i);
    ReadEffect(g, w, i);
    ArraysUntouched(g, w, Step(g, w, i));
  }

  /** Lower memory is current for a line that is nowhere in the cache. */
  lemma AbsentIsBacked(g: Geometry, w: World, la: nat)
    requires Consistent(g, w) && Absent(Held(g, w.cache), la) && InSpace(g, la)
    ensures LineAt(g, w.lower, la) == LineAt(g, w.flat, la)
  {
    hide Geometry.SetOf, Geometry.LineAddr, Geometry.TagOf, Geometry.Offset, Geometry.Compose, Geometry.Aligned, IsPow2;
    assert !HasDirty(Held(g, w.cache), la);
  }

  lemma ReadWaitEffect(g: Geometry, w: World, i: Inputs)
    requires Fit(g, w) && w.cache.fsm == MemReadWait && i.memRspValid && w.inFlight.Some?
    ensures var w', c := Step(g, w, i), w.cache;
            var line := if c.reqIsPrefetch then w.inFlight.value else MergedLine(g, c, w.inFlight.value);
            && w'.lower == w.lower && w'.inFlight == None && w'.expected == w.expected && w'.flat == w.flat
            && w'.cache.req == c.req && w'.cache.reqIsPrefetch == c.reqIsPrefetch
            && w'.cache.fsm == Install && w'.cache.l1 == c.l1 && w'.cache.vc == c.vc
            && w'.cache.selectedWay == c.selectedWay && w'.cache.fillLine == line
            && w'.cache.response == c.response.(data := LoadOf(g, c, line))
  {
    hide FromIdle, FromLookup, FromHitWrite, FromVcSwap, FromVcInsert, FromInstall;
    hide Geometry.SetOf, Geometry.LineAddr, Geometry.TagOf, Geometry.Offset, Geometry.Compose, Geometry.Aligned, IsPow2;
    hide LoadOf, MergedLine;
  }

  lemma ReadStalledGood(g: Geometry, w: World, i: Inputs)
    requires Consistent(g, w) && w.cache.fsm == MemReadWait && InMemReadWait(g, w) && !i.memRspValid
    ensures Good(g, Step(g, w, i))
  {
    hide Step, Misaligned, Answer, Apply;
    hide Geometry.SetOf, Geometry.LineAddr, Geometry.TagOf, Geometry.Offset, Geometry.Compose, Geometry.Aligned, IsPow2;
    StepKeepsFit(g, w, i);
    ReadEffect(g, w, i);
    ArraysUntouched(g, w, Step(g, w, i));
  }

  lemma ReadReturnsGood(g: Geometry, w: World, i: Inputs)
    requires Consistent(g, w) && w.cache.fsm == MemReadWait && InMemReadWait(g, w) && i.memRspValid
    ensures Good(g, Step(g, w, i))
  {
    hide Geometry.SetOf, Geometry.LineAddr, Geometry.TagOf, Geometry.Offset, Geometry.Compose, Geometry.Aligned, IsPow2;
    hide Step, Consistent, Misaligned, Answer, Apply, LoadOf;
    ConsistentFits(g, w);
    var c, la, w' := w.cache, ReqLine(g, w.cache), Step(g, w, i);
    StepKeepsFit(g, w, i);
    g.LineFits(c.req.addr);
    g.LineAddrIdempotent(c.req.addr);
    AbsentIsBacked(g, w, la);
    ReadWaitEffect(g, w, i);
    ArraysUntouched(g, w, w');
    assert w'.cache.fillLine == Target(g, w') && Filling(g, w'.cache, Held(g, w'.cache));
    if !c.reqIsPrefetch {
      DatapathIsArchitectural(g, c, w.flat);
      assert Answered(w');
    }
    assert Owed(w');
  }

  lemma ConsistentFits(g: Geometry, w: World)
    requires Consistent(g, w)
    ensures Fit(g, w)
  {
  }

  lemma InstallEffect(g: Geometry, w: World, i: Inputs)
    requires Fit(g, w) && w.cache.fsm == Install
    ensures var w', c, n := Step(g, w, i), w.cache, ReqSet(g, w.cache);
            var e := Entry(true, !c.reqIsPrefetch && c.req.write, c.reqIsPrefetch, g.TagOf(c.req.addr), c.fillLine);
            && SamePorts(w, w') && w'.flat == (if c.reqIsPrefetch then w.flat else Apply(w.flat, c.req))
            && w'.cache.fsm == (if c.reqIsPrefetch then Idle else Resp)
            && w'.cache.l1 == c.l1[c.selectedWay := c.l1[c.selectedWay][n := e]] && w'.cache.vc == c.vc
            && w'.cache.response == c.response
  {
    hide FromIdle, FromLookup, FromHitWrite, FromVcSwap, FromVcInsert, FromMemReadWait;
    hide Geometry.SetOf, Geometry.LineAddr, Geometry.TagOf, Geometry.Offset, Geometry.Compose, Geometry.Aligned, IsPow2;
  }

  lemma InstallGood(g: Geometry, w: World, i: Inputs)
    requires Consistent(g, w) && w.cache.fsm == Install && InInstall(g, w) && !w.inFlight.Some?
    ensures Good(g, Step(g, w, i))
  {
    hide Geometry.SetOf, Geometry.LineAddr, Geometry.TagOf, Geometry.Offset, Geometry.Compose, Geometry.Aligned, IsPow2;
    hide Step, Coherent, FullBehindVictims, Misaligned, Answer, Apply, LoadOf;
    StepKeepsFit(g, w, i);
    InstallEffect(g, w, i);
    var c, m, n, la, w' := w.cache, Held(g, w.cache), ReqSet(g, w.cache), ReqLine(g, w.cache), Step(g, w, i);
    g.ComposeSlices(c.req.addr);
    g.LineAddrIdempotent(c.req.addr);
    g.LineFits(c.req.addr);
    AbsentIsBacked(g, w, la);
    var e := Entry(true, !c.reqIsPrefetch && c.req.write, c.reqIsPrefetch, g.TagOf(c.req.addr), c.fillLine);
    EntryUpdate(g, c.l1, c.vc, c.selectedWay, n, e);
    if !c.reqIsPrefetch {
      DatapathIsArchitectural(g, c, w.flat);
    }
    KeepsWhenFilled(g, m, w.lower, w.flat, w'.flat, Way(g, c), CopyOfEntry(g, n, e));
    FullWhenFilled(g, m, Way(g, c), CopyOfEntry(g, n, e));
    assert Consistent(g, w');
    assert !c.reqIsPrefetch ==> Answered(w');
  }

  lemma RespGood(g: Geometry, w: World, i: Inputs)
    requires Consistent(g, w) && w.cache.fsm == Resp && Answered(w) && !w.inFlight.Some?
    ensures Good(g, Step(g, w, i))
  {
    hide FromIdle, FromLookup, FromHitWrite, FromVcSwap, FromVcInsert, FromMemReadWait, FromInstall;
    hide Geometry.SetOf, Geometry.LineAddr, Geometry.TagOf, Geometry.Offset, Geometry.Compose, Geometry.Aligned, IsPow2;
    hide Misaligned, Answer, Apply, LoadOf;
    StepKeepsFit(g, w, i);
    ArraysUntouched(g, w, Step(g, w, i));
  }

  lemma StepKeepsGood(g: Geometry, w: World, i: Inputs)
    requires Good(g, w)
    ensures Good(g, Step(g, w, i))
  {
    hide Geometry.SetOf, Geometry.LineAddr, Geometry.TagOf, Geometry.Offset, Geometry.Compose, Geometry.Aligned, IsPow2;
    hide Step, InLookup, InHitWrite, InVcSwap, InWbReq, InVcInsert, InMemRead, InMemReadWait, InInstall;
    match w.cache.fsm {
      case Idle => IdleGood(g, w, i);
      case Lookup =>
        if HitWay(g, w.cache, g.ways) >= 0 {
          LookupHitConsistent(g, w, i);
          LookupHitSettled(g, w, i);
        } else if VictimHit(g, w.cache, g.victims) >= 0 {
          LookupVictimSettled(g, w, i);
          LookupVictimConsistent(g, w, i);
        } else {
          LookupMissConsistent(g, w, i);
          LookupMissSettled(g, w, i);
        }
      case HitWrite => HitWriteGood(g, w, i);
      case VcSwap => VcSwapGood(g, w, i);
      case WbReq => WbReqGood(g, w, i);
      case VcInsert => VcInsertGood(g, w, i);
      case MemReadReq => MemReadReqGood(g, w, i);
      case MemReadWait =>
        if i.memRspValid {
          ReadReturnsGood(g, w, i);
        } else {
          ReadStalledGood(g, w, i);
        }
      case Install => InstallGood(g, w, i);
      case Resp => RespGood(g, w, i);
    }
  }
}
