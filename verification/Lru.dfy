/** With prefetching off, the outcomes of the demands are those of an LRU cache, whatever else happens. */
module Lru {
  import opened Geometries
  import opened LoadStore
  import opened CacheSpec
  import opened Coherence
  import opened Systems
  import opened Invariant
  import opened Preservation
  import opened Correctness
  import opened Accounting
  import opened Recency
  import opened Replacement

  /** The current demand is not yet reflected in the replacement state. */
  predicate Underway(f: Fsm) {
    f == Lookup || Missed(f)
  }

  /** The demands that the replacement state accounts for. */
  function Served(w: World): seq<nat> {
    if Underway(w.cache.fsm) && w.demands != [] then w.demands[..|w.demands| - 1] else w.demands
  }

  /** The request in progress is the latest demand. */
  ghost predicate Latest(g: Geometry, w: World)
    requires g.Positive()
  {
    Underway(w.cache.fsm) ==> w.demands != [] && w.demands[|w.demands| - 1] == ReqLine(g, w.cache)
  }

  /** Each looked-up demand hit in L1 exactly when LRU says so. */
  ghost predicate OutcomesAreLru(g: Geometry, w: World)
    requires g.Positive()
  {
    && |w.hits| <= |w.demands|
    && forall k :: 0 <= k < |w.hits| ==> w.hits[k] == LruHit(g, w.demands[..k], w.demands[k])
  }

  ghost predicate DemandsInOrder(g: Geometry, w: World)
    requires Fit(g, w)
  {
    InOrder(g, w, Served(w)) && Latest(g, w) && OutcomesAreLru(g, w)
  }

  /** What a demand-only step does to the history and to the replacement registers. */
  lemma StepHistory(g: Geometry, w: World, i: Inputs)
    requires Fit(g, w) && !w.cache.reqIsPrefetch
    ensures var w', c := Step(g, w, i), w.cache;
            && w'.demands == (if c.fsm == Idle && i.cpuValid && !Misaligned(i.cpu.addr, i.cpu.size)
                              then w.demands + [g.LineAddr(i.cpu.addr)] else w.demands)
            && w'.hits == (if c.fsm == Lookup then w.hits + [HitWay(g, c, g.ways) >= 0] else w.hits)
            && w'.demandReads == (if c.fsm == MemReadReq && i.memReady then w.demandReads + [ReqLine(g, c)]
                                  else w.demandReads)
  {
    hide Clock, Sized, Apply, Answer, Misaligned;
  }

  lemma ServedNow(w: World, x: nat)
    requires w.demands != [] && w.demands[|w.demands| - 1] == x
    ensures w.demands == w.demands[..|w.demands| - 1] + [x]
  {
  }

  lemma OutcomesExtend(g: Geometry, w: World, w': World)
    requires g.Positive() && OutcomesAreLru(g, w)
    requires w'.demands == w.demands || exists x: nat :: w'.demands == w.demands + [x]
    requires w'.hits == w.hits ||
             (|w.hits| < |w.demands| && w'.demands == w.demands
              && w'.hits == w.hits + [LruHit(g, w.demands[..|w.hits|], w.demands[|w.hits|])])
    ensures OutcomesAreLru(g, w')
  {
    hide LruHit;
    forall k | 0 <= k < |w.hits|
      ensures w'.demands[..k] == w.demands[..k] && w'.demands[k] == w.demands[k]
    {
    }
  }

  /** Serving the latest demand is using its line; nothing else is served. */
  lemma ServesUse(g: Geometry, w: World, w': World)
    requires Fit(g, w) && Latest(g, w) && w'.demands == w.demands && Underway(w.cache.fsm)
    requires Underway(w'.cache.fsm) <==> !Using(g, w.cache)
    ensures Served(w') == Served(w) + UsedNow(g, w.cache)
  {
    hide Sized, Using, Geometry.LineAddr;
    ServedNow(w, ReqLine(g, w.cache));
  }

  lemma LookupServes(g: Geometry, w: World, i: Inputs)
    requires Fit(g, w) && w.cache.fsm == Lookup && !w.cache.reqIsPrefetch && Latest(g, w)
    ensures Latest(g, Step(g, w, i)) && Served(Step(g, w, i)) == Served(w) + UsedNow(g, w.cache)
  {
    hide Step, Sized, HitWay, VictimHit, Served, Geometry.LineAddr;
    StepHistory(g, w, i);
    StepLookupStats(g, w, i);
    StepKeepsRequest(g, w, i);
    ServesUse(g, w, Step(g, w, i));
  }

  lemma StepKeepsRequest(g: Geometry, w: World, i: Inputs)
    requires Fit(g, w) && w.cache.fsm == Lookup
    ensures Step(g, w, i).cache.req == w.cache.req
  {
    hide Step, Driven, Sized, LoadOf, MergedLine, Snapshot, HitWay, VictimHit, InvalidWay;
    StepIsCore(g, w, i);
    DrivenFits(g, w, i);
  }

  lemma IdleServes(g: Geometry, w: World, i: Inputs)
    requires Fit(g, w) && w.cache.fsm == Idle && Latest(g, w)
    requires !w.cache.reqIsPrefetch && !Step(g, w, i).cache.reqIsPrefetch
    ensures Latest(g, Step(g, w, i)) && Served(Step(g, w, i)) == Served(w)
  {
    hide Step, Sized, Misaligned, Geometry.LineAddr;
    StepHistory(g, w, i);
    StepTargets(g, w, i);
    if i.cpuValid {
      CpuAcceptEffect(g, w, i);
      assert (w.demands + [g.LineAddr(i.cpu.addr)])[..|w.demands|] == w.demands;
    }
  }

  lemma OtherServes(g: Geometry, w: World, i: Inputs)
    requires Fit(g, w) && w.cache.fsm != Idle && w.cache.fsm != Lookup && !w.cache.reqIsPrefetch && Latest(g, w)
    ensures Latest(g, Step(g, w, i)) && Served(Step(g, w, i)) == Served(w) + UsedNow(g, w.cache)
  {
    hide Step, Sized, Geometry.LineAddr;
    StepHistory(g, w, i);
    StepTargets(g, w, i);
    if Underway(w.cache.fsm) {
      ServesUse(g, w, Step(g, w, i));
    }
  }

  /** Without prefetches the history of uses is the history of served demands. */
  lemma StepServes(g: Geometry, w: World, i: Inputs)
    requires Fit(g, w) && !w.cache.reqIsPrefetch && !Step(g, w, i).cache.reqIsPrefetch && Latest(g, w)
    ensures Latest(g, Step(g, w, i)) && Served(Step(g, w, i)) == Served(w) + UsedNow(g, w.cache)
  {
    hide Step, Sized, Latest, Served;
    match w.cache.fsm {
      case Idle =>
        IdleServes(g, w, i);
        assert Served(w) + [] == Served(w);
      case Lookup => LookupServes(g, w, i);
      case _ => OtherServes(g, w, i);
    }
  }

  lemma LookupOutcome(g: Geometry, w: World, i: Inputs)
    requires Fit(g, w) && w.cache.fsm == Lookup && Fresh(g, w.cache) && !w.cache.reqIsPrefetch
    requires DemandsInOrder(g, w) && TrafficLedger(w)
    ensures OutcomesAreLru(g, Step(g, w, i))
  {
    hide Step, SetInOrder, Recent, Kept;
    StepHistory(g, w, i);
    LookupIsLru(g, w, Served(w));
    g.LineAddrIdempotent(w.cache.req.addr);
    assert LruHit(g, Served(w), ReqLine(g, w.cache)) == (HitWay(g, w.cache, g.ways) >= 0);
    hide LruHit, Geometry.LineAddr, Geometry.SetOf;
    OutcomesExtend(g, w, Step(g, w, i));
  }

  lemma StepKeepsDemands(g: Geometry, w: World, i: Inputs)
    requires Good(g, w) && Fit(g, Step(g, w, i)) && TrafficLedger(w) && Fit(g, w) && DemandsInOrder(g, w)
    requires !w.cache.reqIsPrefetch && !Step(g, w, i).cache.reqIsPrefetch
    ensures DemandsInOrder(g, Step(g, w, i))
  {
    hide Step, Consistent, InOrder, TrafficLedger, Fresh, Owed, Served, Latest, LruHit, Sized, Misaligned;
    hide InHitWrite, InVcSwap, InWbReq, InVcInsert, InMemRead, InInstall, Geometry.LineAddr;
    StepServes(g, w, i);
    StepKeepsInOrder(g, w, i, Served(w));
    if w.cache.fsm == Lookup {
      LookupOutcome(g, w, i);
    } else {
      StepHistory(g, w, i);
      OutcomesExtend(g, w, Step(g, w, i));
    }
  }

  lemma BootServesNothing(g: Geometry, w: World, mem: Memory)
    requires Boot(g, w, mem)
    ensures DemandsInOrder(g, After(g, w, []))
  {
    hide InOrder;
    BootIsInOrder(g, w, mem);
  }

  lemma {:induction false} DemandsAreInOrder(g: Geometry, w: World, mem: Memory, run: seq<Inputs>)
    requires Boot(g, w, mem) && PrefetchOff(g, run)
    ensures DemandsInOrder(g, After(g, w, run))
  {
    hide IsReset, Good, Step, DemandsInOrder, PrefetchLedger, TrafficLedger, Sized;
    if run == [] {
      BootServesNothing(g, w, mem);
    } else {
      var k := |run| - 1;
      var before := After(g, w, run[..k]);
      DemandsAreInOrder(g, w, mem, run[..k]);
      LedgersHold(g, w, mem, run[..k]);
      LedgersHold(g, w, mem, run);
      StepKeepsDemands(g, before, run[k]);
    }
  }

  // ------------------------------------------------------------------------ main theorems

  /**
   With prefetching off a demand hits in L1 exactly when its line was demanded before and
   fewer than NUM_WAYS different lines of its set were demanded since.
   */
  lemma HitsAreExactLru(g: Geometry, w: World, mem: Memory, run: seq<Inputs>, k: nat)
    requires Boot(g, w, mem) && PrefetchOff(g, run) && k < |After(g, w, run).hits|
    ensures var e := After(g, w, run);
            && k < |e.demands|
            && (e.hits[k] <==>
                  e.demands[k] in e.demands[..k] && |SetLinesSince(g, e.demands[..k], e.demands[k])| < g.ways)
  {
    DemandsAreInOrder(g, w, mem, run);
    hide Boot, Step, InOrder, Latest, SetLinesSince;
    var e := After(g, w, run);
    LruHitIsStackDistance(g, e.demands[..k], e.demands[k]);
    hide LruHit;
  }

  /** The hit/miss sequence does not depend on the victim cache, the stalls or the data. */
  lemma HitsIgnoreVictimEntries(g1: Geometry, w1: World, mem1: Memory, run1: seq<Inputs>,
                                g2: Geometry, w2: World, mem2: Memory, run2: seq<Inputs>)
    requires Boot(g1, w1, mem1) && PrefetchOff(g1, run1) && Boot(g2, w2, mem2) && PrefetchOff(g2, run2)
    requires g1.lineBytes == g2.lineBytes && g1.sets == g2.sets && g1.ways == g2.ways
    requires After(g1, w1, run1).demands == After(g2, w2, run2).demands
    ensures var h1, h2 := After(g1, w1, run1).hits, After(g2, w2, run2).hits; h1 <= h2 || h2 <= h1
  {
    hide Boot, Fit, Step, After, PrefetchOff, SetLinesSince;
    BootFits(g1, w1, mem1);
    BootFits(g2, w2, mem2);
    var h1, h2, d := After(g1, w1, run1).hits, After(g2, w2, run2).hits, After(g1, w1, run1).demands;
    forall k | 0 <= k < |h1| && k < |h2|
      ensures h1[k] == h2[k]
    {
      HitsAreExactLru(g1, w1, mem1, run1, k);
      HitsAreExactLru(g2, w2, mem2, run2, k);
      SameSlicingSameSince(g1, g2, d[..k], d[k]);
    }
  }

  lemma BootFits(g: Geometry, w: World, mem: Memory)
    requires Boot(g, w, mem)
    ensures Fit(g, w) && g.Positive()
  {
  }

  lemma SameSlicingSameSince(g1: Geometry, g2: Geometry, h: seq<nat>, x: nat)
    requires g1.Positive() && g1.lineBytes == g2.lineBytes && g1.sets == g2.sets
    ensures SetLinesSince(g1, h, x) == SetLinesSince(g2, h, x)
  {
  }
}
