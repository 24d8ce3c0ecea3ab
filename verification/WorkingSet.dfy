/**
 A working set that fits: if, over all sets, the lines beyond NUM_WAYS are no more than the
 victim entries, then no line is ever lost, read twice or written back.
 */
module WorkingSet {
  import opened Counting
  import opened Geometries
  import opened LoadStore
  import opened CacheSpec
  import opened Coherence
  import opened Systems
  import opened Invariant
  import opened Preservation
  import opened Correctness
  import opened Accounting
  import opened Recency
  import opened Replacement
  import opened Lru

  // ------------------------------------------------------------------------ overflow

  /** The different lines of one set in a demand history. */
  ghost function LinesOfSet(g: Geometry, h: seq<nat>, si: nat): set<nat>
    requires g.Positive()
  {
    set y | y in h && g.SetOf(y) == si
  }

  ghost function Excess(g: Geometry, h: seq<nat>, si: nat): nat
    requires g.Positive()
  {
    var n := |LinesOfSet(g, h, si)|;
    if n > g.ways then n - g.ways else 0
  }

  /** Sum over the first n sets of max(0, different lines - NUM_WAYS). */
  ghost function ExcessBelow(g: Geometry, h: seq<nat>, n: nat): nat
    requires g.Positive()
  {
    if n == 0 then 0 else ExcessBelow(g, h, n - 1) + Excess(g, h, n - 1)
  }

  ghost function Overflow(g: Geometry, h: seq<nat>): nat
    requires g.Positive()
  {
    ExcessBelow(g, h, g.sets)
  }

  lemma LinesOfSetExtend(g: Geometry, h: seq<nat>, x: nat, si: nat)
    requires g.Positive()
    ensures LinesOfSet(g, h + [x], si) == LinesOfSet(g, h, si) + (if g.SetOf(x) == si then {x} else {})
  {
    hide Geometry.SetOf;
  }

  lemma RecentCountsLines(g: Geometry, h: seq<nat>, si: nat)
    requires g.Positive()
    ensures |Recent(g, h, si)| == |LinesOfSet(g, h, si)|
  {
    hide Geometry.SetOf;
    var st := Recent(g, h, si);
    RecentIsDistinct(g, h, si);
    DistinctCardinality(st);
    assert Elements(st) == LinesOfSet(g, h, si);
  }

  /** A demand overflows its set by one more line exactly when it is new and the set was full. */
  predicate Overflows(g: Geometry, h: seq<nat>, x: nat)
    requires g.Positive()
  {
    x !in h && |Recent(g, h, g.SetOf(x))| >= g.ways
  }

  lemma ExcessExtend(g: Geometry, h: seq<nat>, x: nat, si: nat)
    requires g.Positive()
    ensures Excess(g, h + [x], si) == Excess(g, h, si) + Bit(si == g.SetOf(x) && Overflows(g, h, x))
  {
    hide Recent, Geometry.SetOf;
    LinesOfSetExtend(g, h, x, si);
    if si == g.SetOf(x) {
      RecentCountsLines(g, h, si);
    }
  }

  lemma {:induction false} ExcessBelowExtend(g: Geometry, h: seq<nat>, x: nat, n: nat)
    requires g.Positive()
    ensures ExcessBelow(g, h + [x], n) == ExcessBelow(g, h, n) + Bit(g.SetOf(x) < n && Overflows(g, h, x))
  {
    hide Excess, Overflows, Geometry.SetOf;
    if n > 0 {
      ExcessBelowExtend(g, h, x, n - 1);
      ExcessExtend(g, h, x, n - 1);
    }
  }

  lemma OverflowExtend(g: Geometry, h: seq<nat>, x: nat)
    requires g.Positive()
    ensures Overflow(g, h + [x]) == Overflow(g, h) + Bit(Overflows(g, h, x))
  {
    ExcessBelowExtend(g, h, x, g.sets);
  }

  lemma {:induction false} NothingOverflows(g: Geometry, n: nat)
    requires g.Positive()
    ensures ExcessBelow(g, [], n) == 0
  {
    if n > 0 {
      NothingOverflows(g, n - 1);
      assert LinesOfSet(g, [], n - 1) == {};
    }
  }

  // ----------------------------------------------------------------------- invariant

  /** The lines held anywhere are exactly the served lines: none has been lost. */
  ghost predicate Resident(m: Copies, h: seq<nat>) {
    && (forall p :: p in m && m[p].valid ==> m[p].addr in h)
    && (forall y :: y in h ==> exists p :: Holds(m, p, y))
  }

  /** The first k victim entries are in use and `rr` points behind them. */
  ghost predicate Stacked(g: Geometry, m: Copies, rr: nat, k: nat) {
    && k <= g.victims
    && (forall j :: 0 <= j < g.victims ==> VC(j) in m && (m[VC(j)].valid <==> j < k))
    && rr == (if k == g.victims then 0 else k)
  }

  /** The demands whose displaced lines the victim cache already holds. */
  function Displaced(w: World): seq<nat> {
    if Hollow(w.cache.fsm) then w.demands else Served(w)
  }

  /** The lines whose read has been sent. */
  function Requested(w: World): seq<nat> {
    if w.cache.fsm == MemReadWait || w.cache.fsm == Install then w.demands else Served(w)
  }

  ghost predicate ReadOnce(fetched: seq<nat>, h: seq<nat>) {
    Distinct(fetched) && forall y :: y in fetched <==> y in h
  }

  ghost predicate Fits(g: Geometry, w: World)
    requires Fit(g, w)
  {
    var c, m := w.cache, Held(g, w.cache);
    && Resident(m, Served(w))
    && Stacked(g, m, c.vcRr, Overflow(g, Displaced(w)))
    && ReadOnce(w.demandReads, Requested(w))
    && c.fsm != WbReq && w.writes == 0
    && (c.fsm == VcInsert ==> Overflow(g, w.demands) == Overflow(g, Served(w)) + 1)
  }

  // --------------------------------------------------------------- lemmas on the copies

  lemma ResidentUpdate(m: Copies, h: seq<nat>, p: Slot, c: Copy)
    requires Resident(m, h) && p in m && m[p].valid && c.valid && c.addr == m[p].addr
    ensures Resident(m[p := c], h)
  {
    var m' := m[p := c];
    forall y | y in h
      ensures exists q :: Holds(m', q, y)
    {
      var q :| Holds(m, q, y);
      assert Holds(m', q, y);
    }
  }

  lemma ResidentFill(m: Copies, h: seq<nat>, p: Slot, c: Copy)
    requires Resident(m, h) && p in m && !m[p].valid && c.valid
    ensures Resident(m[p := c], h + [c.addr])
  {
    var m' := m[p := c];
    assert Holds(m', p, c.addr);
    forall y | y in h
      ensures exists q :: Holds(m', q, y)
    {
      var q :| Holds(m, q, y);
      assert Holds(m', q, y);
    }
  }

  lemma ResidentMove(m: Copies, h: seq<nat>, from: Slot, gone: Copy, to: Slot)
    requires Resident(m, h) && from in m && to in m && from != to
    requires m[from].valid && !gone.valid && !m[to].valid
    ensures Resident(m[from := gone][to := m[from]], h)
  {
    var m' := m[from := gone][to := m[from]];
    forall y | y in h
      ensures exists q :: Holds(m', q, y)
    {
      var q :| Holds(m, q, y);
      assert Holds(m', if q == from then to else q, y);
    }
  }

  lemma ResidentSwap(m: Copies, h: seq<nat>, up: Slot, copy: Copy, down: Slot)
    requires Resident(m, h) && up in m && down in m && up != down
    requires m[up].valid && m[down].valid && copy.valid && copy.addr == m[down].addr
    ensures Resident(m[up := copy][down := m[up]], h)
  {
    var m' := m[up := copy][down := m[up]];
    forall y | y in h
      ensures exists q :: Holds(m', q, y)
    {
      var q :| Holds(m, q, y);
      assert Holds(m', if q == up then down else if q == down then up else q, y);
    }
  }

  lemma ResidentAgain(m: Copies, h: seq<nat>, x: nat)
    requires Resident(m, h) && x in h
    ensures Resident(m, h + [x])
  {
  }

  lemma ReadOnceAgain(fetched: seq<nat>, h: seq<nat>, x: nat)
    requires ReadOnce(fetched, h)
    ensures x in h ==> ReadOnce(fetched, h + [x])
    ensures x !in h ==> ReadOnce(fetched + [x], h + [x])
  {
  }

  /** A line that is held nowhere has never been served. */
  lemma AbsentIsNew(m: Copies, h: seq<nat>, x: nat)
    requires Resident(m, h) && Absent(m, x)
    ensures x !in h
  {
  }

  // -------------------------------------------------------------------- preservation

  /** A step that changes neither arrays nor victim pointer nor any of the three histories. */
  lemma FitsStill(g: Geometry, w: World, w': World)
    requires Fit(g, w) && Fit(g, w') && Fits(g, w)
    requires w'.cache.l1 == w.cache.l1 && w'.cache.vc == w.cache.vc && w'.cache.vcRr == w.cache.vcRr
    requires Served(w') == Served(w) && Displaced(w') == Displaced(w)
    requires w'.demandReads == w.demandReads && w'.writes == w.writes
    requires Requested(w') == Requested(w)
    requires w'.cache.fsm != WbReq
    requires w'.cache.fsm == VcInsert ==> w.cache.fsm == VcInsert && w'.demands == w.demands
    ensures Fits(g, w')
  {
    hide Resident, Stacked, ReadOnce, Overflow;
  }

  lemma StepVcRr(g: Geometry, w: World, i: Inputs)
    requires Fit(g, w)
    ensures Step(g, w, i).cache.vcRr == NextPointer(g, w.cache)
    ensures Step(g, w, i).writes == w.writes + Bit(w.cache.fsm == WbReq && i.memReady)
  {
    hide Step, Sized, NextPointer;
    StepTraffic(g, w, i);
    StepPointer(g, w, i);
  }

  /** Idle, waiting and responding cycles. */
  lemma QuietFits(g: Geometry, w: World, i: Inputs)
    requires Fit(g, w) && Fit(g, Step(g, w, i)) && Fits(g, w) && Latest(g, w) && !w.cache.reqIsPrefetch
    requires w.cache.fsm in {Idle, MemReadWait, Resp} || (w.cache.fsm == MemReadReq && !i.memReady)
    requires !Step(g, w, i).cache.reqIsPrefetch
    ensures Fits(g, Step(g, w, i))
  {
    hide Step, Fits, Misaligned, Sized, Held, Geometry.LineAddr, Geometry.SetOf, Recent, Kept;
    var w' := Step(g, w, i);
    StepHistory(g, w, i);
    StepVcRr(g, w, i);
    StepTargets(g, w, i);
    StepKeepsArrays(g, w, i);
    if w'.demands != w.demands {
      assert w'.demands[..|w.demands|] == w.demands;
    }
    FitsStill(g, w, w');
  }

  /** The read of the demanded line has been sent. */
  lemma SentFits(g: Geometry, w: World, w': World)
    requires Fit(g, w) && Fit(g, w') && Fits(g, w)
    requires w.cache.fsm == MemReadReq && w'.cache.fsm == MemReadWait
    requires Held(g, w'.cache) == Held(g, w.cache) && w'.cache.vcRr == w.cache.vcRr
    requires w'.demands == w.demands && w'.writes == w.writes && ReadOnce(w'.demandReads, w.demands)
    ensures Fits(g, w')
  {
    hide Resident, Stacked, ReadOnce, Overflow, Held, Sized;
  }

  lemma ReadFits(g: Geometry, w: World, i: Inputs)
    requires Fit(g, w) && Fit(g, Step(g, w, i)) && Fits(g, w) && Latest(g, w) && !w.cache.reqIsPrefetch
    requires w.cache.fsm == MemReadReq && i.memReady && InMemRead(g, w)
    ensures Fits(g, Step(g, w, i))
  {
    hide Step, Misaligned, Sized, Geometry.LineAddr, Geometry.SetOf, Recent, Kept;
    hide Resident, Stacked, ReadOnce, Overflow, Owed, Absent;
    var c, w', x := w.cache, Step(g, w, i), ReqLine(g, w.cache);
    StepHistory(g, w, i);
    StepVcRr(g, w, i);
    StepTargets(g, w, i);
    StepKeepsArrays(g, w, i);
    assert Held(g, w'.cache) == Held(g, c);
    hide Held;
    ServedNow(w, x);
    AbsentIsNew(Held(g, c), Served(w), x);
    ReadOnceAgain(w.demandReads, Served(w), x);
    hide Fits, Latest, Served, InMemRead;
    SentFits(g, w, w');
  }

  /** Once the demand is served, the three histories agree. */
  lemma ServedFits(g: Geometry, w: World, h: seq<nat>)
    requires Fit(g, w) && w.cache.fsm in {HitWrite, Resp} && Served(w) == h && w.writes == 0
    requires Resident(Held(g, w.cache), h) && Stacked(g, Held(g, w.cache), w.cache.vcRr, Overflow(g, h))
    requires ReadOnce(w.demandReads, h)
    ensures Fits(g, w)
  {
    hide Resident, Stacked, ReadOnce, Overflow, Held, Sized;
  }

  lemma LookupHitFits(g: Geometry, w: World, i: Inputs)
    requires Fit(g, w) && Fit(g, Step(g, w, i)) && Fits(g, w) && Latest(g, w) && !w.cache.reqIsPrefetch
    requires w.cache.fsm == Lookup && Fresh(g, w.cache) && HitWay(g, w.cache, g.ways) >= 0
    ensures Fits(g, Step(g, w, i))
  {
    hide Step, Fresh, HitWay, Held, Resident, Stacked, ReadOnce, Overflow;
    hide Geometry.LineAddr, Geometry.SetOf, Recent, Kept;
    var c, w', x := w.cache, Step(g, w, i), ReqLine(g, w.cache);
    ServedNow(w, x);
    hide Latest;
    var up, copy := LookupHitShape(g, w, i);
    StepHistory(g, w, i);
    StepVcRr(g, w, i);
    hide Sized;
    assert Served(w') == Served(w) + [x];
    Rewritten(g, Held(g, c), Served(w), c.vcRr, Overflow(g, Served(w)), up, copy, x);
    ReadOnceAgain(w.demandReads, Served(w), x);
    OverflowExtend(g, Served(w), x);
    hide Fits;
    ServedFits(g, w', Served(w) + [x]);
  }

  /** Rewriting a copy of an already served line. */
  lemma Rewritten(g: Geometry, m: Copies, h: seq<nat>, rr: nat, k: nat, up: Slot, copy: Copy, x: nat)
    requires Resident(m, h) && Stacked(g, m, rr, k)
    requires Holds(m, up, x) && copy.valid && copy.addr == x
    ensures x in h && Resident(m[up := copy], h) && Resident(m[up := copy], h + [x]) && Stacked(g, m[up := copy], rr, k)
  {
    ResidentUpdate(m, h, up, copy);
    ResidentAgain(m[up := copy], h, x);
  }

  lemma LookupVictimFits(g: Geometry, w: World, i: Inputs)
    requires Consistent(g, w) && Fit(g, w) && Fit(g, Step(g, w, i)) && Fits(g, w) && !w.cache.reqIsPrefetch
    requires w.cache.fsm == Lookup && Latest(g, w)
    requires HitWay(g, w.cache, g.ways) < 0 && VictimHit(g, w.cache, g.victims) >= 0
    ensures Fits(g, Step(g, w, i))
  {
    hide Step, Consistent, Fits, LoadOf, MergedLine, Geometry.LineAddr, Geometry.SetOf, Recent, Kept;
    StepHistory(g, w, i);
    StepVcRr(g, w, i);
    VictimSetFull(g, w);
    LookupVictimEffect(g, w, i);
    FitsStill(g, w, Step(g, w, i));
  }

  /** A set with a free way has fewer lines than ways; a full one has at least as many. */
  lemma FullSetHasLines(g: Geometry, w: World)
    requires Fit(g, w) && AllInOrder(g, w, Served(w)) && w.cache.fsm == Lookup
    ensures |Recent(g, Served(w), ReqSet(g, w.cache))| >= g.ways <==> InvalidWay(g, w.cache, g.ways) < 0
  {
    hide Recent, Geometry.SetOf;
    var c, m, n := w.cache, Held(g, w.cache), ReqSet(g, w.cache);
    var st, r := Recent(g, Served(w), n), c.replacement[n];
    RequestedSet(g, w, Served(w));
    WaysOfSet(g, c);
    assert st == [] ==> Empty(m, n, 0);
    assert st != [] ==> Has(m, n, MruWay(g, r), st[0]);
  }

  /** What a complete miss means for the histories. */
  lemma MissIsNew(g: Geometry, w: World)
    requires Fit(g, w) && Fits(g, w) && DemandsInOrder(g, w) && w.cache.fsm == Lookup
    requires Absent(Held(g, w.cache), ReqLine(g, w.cache))
    ensures ReqLine(g, w.cache) !in Served(w)
    ensures Overflow(g, w.demands) == Overflow(g, Served(w)) + Bit(InvalidWay(g, w.cache, g.ways) < 0)
  {
    hide Absent, Resident, Stacked, ReadOnce, Overflow, AllInOrder, OutcomesAreLru, Held;
    hide Geometry.LineAddr, Geometry.SetOf, Recent, Kept;
    var c, x := w.cache, ReqLine(g, w.cache);
    g.LineAddrIdempotent(c.req.addr);
    ServedNow(w, x);
    AbsentIsNew(Held(g, c), Served(w), x);
    OverflowExtend(g, Served(w), x);
    FullSetHasLines(g, w);
  }

  lemma LookupMissFits(g: Geometry, w: World, i: Inputs)
    requires Fit(g, w) && Fit(g, Step(g, w, i)) && Fits(g, w) && DemandsInOrder(g, w) && !w.cache.reqIsPrefetch
    requires w.cache.fsm == Lookup && Absent(Held(g, w.cache), ReqLine(g, w.cache))
    requires HitWay(g, w.cache, g.ways) < 0 && VictimHit(g, w.cache, g.victims) < 0
    requires Overflow(g, w.demands) <= g.victims
    ensures Fits(g, Step(g, w, i))
  {
    hide Snapshot;
    hide Sized;
    hide Step, DemandsInOrder, Absent, Resident, Stacked, ReadOnce, Overflow, HitWay, VictimHit, InvalidWay;
    hide Geometry.LineAddr, Geometry.SetOf, Recent, Kept;
    var w' := Step(g, w, i);
    MissIsNew(g, w);
    StepHistory(g, w, i);
    StepVcRr(g, w, i);
    MissShape(g, w, i);
    VictimIsFree(g, w.cache, Overflow(g, Served(w)));
    LookupMissEffect(g, w, i);
    assert Displaced(w') == (if InvalidWay(g, w.cache, g.ways) < 0 then Served(w) else w.demands);
  }

  lemma VictimIsFree(g: Geometry, c: State, k: nat)
    requires Sized(g, c) && Stacked(g, Held(g, c), c.vcRr, k)
    ensures k < g.victims ==> !c.vc[c.vcRr].valid
  {
    assert VC(c.vcRr) in AllSlots(g);
  }

  lemma HitWriteFits(g: Geometry, w: World, i: Inputs)
    requires Fit(g, w) && Fit(g, Step(g, w, i)) && Fits(g, w) && w.cache.fsm == HitWrite && InHitWrite(g, w)
    ensures Fits(g, Step(g, w, i))
  {
    hide Sized;
    hide Step, InHitWrite, Geometry.LineAddr, Geometry.SetOf, Resident, Stacked, ReadOnce, Overflow, Held;
    var c, w' := w.cache, Step(g, w, i);
    var m, up := Held(g, c), Way(g, c);
    var copy := HitWriteShape(g, w, i);
    StepHistory(g, w, i);
    StepVcRr(g, w, i);
    Rewritten(g, m, Served(w), c.vcRr, Overflow(g, Served(w)), up, copy, copy.addr);
    hide Fits;
    ServedFits(g, w', Served(w));
  }

  lemma VcSwapFits(g: Geometry, w: World, i: Inputs)
    requires Fit(g, w) && Fit(g, Step(g, w, i)) && Fits(g, w) && w.cache.fsm == VcSwap && InVcSwap(g, w)
    requires Latest(g, w)
    ensures Fits(g, Step(g, w, i))
  {
    hide Step, Owed, Target, Resident, Stacked, ReadOnce, Overflow, Held;
    hide Geometry.LineAddr, Geometry.SetOf, Recent, Kept;
    var c, w', x := w.cache, Step(g, w, i), ReqLine(g, w.cache);
    var m, up, down := Held(g, c), Way(g, c), Victim(c);
    var copy := VcSwapShape(g, w, i);
    StepHistory(g, w, i);
    StepVcRr(g, w, i);
    hide Sized;
    ServedNow(w, x);
    assert Served(w') == Served(w) + [x];
    Swapped(g, m, Served(w), c.vcRr, Overflow(g, Served(w)), up, copy, down);
    ReadOnceAgain(w.demandReads, Served(w), x);
    OverflowExtend(g, Served(w), x);
    hide Fits;
    ServedFits(g, w', Served(w) + [x]);
  }

  lemma Swapped(g: Geometry, m: Copies, h: seq<nat>, rr: nat, k: nat, up: Slot, copy: Copy, down: Slot)
    requires Resident(m, h) && Stacked(g, m, rr, k) && up.L1? && down.VC? && up in m && down in m
    requires m[up].valid && m[down].valid && copy.valid && copy.addr == m[down].addr
    ensures var m' := m[up := copy][down := m[up]];
            copy.addr in h && Resident(m', h + [copy.addr]) && Stacked(g, m', rr, k)
  {
    ResidentSwap(m, h, up, copy, down);
    ResidentAgain(m[up := copy][down := m[up]], h, copy.addr);
    hide Resident;
  }

  lemma VcInsertFits(g: Geometry, w: World, i: Inputs)
    requires Fit(g, w) && Fit(g, Step(g, w, i)) && Fits(g, w) && w.cache.fsm == VcInsert && InVcInsert(g, w)
    requires !w.cache.reqIsPrefetch && Overflow(g, w.demands) <= g.victims
    ensures Fits(g, Step(g, w, i))
  {
    hide Sized;
    hide Step, Owed, LineAt, Geometry.LineAddr, Geometry.SetOf, Resident, Stacked, ReadOnce, Overflow, Held;
    var c, w' := w.cache, Step(g, w, i);
    var m, up, down := Held(g, c), Way(g, c), Victim(c);
    var gone := VcInsertShape(g, w, i);
    StepHistory(g, w, i);
    StepVcRr(g, w, i);
    Pushed(g, m, Served(w), c.vcRr, Overflow(g, Served(w)), up, gone, down);
  }

  lemma Pushed(g: Geometry, m: Copies, h: seq<nat>, rr: nat, k: nat, up: Slot, gone: Copy, down: Slot)
    requires Resident(m, h) && Stacked(g, m, rr, k) && k < g.victims && up.L1? && down == VC(rr) && up in m && down in m
    requires m[up].valid && !gone.valid
    ensures var m' := m[up := gone][down := m[up]];
            Resident(m', h) && Stacked(g, m', if rr == g.victims - 1 then 0 else rr + 1, k + 1)
  {
    ResidentMove(m, h, up, gone, down);
    hide Resident;
  }

  lemma InstallFits(g: Geometry, w: World, i: Inputs)
    requires Fit(g, w) && Fit(g, Step(g, w, i)) && Fits(g, w) && w.cache.fsm == Install && InInstall(g, w)
    requires Latest(g, w) && !w.cache.reqIsPrefetch
    ensures Fits(g, Step(g, w, i))
  {
    hide Sized;
    hide Step, InInstall, Geometry.LineAddr, Geometry.SetOf, Recent, Kept, Resident, Stacked, ReadOnce, Overflow, Held;
    var c, w', x := w.cache, Step(g, w, i), ReqLine(g, w.cache);
    var m, up := Held(g, c), Way(g, c);
    var copy := InstallShape(g, w, i);
    StepHistory(g, w, i);
    StepVcRr(g, w, i);
    ServedNow(w, x);
    Filled(g, m, Served(w), c.vcRr, Overflow(g, w.demands), up, copy);
    hide Fits;
    ServedFits(g, w', w.demands);
  }

  lemma Filled(g: Geometry, m: Copies, h: seq<nat>, rr: nat, k: nat, up: Slot, copy: Copy)
    requires Resident(m, h) && Stacked(g, m, rr, k) && up.L1? && up in m && !m[up].valid && copy.valid
    ensures Resident(m[up := copy], h + [copy.addr]) && Stacked(g, m[up := copy], rr, k)
  {
    ResidentFill(m, h, up, copy);
    hide Resident;
  }

  lemma StepKeepsFits(g: Geometry, w: World, i: Inputs)
    requires Good(g, w) && Fit(g, w) && Fit(g, Step(g, w, i)) && DemandsInOrder(g, w) && Fits(g, w)
    requires !w.cache.reqIsPrefetch && !Step(g, w, i).cache.reqIsPrefetch
    requires Overflow(g, w.demands) <= g.victims
    ensures Fits(g, Step(g, w, i))
  {
    hide Consistent, Step, Fits, InOrder, Latest, OutcomesAreLru, Overflow;
    hide InHitWrite, InVcSwap, InVcInsert, InMemRead, InMemReadWait, InInstall, Fresh, Owed;
    match w.cache.fsm {
      case Lookup =>
        if HitWay(g, w.cache, g.ways) >= 0 {
          LookupHitFits(g, w, i);
        } else if VictimHit(g, w.cache, g.victims) >= 0 {
          LookupVictimFits(g, w, i);
        } else {
          LookupMissConsistent(g, w, i);
          LookupMissFits(g, w, i);
        }
      case HitWrite => HitWriteFits(g, w, i);
      case VcSwap => VcSwapFits(g, w, i);
      case VcInsert => VcInsertFits(g, w, i);
      case MemReadReq =>
        if i.memReady {
          ReadFits(g, w, i);
        } else {
          QuietFits(g, w, i);
        }
      case Install => InstallFits(g, w, i);
      case WbReq => NeverWritesBack(g, w);
      case _ => QuietFits(g, w, i);
    }
  }

  lemma NeverWritesBack(g: Geometry, w: World)
    requires Fit(g, w) && Fits(g, w)
    ensures w.cache.fsm != WbReq
  {
  }

  lemma BootFitsAll(g: Geometry, w: World, mem: Memory)
    requires Boot(g, w, mem)
    ensures Fits(g, w)
  {
    NothingOverflows(g, g.sets);
    var m := Held(g, w.cache);
    assert forall p :: p in m ==> !m[p].valid;
    forall j | 0 <= j < g.victims
      ensures VC(j) in m
    {
      assert VC(j) in AllSlots(g);
    }
  }

  lemma {:induction false} DemandsGrow(g: Geometry, w: World, mem: Memory, run: seq<Inputs>)
    requires Boot(g, w, mem) && run != [] && PrefetchOff(g, run)
    ensures var before, e := After(g, w, run[..|run| - 1]), After(g, w, run);
            Overflow(g, before.demands) <= Overflow(g, e.demands)
  {
    var k := |run| - 1;
    var before, i := After(g, w, run[..k]), run[k];
    LedgersHold(g, w, mem, run[..k]);
    hide Boot, Step, Overflow, TrafficLedger, PrefetchLedger, Good, Geometry.LineAddr;
    StepHistory(g, before, i);
    OverflowExtend(g, before.demands, g.LineAddr(i.cpu.addr));
  }

  lemma {:induction false} RunFits(g: Geometry, w: World, mem: Memory, run: seq<Inputs>)
    requires Boot(g, w, mem) && PrefetchOff(g, run)
    requires Overflow(g, After(g, w, run).demands) <= g.victims
    ensures Fits(g, After(g, w, run))
  {
    if run == [] {
      BootFitsAll(g, w, mem);
    } else {
      var k := |run| - 1;
      var before := After(g, w, run[..k]);
      DemandsGrow(g, w, mem, run);
      RunFits(g, w, mem, run[..k]);
      LedgersHold(g, w, mem, run[..k]);
      LedgersHold(g, w, mem, run);
      DemandsAreInOrder(g, w, mem, run[..k]);
      hide Boot, Good, Step, DemandsInOrder, Fits, Overflow, PrefetchLedger, TrafficLedger;
      StepKeepsFits(g, before, run[k]);
    }
  }

  // --------------------------------------------------------------------- main theorem

  /**
   From reset with prefetching off, while the lines beyond NUM_WAYS, summed over the sets, fit
   the victim entries: nothing is ever written back, no line is read twice, and whenever the
   cache is idle it has read exactly the lines demanded so far.
   */
  lemma FittingWorkingSetIsReadOnce(g: Geometry, w: World, mem: Memory, run: seq<Inputs>)
    requires Boot(g, w, mem) && PrefetchOff(g, run)
    requires Overflow(g, After(g, w, run).demands) <= g.victims
    ensures var e := After(g, w, run);
            && e.writes == 0 && e.prefetchReads == 0
            && Distinct(e.demandReads)
            && (forall y :: y in e.demandReads ==> y in e.demands)
            && (e.cache.fsm == Idle ==> forall y :: y in e.demandReads <==> y in e.demands)
  {
    hide Boot, Good, Step, Overflow, Resident, Stacked, PrefetchLedger;
    RunFits(g, w, mem, run);
    LedgersHold(g, w, mem, run);
  }
}
