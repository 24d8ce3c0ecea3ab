/**
 The replacement_way registers implement exact LRU for one and two ways: whatever the prefetcher
 does, the L1 array holds the most recently used lines of each set. A line is used when a demand
 hits it in L1 and when it is brought into L1, by a demand or by a prefetch.
 */
module Replacement {
  import opened Arithmetic
  import opened Geometries
  import opened LoadStore
  import opened CacheSpec
  import opened Coherence
  import opened Systems
  import opened Invariant
  import opened Preservation
  import opened Correctness
  import opened Accounting
  import opened Recency

  // ------------------------------------------------------------- one set of the L1 array

  ghost predicate Has(m: Copies, si: nat, way: nat, la: nat) {
    Holds(m, L1(si, way), la)
  }

  ghost predicate Empty(m: Copies, si: nat, way: nat) {
    L1(si, way) in m && !m[L1(si, way)].valid
  }

  /** The way next to be replaced is `r`; the other one, if any, holds the most recent line. */
  function MruWay(g: Geometry, r: nat): nat {
    if g.ways == 1 then 0 else if r == 0 then 1 else 0
  }

  /** The set holds the most recent lines of `st`, and `r` is the least recent or an empty way. */
  ghost predicate Ordered(g: Geometry, m: Copies, r: nat, si: nat, st: seq<nat>) {
    && r < g.ways
    && (st == [] ==> forall w :: 0 <= w < g.ways ==> Empty(m, si, w))
    && (st != [] ==> Has(m, si, MruWay(g, r), st[0]))
    && (g.ways == 2 && st != [] ==> if |st| >= 2 then Has(m, si, r, st[1]) else Empty(m, si, r))
  }

  /** Way `sel` has been emptied for a line that the set does not hold. */
  ghost predicate Vacated(g: Geometry, m: Copies, sel: nat, si: nat, st: seq<nat>) {
    && sel < g.ways && Empty(m, si, sel)
    && (g.ways == 2 ==> if st == [] then Empty(m, si, 1 - sel) else Has(m, si, 1 - sel, st[0]))
  }

  ghost predicate SameSet(m: Copies, m': Copies, si: nat) {
    forall p :: p in m && p.L1? && p.si == si ==> p in m' && m'[p].valid == m[p].valid && m'[p].addr == m[p].addr
  }

  function Used(st: seq<nat>, x: nat): seq<nat> {
    [x] + Without(st, x)
  }

  lemma OrderedSame(g: Geometry, m: Copies, m': Copies, r: nat, si: nat, st: seq<nat>)
    requires (g.ways == 1 || g.ways == 2) && Ordered(g, m, r, si, st) && SameSet(m, m', si)
    ensures Ordered(g, m', r, si, st)
  {
    forall w | 0 <= w < g.ways && st == []
      ensures Empty(m', si, w)
    {
      assert Empty(m, si, w);
    }
  }

  /** A way that holds x is exactly an LRU hit on x. */
  lemma HitIsKept(g: Geometry, m: Copies, r: nat, si: nat, st: seq<nat>, x: nat)
    requires (g.ways == 1 || g.ways == 2) && Ordered(g, m, r, si, st)
    ensures (exists w :: 0 <= w < g.ways && Has(m, si, w, x)) <==> x in Kept(st, g.ways)
  {
    var top := Kept(st, g.ways);
    if x in top {
      var p :| 0 <= p < |top| && top[p] == x;
      assert Has(m, si, if p == 0 then MruWay(g, r) else r, x);
    }
    forall w | 0 <= w < g.ways && Has(m, si, w, x)
      ensures x in top
    {
      assert st != [] by {
        assert st == [] ==> Empty(m, si, w);
      }
      if w == MruWay(g, r) {
        assert top[0] == x;
      } else {
        assert w == r && |st| >= 2;
        assert top[1] == x;
      }
    }
  }

  lemma WithoutHead(st: seq<nat>, x: nat)
    requires Distinct(st) && st != []
    ensures x != st[0] ==> Without(st, x) != [] && Without(st, x)[0] == st[0]
    ensures x == st[0] ==> Without(st, x) == st[1..]
  {
    if x == st[0] {
      WithoutAbsent(st[1..], x);
    }
  }

  lemma OrderedAfterHit(g: Geometry, m: Copies, r: nat, si: nat, st: seq<nat>, way: nat, x: nat)
    requires (g.ways == 1 || g.ways == 2) && Ordered(g, m, r, si, st) && Distinct(st)
    requires way < g.ways && Has(m, si, way, x)
    ensures Ordered(g, m, (way + 1) % g.ways, si, Used(st, x))
  {
    assert st != [] by {
      assert st == [] ==> Empty(m, si, way);
    }
    WithoutHead(st, x);
  }

  lemma OrderedAfterFill(g: Geometry, m: Copies, sel: nat, si: nat, st: seq<nat>, x: nat, c: Copy)
    requires (g.ways == 1 || g.ways == 2) && Vacated(g, m, sel, si, st) && Distinct(st)
    requires x !in Kept(st, g.ways) && c.valid && c.addr == x
    ensures Ordered(g, m[L1(si, sel) := c], (sel + 1) % g.ways, si, Used(st, x))
  {
    var m', r := m[L1(si, sel) := c], (sel + 1) % g.ways;
    assert r == (if g.ways == 1 then 0 else 1 - sel) && MruWay(g, r) == sel;
    assert Has(m', si, sel, x) && Used(st, x)[0] == x;
    if st != [] {
      assert st[0] == Kept(st, g.ways)[0];
      WithoutHead(st, x);
      assert Used(st, x)[1] == st[0];
      assert g.ways == 2 ==> Has(m', si, r, st[0]);
    } else {
      assert Used(st, x) == [x];
      assert g.ways == 2 ==> Empty(m', si, r);
    }
  }

  lemma VacatedByEviction(g: Geometry, m: Copies, r: nat, si: nat, st: seq<nat>, gone: Copy)
    requires (g.ways == 1 || g.ways == 2) && Ordered(g, m, r, si, st)
    requires L1(si, r) in m && m[L1(si, r)].valid && !gone.valid
    ensures st != [] && Vacated(g, m[L1(si, r) := gone], r, si, st)
  {
    assert st == [] ==> Empty(m, si, r);
    assert st != [] ==> Has(m[L1(si, r) := gone], si, MruWay(g, r), st[0]) || g.ways == 1;
  }

  lemma VacatedWhenFree(g: Geometry, m: Copies, r: nat, si: nat, st: seq<nat>, free: nat)
    requires (g.ways == 1 || g.ways == 2) && Ordered(g, m, r, si, st)
    requires free < g.ways && Empty(m, si, free)
    requires forall w :: 0 <= w < free ==> L1(si, w) in m && m[L1(si, w)].valid
    ensures Vacated(g, m, free, si, st)
  {
  }

  // ------------------------------------------------------------------ the history of uses

  /** A refill or a swap is under way: L1 does not hold the requested line. */
  predicate Missed(f: Fsm) {
    f == VcSwap || Refilling(f) || f == MemReadWait || f == Install
  }

  /** A way of the requested set has been emptied and not been refilled. */
  predicate Hollow(f: Fsm) {
    f == MemReadReq || f == MemReadWait || f == Install
  }

  /** The coming clock edge uses the requested line. */
  predicate Using(g: Geometry, c: State)
    requires Sized(g, c)
  {
    (c.fsm == Lookup && !c.reqIsPrefetch && HitWay(g, c, g.ways) >= 0) || c.fsm == VcSwap || c.fsm == Install
  }

  function UsedNow(g: Geometry, c: State): seq<nat>
    requires Sized(g, c)
  {
    if Using(g, c) then [ReqLine(g, c)] else []
  }

  /** The lines used during a run, in order. */
  ghost function Uses(g: Geometry, w: World, run: seq<Inputs>): seq<nat>
    requires Fit(g, w)
  {
    if run == [] then []
    else
      var k := |run| - 1;
      Uses(g, w, run[..k]) + UsedNow(g, After(g, w, run[..k]).cache)
  }

  // ----------------------------------------------------------------- the whole machine

  ghost predicate SetInOrder(g: Geometry, w: World, h: seq<nat>, si: nat)
    requires Fit(g, w) && si < g.sets
  {
    var c, m, st := w.cache, Held(g, w.cache), Recent(g, h, si);
    if Hollow(c.fsm) && si == ReqSet(g, c) then Vacated(g, m, c.selectedWay, si, st)
    else Ordered(g, m, c.replacement[si], si, st)
  }

  ghost predicate AllInOrder(g: Geometry, w: World, h: seq<nat>)
    requires Fit(g, w)
  {
    forall si :: 0 <= si < g.sets ==> SetInOrder(g, w, h, si)
  }

  /** What is known about the request in progress. */
  ghost predicate RequestInOrder(g: Geometry, w: World, h: seq<nat>)
    requires Fit(g, w)
  {
    var c, n := w.cache, ReqSet(g, w.cache);
    && (Missed(c.fsm) ==> ReqLine(g, c) !in Kept(Recent(g, h, n), g.ways))
    && (c.fsm == VcSwap || c.fsm == WbReq || c.fsm == VcInsert ==> c.selectedWay == c.replacement[n])
  }

  ghost predicate InOrder(g: Geometry, w: World, h: seq<nat>)
    requires Fit(g, w)
  {
    AllInOrder(g, w, h) && RequestInOrder(g, w, h)
  }

  // ------------------------------------------------------------------ effect of one step

  lemma LookupReplacement(g: Geometry, s: State)
    requires Sized(g, s) && s.fsm == Lookup
    ensures FromLookup(g, s).replacement ==
              if Using(g, s) then s.replacement[ReqSet(g, s) := (HitWay(g, s, g.ways) + 1) % g.ways] else s.replacement
  {
    hide LoadOf, MergedLine, Snapshot, ReqSet, HitWay, VictimHit, InvalidWay;
  }

  lemma OtherReplacement(g: Geometry, s: State, i: Inputs)
    requires Sized(g, s) && InputsFit(g, s, i) && s.fsm != Lookup
    ensures Core(g, s, i).replacement ==
              if Using(g, s) then s.replacement[ReqSet(g, s) := (s.selectedWay + 1) % g.ways] else s.replacement
  {
    hide LoadOf, MergedLine, Launch, Misaligned, FromLookup;
  }

  /** The way whose line the coming edge uses. */
  function WayUsed(g: Geometry, c: State): int
    requires Sized(g, c)
  {
    if c.fsm == Lookup then HitWay(g, c, g.ways) else c.selectedWay
  }

  lemma StepReplacement(g: Geometry, w: World, i: Inputs)
    requires Fit(g, w)
    ensures var c, n := w.cache, ReqSet(g, w.cache);
            Step(g, w, i).cache.replacement ==
              if Using(g, c) then c.replacement[n := (WayUsed(g, c) + 1) % g.ways] else c.replacement
  {
    hide Step, Driven, Sized;
    StepIsCore(g, w, i);
    DrivenFits(g, w, i);
    if w.cache.fsm == Lookup {
      LookupReplacement(g, w.cache);
      hide FromLookup;
    } else {
      OtherReplacement(g, w.cache, Driven(w, i));
      hide Core;
    }
  }

  // ------------------------------------------------------------------------ preservation

  /** Sets that a step does not touch stay in order. */
  lemma OtherSetsCarryOver(g: Geometry, w: World, w': World, h: seq<nat>, h': seq<nat>, n: nat, x: nat)
    requires Fit(g, w) && Fit(g, w') && AllInOrder(g, w, h) && n < g.sets
    requires ReqSet(g, w.cache) == n || !Hollow(w.cache.fsm)
    requires ReqSet(g, w'.cache) == n || !Hollow(w'.cache.fsm)
    requires h' == h || (h' == h + [x] && g.SetOf(x) == n)
    requires forall si {:trigger SameSet(Held(g, w.cache), Held(g, w'.cache), si)} ::
               si != n ==> SameSet(Held(g, w.cache), Held(g, w'.cache), si)
    requires forall si :: 0 <= si < g.sets && si != n ==> w'.cache.replacement[si] == w.cache.replacement[si]
    ensures forall si :: 0 <= si < g.sets && si != n ==> SetInOrder(g, w', h', si)
  {
    hide Geometry.SetOf, Ordered, SameSet, Vacated, Recent;
    forall si | 0 <= si < g.sets && si != n
      ensures SetInOrder(g, w', h', si)
    {
      assert SetInOrder(g, w, h, si);
      RecentExtends(g, h, x, si);
      assert SameSet(Held(g, w.cache), Held(g, w'.cache), si);
      OrderedSame(g, Held(g, w.cache), Held(g, w'.cache), w.cache.replacement[si], si, Recent(g, h, si));
    }
  }

  /** A step that touches no L1 way and no replacement register. */
  lemma NothingTouched(g: Geometry, w: World, w': World, h: seq<nat>)
    requires Fit(g, w) && Fit(g, w') && AllInOrder(g, w, h)
    requires w'.cache.l1 == w.cache.l1 && w'.cache.vc == w.cache.vc && w'.cache.replacement == w.cache.replacement
    requires Hollow(w.cache.fsm) == Hollow(w'.cache.fsm)
    requires Hollow(w.cache.fsm) ==> w'.cache.req == w.cache.req && w'.cache.selectedWay == w.cache.selectedWay
    ensures AllInOrder(g, w', h)
  {
    hide Ordered, Vacated, Recent, Geometry.SetOf;
    forall si | 0 <= si < g.sets
      ensures SetInOrder(g, w', h, si)
    {
      assert SetInOrder(g, w, h, si);
    }
  }

  /** What being in order means for the requested set. */
  lemma RequestedSet(g: Geometry, w: World, h: seq<nat>)
    requires Fit(g, w) && AllInOrder(g, w, h)
    ensures var c, m := w.cache, Held(g, w.cache);
            var st := Recent(g, h, ReqSet(g, c));
            && Distinct(st)
            && if Hollow(c.fsm) then Vacated(g, m, c.selectedWay, ReqSet(g, c), st)
               else Ordered(g, m, c.replacement[ReqSet(g, c)], ReqSet(g, c), st)
  {
    hide Ordered, Vacated, Recent, Geometry.SetOf;
    assert SetInOrder(g, w, h, ReqSet(g, w.cache));
    RecentIsDistinct(g, h, ReqSet(g, w.cache));
  }

  /** Updating one way and one victim entry leaves the other sets the same. */
  lemma UpdatesAreLocal(m: Copies, up: Slot, c: Copy, v: Slot, d: Copy)
    requires up in m && v in m && up.L1? && v.VC?
    ensures forall si {:trigger SameSet(m, m[up := c], si)} :: si != up.si ==> SameSet(m, m[up := c], si)
    ensures forall si {:trigger SameSet(m, m[up := c][v := d], si)} ::
              si != up.si ==> SameSet(m, m[up := c][v := d], si)
    ensures forall si {:trigger SameSet(m[up := c], m[up := c][v := d], si)} ::
              SameSet(m[up := c], m[up := c][v := d], si)
  {
  }

  lemma SetsInOrder(g: Geometry, w: World, h: seq<nat>, n: nat)
    requires Fit(g, w) && n < g.sets && SetInOrder(g, w, h, n)
    requires forall si :: 0 <= si < g.sets && si != n ==> SetInOrder(g, w, h, si)
    ensures AllInOrder(g, w, h)
  {
    hide SetInOrder;
  }

  /** The touched set: after the use its order is that of the longer history. */
  lemma TouchedSet(g: Geometry, w': World, h: seq<nat>, n: nat, x: nat)
    requires Fit(g, w') && n < g.sets && g.SetOf(x) == n && !Hollow(w'.cache.fsm)
    requires Ordered(g, Held(g, w'.cache), w'.cache.replacement[n], n, Used(Recent(g, h, n), x))
    ensures SetInOrder(g, w', h + [x], n)
  {
    hide Ordered, Recent, Geometry.SetOf;
    RecentExtends(g, h, x, n);
  }

  /** A use: its own set is in order for the longer history, the others carry over. */
  lemma SetUsed(g: Geometry, w: World, w': World, h: seq<nat>, n: nat, x: nat)
    requires Fit(g, w) && Fit(g, w') && AllInOrder(g, w, h) && n == ReqSet(g, w.cache)
    requires g.SetOf(x) == n && !Hollow(w'.cache.fsm) && !Missed(w'.cache.fsm)
    requires forall si {:trigger SameSet(Held(g, w.cache), Held(g, w'.cache), si)} ::
               si != n ==> SameSet(Held(g, w.cache), Held(g, w'.cache), si)
    requires forall si :: 0 <= si < g.sets && si != n ==> w'.cache.replacement[si] == w.cache.replacement[si]
    requires Ordered(g, Held(g, w'.cache), w'.cache.replacement[n], n, Used(Recent(g, h, n), x))
    ensures InOrder(g, w', h + [x])
  {
    hide Ordered, Recent, SetInOrder, AllInOrder, SameSet, Held, Geometry.SetOf;
    TouchedSet(g, w', h, n, x);
    OtherSetsCarryOver(g, w, w', h, h + [x], n, x);
    SetsInOrder(g, w', h + [x], n);
  }

  /** The look-up agrees with LRU. */
  lemma LookupIsLru(g: Geometry, w: World, h: seq<nat>)
    requires Fit(g, w) && w.cache.fsm == Lookup && Fresh(g, w.cache) && AllInOrder(g, w, h)
    ensures HitWay(g, w.cache, g.ways) >= 0 <==>
            ReqLine(g, w.cache) in Kept(Recent(g, h, ReqSet(g, w.cache)), g.ways)
  {
    hide Ordered, Recent, Kept, Geometry.SetOf, Geometry.LineAddr;
    var c, m, n, x := w.cache, Held(g, w.cache), ReqSet(g, w.cache), ReqLine(g, w.cache);
    assert SetInOrder(g, w, h, n);
    HitIsKept(g, m, c.replacement[n], n, Recent(g, h, n), x);
    forall way | 0 <= way < g.ways
      ensures WayMatches(g, c, way) <==> Has(m, n, way, x)
    {
      MatchIsCopy(g, c, way);
    }
    var hit := HitWay(g, c, g.ways);
    if hit >= 0 {
      assert Has(m, n, hit, x);
    }
  }

  // The array update of each state as an update of the map of copies.

  lemma LookupHitShape(g: Geometry, w: World, i: Inputs) returns (up: Slot, copy: Copy)
    requires Fit(g, w) && Fit(g, Step(g, w, i)) && w.cache.fsm == Lookup && Fresh(g, w.cache)
    requires !w.cache.reqIsPrefetch && HitWay(g, w.cache, g.ways) >= 0
    ensures up == L1(ReqSet(g, w.cache), HitWay(g, w.cache, g.ways))
    ensures Holds(Held(g, w.cache), up, ReqLine(g, w.cache)) && copy == Held(g, w.cache)[up].(prefetched := false)
    ensures Held(g, Step(g, w, i).cache) == Held(g, w.cache)[up := copy]
    ensures VC(0) in Held(g, w.cache)
    ensures Step(g, w, i).cache.fsm == HitWrite || Step(g, w, i).cache.fsm == Resp
  {
    hide Step, LoadOf, MergedLine;
    hide Geometry.LineAddr, Geometry.SetOf, Geometry.Compose, Geometry.TagOf;
    var c, way, n := w.cache, HitWay(g, w.cache, g.ways), ReqSet(g, w.cache);
    var e := c.l1[way][n].(prefetched := false);
    up, copy := L1(n, way), CopyOfEntry(g, n, e);
    LookupHitEffect(g, w, i);
    EntryUpdate(g, c.l1, c.vc, way, n, e);
    MatchIsCopy(g, c, way);
    SlotsExist(g, c);
  }

  lemma HitWriteShape(g: Geometry, w: World, i: Inputs) returns (copy: Copy)
    requires Fit(g, w) && Fit(g, Step(g, w, i)) && w.cache.fsm == HitWrite && InHitWrite(g, w)
    ensures Way(g, w.cache) in Held(g, w.cache) && VC(0) in Held(g, w.cache) && !w.cache.reqIsPrefetch
    ensures copy.valid && Held(g, w.cache)[Way(g, w.cache)].valid
    ensures copy.addr == Held(g, w.cache)[Way(g, w.cache)].addr && Step(g, w, i).cache.fsm == Resp
    ensures Held(g, Step(g, w, i).cache) == Held(g, w.cache)[Way(g, w.cache) := copy]
  {
    hide Step, Owed, Target;
    hide Geometry.LineAddr, Geometry.SetOf, Geometry.Compose, Geometry.TagOf;
    var c, n := w.cache, ReqSet(g, w.cache);
    var e := Entry(c.l1[c.selectedWay][n].valid, true, false, g.TagOf(c.req.addr), c.workingLine);
    copy := CopyOfEntry(g, n, e);
    HitWriteEffect(g, w, i);
    g.ComposeSlices(c.req.addr);
    EntryUpdate(g, c.l1, c.vc, c.selectedWay, n, e);
    SlotsExist(g, c);
  }

  lemma VcSwapShape(g: Geometry, w: World, i: Inputs) returns (copy: Copy)
    requires Fit(g, w) && Fit(g, Step(g, w, i)) && w.cache.fsm == VcSwap && InVcSwap(g, w)
    ensures Way(g, w.cache) in Held(g, w.cache) && Victim(w.cache) in Held(g, w.cache)
    ensures Held(g, w.cache)[Way(g, w.cache)].valid && Step(g, w, i).cache.fsm == Resp && !w.cache.reqIsPrefetch
    ensures w.cache.evicted == Held(g, w.cache)[Way(g, w.cache)]
    ensures copy.valid && copy.addr == ReqLine(g, w.cache)
    ensures Held(g, Step(g, w, i).cache)
         == Held(g, w.cache)[Way(g, w.cache) := copy][Victim(w.cache) := w.cache.evicted]
  {
    hide Step, Owed, Target;
    hide Geometry.LineAddr, Geometry.SetOf, Geometry.Compose, Geometry.TagOf;
    var c, n := w.cache, ReqSet(g, w.cache);
    var e := Entry(true, c.workingDirty, false, g.TagOf(c.req.addr), c.workingLine);
    copy := CopyOfEntry(g, n, e);
    VcSwapEffect(g, w, i);
    g.ComposeSlices(c.req.addr);
    EntryUpdate(g, c.l1, c.vc, c.selectedWay, n, e);
    VictimUpdate(g, c.l1[c.selectedWay := c.l1[c.selectedWay][n := e]], c.vc, c.selectedVc, c.evicted);
  }

  lemma VcInsertShape(g: Geometry, w: World, i: Inputs) returns (gone: Copy)
    requires Fit(g, w) && Fit(g, Step(g, w, i)) && w.cache.fsm == VcInsert && InVcInsert(g, w)
    ensures Way(g, w.cache) in Held(g, w.cache) && Victim(w.cache) in Held(g, w.cache)
    ensures Held(g, w.cache)[Way(g, w.cache)].valid && !gone.valid
    ensures w.cache.evicted == Held(g, w.cache)[Way(g, w.cache)]
    ensures Step(g, w, i).cache.fsm == MemReadReq && Step(g, w, i).cache.selectedWay == w.cache.selectedWay
    ensures Step(g, w, i).cache.req == w.cache.req
    ensures Held(g, Step(g, w, i).cache)
         == Held(g, w.cache)[Way(g, w.cache) := gone][Victim(w.cache) := w.cache.evicted]
  {
    hide Step, Owed, LineAt;
    hide Geometry.LineAddr, Geometry.SetOf, Geometry.Compose, Geometry.TagOf;
    var c, n := w.cache, ReqSet(g, w.cache);
    var e := c.l1[c.selectedWay][n].(valid := false, dirty := false, prefetched := false);
    gone := CopyOfEntry(g, n, e);
    VcInsertEffect(g, w, i);
    EntryUpdate(g, c.l1, c.vc, c.selectedWay, n, e);
    VictimUpdate(g, c.l1[c.selectedWay := c.l1[c.selectedWay][n := e]], c.vc, c.selectedVc, c.evicted);
  }

  lemma InstallShape(g: Geometry, w: World, i: Inputs) returns (copy: Copy)
    requires Fit(g, w) && Fit(g, Step(g, w, i)) && w.cache.fsm == Install && InInstall(g, w)
    ensures Way(g, w.cache) in Held(g, w.cache) && !Held(g, w.cache)[Way(g, w.cache)].valid
    ensures copy.valid && copy.addr == ReqLine(g, w.cache)
    ensures Step(g, w, i).cache.fsm == (if w.cache.reqIsPrefetch then Idle else Resp)
    ensures Held(g, Step(g, w, i).cache) == Held(g, w.cache)[Way(g, w.cache) := copy] && VC(0) in Held(g, w.cache)
  {
    hide Step, Owed, Target;
    hide Geometry.LineAddr, Geometry.SetOf, Geometry.Compose, Geometry.TagOf;
    var c, n := w.cache, ReqSet(g, w.cache);
    var e := Entry(true, !c.reqIsPrefetch && c.req.write, c.reqIsPrefetch, g.TagOf(c.req.addr), c.fillLine);
    copy := CopyOfEntry(g, n, e);
    InstallEffect(g, w, i);
    g.ComposeSlices(c.req.addr);
    EntryUpdate(g, c.l1, c.vc, c.selectedWay, n, e);
    SlotsExist(g, c);
  }

  lemma SlotsExist(g: Geometry, c: State)
    requires Sized(g, c)
    ensures VC(0) in Held(g, c) && VC(c.selectedVc) in Held(g, c) && Way(g, c) in Held(g, c)
  {
    assert VC(0) in AllSlots(g) && VC(c.selectedVc) in AllSlots(g) && Way(g, c) in AllSlots(g);
  }

  lemma TouchedSame(m: Copies, up: Slot, c: Copy)
    requires up in m && up.L1? && c.valid == m[up].valid && c.addr == m[up].addr
    ensures SameSet(m, m[up := c], up.si)
  {
  }

  lemma WaysOfSet(g: Geometry, c: State)
    requires Sized(g, c)
    ensures var m, n, free := Held(g, c), ReqSet(g, c), InvalidWay(g, c, g.ways);
            && (free >= 0 ==> Empty(m, n, free))
            && forall w :: 0 <= w < g.ways && (free < 0 || w < free) ==> L1(n, w) in m && m[L1(n, w)].valid
  {
    var n := ReqSet(g, c);
    forall w | 0 <= w < g.ways
      ensures L1(n, w) in Held(g, c) && Held(g, c)[L1(n, w)].valid == c.l1[w][n].valid
    {
      assert L1(n, w) in AllSlots(g);
    }
  }

  /** A victim hit of a demand touches no array and no replacement register. */
  lemma VictimShape(g: Geometry, w: World, i: Inputs)
    requires Consistent(g, w) && Fit(g, w) && w.cache.fsm == Lookup && !w.cache.reqIsPrefetch
    requires HitWay(g, w.cache, g.ways) < 0 && VictimHit(g, w.cache, g.victims) >= 0
    ensures var c', c := Step(g, w, i).cache, w.cache;
            && c'.req == c.req && c'.l1 == c.l1 && c'.vc == c.vc && c'.replacement == c.replacement
            && c'.fsm == VcSwap && c'.selectedWay == c.replacement[ReqSet(g, c)]
  {
    hide Step, Consistent, Sized, HitWay, VictimHit, InvalidWay, Snapshot, Geometry.LineAddr, Geometry.SetOf;
    StepReplacement(g, w, i);
    VictimSetFull(g, w);
    LookupVictimEffect(g, w, i);
  }

  /** A complete miss touches no array and no replacement register. */
  lemma MissShape(g: Geometry, w: World, i: Inputs)
    requires Fit(g, w) && w.cache.fsm == Lookup
    requires HitWay(g, w.cache, g.ways) < 0 && VictimHit(g, w.cache, g.victims) < 0
    ensures var c', c, free := Step(g, w, i).cache, w.cache, InvalidWay(g, w.cache, g.ways);
            && c'.req == c.req && c'.l1 == c.l1 && c'.vc == c.vc && c'.replacement == c.replacement
            && (free >= 0 ==> c'.fsm == MemReadReq && c'.selectedWay == free)
            && (free < 0 ==> c'.fsm in {WbReq, VcInsert} && c'.selectedWay == c.replacement[ReqSet(g, c)])
  {
    hide Step, Sized, HitWay, VictimHit, InvalidWay, Snapshot, Geometry.LineAddr, Geometry.SetOf;
    StepReplacement(g, w, i);
    LookupMissEffect(g, w, i);
  }

  /** A prefetch of a line that is held somewhere leaves no trace. */
  lemma HeldPrefetchShape(g: Geometry, w: World, i: Inputs)
    requires Consistent(g, w) && Fit(g, w) && w.cache.fsm == Lookup && w.cache.reqIsPrefetch
    requires HitWay(g, w.cache, g.ways) >= 0 || VictimHit(g, w.cache, g.victims) >= 0
    ensures var c', c := Step(g, w, i).cache, w.cache;
            c'.fsm == Idle && c'.l1 == c.l1 && c'.vc == c.vc && c'.replacement == c.replacement
  {
    hide Step, Consistent, Sized, HitWay, VictimHit, InvalidWay, Snapshot, Geometry.LineAddr, Geometry.SetOf;
    StepReplacement(g, w, i);
    if HitWay(g, w.cache, g.ways) >= 0 {
      LookupHitEffect(g, w, i);
    } else {
      VictimSetFull(g, w);
      LookupVictimEffect(g, w, i);
    }
  }

  lemma HeldPrefetchInOrder(g: Geometry, w: World, i: Inputs, h: seq<nat>)
    requires Consistent(g, w) && Fit(g, w) && Fit(g, Step(g, w, i)) && w.cache.fsm == Lookup && w.cache.reqIsPrefetch
    requires HitWay(g, w.cache, g.ways) >= 0 || VictimHit(g, w.cache, g.victims) >= 0
    requires InOrder(g, w, h)
    ensures InOrder(g, Step(g, w, i), h)
  {
    hide Step, Consistent, AllInOrder, HitWay, VictimHit, Held, Sized, Kept, Recent, Geometry.LineAddr, Geometry.SetOf;
    HeldPrefetchShape(g, w, i);
    NothingTouched(g, w, Step(g, w, i), h);
  }

  lemma LookupHitInOrder(g: Geometry, w: World, i: Inputs, h: seq<nat>)
    requires Fit(g, w) && Fit(g, Step(g, w, i)) && w.cache.fsm == Lookup && Fresh(g, w.cache)
    requires InOrder(g, w, h) && !w.cache.reqIsPrefetch && HitWay(g, w.cache, g.ways) >= 0
    ensures InOrder(g, Step(g, w, i), h + [ReqLine(g, w.cache)])
  {
    hide Step, InOrder, SetInOrder, AllInOrder, SameSet, Kept, Recent, Used, Ordered, Vacated, Fresh, Held;
    hide Geometry.LineAddr, Geometry.SetOf, Geometry.Compose, Geometry.TagOf;
    var c, w', way, n, x := w.cache, Step(g, w, i), HitWay(g, w.cache, g.ways), ReqSet(g, w.cache), ReqLine(g, w.cache);
    var m := Held(g, c);
    var up, copy := LookupHitShape(g, w, i);
    StepReplacement(g, w, i);
    g.LineAddrIdempotent(c.req.addr);
    InOrderSets(g, w, h);
    UpdatesAreLocal(m, up, copy, VC(0), m[VC(0)]);
    TouchedSame(m, up, copy);
    RequestedSet(g, w, h);
    var st := Recent(g, h, n);
    OrderedAfterHit(g, m, c.replacement[n], n, st, way, x);
    OrderedSame(g, m, m[up := copy], w'.cache.replacement[n], n, Used(st, x));
    SetUsed(g, w, w', h, n, x);
  }

  lemma InOrderSets(g: Geometry, w: World, h: seq<nat>)
    requires Fit(g, w) && InOrder(g, w, h)
    ensures AllInOrder(g, w, h) && RequestInOrder(g, w, h)
  {
  }

  lemma LookupVictimInOrder(g: Geometry, w: World, i: Inputs, h: seq<nat>)
    requires Consistent(g, w) && Fit(g, w) && Fit(g, Step(g, w, i)) && w.cache.fsm == Lookup && Fresh(g, w.cache)
    requires InOrder(g, w, h) && !w.cache.reqIsPrefetch
    requires HitWay(g, w.cache, g.ways) < 0 && VictimHit(g, w.cache, g.victims) >= 0
    ensures InOrder(g, Step(g, w, i), h)
  {
    hide Step, Consistent, AllInOrder, Fresh, Kept, Recent, HitWay, VictimHit, InvalidWay, Held, Sized;
    hide Geometry.LineAddr, Geometry.SetOf;
    LookupIsLru(g, w, h);
    VictimShape(g, w, i);
    NothingTouched(g, w, Step(g, w, i), h);
  }

  /** The missed request is the one in progress, and LRU does not hold its line. */
  lemma MissedRequest(g: Geometry, w: World, i: Inputs, h: seq<nat>)
    requires Fit(g, w) && Fit(g, Step(g, w, i)) && w.cache.fsm == Lookup && Fresh(g, w.cache) && AllInOrder(g, w, h)
    requires HitWay(g, w.cache, g.ways) < 0 && VictimHit(g, w.cache, g.victims) < 0
    ensures RequestInOrder(g, Step(g, w, i), h)
  {
    hide Step, AllInOrder, Fresh, Kept, Recent, HitWay, VictimHit, InvalidWay, Geometry.LineAddr, Geometry.SetOf;
    LookupIsLru(g, w, h);
    MissShape(g, w, i);
  }

  lemma MissIntoFreeWay(g: Geometry, w: World, i: Inputs, h: seq<nat>)
    requires Fit(g, w) && Fit(g, Step(g, w, i)) && w.cache.fsm == Lookup && AllInOrder(g, w, h)
    requires HitWay(g, w.cache, g.ways) < 0 && VictimHit(g, w.cache, g.victims) < 0
    requires InvalidWay(g, w.cache, g.ways) >= 0
    ensures AllInOrder(g, Step(g, w, i), h)
  {
    hide Step, SetInOrder, AllInOrder, Recent, Ordered, Vacated, HitWay, VictimHit, InvalidWay;
    hide Geometry.LineAddr, Geometry.SetOf;
    var w', c, n, free := Step(g, w, i), w.cache, ReqSet(g, w.cache), InvalidWay(g, w.cache, g.ways);
    MissShape(g, w, i);
    RequestedSet(g, w, h);
    WaysOfSet(g, c);
    VacatedWhenFree(g, Held(g, c), c.replacement[n], n, Recent(g, h, n), free);
    VacatedSet(g, w', h, n);
    OtherSetsCarryOver(g, w, w', h, h, n, ReqLine(g, c));
    SetsInOrder(g, w', h, n);
  }

  lemma LookupMissInOrder(g: Geometry, w: World, i: Inputs, h: seq<nat>)
    requires Fit(g, w) && Fit(g, Step(g, w, i)) && w.cache.fsm == Lookup && Fresh(g, w.cache) && InOrder(g, w, h)
    requires HitWay(g, w.cache, g.ways) < 0 && VictimHit(g, w.cache, g.victims) < 0
    ensures InOrder(g, Step(g, w, i), h)
  {
    hide Step, AllInOrder, RequestInOrder, Fresh, HitWay, VictimHit, InvalidWay, Held, Sized, ReqSet, ReqLine;
    MissedRequest(g, w, i, h);
    if InvalidWay(g, w.cache, g.ways) >= 0 {
      MissIntoFreeWay(g, w, i, h);
    } else {
      MissShape(g, w, i);
      NothingTouched(g, w, Step(g, w, i), h);
    }
  }

  lemma VacatedSet(g: Geometry, w: World, h: seq<nat>, n: nat)
    requires Fit(g, w) && Hollow(w.cache.fsm) && n == ReqSet(g, w.cache)
    requires Vacated(g, Held(g, w.cache), w.cache.selectedWay, n, Recent(g, h, n))
    ensures SetInOrder(g, w, h, n)
  {
    hide Vacated, Recent;
  }

  lemma OrderedSet(g: Geometry, w: World, h: seq<nat>, n: nat)
    requires Fit(g, w) && !Hollow(w.cache.fsm) && n < g.sets
    requires Ordered(g, Held(g, w.cache), w.cache.replacement[n], n, Recent(g, h, n))
    ensures SetInOrder(g, w, h, n)
  {
    hide Ordered, Recent;
  }

  lemma HitWriteInOrder(g: Geometry, w: World, i: Inputs, h: seq<nat>)
    requires Fit(g, w) && Fit(g, Step(g, w, i)) && w.cache.fsm == HitWrite && InHitWrite(g, w) && InOrder(g, w, h)
    ensures InOrder(g, Step(g, w, i), h)
  {
    hide Step, SetInOrder, SameSet, Kept, Recent, Ordered, Vacated, Held;
    hide Geometry.LineAddr, Geometry.SetOf, Geometry.Compose, Geometry.TagOf;
    hide InHitWrite;
    var c, w', n := w.cache, Step(g, w, i), ReqSet(g, w.cache);
    var m, up := Held(g, c), Way(g, c);
    var copy := HitWriteShape(g, w, i);
    StepReplacement(g, w, i);
    UpdatesAreLocal(m, up, copy, VC(0), m[VC(0)]);
    TouchedSame(m, up, copy);
    RequestedSet(g, w, h);
    OrderedSame(g, m, m[up := copy], c.replacement[n], n, Recent(g, h, n));
    OrderedSet(g, w', h, n);
    OtherSetsCarryOver(g, w, w', h, h, n, ReqLine(g, c));
    SetsInOrder(g, w', h, n);
  }

  /** Replacing the least recent line of a full set by x, which the set does not hold. */
  lemma OrderedAfterReplacement(g: Geometry, m: Copies, r: nat, si: nat, st: seq<nat>, x: nat, c: Copy)
    requires (g.ways == 1 || g.ways == 2) && Ordered(g, m, r, si, st) && Distinct(st)
    requires L1(si, r) in m && m[L1(si, r)].valid && x !in Kept(st, g.ways) && c.valid && c.addr == x
    ensures Ordered(g, m[L1(si, r) := c], (r + 1) % g.ways, si, Used(st, x))
  {
    hide Ordered, Vacated, Kept;
    var up, gone := L1(si, r), c.(valid := false);
    VacatedByEviction(g, m, r, si, st, gone);
    OrderedAfterFill(g, m[up := gone], r, si, st, x, c);
    assert m[up := gone][up := c] == m[up := c];
  }

  /** The same when the victim entry takes the replaced copy. */
  lemma OrderedAfterSwap(g: Geometry, m: Copies, r: nat, si: nat, st: seq<nat>, x: nat, c: Copy, v: Slot, d: Copy)
    requires (g.ways == 1 || g.ways == 2) && Ordered(g, m, r, si, st) && Distinct(st) && v in m && v.VC?
    requires L1(si, r) in m && m[L1(si, r)].valid && x !in Kept(st, g.ways) && c.valid && c.addr == x
    ensures Ordered(g, m[L1(si, r) := c][v := d], (r + 1) % g.ways, si, Used(st, x))
  {
    hide Ordered, Kept, Used, Distinct, SameSet;
    OrderedAfterReplacement(g, m, r, si, st, x, c);
    UpdatesAreLocal(m, L1(si, r), c, v, d);
    OrderedSame(g, m[L1(si, r) := c], m[L1(si, r) := c][v := d], (r + 1) % g.ways, si, Used(st, x));
  }

  lemma VcSwapInOrder(g: Geometry, w: World, i: Inputs, h: seq<nat>)
    requires Fit(g, w) && Fit(g, Step(g, w, i)) && w.cache.fsm == VcSwap && InVcSwap(g, w) && InOrder(g, w, h)
    ensures InOrder(g, Step(g, w, i), h + [ReqLine(g, w.cache)])
  {
    hide Step, SetInOrder, SameSet, Kept, Recent, Used, Ordered, Vacated, Held, InVcSwap;
    hide AllInOrder, Geometry.LineAddr, Geometry.SetOf;
    var c, w', n, x := w.cache, Step(g, w, i), ReqSet(g, w.cache), ReqLine(g, w.cache);
    var m, up := Held(g, c), Way(g, c);
    var copy := VcSwapShape(g, w, i);
    StepReplacement(g, w, i);
    g.LineAddrIdempotent(c.req.addr);
    UpdatesAreLocal(m, up, copy, Victim(c), c.evicted);
    RequestedSet(g, w, h);
    OrderedAfterSwap(g, m, c.selectedWay, n, Recent(g, h, n), x, copy, Victim(c), c.evicted);
    SetUsed(g, w, w', h, n, x);
  }

  lemma VcInsertInOrder(g: Geometry, w: World, i: Inputs, h: seq<nat>)
    requires Fit(g, w) && Fit(g, Step(g, w, i)) && w.cache.fsm == VcInsert && InVcInsert(g, w) && InOrder(g, w, h)
    ensures InOrder(g, Step(g, w, i), h)
  {
    hide Step, SetInOrder, SameSet, Kept, Recent, Ordered, Vacated, Held;
    hide Geometry.LineAddr, Geometry.SetOf, Geometry.Compose, Geometry.TagOf;
    hide InVcInsert;
    var c, w', n := w.cache, Step(g, w, i), ReqSet(g, w.cache);
    var m, up := Held(g, c), Way(g, c);
    var gone := VcInsertShape(g, w, i);
    StepReplacement(g, w, i);
    UpdatesAreLocal(m, up, gone, Victim(c), c.evicted);
    RequestedSet(g, w, h);
    var st := Recent(g, h, n);
    VacatedByEviction(g, m, c.selectedWay, n, st, gone);
    VacatedSame(g, m[up := gone], Held(g, w'.cache), c.selectedWay, n, st);
    VacatedSet(g, w', h, n);
    OtherSetsCarryOver(g, w, w', h, h, n, ReqLine(g, c));
    SetsInOrder(g, w', h, n);
  }

  lemma VacatedSame(g: Geometry, m: Copies, m': Copies, sel: nat, si: nat, st: seq<nat>)
    requires (g.ways == 1 || g.ways == 2) && Vacated(g, m, sel, si, st) && SameSet(m, m', si)
    ensures Vacated(g, m', sel, si, st)
  {
  }

  lemma InstallInOrder(g: Geometry, w: World, i: Inputs, h: seq<nat>)
    requires Fit(g, w) && Fit(g, Step(g, w, i)) && w.cache.fsm == Install && InInstall(g, w) && InOrder(g, w, h)
    ensures InOrder(g, Step(g, w, i), h + [ReqLine(g, w.cache)])
  {
    hide Step, SetInOrder, SameSet, Kept, Recent, Used, Ordered, Vacated, Held, InInstall;
    hide AllInOrder, Geometry.LineAddr, Geometry.SetOf;
    var c, w', n, x := w.cache, Step(g, w, i), ReqSet(g, w.cache), ReqLine(g, w.cache);
    var m, up := Held(g, c), Way(g, c);
    var copy := InstallShape(g, w, i);
    StepReplacement(g, w, i);
    g.LineAddrIdempotent(c.req.addr);
    UpdatesAreLocal(m, up, copy, VC(0), m[VC(0)]);
    RequestedSet(g, w, h);
    OrderedAfterFill(g, m, c.selectedWay, n, Recent(g, h, n), x, copy);
    SetUsed(g, w, w', h, n, x);
  }

  lemma QuietInOrder(g: Geometry, w: World, i: Inputs, h: seq<nat>)
    requires Fit(g, w) && Fit(g, Step(g, w, i)) && InOrder(g, w, h)
    requires w.cache.fsm in {Idle, WbReq, MemReadReq, MemReadWait, Resp}
    ensures InOrder(g, Step(g, w, i), h)
  {
    hide Step, AllInOrder, Kept, Recent, Misaligned, Sized, Geometry.LineAddr, Geometry.SetOf;
    StepTargets(g, w, i);
    StepKeepsArrays(g, w, i);
    NothingTouched(g, w, Step(g, w, i), h);
  }

  /** Every edge keeps the ways of every set in recency order, prefetches included. */
  lemma StepKeepsInOrder(g: Geometry, w: World, i: Inputs, h: seq<nat>)
    requires Good(g, w) && Fit(g, w) && Fit(g, Step(g, w, i)) && InOrder(g, w, h)
    ensures InOrder(g, Step(g, w, i), h + UsedNow(g, w.cache))
  {
    hide Consistent, Step, InOrder, Fresh, Owed;
    hide InHitWrite, InVcSwap, InWbReq, InVcInsert, InMemRead, InInstall;
    assert h + [] == h;
    match w.cache.fsm {
      case Lookup =>
        if HitWay(g, w.cache, g.ways) < 0 && VictimHit(g, w.cache, g.victims) < 0 {
          LookupMissInOrder(g, w, i, h);
        } else if w.cache.reqIsPrefetch {
          HeldPrefetchInOrder(g, w, i, h);
        } else if HitWay(g, w.cache, g.ways) >= 0 {
          LookupHitInOrder(g, w, i, h);
        } else {
          LookupVictimInOrder(g, w, i, h);
        }
      case HitWrite => HitWriteInOrder(g, w, i, h);
      case VcSwap => VcSwapInOrder(g, w, i, h);
      case VcInsert => VcInsertInOrder(g, w, i, h);
      case Install => InstallInOrder(g, w, i, h);
      case _ => QuietInOrder(g, w, i, h);
    }
  }

  lemma BootIsInOrder(g: Geometry, w: World, mem: Memory)
    requires Boot(g, w, mem)
    ensures InOrder(g, After(g, w, []), Uses(g, w, []))
  {
    forall si, way | 0 <= si < g.sets && 0 <= way < g.ways
      ensures Empty(Held(g, w.cache), si, way)
    {
      assert L1(si, way) in AllSlots(g);
    }
  }

  lemma UsesExtend(g: Geometry, w: World, run: seq<Inputs>, i: Inputs)
    requires Fit(g, w)
    ensures After(g, w, run + [i]) == Step(g, After(g, w, run), i)
    ensures Uses(g, w, run + [i]) == Uses(g, w, run) + UsedNow(g, After(g, w, run).cache)
  {
    hide Step, Sized, UsedNow;
    assert (run + [i])[..|run|] == run;
  }

  lemma {:induction false} RunIsInOrder(g: Geometry, w: World, mem: Memory, run: seq<Inputs>)
    requires Boot(g, w, mem)
    ensures InOrder(g, After(g, w, run), Uses(g, w, run))
  {
    hide IsReset, Good, Step, After, Uses, InOrder, UsedNow, Sized, Recorded;
    if run == [] {
      BootIsInOrder(g, w, mem);
    } else {
      var before, i := run[..|run| - 1], run[|run| - 1];
      assert run == before + [i];
      RunIsInOrder(g, w, mem, before);
      RunIsGood(g, w, mem, before);
      UsesExtend(g, w, before, i);
      StepKeepsInOrder(g, After(g, w, before), i, Uses(g, w, before));
    }
  }

  // ------------------------------------------------------------------------ main theorems

  /**
   In every reachable state, L1 holds a line exactly when it is among the NUM_WAYS most recently
   used lines of its set; only the set being refilled may lack one.
   */
  lemma ArrayIsLru(g: Geometry, w: World, mem: Memory, run: seq<Inputs>, x: nat)
    requires Boot(g, w, mem)
    requires var c := After(g, w, run).cache; Hollow(c.fsm) ==> g.SetOf(x) != ReqSet(g, c)
    ensures var m, si := Held(g, After(g, w, run).cache), g.SetOf(x);
            (exists way :: 0 <= way < g.ways && Holds(m, L1(si, way), x)) <==> LruHit(g, Uses(g, w, run), x)
  {
    RunIsInOrder(g, w, mem, run);
    hide Boot, Step, After, Uses, Ordered, Kept, Recent, Held, Geometry.SetOf, RequestInOrder, Sized;
    var e, h, si := After(g, w, run), Uses(g, w, run), g.SetOf(x);
    assert SetInOrder(g, e, h, si);
    HitIsKept(g, Held(g, e.cache), e.cache.replacement[si], si, Recent(g, h, si), x);
    assert forall way :: Has(Held(g, e.cache), si, way, x) <==> Holds(Held(g, e.cache), L1(si, way), x);
  }

  /**
   In every reachable state, the look-up of a demand or of a prefetch hits in L1 exactly when
   its line was used before and fewer than NUM_WAYS different lines of its set were used since.
   */
  lemma LookupsAreLru(g: Geometry, w: World, mem: Memory, run: seq<Inputs>)
    requires Boot(g, w, mem) && After(g, w, run).cache.fsm == Lookup
    ensures var c, h := After(g, w, run).cache, Uses(g, w, run);
            HitWay(g, c, g.ways) >= 0 <==>
            ReqLine(g, c) in h && |SetLinesSince(g, h, ReqLine(g, c))| < g.ways
  {
    RunIsInOrder(g, w, mem, run);
    RunIsGood(g, w, mem, run);
    hide Boot, Step, After, Uses, AllInOrder, RequestInOrder, SetLinesSince, Recorded, Consistent;
    var e, h := After(g, w, run), Uses(g, w, run);
    LookupIsLru(g, e, h);
    LruHitIsStackDistance(g, h, ReqLine(g, e.cache));
    g.LineAddrIdempotent(e.cache.req.addr);
  }

  // -------------------------------------------------------------------- the victim cache

  /** Lines pushed out of L1 into the victim cache during a run. */
  ghost function Insertions(g: Geometry, w: World, run: seq<Inputs>): nat
    requires Fit(g, w)
  {
    if run == [] then 0
    else
      var k := |run| - 1;
      Insertions(g, w, run[..k]) + if After(g, w, run[..k]).cache.fsm == VcInsert then 1 else 0
  }

  /** The copy of the way chosen for the request. */
  ghost function Chosen(g: Geometry, c: State): Copy
    requires Sized(g, c)
  {
    CopyOfEntry(g, ReqSet(g, c), c.l1[c.selectedWay][ReqSet(g, c)])
  }

  /** The victim pointer moves on at every insertion, and goes round. */
  function NextPointer(g: Geometry, c: State): int {
    if c.fsm != VcInsert then c.vcRr else if c.vcRr == g.victims - 1 then 0 else c.vcRr + 1
  }

  lemma CoreVictims(g: Geometry, s: State, i: Inputs)
    requires Sized(g, s) && InputsFit(g, s, i) && s.fsm != Lookup
    ensures Core(g, s, i).vcRr == NextPointer(g, s)
    ensures s.fsm != VcSwap ==>
              Core(g, s, i).vc == if s.fsm == VcInsert then s.vc[s.selectedVc := s.evicted] else s.vc
  {
    hide Launch, LoadOf, MergedLine, Misaligned, FromLookup;
  }

  lemma LookupVictims(g: Geometry, s: State)
    requires Sized(g, s) && s.fsm == Lookup
    ensures FromLookup(g, s).vc == s.vc && FromLookup(g, s).vcRr == s.vcRr
  {
    hide Launch, LoadOf, MergedLine, Snapshot, HitWay, VictimHit, InvalidWay;
  }

  lemma StepPointer(g: Geometry, w: World, i: Inputs)
    requires Fit(g, w)
    ensures Step(g, w, i).cache.vcRr == NextPointer(g, w.cache)
  {
    hide Step, Driven, Sized;
    StepIsCore(g, w, i);
    DrivenFits(g, w, i);
    if w.cache.fsm == Lookup {
      LookupVictims(g, w.cache);
      hide FromLookup;
    } else {
      CoreVictims(g, w.cache, Driven(w, i));
      hide Core;
    }
  }

  lemma SwapVictims(g: Geometry, s: State)
    requires Sized(g, s) && s.fsm == VcSwap && s.evicted.valid
    ensures FromVcSwap(g, s).vc == s.vc[s.selectedVc := s.evicted]
  {
    hide Launch;
  }

  lemma ChosenIsHeld(g: Geometry, c: State)
    requires Sized(g, c)
    ensures Way(g, c) in Held(g, c) && Held(g, c)[Way(g, c)] == Chosen(g, c)
  {
    assert Way(g, c) in AllSlots(g);
  }

  /** One edge of the victim cache. */
  lemma StepVictims(g: Geometry, w: World, i: Inputs)
    requires Good(g, w) && Fit(g, w)
    ensures var c, c' := w.cache, Step(g, w, i).cache;
            && c'.vc == (match c.fsm
                         case VcSwap => c.vc[c.selectedVc := Chosen(g, c)]
                         case VcInsert => c.vc[c.vcRr := Chosen(g, c)]
                         case _ => c.vc)
            && (c.fsm == VcSwap ==> VictimMatches(g, c, c.selectedVc))
  {
    hide Step, Driven, Sized, FromLookup, FromVcSwap, Coherent, FullBehindVictims, Owed, Target, Chosen, Absent;
    StepIsCore(g, w, i);
    DrivenFits(g, w, i);
    ChosenIsHeld(g, w.cache);
    if w.cache.fsm == Lookup {
      LookupVictims(g, w.cache);
    } else if w.cache.fsm == VcSwap {
      SwapVictims(g, w.cache);
      VictimMatchIsCopy(g, w.cache, w.cache.selectedVc);
    } else {
      CoreVictims(g, w.cache, Driven(w, i));
    }
  }

  lemma InsertionsExtend(g: Geometry, w: World, run: seq<Inputs>, i: Inputs)
    requires Fit(g, w)
    ensures After(g, w, run + [i]) == Step(g, After(g, w, run), i)
    ensures Insertions(g, w, run + [i])
         == Insertions(g, w, run) + if After(g, w, run).cache.fsm == VcInsert then 1 else 0
  {
    hide Step, Sized;
    assert (run + [i])[..|run|] == run;
  }

  lemma NothingInserted(g: Geometry, w: World, mem: Memory)
    requires Boot(g, w, mem)
    ensures g.victims > 0 && After(g, w, []).cache.vcRr == 0 && Insertions(g, w, []) == 0
  {
  }

  /** The pointer follows the count of insertions, modulo the entries. */
  lemma PointerFollows(g: Geometry, w: World, n: nat)
    requires Fit(g, w) && w.cache.vcRr == n % g.victims
    ensures NextPointer(g, w.cache) == (if w.cache.fsm == VcInsert then n + 1 else n) % g.victims
  {
    NextModulo(n, g.victims);
  }

  lemma {:induction false} PointerCounts(g: Geometry, w: World, mem: Memory, run: seq<Inputs>)
    requires Boot(g, w, mem)
    ensures After(g, w, run).cache.vcRr == Insertions(g, w, run) % g.victims
  {
    hide IsReset, Fit, Step, After, Insertions, NextPointer;
    if run == [] {
      NothingInserted(g, w, mem);
    } else {
      var before, i := run[..|run| - 1], run[|run| - 1];
      assert run == before + [i];
      PointerCounts(g, w, mem, before);
      InsertionsExtend(g, w, before, i);
      StepPointer(g, After(g, w, before), i);
      PointerFollows(g, After(g, w, before), Insertions(g, w, before));
    }
  }

  /**
   The victim cache is a ring: the n-th line pushed out of L1 goes to entry n modulo
   NUM_VICTIMS. A victim hit puts the line it displaces where the hit line was. Nothing else
   changes an entry.
   */
  lemma VictimsAreRoundRobin(g: Geometry, w: World, mem: Memory, run: seq<Inputs>, i: Inputs)
    requires Boot(g, w, mem)
    ensures var c, vc := After(g, w, run).cache, After(g, w, run + [i]).cache.vc;
            match c.fsm
            case VcSwap => VictimMatches(g, c, c.selectedVc) && vc == c.vc[c.selectedVc := Chosen(g, c)]
            case VcInsert => vc == c.vc[Insertions(g, w, run) % g.victims := Chosen(g, c)]
            case _ => vc == c.vc
  {
    hide IsReset, Good, Step, After, Insertions, Sized, Recorded, Chosen, VictimMatches;
    PointerCounts(g, w, mem, run);
    RunIsGood(g, w, mem, run);
    InsertionsExtend(g, w, run, i);
    StepVictims(g, After(g, w, run), i);
  }
}
