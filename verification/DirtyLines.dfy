/** Which lines are dirty, and so which lines are ever written back. */
module DirtyLines {
  import opened Geometries
  import opened LoadStore
  import opened CacheSpec
  import opened Coherence
  import opened Systems
  import opened Invariant
  import opened Preservation
  import opened Correctness
  import Accounting

  /** The lines that a store has changed since they were last brought in from lower memory. */
  ghost function Changed(g: Geometry, w: World, run: seq<Inputs>): set<nat>
    requires Fit(g, w)
  {
    if run == [] then {} else ChangedBy(g, After(g, w, run[..|run| - 1]), Changed(g, w, run[..|run| - 1]))
  }

  /** One more cycle: a performed store changes its line, any other installed line is as in memory. */
  function ChangedBy(g: Geometry, w: World, changed: set<nat>): set<nat>
    requires g.Positive()
  {
    var la := ReqLine(g, w.cache);
    if Commits(w) && w.cache.req.write then changed + {la}
    else if w.cache.fsm == Install then changed - {la}
    else changed
  }

  ghost predicate Marked(m: Copies, changed: set<nat>) {
    forall p :: p in m && m[p].valid ==> (m[p].dirty <==> m[p].addr in changed)
  }

  lemma MarkedTouched(m: Copies, changed: set<nat>, p: Slot, c: Copy)
    requires Marked(m, changed) && p in m && c == m[p].(prefetched := false)
    ensures Marked(m[p := c], changed)
  {
  }

  lemma MarkedWritten(m: Copies, changed: set<nat>, p: Slot, c: Copy, la: nat)
    requires Marked(m, changed) && Unique(m) && Holds(m, p, la) && c.addr == la && c.dirty
    ensures Marked(m[p := c], changed + {la})
  {
  }

  lemma MarkedSwapped(m: Copies, changed: set<nat>, up: Slot, down: Slot, c: Copy, la: nat, write: bool)
    requires Marked(m, changed) && Unique(m) && up in m && up != down && m[up].valid && Holds(m, down, la)
    requires c.valid && c.addr == la && c.dirty == (write || m[down].dirty)
    ensures Marked(m[up := c][down := m[up]], if write then changed + {la} else changed)
  {
  }

  lemma MarkedMoved(m: Copies, changed: set<nat>, from: Slot, to: Slot, gone: Copy)
    requires Marked(m, changed) && from in m && to in m && m[from].valid && !gone.valid
    ensures Marked(m[to := m[from]][from := gone], changed)
  {
  }

  lemma MarkedFilled(m: Copies, changed: set<nat>, p: Slot, c: Copy, la: nat)
    requires Marked(m, changed) && p in m && Absent(m, la) && c.addr == la
    ensures Marked(m[p := c], if c.dirty then changed + {la} else changed - {la})
  {
  }

  lemma LookupKeepsMarked(g: Geometry, w: World, i: Inputs, changed: set<nat>)
    requires Good(g, w) && Fit(g, w) && Fit(g, Step(g, w, i)) && w.cache.fsm == Lookup
    requires Marked(Held(g, w.cache), changed)
    ensures Marked(Held(g, Step(g, w, i).cache), changed)
  {
    hide Step, Marked, Coherent, FullBehindVictims, Owed, Snapshot, MergedLine, LoadOf, HitWay, VictimHit, InvalidWay;
    hide Geometry.LineAddr, Geometry.SetOf, Geometry.Compose, Geometry.TagOf;
    var c, way, n := w.cache, HitWay(g, w.cache, g.ways), ReqSet(g, w.cache);
    if way >= 0 {
      LookupHitEffect(g, w, i);
      var e := c.l1[way][n].(prefetched := false);
      EntryUpdate(g, c.l1, c.vc, way, n, e);
      MatchIsCopy(g, c, way);
      MarkedTouched(Held(g, c), changed, L1(n, way), CopyOfEntry(g, n, e));
    } else if VictimHit(g, c, g.victims) >= 0 {
      VictimSetFull(g, w);
      LookupVictimEffect(g, w, i);
    } else {
      LookupMissEffect(g, w, i);
    }
  }

  lemma HitWriteKeepsMarked(g: Geometry, w: World, i: Inputs, changed: set<nat>)
    requires Good(g, w) && Fit(g, w) && Fit(g, Step(g, w, i)) && w.cache.fsm == HitWrite
    requires Marked(Held(g, w.cache), changed)
    ensures Marked(Held(g, Step(g, w, i).cache), ChangedBy(g, w, changed))
  {
    hide Step, Marked, Placed, Agrees, Backed, FullBehindVictims, Owed, Target;
    hide Geometry.LineAddr, Geometry.SetOf, Geometry.Compose, Geometry.TagOf;
    HitWriteEffect(g, w, i);
    var c, n := w.cache, ReqSet(g, w.cache);
    var e := Entry(c.l1[c.selectedWay][n].valid, true, false, g.TagOf(c.req.addr), c.workingLine);
    EntryUpdate(g, c.l1, c.vc, c.selectedWay, n, e);
    g.ComposeSlices(c.req.addr);
    MarkedWritten(Held(g, c), changed, Way(g, c), CopyOfEntry(g, n, e), ReqLine(g, c));
  }

  lemma VcSwapKeepsMarked(g: Geometry, w: World, i: Inputs, changed: set<nat>)
    requires Good(g, w) && Fit(g, w) && Fit(g, Step(g, w, i)) && w.cache.fsm == VcSwap
    requires Marked(Held(g, w.cache), changed)
    ensures Marked(Held(g, Step(g, w, i).cache), ChangedBy(g, w, changed))
  {
    hide Step, Marked, Placed, Agrees, Backed, FullBehindVictims, Owed, Target;
    hide Geometry.LineAddr, Geometry.SetOf, Geometry.Compose, Geometry.TagOf;
    VcSwapEffect(g, w, i);
    var c, n := w.cache, ReqSet(g, w.cache);
    var e := Entry(true, c.workingDirty, false, g.TagOf(c.req.addr), c.workingLine);
    EntryUpdate(g, c.l1, c.vc, c.selectedWay, n, e);
    VictimUpdate(g, c.l1[c.selectedWay := c.l1[c.selectedWay][n := e]], c.vc, c.selectedVc, c.evicted);
    g.ComposeSlices(c.req.addr);
    MarkedSwapped(Held(g, c), changed, Way(g, c), Victim(c), CopyOfEntry(g, n, e), ReqLine(g, c), c.req.write);
  }

  lemma VcInsertKeepsMarked(g: Geometry, w: World, i: Inputs, changed: set<nat>)
    requires Good(g, w) && Fit(g, w) && Fit(g, Step(g, w, i)) && w.cache.fsm == VcInsert
    requires Marked(Held(g, w.cache), changed)
    ensures Marked(Held(g, Step(g, w, i).cache), changed)
  {
    hide Step, Marked, Coherent, FullBehindVictims, Owed, LineAt;
    hide Geometry.LineAddr, Geometry.SetOf, Geometry.Compose, Geometry.TagOf;
    VcInsertEffect(g, w, i);
    var c, n := w.cache, ReqSet(g, w.cache);
    var e := c.l1[c.selectedWay][n].(valid := false, dirty := false, prefetched := false);
    VictimUpdate(g, c.l1, c.vc, c.selectedVc, c.evicted);
    EntryUpdate(g, c.l1, c.vc[c.selectedVc := c.evicted], c.selectedWay, n, e);
    MarkedMoved(Held(g, c), changed, Way(g, c), Victim(c), CopyOfEntry(g, n, e));
  }

  lemma InstallKeepsMarked(g: Geometry, w: World, i: Inputs, changed: set<nat>)
    requires Good(g, w) && Fit(g, w) && Fit(g, Step(g, w, i)) && w.cache.fsm == Install
    requires Marked(Held(g, w.cache), changed)
    ensures Marked(Held(g, Step(g, w, i).cache), ChangedBy(g, w, changed))
  {
    hide Step, Marked, Absent, Coherent, FullBehindVictims, Target;
    hide Geometry.LineAddr, Geometry.SetOf, Geometry.Compose, Geometry.TagOf;
    InstallEffect(g, w, i);
    var c, n := w.cache, ReqSet(g, w.cache);
    var e := Entry(true, !c.reqIsPrefetch && c.req.write, c.reqIsPrefetch, g.TagOf(c.req.addr), c.fillLine);
    EntryUpdate(g, c.l1, c.vc, c.selectedWay, n, e);
    g.ComposeSlices(c.req.addr);
    MarkedFilled(Held(g, c), changed, Way(g, c), CopyOfEntry(g, n, e), ReqLine(g, c));
  }

  lemma StepKeepsMarked(g: Geometry, w: World, i: Inputs, changed: set<nat>)
    requires Good(g, w) && Fit(g, w) && Fit(g, Step(g, w, i)) && Marked(Held(g, w.cache), changed)
    ensures Marked(Held(g, Step(g, w, i).cache), ChangedBy(g, w, changed))
  {
    hide Good, Step, Marked, Sized, Geometry.LineAddr;
    match w.cache.fsm {
      case Lookup => LookupKeepsMarked(g, w, i, changed);
      case HitWrite => HitWriteKeepsMarked(g, w, i, changed);
      case VcSwap => VcSwapKeepsMarked(g, w, i, changed);
      case VcInsert => VcInsertKeepsMarked(g, w, i, changed);
      case Install => InstallKeepsMarked(g, w, i, changed);
      case _ => Accounting.StepKeepsArrays(g, w, i);
    }
  }

  lemma {:induction false} RunIsMarked(g: Geometry, w: World, mem: Memory, run: seq<Inputs>)
    requires Boot(g, w, mem)
    ensures Marked(Held(g, After(g, w, run).cache), Changed(g, w, run))
  {
    hide Good, Step, Marked, ChangedBy, Held, IsReset, Sized;
    if run == [] {
      NothingMarked(g, w, mem);
    } else {
      var before := run[..|run| - 1];
      RunIsGood(g, w, mem, before);
      RunIsMarked(g, w, mem, before);
      StepKeepsFit(g, After(g, w, before), run[|run| - 1]);
      StepKeepsMarked(g, After(g, w, before), run[|run| - 1], Changed(g, w, before));
    }
  }

  lemma NothingMarked(g: Geometry, w: World, mem: Memory)
    requires Boot(g, w, mem)
    ensures Marked(Held(g, w.cache), {})
  {
  }

  /**
   In every reachable state a copy is dirty exactly when a store has changed its line since it was
   brought in, and the line offered for a write-back is one of those, with the data of its copy.
   */
  lemma DirtyExactlyWhenChanged(g: Geometry, w: World, mem: Memory, run: seq<Inputs>)
    requires Boot(g, w, mem)
    ensures var c, changed := After(g, w, run).cache, Changed(g, w, run);
            var m := Held(g, c);
            && (forall p :: p in m && m[p].valid ==> (m[p].dirty <==> m[p].addr in changed))
            && (c.fsm == WbReq ==>
                  c.wbAddr in changed && exists p :: Holds(m, p, c.wbAddr) && m[p].line == c.wbLine)
  {
    hide IsReset, Step, Held, Consistent, Owed, After;
    RunIsMarked(g, w, mem, run);
    RunIsGood(g, w, mem, run);
    if After(g, w, run).cache.fsm == WbReq {
      assert Holds(Held(g, After(g, w, run).cache), Victim(After(g, w, run).cache), After(g, w, run).cache.wbAddr);
    }
  }
}
