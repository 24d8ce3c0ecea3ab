/** Every accepted request finishes: a decreasing measure, and what it may ask of memory. */
module Progress {
  import opened Geometries
  import opened Wrappers
  import opened Bytes
  import opened LoadStore
  import opened CacheSpec
  import opened Coherence
  import opened Systems
  import opened Invariant
  import opened Preservation
  import opened Correctness

  /** Non-stalled cycles that can still pass before the machine is idle again. */
  function Remaining(f: Fsm): (n: nat)
    ensures n <= 7
  {
    match f
    case Idle => 0
    case Resp => 1
    case HitWrite => 2
    case VcSwap => 2
    case Install => 2
    case MemReadWait => 3
    case MemReadReq => 4
    case VcInsert => 5
    case WbReq => 6
    case Lookup => 7
  }

  /** The machine waits for its environment in this cycle. */
  predicate Stalled(w: World, i: Inputs) {
    match w.cache.fsm
    case WbReq => !i.memReady
    case MemReadReq => !i.memReady
    case MemReadWait => !i.memRspValid
    case Resp => !i.rspReady
    case _ => false
  }

  function ReadsLeft(f: Fsm): nat {
    if f == Lookup || f == WbReq || f == VcInsert || f == MemReadReq then 1 else 0
  }

  function WritesLeft(f: Fsm): nat {
    if f == Lookup || f == WbReq then 1 else 0
  }

  function Reads(w: World): nat {
    |w.demandReads| + w.prefetchReads
  }

  lemma LookupAdvances(g: Geometry, s: State)
    requires Sized(g, s) && s.fsm == Lookup
    ensures Remaining(FromLookup(g, s).fsm) < 7 && FromLookup(g, s).fsm != Lookup
  {
    hide LoadOf, MergedLine, Snapshot, Launch;
  }

  lemma CoreAdvances(g: Geometry, s: State, i: Inputs)
    requires Sized(g, s) && InputsFit(g, s, i) && s.fsm != Idle
    ensures var f, f' := s.fsm, Core(g, s, i).fsm;
            && (f == MemReadWait ==> f' == if i.memRspValid then Install else f)
            && (f == WbReq ==> f' == if i.memReady then VcInsert else f)
            && (f == MemReadReq ==> f' == if i.memReady then MemReadWait else f)
            && (f == Resp ==> f' == if i.rspReady then Idle else f)
            && (f != MemReadWait && f != WbReq && f != MemReadReq && f != Resp ==> Remaining(f') < Remaining(f))
  {
    hide LoadOf, MergedLine, Launch;
    if s.fsm == Lookup {
      LookupAdvances(g, s);
    }
    hide FromLookup;
  }

  /** One step of a busy machine either waits or comes closer to idle. */
  lemma StepAdvances(g: Geometry, w: World, i: Inputs)
    requires Fit(g, w) && w.cache.fsm != Idle && (w.cache.fsm == MemReadWait ==> w.inFlight.Some?)
    ensures var f, f' := w.cache.fsm, Step(g, w, i).cache.fsm;
            && (Stalled(w, i) ==> f' == f)
            && (!Stalled(w, i) ==> Remaining(f') < Remaining(f))
  {
    hide Step, Core, Misaligned, Sized, Driven;
    DrivenFits(g, w, i);
    DrivenKeeps(w, i);
    StepIsCore(g, w, i);
    CoreAdvances(g, w.cache, Driven(w, i));
  }

  /** A busy machine spends its one read and its one write of memory at most once. */
  lemma StepSpends(g: Geometry, w: World, i: Inputs)
    requires Fit(g, w) && w.cache.fsm != Idle && (w.cache.fsm == MemReadWait ==> w.inFlight.Some?)
    ensures var f, f' := w.cache.fsm, Step(g, w, i).cache.fsm;
            && ReadsLeft(f') <= ReadsLeft(f) && WritesLeft(f') <= WritesLeft(f)
            && Reads(Step(g, w, i)) + ReadsLeft(f') <= Reads(w) + ReadsLeft(f)
            && Step(g, w, i).writes + WritesLeft(f') <= w.writes + WritesLeft(f)
  {
    hide Step, Sized, Reads;
    StepAdvances(g, w, i);
    StepCounts(g, w, i);
  }

  lemma DrivenKeeps(w: World, i: Inputs)
    ensures var d := Driven(w, i);
            && d.memReady == i.memReady && d.cfgPrefetch == i.cfgPrefetch && d.rspReady == i.rspReady
            && d.memRspValid == (i.memRspValid && w.inFlight.Some?)
  {
  }

  lemma WaitHasRead(g: Geometry, w: World)
    requires Good(g, w)
    ensures Fit(g, w) && (w.cache.fsm == MemReadWait ==> w.inFlight.Some?)
  {
    hide Consistent, Owed, Held, Filling, Sized;
  }

  lemma StepCounts(g: Geometry, w: World, i: Inputs)
    requires Fit(g, w)
    ensures Reads(Step(g, w, i)) == Reads(w) + (if w.cache.fsm == MemReadReq && i.memReady then 1 else 0)
    ensures Step(g, w, i).writes == w.writes + (if w.cache.fsm == WbReq && i.memReady then 1 else 0)
  {
    hide Clock, Sized, Apply, Answer;
  }

  /** The cycles of a run in which the machine was not waiting for its environment. */
  ghost function Active(g: Geometry, w: World, run: seq<Inputs>): nat
    requires Fit(g, w)
  {
    if run == [] then 0
    else
      var k := |run| - 1;
      Active(g, w, run[..k]) + (if Stalled(After(g, w, run[..k]), run[k]) then 0 else 1)
  }

  lemma {:induction false} AfterIsGood(g: Geometry, w: World, run: seq<Inputs>)
    requires Good(g, w)
    ensures Good(g, After(g, w, run))
  {
    hide Good, Step;
    WaitHasRead(g, w);
    if run != [] {
      AfterIsGood(g, w, run[..|run| - 1]);
      StepKeepsGood(g, After(g, w, run[..|run| - 1]), run[|run| - 1]);
    }
  }

  /** The machine is not idle before any cycle of the run. */
  ghost predicate Busy(g: Geometry, w: World, run: seq<Inputs>)
    requires Fit(g, w)
  {
    run != [] ==>
      var before := run[..|run| - 1];
      Busy(g, w, before) && After(g, w, before).cache.fsm != Idle
  }

  /**
   While the machine stays busy it can be active for at most `Remaining` more cycles, and it
   sends at most one read and one write to memory: at most 7 cycles for a fresh request.
   */
  lemma {:induction false} BusyRunIsBounded(g: Geometry, w: World, run: seq<Inputs>)
    requires Good(g, w) && Fit(g, w) && Busy(g, w, run)
    ensures var e := After(g, w, run);
            && Active(g, w, run) + Remaining(e.cache.fsm) <= Remaining(w.cache.fsm)
            && Reads(e) + ReadsLeft(e.cache.fsm) <= Reads(w) + ReadsLeft(w.cache.fsm)
            && e.writes + WritesLeft(e.cache.fsm) <= w.writes + WritesLeft(w.cache.fsm)
  {
    hide Good, Fit, Step, Remaining, Stalled, ReadsLeft, WritesLeft, Reads;
    if run != [] {
      var k := |run| - 1;
      var before := run[..k];
      BusyRunIsBounded(g, w, before);
      AfterIsGood(g, w, before);
      WaitHasRead(g, After(g, w, before));
      StepAdvances(g, After(g, w, before), run[k]);
      StepSpends(g, After(g, w, before), run[k]);
    }
  }

  /** A memory request that is not taken, and a response that is not taken, stay as they are. */
  lemma OffersAreStable(g: Geometry, w: World, i: Inputs, next: Inputs)
    requires Good(g, w)
    ensures var o, o' := OutputsOf(g, w.cache, i), OutputsOf(g, Step(g, w, i).cache, next);
            && (o.memValid && !i.memReady ==>
                  o'.memValid && o'.memWrite == o.memWrite && o'.memAddr == o.memAddr && o'.memLine == o.memLine)
            && (o.rspValid && !i.rspReady ==> o'.rspValid && o'.response == o.response)
  {
    hide Good, Sized, Step, Core, Driven, Geometry.LineAddr;
    WaitHasRead(g, w);
    DrivenFits(g, w, i);
    StepIsCore(g, w, i);
    DrivenKeeps(w, i);
    CoreHolds(g, w.cache, Driven(w, i));
  }

  lemma CoreHolds(g: Geometry, s: State, i: Inputs)
    requires Sized(g, s) && InputsFit(g, s, i)
    ensures (s.fsm == WbReq || s.fsm == MemReadReq) && !i.memReady ==> Core(g, s, i) == s
    ensures s.fsm == Resp && !i.rspReady ==> Core(g, s, i) == s
  {
    hide FromIdle, FromLookup, FromHitWrite, FromVcSwap, FromVcInsert, FromMemReadWait, FromInstall;
  }

  /**
   What the world records is what the ports show: every handshake on the CPU side is a request or
   an answer, every write on the memory port puts the shown line at the shown address, every read
   is answered from the shown address, and nothing else reaches lower memory.
   */
  lemma WorldFollowsPorts(g: Geometry, w: World, i: Inputs)
    requires Good(g, w)
    ensures var o, w' := OutputsOf(g, w.cache, i), Step(g, w, i);
            && w'.requests == (if o.cpuReady && i.cpuValid then w.requests + [i.cpu] else w.requests)
            && w'.answers == (if o.rspValid && i.rspReady then w.answers + [o.response] else w.answers)
    ensures var o, w' := OutputsOf(g, w.cache, i), Step(g, w, i);
            var taken := o.memValid && i.memReady;
            && (taken ==> o.memAddr + g.lineBytes <= |w.lower|)
            && (taken && o.memWrite ==> |o.memLine| == g.lineBytes && w'.lower == Put(w.lower, o.memAddr, o.memLine))
            && (taken && !o.memWrite ==> w'.inFlight == Some(LineAt(g, w.lower, o.memAddr)))
            && (!(taken && o.memWrite) ==> w'.lower == w.lower)
            && (!(taken && !o.memWrite) ==> w'.inFlight == w.inFlight || w'.inFlight == None)
  {
    hide Clock, Apply, Answer, Misaligned, Settled, Consistent, Put, Geometry.LineAddr;
    WaitHasRead(g, w);
    g.LineFits(w.cache.req.addr);
    if w.cache.fsm == WbReq {
      WriteInSpace(g, w);
    }
  }

  lemma WriteInSpace(g: Geometry, w: World)
    requires Good(g, w) && w.cache.fsm == WbReq
    ensures Fit(g, w) && InSpace(g, w.cache.wbAddr)
  {
    hide Consistent, Owed, Sized, Coherent;
    ConsistentFits(g, w);
    CopyAgrees(g, w, Victim(w.cache));
  }
}
