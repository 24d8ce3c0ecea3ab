/** Runs of the cache: it is an invisible speed-up of a flat byte memory. */
module Correctness {
  import opened Geometries
  import opened LoadStore
  import opened CacheSpec
  import opened Coherence
  import opened Systems
  import opened Invariant
  import opened Preservation

  datatype Phase = Quiet | Pending | Delivered

  /** Quiet: no CPU request open. Pending: one is being performed. Delivered: its response is shown. */
  function PhaseOf(c: State): Phase {
    if c.fsm == Resp then Delivered else if c.fsm == Idle || c.reqIsPrefetch then Quiet else Pending
  }

  /** All requests but the latest one. */
  function Earlier(rs: seq<Request>): seq<Request>
    requires rs != []
  {
    rs[..|rs| - 1]
  }

  /** The observed history agrees with the flat memory `mem` executing the accepted requests. */
  ghost predicate Recorded(w: World, mem: Memory) {
    && IsMemory(mem)
    && match PhaseOf(w.cache)
       case Quiet =>
         w.answers == AnswerAll(mem, w.requests) && w.flat == ApplyAll(mem, w.requests)
       case Pending =>
         && w.requests != [] && w.cache.req == w.requests[|w.requests| - 1]
         && w.answers == AnswerAll(mem, Earlier(w.requests)) && w.flat == ApplyAll(mem, Earlier(w.requests))
         && w.expected == Answer(w.flat, w.cache.req)
       case Delivered =>
         && w.requests != []
         && w.answers + [w.expected] == AnswerAll(mem, w.requests) && w.flat == ApplyAll(mem, w.requests)
  }

  lemma MisalignedChangesNothing(m: Memory, r: Request)
    requires IsMemory(m)
    ensures Misaligned(r.addr, r.size) || !r.write ==> Apply(m, r) == m
  {
  }

  /** The step of the registers, apart from the generator and the counters. */
  lemma StepIsCore(g: Geometry, w: World, i: Inputs)
    requires Fit(g, w)
    ensures var c', core := Step(g, w, i).cache, CoreStep(g, w, i);
            c' == core.(nextLine := c'.nextLine, stats := c'.stats)
  {
    hide Core, Apply, Answer, Misaligned;
  }
  /** How a step moves between the phases, with the request held. */
  ghost predicate Moves(c: State, c': State, i: Inputs) {
    match PhaseOf(c)
    case Quiet =>
      if c.fsm == Idle && i.cpuValid
      then c'.req == i.cpu && PhaseOf(c') == (if Misaligned(i.cpu.addr, i.cpu.size) then Delivered else Pending)
      else PhaseOf(c') == Quiet
    case Pending => c'.req == c.req && PhaseOf(c') != Quiet
    case Delivered => PhaseOf(c') == if i.rspReady then Quiet else Delivered
  }

  lemma LookupMoves(g: Geometry, s: State)
    requires Sized(g, s) && s.fsm == Lookup
    ensures var c := FromLookup(g, s);
            && c.req == s.req && c.reqIsPrefetch == s.reqIsPrefetch
            && (if s.reqIsPrefetch then c.fsm != Resp else c.fsm != Idle)
            && (c.fsm == Resp ==> !s.req.write)
  {
    hide LoadOf, MergedLine, Snapshot, Launch;
  }

  lemma CoreMoves(g: Geometry, s: State, i: Inputs)
    requires Sized(g, s) && InputsFit(g, s, i)
    requires s.fsm == HitWrite || s.fsm == VcSwap || s.fsm == Resp ==> !s.reqIsPrefetch
    ensures Moves(s, Core(g, s, i), i)
    ensures s.fsm == Lookup && Core(g, s, i).fsm == Resp ==> !s.req.write
    ensures (s.fsm == HitWrite || s.fsm == VcSwap || (s.fsm == Install && !s.reqIsPrefetch)) ==>
              Core(g, s, i).fsm == Resp
    ensures (s.fsm == WbReq || s.fsm == VcInsert || s.fsm == MemReadReq || s.fsm == MemReadWait) ==>
              Core(g, s, i).fsm != Resp
  {
    hide LoadOf, MergedLine, Launch, Misaligned, WritePort, ReqSet, Geometry.LineAddr, Geometry.TagOf;
    if s.fsm == Lookup {
      LookupMoves(g, s);
    }
    hide FromLookup;
  }

  /** Only demands reach the states that answer, and ST_RESP shows the owed answer. */
  ghost predicate Serves(w: World) {
    && (w.cache.fsm == HitWrite || w.cache.fsm == VcSwap || w.cache.fsm == Resp ==> !w.cache.reqIsPrefetch)
    && (w.cache.fsm == Resp ==> w.cache.response == w.expected)
  }

  lemma GoodServes(g: Geometry, w: World)
    requires Good(g, w)
    ensures Fit(g, w) && Serves(w)
  {
    hide Consistent, Owed, Held, Evicting, Filling, Target, InLookup, Replacing, InMemRead;
  }

  lemma StepMoves(g: Geometry, w: World, i: Inputs)
    requires Fit(g, w) && Serves(w)
    ensures var c, c' := w.cache, Step(g, w, i).cache;
            && Moves(c, c', i)
            && (Commits(w) ==> PhaseOf(c) == Pending && PhaseOf(c') == Delivered)
            && (PhaseOf(c) == Pending && PhaseOf(c') == Delivered && !Commits(w) ==> !c.req.write)
  {
    hide Step, Core, Misaligned, Sized, Driven;
    DrivenFits(g, w, i);
    StepIsCore(g, w, i);
    CoreMoves(g, w.cache, Driven(w, i));
  }

  lemma StepObserves(g: Geometry, w: World, i: Inputs)
    requires Fit(g, w)
    ensures var w', c := Step(g, w, i), w.cache;
            && w'.requests == (if c.fsm == Idle && i.cpuValid then w.requests + [i.cpu] else w.requests)
            && w'.answers == (if c.fsm == Resp && i.rspReady then w.answers + [c.response] else w.answers)
            && w'.flat == (if Commits(w) then Apply(w.flat, c.req) else w.flat)
            && w'.expected == (if c.fsm == Idle && i.cpuValid then Answer(w.flat, i.cpu) else w.expected)
  {
    hide Clock, Apply, Answer, Sized;
  }

  /** The history kept by a step, phase by phase. */
  lemma QuietKeepsRecorded(w: World, w': World, i: Inputs, mem: Memory)
    requires Recorded(w, mem) && PhaseOf(w.cache) == Quiet && Moves(w.cache, w'.cache, i)
    requires w'.answers == w.answers && w'.flat == w.flat
    requires if w.cache.fsm == Idle && i.cpuValid
             then w'.requests == w.requests + [i.cpu] && w'.expected == Answer(w.flat, i.cpu)
             else w'.requests == w.requests
    ensures Recorded(w', mem)
  {
    hide Misaligned, Answer, Apply;
    MisalignedChangesNothing(w.flat, i.cpu);
    assert Earlier(w.requests + [i.cpu]) == w.requests;
  }

  lemma PendingKeepsRecorded(w: World, w': World, i: Inputs, mem: Memory)
    requires Recorded(w, mem) && PhaseOf(w.cache) == Pending && Moves(w.cache, w'.cache, i)
    requires w'.answers == w.answers && w'.requests == w.requests && w'.expected == w.expected
    requires PhaseOf(w'.cache) == Pending ==> w'.flat == w.flat
    requires PhaseOf(w'.cache) == Delivered ==> w'.flat == Apply(w.flat, w.cache.req)
    ensures Recorded(w', mem)
  {
    hide Misaligned, Answer, Apply;
  }

  lemma DeliveredKeepsRecorded(w: World, w': World, i: Inputs, mem: Memory)
    requires Recorded(w, mem) && PhaseOf(w.cache) == Delivered && Moves(w.cache, w'.cache, i)
    requires w'.flat == w.flat && w'.requests == w.requests && w'.expected == w.expected
    requires w'.answers == if i.rspReady then w.answers + [w.expected] else w.answers
    ensures Recorded(w', mem)
  {
    hide Misaligned, Answer, Apply;
  }

  lemma StepKeepsRecorded(g: Geometry, w: World, i: Inputs, mem: Memory)
    requires Fit(g, w) && Serves(w) && Recorded(w, mem)
    ensures Recorded(Step(g, w, i), mem)
  {
    hide Step, Sized, Recorded, Misaligned, Apply, Answer;
    var w' := Step(g, w, i);
    StepMoves(g, w, i);
    StepObserves(g, w, i);
    match PhaseOf(w.cache) {
      case Quiet => QuietKeepsRecorded(w, w', i, mem);
      case Pending =>
        MisalignedChangesNothing(w.flat, w.cache.req);
        PendingKeepsRecorded(w, w', i, mem);
      case Delivered => DeliveredKeepsRecorded(w, w', i, mem);
    }
  }

  lemma BootIsGood(g: Geometry, w: World, mem: Memory)
    requires Boot(g, w, mem)
    ensures Good(g, w) && Recorded(w, mem)
  {
    var m := Held(g, w.cache);
    assert forall p :: p in m ==> !m[p].valid;
  }

  /** In every run the invariant holds and the observed history is that of the flat memory. */
  lemma {:induction false} RunIsGood(g: Geometry, w: World, mem: Memory, run: seq<Inputs>)
    requires Boot(g, w, mem)
    ensures Good(g, After(g, w, run)) && Recorded(After(g, w, run), mem)
  {
    hide Good, Recorded, Step;
    if run == [] {
      BootIsGood(g, w, mem);
    } else {
      var before, i := After(g, w, run[..|run| - 1]), run[|run| - 1];
      RunIsGood(g, w, mem, run[..|run| - 1]);
      GoodServes(g, before);
      StepKeepsGood(g, before, i);
      StepKeepsRecorded(g, before, i, mem);
    }
  }

  // ------------------------------------------------------------------- main theorems

  /**
   Under any stalls, prefetches and configuration changes, the responses taken so far are the
   architectural answers to the accepted requests in acceptance order, at most one request is
   unanswered, and a response on offer is the next answer.
   */
  lemma CacheIsInvisible(g: Geometry, w: World, mem: Memory, run: seq<Inputs>)
    requires Boot(g, w, mem)
    ensures var e := After(g, w, run);
            var n := |e.answers|;
            && n == |e.requests| - (if PhaseOf(e.cache) == Quiet then 0 else 1)
            && e.answers == AnswerAll(mem, e.requests)[..n]
            && (e.cache.fsm == Resp ==> e.cache.response == AnswerAll(mem, e.requests)[n])
  {
    hide Good, Step, Answer, Apply;
    RunIsGood(g, w, mem, run);
    GoodServes(g, After(g, w, run));
  }

  /** What a reader of cache and memory together finds at a line. */
  ghost function VisibleLine(g: Geometry, w: World, la: nat): Line
    requires Fit(g, w) && InSpace(g, la)
  {
    var m := Held(g, w.cache);
    if exists p :: Holds(m, p, la) then (var p :| Holds(m, p, la); m[p].line) else LineAt(g, w.lower, la)
  }

  /** Between requests the hierarchy holds exactly the memory that all accepted stores produced. */
  lemma QuietMemoryIsFlat(g: Geometry, w: World, mem: Memory, run: seq<Inputs>, la: nat)
    requires Boot(g, w, mem) && InSpace(g, la)
    requires PhaseOf(After(g, w, run).cache) != Pending
    ensures var e := After(g, w, run);
            VisibleLine(g, e, la) == LineAt(g, ApplyAll(mem, e.requests), la)
  {
    hide Apply, Answer, Step, After, Settled;
    RunIsGood(g, w, mem, run);
    var e := After(g, w, run);
    var m := Held(g, e.cache);
    if !exists p :: Holds(m, p, la) {
      assert Absent(m, la);
      AbsentIsBacked(g, e, la);
    }
  }

  /**
   Ways, sets, line size, victim entries, prefetching, stalls and prefetch schedules cannot be
   told apart by a CPU: the same requests on the same initial memory get the same responses.
   */
  lemma CachesAreIndistinguishable(g1: Geometry, w1: World, run1: seq<Inputs>,
                                   g2: Geometry, w2: World, run2: seq<Inputs>, mem: Memory)
    requires Boot(g1, w1, mem) && Boot(g2, w2, mem)
    requires After(g1, w1, run1).requests == After(g2, w2, run2).requests
    ensures var a1, a2 := After(g1, w1, run1).answers, After(g2, w2, run2).answers;
            && (a1 <= a2 || a2 <= a1) && -1 <= |a1| - |a2| <= 1
            && (PhaseOf(After(g1, w1, run1).cache) == PhaseOf(After(g2, w2, run2).cache) == Quiet ==> a1 == a2)
  {
    hide Boot, Step, After, PhaseOf;
    CacheIsInvisible(g1, w1, mem, run1);
    CacheIsInvisible(g2, w2, mem, run2);
  }

  /**
   The fatal assertions cannot fire: accepts are one-hot, no line is both in L1 and in the victim
   cache, and none is there twice. A swap always has a line to move down.
   */
  lemma FatalAssertionsUnreachable(g: Geometry, w: World, mem: Memory, run: seq<Inputs>)
    requires Boot(g, w, mem)
    ensures var c := After(g, w, run).cache;
            && (c.fsm == Lookup ==> !(HitWay(g, c, g.ways) >= 0 && VictimHit(g, c, g.victims) >= 0))
            && (forall i, j :: 0 <= i < j < g.victims && c.vc[i].valid && c.vc[j].valid ==>
                  c.vc[i].addr != c.vc[j].addr)
            && (c.fsm == VcSwap ==> c.evicted.valid)
            && (forall i :: !(AcceptsCpu(After(g, w, run), i) && AcceptExt(g, c, i))
                  && !(AcceptsCpu(After(g, w, run), i) && AcceptNext(g, c, i))
                  && !(AcceptExt(g, c, i) && AcceptNext(g, c, i)))
  {
    RunIsGood(g, w, mem, run);
    hide Boot, Step, After, Backed, Agrees, Placed, FullBehindVictims, Owed, Target;
    var e, c := After(g, w, run), After(g, w, run).cache;
    var m := Held(g, c);
    if c.fsm == Lookup && HitWay(g, c, g.ways) >= 0 {
      MatchIsCopy(g, c, HitWay(g, c, g.ways));
    }
    if VictimHit(g, c, g.victims) >= 0 {
      VictimMatchIsCopy(g, c, VictimHit(g, c, g.victims));
    }
    forall i, j | 0 <= i < j < g.victims && c.vc[i].valid && c.vc[j].valid
      ensures c.vc[i].addr != c.vc[j].addr
    {
      assert VC(i) in AllSlots(g) && VC(j) in AllSlots(g);
      assert m[VC(i)] == c.vc[i] && m[VC(j)] == c.vc[j];
    }
  }

  /** Every clean copy equals lower memory in every reachable state, mid-eviction included. */
  lemma CleanCopiesEqualMemory(g: Geometry, w: World, mem: Memory, run: seq<Inputs>, p: Slot)
    requires Boot(g, w, mem)
    ensures var e := After(g, w, run);
            var m := Held(g, e.cache);
            p in m && m[p].valid && !m[p].dirty ==> InSpace(g, m[p].addr) && m[p].line == LineAt(g, e.lower, m[p].addr)
  {
    RunIsGood(g, w, mem, run);
    hide Boot, Step, After, Settled;
    var e := After(g, w, run);
    var m := Held(g, e.cache);
    if p in m && m[p].valid && !m[p].dirty {
      CleanCopyIsMemory(g, m, e.lower, e.flat, p);
    }
  }
}
