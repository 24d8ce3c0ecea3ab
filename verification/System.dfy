/**
 The cache wired to a lower line memory and a CPU. Everything the environment is free to do in
 a cycle is one `Inputs` value; a run is a sequence of them.
 */
module Systems {
  import opened Arithmetic
  import opened Wrappers
  import opened Geometries
  import opened Bytes
  import opened LoadStore
  import opened CacheSpec
  import opened Coherence
  import NextLine

  datatype World = World(
    cache: State,
    lower: Memory,
    inFlight: Option<Line>,       // read data the lower memory still has to return
    // what an observer of the CPU and memory ports has seen
    requests: seq<Request>,       // accepted CPU requests
    answers: seq<Response>,       // responses the CPU has taken
    demands: seq<nat>,            // lines of the accepted aligned requests
    hits: seq<bool>,              // the L1 outcome of each looked-up demand
    demandReads: seq<nat>,        // lines read from lower memory for demands
    prefetchReads: nat,
    writes: nat,
    // the specification state
    flat: Memory,                 // flat memory after the stores committed so far
    expected: Response)           // the architectural answer to the latest request

  /** The lower memory answers only while a read is outstanding, with the data it holds. */
  function Driven(w: World, i: Inputs): Inputs {
    if w.inFlight.Some? then i.(memRspLine := w.inFlight.value) else i.(memRspValid := false)
  }

  ghost predicate Fit(g: Geometry, w: World) {
    && g.Valid() && Sized(g, w.cache) && IsMemory(w.lower) && IsMemory(w.flat)
    && (w.inFlight.Some? ==> |w.inFlight.value| == g.lineBytes)
  }

  predicate AcceptsCpu(w: World, i: Inputs) {
    w.cache.fsm == Idle && i.cpuValid
  }

  predicate AcceptsRead(w: World, i: Inputs) {
    w.cache.fsm == MemReadReq && i.memReady
  }

  predicate AcceptsWrite(w: World, i: Inputs) {
    w.cache.fsm == WbReq && i.memReady
  }

  predicate ReturnsRead(w: World, i: Inputs) {
    w.cache.fsm == MemReadWait && i.memRspValid && w.inFlight.Some?
  }

  /** The edges on which a store becomes visible in the arrays. */
  predicate Commits(w: World) {
    w.cache.fsm == HitWrite || w.cache.fsm == VcSwap || (w.cache.fsm == Install && !w.cache.reqIsPrefetch)
  }

  predicate LooksUpDemand(w: World) {
    w.cache.fsm == Lookup && !w.cache.reqIsPrefetch
  }

  ghost function LowerAfter(w: World, i: Inputs): (m: Memory)
    ensures |m| == |w.lower|
  {
    var c := w.cache;
    if AcceptsWrite(w, i) && c.wbAddr + |c.wbLine| <= |w.lower| then Put(w.lower, c.wbAddr, c.wbLine) else w.lower
  }

  ghost function Step(g: Geometry, w: World, i: Inputs): World
    requires Fit(g, w)
  {
    var c := w.cache;
    var la := ReqLine(g, c);
    g.LineFits(c.req.addr);
    World(
      Clock(g, c, Driven(w, i)),
      LowerAfter(w, i),
      if AcceptsRead(w, i) then Some(LineAt(g, w.lower, la)) else if ReturnsRead(w, i) then None else w.inFlight,
      if AcceptsCpu(w, i) then w.requests + [i.cpu] else w.requests,
      if c.fsm == Resp && i.rspReady then w.answers + [c.response] else w.answers,
      if AcceptsCpu(w, i) && !Misaligned(i.cpu.addr, i.cpu.size) then w.demands + [g.LineAddr(i.cpu.addr)]
      else w.demands,
      if LooksUpDemand(w) then w.hits + [HitWay(g, c, g.ways) >= 0] else w.hits,
      if AcceptsRead(w, i) && !c.reqIsPrefetch then w.demandReads + [la] else w.demandReads,
      if AcceptsRead(w, i) && c.reqIsPrefetch then w.prefetchReads + 1 else w.prefetchReads,
      if AcceptsWrite(w, i) then w.writes + 1 else w.writes,
      if Commits(w) then Apply(w.flat, c.req) else w.flat,
      if AcceptsCpu(w, i) then Answer(w.flat, i.cpu) else w.expected)
  }

  /** The case statement's next registers, before the generator and the drop counter. */
  ghost function CoreStep(g: Geometry, w: World, i: Inputs): State
    requires Fit(g, w)
  {
    DrivenFits(g, w, i);
    Core(g, w.cache, Driven(w, i))
  }

  lemma StepKeepsFit(g: Geometry, w: World, i: Inputs)
    requires Fit(g, w)
    ensures Fit(g, Step(g, w, i))
  {
    hide IsPow2, Misaligned, Put, Extend, Clock, Sized, Apply, Answer;
    g.LineFits(w.cache.req.addr);
    DrivenFits(g, w, i);
    ClockKeepsSized(g, w.cache, Driven(w, i));
  }

  lemma DrivenFits(g: Geometry, w: World, i: Inputs)
    requires Fit(g, w)
    ensures var d := Driven(w, i);
            InputsFit(g, w.cache, d) && d.cpuValid == i.cpuValid && d.cpu == i.cpu && d.rspReady == i.rspReady
  {
    hide IsPow2, Sized;
  }

  lemma ClockKeepsSized(g: Geometry, s: State, i: Inputs)
    requires g.Valid() && Sized(g, s) && InputsFit(g, s, i)
    ensures Sized(g, Clock(g, s, i))
  {
    CoreKeepsSized(g, s, i);
    SuccessorAligned(g, ReqLine(g, s));
  }

  lemma SuccessorAligned(g: Geometry, a: Address)
    requires g.Valid()
    ensures g.Aligned(NextLine.Successor(g, a))
  {
    g.NextLineFollows(a);
  }

  lemma IdleKeepsSized(g: Geometry, s: State, i: Inputs)
    requires g.Valid() && Sized(g, s) && s.fsm == Idle
    ensures Sized(g, FromIdle(g, s, i)) && FromIdle(g, s, i).nextLine == s.nextLine
  {
    hide Misaligned;
    g.LineAddrIdempotent(i.extAddr);
    if i.cpuValid && !Misaligned(i.cpu.addr, i.cpu.size) {
      AlignedAccess(i.cpu.addr, i.cpu.size);
      g.AccessInsideLine(i.cpu.addr, AccessBytes(i.cpu.size));
    }
  }

  lemma CoreKeepsSized(g: Geometry, s: State, i: Inputs)
    requires g.Valid() && Sized(g, s) && InputsFit(g, s, i)
    ensures Sized(g, Core(g, s, i))
    ensures Core(g, s, i).nextLine == s.nextLine
  {
    hide FromIdle, FromLookup, FromHitWrite, FromVcSwap, FromVcInsert, FromMemReadWait, FromInstall;
    if s.fsm == Idle {
      IdleKeepsSized(g, s, i);
    }
  }

  /** The world after a whole run. */
  ghost function After(g: Geometry, w: World, run: seq<Inputs>): (w': World)
    requires Fit(g, w)
    ensures Fit(g, w')
  {
    if run == [] then w
    else
      var before := After(g, w, run[..|run| - 1]);
      StepKeepsFit(g, before, run[|run| - 1]);
      Step(g, before, run[|run| - 1])
  }

  /** Power-on: a cache just reset in front of an arbitrary memory. */
  ghost predicate Boot(g: Geometry, w: World, mem: Memory) {
    && Fit(g, w) && IsReset(g, w.cache)
    && w.lower == mem && w.flat == mem && w.inFlight == None
    && w.requests == [] && w.answers == [] && w.demands == [] && w.hits == []
    && w.demandReads == [] && w.prefetchReads == 0 && w.writes == 0
  }

  /** Every geometry that elaboration allows can be powered on in front of every memory. */
  lemma BootExists(g: Geometry, mem: Memory) returns (w: World)
    requires g.Valid() && IsMemory(mem)
    ensures Boot(g, w, mem)
  {
    var zeros := Repeat(0, g.lineBytes);
    var response := Response(ZERO_WORD, false, RSP_OK);
    var c := State(Idle, seq(g.ways, _ => seq(g.sets, _ => Entry(false, false, false, 0, zeros))),
                   seq(g.ways, _ => SramOut(0, zeros)), seq(g.sets, _ => 0), seq(g.victims, _ => NoCopy(g)),
                   0, CLEARED_REQUEST, false, 0, 0, zeros, false, zeros, NoCopy(g), 0, zeros, response, NO_STATS,
                   NextLine.RESET);
    w := World(c, mem, None, [], [], [], [], [], 0, 0, mem, response);
  }
}
