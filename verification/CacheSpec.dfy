/**
 The clocked behaviour of src/l1d_cache_legacy.sv as a function from the registers before a
 clock edge and the inputs of that cycle to the registers after it.
 */
module CacheSpec {
  import opened Geometries
  import opened Bytes
  import opened LoadStore
  import NextLine

  type Line = seq<Byte>

  datatype Fsm =
    Idle | Lookup | HitWrite | VcSwap | WbReq | VcInsert | MemReadReq | MemReadWait | Install | Resp

  /** One L1 way of one set: metadata flip-flops plus the tag and data SRAM words. */
  datatype Entry = Entry(valid: bool, dirty: bool, prefetched: bool, tag: nat, line: Line)

  /** The registered read port of one way's tag and data SRAM (src/l1d_sram.sv). */
  datatype SramOut = SramOut(tag: nat, line: Line)

  /** A line together with its address: a victim-cache entry, or the evicted_* snapshot. */
  datatype Copy = Copy(valid: bool, dirty: bool, prefetched: bool, addr: nat, line: Line)

  datatype Stats = Stats(
    cpuHits: nat, cpuMisses: nat, victimHits: nat, writebacks: nat, prefetchFills: nat,
    prefetchUseful: nat, prefetchUseless: nat, prefetchPollution: nat, prefetchDropped: nat)

  const NO_STATS := Stats(0, 0, 0, 0, 0, 0, 0, 0, 0)

  datatype State = State(
    fsm: Fsm,
    l1: seq<seq<Entry>>,        // [way][set]
    q: seq<SramOut>,            // [way]
    replacement: seq<nat>,      // [set]
    vc: seq<Copy>,
    vcRr: nat,
    req: Request,
    reqIsPrefetch: bool,
    selectedWay: nat,
    selectedVc: nat,
    workingLine: Line,
    workingDirty: bool,
    fillLine: Line,
    evicted: Copy,
    wbAddr: nat,
    wbLine: Line,
    response: Response,
    stats: Stats,
    nextLine: NextLine.Register)

  datatype Inputs = Inputs(
    cfgPrefetch: bool, cfgNextLine: bool,
    extValid: bool, extAddr: Address,
    cpuValid: bool, cpu: Request, rspReady: bool,
    memReady: bool, memRspValid: bool, memRspLine: Line)

  datatype Outputs = Outputs(
    cpuReady: bool, rspValid: bool, response: Response, extReady: bool,
    memValid: bool, memWrite: bool, memAddr: nat, memLine: Line)

  // ---------------------------------------------------------------- register widths

  predicate SizedL1(g: Geometry, l1: seq<seq<Entry>>) {
    && |l1| == g.ways
    && (forall w :: 0 <= w < |l1| ==> |l1[w]| == g.sets)
    && (forall w, i :: 0 <= w < |l1| && 0 <= i < |l1[w]| ==> |l1[w][i].line| == g.lineBytes)
  }

  predicate SizedVc(g: Geometry, vc: seq<Copy>) {
    && |vc| == g.victims
    && forall i :: 0 <= i < |vc| ==> |vc[i].line| == g.lineBytes
  }

  /** The request being served lies inside one line whenever the datapath looks at it. */
  predicate Serving(g: Geometry, s: State)
    requires g.Positive()
  {
    && g.Aligned(s.nextLine.addr)
    && (s.fsm == Idle || s.fsm == Resp || g.Offset(s.req.addr) + AccessBytes(s.req.size) <= g.lineBytes)
  }

  predicate Sized(g: Geometry, s: State) {
    && g.Positive() && g.ways >= 1 && g.victims >= 1
    && SizedL1(g, s.l1) && SizedVc(g, s.vc)
    && |s.q| == g.ways && (forall w :: 0 <= w < |s.q| ==> |s.q[w].line| == g.lineBytes)
    && |s.replacement| == g.sets && (forall i :: 0 <= i < |s.replacement| ==> s.replacement[i] < g.ways)
    && s.vcRr < g.victims && s.selectedWay < g.ways && s.selectedVc < g.victims
    && |s.workingLine| == |s.fillLine| == |s.evicted.line| == |s.wbLine| == g.lineBytes
    && Serving(g, s)
  }

  const CLEARED_REQUEST: Request := Request(0, false, 3, false, ZERO_WORD)

  /** An invalid copy of zeros. */
  function NoCopy(g: Geometry): Copy {
    Copy(false, false, false, 0, Repeat(0, g.lineBytes))
  }

  /** Reset clears every register; the SRAM contents stay unknown. */
  predicate IsReset(g: Geometry, s: State) {
    var zeros := Repeat(0, g.lineBytes);
    && Sized(g, s)
    && s.fsm == Idle && s.req == CLEARED_REQUEST && !s.reqIsPrefetch
    && s.selectedWay == s.selectedVc == s.vcRr == s.wbAddr == 0 && !s.workingDirty
    && s.workingLine == s.fillLine == s.wbLine == zeros && s.evicted == NoCopy(g)
    && s.response == Response(ZERO_WORD, false, RSP_OK)
    && s.stats == NO_STATS && s.nextLine == NextLine.RESET
    && (forall w, i :: 0 <= w < g.ways && 0 <= i < g.sets ==>
          !s.l1[w][i].valid && !s.l1[w][i].dirty && !s.l1[w][i].prefetched)
    && (forall i :: 0 <= i < g.sets ==> s.replacement[i] == 0)
    && (forall i :: 0 <= i < g.victims ==> s.vc[i] == NoCopy(g))
  }

  // ------------------------------------------------------------- combinational part

  function ReqSet(g: Geometry, s: State): (i: nat)
    requires g.Positive()
    ensures i < g.sets
  {
    g.SetOf(s.req.addr)
  }

  function ReqLine(g: Geometry, s: State): nat
    requires g.Positive()
  {
    g.LineAddr(s.req.addr)
  }

  predicate WayMatches(g: Geometry, s: State, w: nat)
    requires Sized(g, s) && w < g.ways
  {
    s.l1[w][ReqSet(g, s)].valid && s.q[w].tag == g.TagOf(s.req.addr)
  }

  /** Last matching way below n, or -1. */
  function HitWay(g: Geometry, s: State, n: nat): (w: int)
    requires Sized(g, s) && n <= g.ways
    ensures -1 <= w < n
    ensures w >= 0 ==> WayMatches(g, s, w)
    ensures forall k :: 0 <= k < n && w < k ==> !WayMatches(g, s, k)
  {
    if n == 0 then -1 else if WayMatches(g, s, n - 1) then n - 1 else HitWay(g, s, n - 1)
  }

  /** First invalid way below n of the requested set, or -1. */
  function InvalidWay(g: Geometry, s: State, n: nat): (w: int)
    requires Sized(g, s) && n <= g.ways
    ensures -1 <= w < n
    ensures w >= 0 ==> !s.l1[w][ReqSet(g, s)].valid
    ensures forall k :: 0 <= k < n && (w < 0 || k < w) ==> s.l1[k][ReqSet(g, s)].valid
  {
    if n == 0 then -1
    else
      var earlier := InvalidWay(g, s, n - 1);
      if earlier >= 0 then earlier else if !s.l1[n - 1][ReqSet(g, s)].valid then n - 1 else -1
  }

  predicate VictimMatches(g: Geometry, s: State, i: nat)
    requires Sized(g, s) && i < g.victims
  {
    s.vc[i].valid && s.vc[i].addr == ReqLine(g, s)
  }

  /** Last matching victim entry below n, or -1. */
  function VictimHit(g: Geometry, s: State, n: nat): (v: int)
    requires Sized(g, s) && n <= g.victims
    ensures -1 <= v < n
    ensures v >= 0 ==> VictimMatches(g, s, v)
    ensures forall k :: 0 <= k < n && v < k ==> !VictimMatches(g, s, k)
  {
    if n == 0 then -1 else if VictimMatches(g, s, n - 1) then n - 1 else VictimHit(g, s, n - 1)
  }

  predicate AcceptExt(g: Geometry, s: State, i: Inputs) {
    s.fsm == Idle && !i.cpuValid && g.enablePrefetch && i.cfgPrefetch && i.extValid
  }

  predicate CandidateReady(g: Geometry, s: State, i: Inputs) {
    s.fsm == Idle && !i.cpuValid && !i.extValid && g.enablePrefetch && i.cfgPrefetch
  }

  predicate AcceptNext(g: Geometry, s: State, i: Inputs) {
    CandidateReady(g, s, i) && s.nextLine.pending
  }

  function GeneratorInput(g: Geometry, s: State, i: Inputs): NextLine.Input
    requires g.Positive()
  {
    NextLine.Input(
      g.enablePrefetch && i.cfgPrefetch && i.cfgNextLine,
      s.fsm == Install && !s.reqIsPrefetch,
      ReqLine(g, s),
      CandidateReady(g, s, i))
  }

  function OutputsOf(g: Geometry, s: State, i: Inputs): Outputs
    requires g.Positive()
  {
    Outputs(
      s.fsm == Idle, s.fsm == Resp, s.response,
      s.fsm == Idle && !i.cpuValid && g.enablePrefetch && i.cfgPrefetch,
      s.fsm == WbReq || s.fsm == MemReadReq,
      s.fsm == WbReq,
      if s.fsm == WbReq then s.wbAddr else if s.fsm == MemReadReq then ReqLine(g, s) else 0,
      if s.fsm == WbReq then s.wbLine else [])
  }

  // ------------------------------------------------------------------- SRAM ports

  /** A read launched on every way; the outputs are visible in the next cycle. */
  function Launch(g: Geometry, s: State, i: nat): (q: seq<SramOut>)
    requires Sized(g, s) && i < g.sets
    ensures |q| == g.ways
    ensures forall w :: 0 <= w < g.ways ==> q[w] == SramOut(s.l1[w][i].tag, s.l1[w][i].line)
  {
    seq(g.ways, w requires 0 <= w < g.ways => SramOut(s.l1[w][i].tag, s.l1[w][i].line))
  }

  /** A write to one way; the other ways perform a read of the same set. */
  function WritePort(g: Geometry, s: State, line: Line): (q: seq<SramOut>)
    requires Sized(g, s)
    ensures |q| == g.ways
  {
    Launch(g, s, ReqSet(g, s))[s.selectedWay := SramOut(g.TagOf(s.req.addr), line)]
  }

  function WithEntry(s: State, w: nat, i: nat, e: Entry): (s': State)
    requires w < |s.l1| && i < |s.l1[w]|
  {
    s.(l1 := s.l1[w := s.l1[w][i := e]])
  }

  // -------------------------------------------------------------------- the states

  function PrefetchRequest(a: Address): Request {
    Request(a, false, 3, false, ZERO_WORD)
  }

  function AcceptDemand(g: Geometry, s: State, r: Request): State
    requires Sized(g, s)
  {
    if Misaligned(r.addr, r.size) then
      s.(req := r, reqIsPrefetch := false, fsm := Resp,
         response := Response(ZERO_WORD, true, if r.write then RSP_STORE_MISALIGNED else RSP_LOAD_MISALIGNED))
    else
      s.(req := r, reqIsPrefetch := false, fsm := Lookup, response := Response(ZERO_WORD, false, RSP_OK),
         q := Launch(g, s, g.SetOf(r.addr)))
  }

  /** A prefetch of line address `a`; the SRAM read uses the set of the raw candidate address. */
  function AcceptPrefetch(g: Geometry, s: State, a: Address, candidate: Address): State
    requires Sized(g, s)
  {
    s.(req := PrefetchRequest(a), reqIsPrefetch := true, fsm := Lookup, q := Launch(g, s, g.SetOf(candidate)))
  }

  function FromIdle(g: Geometry, s: State, i: Inputs): State
    requires Sized(g, s)
  {
    if i.cpuValid then AcceptDemand(g, s, i.cpu)
    else if AcceptExt(g, s, i) then AcceptPrefetch(g, s, g.LineAddr(i.extAddr), i.extAddr)
    else if AcceptNext(g, s, i) then AcceptPrefetch(g, s, s.nextLine.addr, s.nextLine.addr)
    else s
  }

  function MergedLine(g: Geometry, s: State, line: Line): (merged: Line)
    requires g.Positive() && g.Offset(s.req.addr) + AccessBytes(s.req.size) <= |line|
    ensures |merged| == |line|
  {
    if s.req.write then MergeResult(line, g.Offset(s.req.addr), s.req.wdata, s.req.size) else line
  }

  function LoadOf(g: Geometry, s: State, line: Line): Word
    requires g.Positive() && g.Offset(s.req.addr) + AccessBytes(s.req.size) <= |line|
  {
    LoadResult(line, g.Offset(s.req.addr), s.req.size, s.req.unsigned)
  }

  function FromLookupHit(g: Geometry, s: State, w: nat): (s': State)
    requires Sized(g, s) && s.fsm == Lookup && w < g.ways
    ensures Sized(g, s') && s'.nextLine == s.nextLine
  {
    if s.reqIsPrefetch then s.(selectedWay := w, fsm := Idle)
    else
      var i := ReqSet(g, s);
      var e := s.l1[w][i];
      var line := MergedLine(g, s, s.q[w].line);
      WithEntry(s, w, i, e.(prefetched := false)).(
        selectedWay := w,
        replacement := s.replacement[i := (w + 1) % g.ways],
        stats := s.stats.(cpuHits := s.stats.cpuHits + 1,
                          prefetchUseful := s.stats.prefetchUseful + (if e.prefetched then 1 else 0)),
        workingLine := if s.req.write then line else s.workingLine,
        response := s.response.(data := LoadOf(g, s, line)),
        fsm := if s.req.write then HitWrite else Resp)
  }

  /** What leaves L1 when way w of the requested set is replaced. */
  function Snapshot(g: Geometry, s: State, w: nat): Copy
    requires Sized(g, s) && w < g.ways
  {
    var e := s.l1[w][ReqSet(g, s)];
    Copy(true, e.dirty, e.prefetched, g.Compose(s.q[w].tag, ReqSet(g, s)), s.q[w].line)
  }

  function FromLookupVictim(g: Geometry, s: State, v: nat): (s': State)
    requires Sized(g, s) && s.fsm == Lookup && v < g.victims
    ensures Sized(g, s') && s'.nextLine == s.nextLine
  {
    if s.reqIsPrefetch then s.(fsm := Idle)
    else
      var i := ReqSet(g, s);
      var free := InvalidWay(g, s, g.ways);
      var line := MergedLine(g, s, s.vc[v].line);
      s.(selectedVc := v,
         selectedWay := if free >= 0 then free else s.replacement[i],
         evicted := if free >= 0 then NoCopy(g) else Snapshot(g, s, s.replacement[i]),
         stats := s.stats.(cpuMisses := s.stats.cpuMisses + 1,
                           victimHits := s.stats.victimHits + 1,
                           prefetchUseful := s.stats.prefetchUseful + (if s.vc[v].prefetched then 1 else 0)),
         workingLine := line,
         workingDirty := s.req.write || s.vc[v].dirty,
         response := s.response.(data := LoadOf(g, s, line)),
         fsm := VcSwap)
  }

  function FromLookupMiss(g: Geometry, s: State): (s': State)
    requires Sized(g, s) && s.fsm == Lookup
    ensures Sized(g, s') && s'.nextLine == s.nextLine
  {
    var i := ReqSet(g, s);
    var free := InvalidWay(g, s, g.ways);
    var counted := s.stats.(cpuMisses := s.stats.cpuMisses + (if s.reqIsPrefetch then 0 else 1));
    if free >= 0 then
      s.(selectedWay := free, evicted := NoCopy(g), stats := counted, fsm := MemReadReq)
    else
      var w := s.replacement[i];
      var displaces := s.reqIsPrefetch && !s.l1[w][i].prefetched;
      var v := s.vc[s.vcRr];
      s.(selectedWay := w, selectedVc := s.vcRr,
         evicted := Snapshot(g, s, w),
         stats := counted.(prefetchPollution := counted.prefetchPollution + (if displaces then 1 else 0)),
         wbAddr := if v.valid && v.dirty then v.addr else s.wbAddr,
         wbLine := if v.valid && v.dirty then v.line else s.wbLine,
         fsm := if v.valid && v.dirty then WbReq else VcInsert)
  }

  function FromLookup(g: Geometry, s: State): (s': State)
    requires Sized(g, s) && s.fsm == Lookup
    ensures Sized(g, s') && s'.nextLine == s.nextLine
  {
    var w, v := HitWay(g, s, g.ways), VictimHit(g, s, g.victims);
    if w >= 0 then FromLookupHit(g, s, w)
    else if v >= 0 then FromLookupVictim(g, s, v)
    else FromLookupMiss(g, s)
  }

  function FromHitWrite(g: Geometry, s: State): (s': State)
    requires Sized(g, s) && s.fsm == HitWrite
    ensures Sized(g, s') && s'.nextLine == s.nextLine
  {
    var i := ReqSet(g, s);
    var e := s.l1[s.selectedWay][i];
    WithEntry(s, s.selectedWay, i, Entry(e.valid, true, false, g.TagOf(s.req.addr), s.workingLine)).(
      q := WritePort(g, s, s.workingLine),
      fsm := Resp)
  }

  function FromVcSwap(g: Geometry, s: State): (s': State)
    requires Sized(g, s) && s.fsm == VcSwap
    ensures Sized(g, s') && s'.nextLine == s.nextLine
  {
    var i := ReqSet(g, s);
    var v := s.vc[s.selectedVc];
    WithEntry(s, s.selectedWay, i, Entry(true, s.workingDirty, false, g.TagOf(s.req.addr), s.workingLine)).(
      q := WritePort(g, s, s.workingLine),
      replacement := s.replacement[i := (s.selectedWay + 1) % g.ways],
      vc := s.vc[s.selectedVc := if s.evicted.valid then s.evicted
                                 else v.(valid := false, dirty := false, prefetched := false)],
      fsm := Resp)
  }

  function FromWbReq(s: State, i: Inputs): State
    requires s.fsm == WbReq
  {
    if i.memReady then s.(stats := s.stats.(writebacks := s.stats.writebacks + 1), fsm := VcInsert) else s
  }

  function FromVcInsert(g: Geometry, s: State): (s': State)
    requires Sized(g, s) && s.fsm == VcInsert
    ensures Sized(g, s') && s'.nextLine == s.nextLine
  {
    var i := ReqSet(g, s);
    var v, e := s.vc[s.selectedVc], s.l1[s.selectedWay][i];
    var useless := v.valid && v.prefetched;
    WithEntry(s, s.selectedWay, i, e.(valid := false, dirty := false, prefetched := false)).(
      vc := s.vc[s.selectedVc := s.evicted],
      vcRr := if s.vcRr == g.victims - 1 then 0 else s.vcRr + 1,
      stats := s.stats.(prefetchUseless := s.stats.prefetchUseless + (if useless then 1 else 0)),
      fsm := MemReadReq)
  }

  function FromMemReadReq(s: State, i: Inputs): State
    requires s.fsm == MemReadReq
  {
    if i.memReady then s.(fsm := MemReadWait) else s
  }

  function FromMemReadWait(g: Geometry, s: State, i: Inputs): (s': State)
    requires Sized(g, s) && s.fsm == MemReadWait && (i.memRspValid ==> |i.memRspLine| == g.lineBytes)
    ensures Sized(g, s') && s'.nextLine == s.nextLine
  {
    if !i.memRspValid then s
    else
      var line := if s.reqIsPrefetch then i.memRspLine else MergedLine(g, s, i.memRspLine);
      s.(fillLine := line, response := s.response.(data := LoadOf(g, s, line)), fsm := Install)
  }

  function FromInstall(g: Geometry, s: State): (s': State)
    requires Sized(g, s) && s.fsm == Install
    ensures Sized(g, s') && s'.nextLine == s.nextLine
  {
    var i := ReqSet(g, s);
    var e := Entry(true, !s.reqIsPrefetch && s.req.write, s.reqIsPrefetch, g.TagOf(s.req.addr), s.fillLine);
    WithEntry(s, s.selectedWay, i, e).(
      q := WritePort(g, s, s.fillLine),
      replacement := s.replacement[i := (s.selectedWay + 1) % g.ways],
      stats := s.stats.(prefetchFills := s.stats.prefetchFills + (if s.reqIsPrefetch then 1 else 0)),
      fsm := if s.reqIsPrefetch then Idle else Resp)
  }

  function FromResp(s: State, i: Inputs): State
    requires s.fsm == Resp
  {
    if i.rspReady then s.(fsm := Idle) else s
  }

  predicate InputsFit(g: Geometry, s: State, i: Inputs) {
    s.fsm == MemReadWait && i.memRspValid ==> |i.memRspLine| == g.lineBytes
  }

  /** The case statement of the clocked block. */
  function Core(g: Geometry, s: State, i: Inputs): State
    requires Sized(g, s) && InputsFit(g, s, i)
  {
    match s.fsm
    case Idle => FromIdle(g, s, i)
    case Lookup => FromLookup(g, s)
    case HitWrite => FromHitWrite(g, s)
    case VcSwap => FromVcSwap(g, s)
    case WbReq => FromWbReq(s, i)
    case VcInsert => FromVcInsert(g, s)
    case MemReadReq => FromMemReadReq(s, i)
    case MemReadWait => FromMemReadWait(g, s, i)
    case Install => FromInstall(g, s)
    case Resp => FromResp(s, i)
  }

  /** One clock edge of the whole module, generator and drop counter included. */
  function Clock(g: Geometry, s: State, i: Inputs): State
    requires Sized(g, s) && InputsFit(g, s, i)
  {
    var c := Core(g, s, i);
    c.(nextLine := NextLine.Clock(g, s.nextLine, GeneratorInput(g, s, i)),
       stats := c.stats.(prefetchDropped := c.stats.prefetchDropped + (if s.nextLine.dropped then 1 else 0)))
  }
}
