/** The inductive invariant of the cache through every mid-request state. */
module Invariant {
  import opened Arithmetic
  import opened Wrappers
  import opened Geometries
  import opened LoadStore
  import opened CacheSpec
  import opened Coherence
  import opened Systems

  ghost function Held(g: Geometry, c: State): Copies
    requires Sized(g, c)
  {
    CopiesOf(g, c.l1, c.vc)
  }

  /** The L1 slot and the victim-cache slot chosen for the current request. */
  function Way(g: Geometry, c: State): Slot
    requires g.Positive()
  {
    L1(ReqSet(g, c), c.selectedWay)
  }

  function Victim(c: State): Slot {
    VC(c.selectedVc)
  }

  /** The SRAM outputs still show the requested set. */
  ghost predicate Fresh(g: Geometry, c: State)
    requires Sized(g, c)
  {
    forall w :: 0 <= w < g.ways ==>
      c.q[w] == SramOut(c.l1[w][ReqSet(g, c)].tag, c.l1[w][ReqSet(g, c)].line)
  }

  ghost predicate Evicting(g: Geometry, c: State, m: Copies)
    requires g.Positive()
  {
    Way(g, c) in m && m[Way(g, c)].valid && c.evicted == m[Way(g, c)]
  }

  ghost predicate SetFull(m: Copies, si: nat) {
    forall p :: p in m && p.L1? && p.si == si ==> m[p].valid
  }

  ghost predicate Filling(g: Geometry, c: State, m: Copies)
    requires g.Positive()
  {
    Way(g, c) in m && !m[Way(g, c)].valid && Absent(m, ReqLine(g, c))
  }

  /** The requested line as it will look once the request has been performed. */
  ghost function Target(g: Geometry, w: World): Line
    requires Fit(g, w) && Serving(g, w.cache) && w.cache.fsm != Idle && w.cache.fsm != Resp
  {
    g.LineFits(w.cache.req.addr);
    MergedLine(g, w.cache, LineAt(g, w.flat, ReqLine(g, w.cache)))
  }

  // What the request registers and the line snapshots mean in each state.

  /** A request in progress: a prefetch, or an aligned demand whose answer is still owed. */
  ghost predicate Owed(w: World)
    requires IsMemory(w.flat)
  {
    var c := w.cache;
    if c.reqIsPrefetch then !c.req.write
    else
      && !Misaligned(c.req.addr, c.req.size) && w.expected == Answer(w.flat, c.req)
      && !c.response.error && c.response.cause == RSP_OK
  }

  /** A demand whose answer already sits in the response registers. */
  ghost predicate Answered(w: World) {
    !w.cache.reqIsPrefetch && w.cache.response == w.expected
  }

  ghost predicate InLookup(g: Geometry, w: World)
    requires Fit(g, w)
  {
    Fresh(g, w.cache) && Owed(w)
  }

  ghost predicate InHitWrite(g: Geometry, w: World)
    requires Fit(g, w) && w.cache.fsm == HitWrite
  {
    var c := w.cache;
    && Owed(w) && Answered(w) && c.req.write
    && Holds(Held(g, c), Way(g, c), ReqLine(g, c)) && c.workingLine == Target(g, w)
  }

  ghost predicate InVcSwap(g: Geometry, w: World)
    requires Fit(g, w) && w.cache.fsm == VcSwap
  {
    var c, m := w.cache, Held(g, w.cache);
    && Owed(w) && Answered(w)
    && Holds(m, Victim(c), ReqLine(g, c)) && Evicting(g, c, m)
    && c.workingLine == Target(g, w) && c.workingDirty == (c.req.write || m[Victim(c)].dirty)
  }

  ghost predicate Replacing(g: Geometry, w: World)
    requires Fit(g, w)
  {
    var c, m := w.cache, Held(g, w.cache);
    && Owed(w) && Evicting(g, c, m) && SetFull(m, ReqSet(g, c)) && Absent(m, ReqLine(g, c))
    && c.selectedVc == c.vcRr && Victim(c) in m
  }

  ghost predicate InWbReq(g: Geometry, w: World)
    requires Fit(g, w)
  {
    var c, m := w.cache, Held(g, w.cache);
    Replacing(g, w) && Holds(m, Victim(c), c.wbAddr) && m[Victim(c)].dirty && c.wbLine == m[Victim(c)].line
  }

  ghost predicate InVcInsert(g: Geometry, w: World)
    requires Fit(g, w)
  {
    var v := w.cache.vc[w.cache.selectedVc];
    && Replacing(g, w)
    && (v.valid && InSpace(g, v.addr) ==> LineAt(g, w.lower, v.addr) == LineAt(g, w.flat, v.addr))
  }

  ghost predicate InMemRead(g: Geometry, w: World)
    requires Fit(g, w)
  {
    Owed(w) && Filling(g, w.cache, Held(g, w.cache))
  }

  ghost predicate InMemReadWait(g: Geometry, w: World)
    requires Fit(g, w)
  {
    g.LineFits(w.cache.req.addr);
    InMemRead(g, w) && w.inFlight == Some(LineAt(g, w.lower, ReqLine(g, w.cache)))
  }

  ghost predicate InInstall(g: Geometry, w: World)
    requires Fit(g, w) && w.cache.fsm == Install
  {
    InMemRead(g, w) && w.cache.fillLine == Target(g, w) && (!w.cache.reqIsPrefetch ==> Answered(w))
  }

  ghost predicate Settled(g: Geometry, w: World) {
    && Fit(g, w)
    && (w.inFlight.Some? ==> w.cache.fsm == MemReadWait)
    && match w.cache.fsm
       case Idle => true
       case Lookup => InLookup(g, w)
       case HitWrite => InHitWrite(g, w)
       case VcSwap => InVcSwap(g, w)
       case WbReq => InWbReq(g, w)
       case VcInsert => InVcInsert(g, w)
       case MemReadReq => InMemRead(g, w)
       case MemReadWait => InMemReadWait(g, w)
       case Install => InInstall(g, w)
       case Resp => Answered(w)
  }

  /** The slot that has been emptied but not yet refilled. */
  function Hole(g: Geometry, c: State): Option<Slot>
    requires g.Positive()
  {
    if c.fsm == MemReadReq || c.fsm == MemReadWait || c.fsm == Install then Some(Way(g, c)) else None
  }

  /** The copies are coherent and victims are backed by full sets. */
  ghost predicate Consistent(g: Geometry, w: World) {
    && Fit(g, w)
    && Coherent(g, Held(g, w.cache), w.lower, w.flat)
    && FullBehindVictims(g, Held(g, w.cache), Hole(g, w.cache))
  }

  ghost predicate Good(g: Geometry, w: World) {
    Consistent(g, w) && Settled(g, w)
  }

  // ------------------------------------------------------------ requests and lines

  lemma LineOffset(g: Geometry, a: nat)
    requires g.Positive()
    ensures g.LineAddr(a) + g.Offset(a) == a
  {
  }

  lemma SliceOfSlice(mem: Memory, at: nat, size: nat, offset: nat, n: nat)
    requires offset + n <= size && at + size <= |mem|
    ensures mem[at..at + size][offset..offset + n] == mem[at + offset..at + offset + n]
  {
    var line := mem[at..at + size];
    assert forall k :: 0 <= k < size ==> line[k] == mem[at + k];
    assert line[offset..offset + n] == mem[at + offset..at + offset + n];
  }

  /** Bytes of an access are bytes of its line. */
  lemma LineWindow(g: Geometry, mem: Memory, a: Address, n: nat)
    requires g.Positive() && IsMemory(mem)
    requires g.Offset(a) + n <= g.lineBytes && g.LineAddr(a) + g.lineBytes <= ADDRESS_SPACE
    ensures g.LineAddr(a) + g.Offset(a) == a
    ensures LineAt(g, mem, g.LineAddr(a))[g.Offset(a)..g.Offset(a) + n] == mem[a..a + n]
  {
    hide Geometry.LineAddr, Geometry.Offset;
    LineOffset(g, a);
    SliceOfSlice(mem, g.LineAddr(a), g.lineBytes, g.Offset(a), n);
  }

  lemma LineInSpace(g: Geometry, a: Address)
    requires g.Valid()
    ensures InSpace(g, g.LineAddr(a))
  {
    hide IsPow2, Geometry.LineAddr, Geometry.SetOf, Geometry.TagOf;
    g.LineFits(a);
    g.LineAddrIdempotent(a);
  }

  /** A store rewrites its line and no other. */
  lemma StoreReplacesLine(g: Geometry, flat: Memory, r: Request)
    requires g.Valid() && IsMemory(flat) && !Misaligned(r.addr, r.size)
    requires g.Offset(r.addr) + AccessBytes(r.size) <= g.lineBytes
    ensures InSpace(g, g.LineAddr(r.addr))
    ensures var la := g.LineAddr(r.addr);
            var line := LineAt(g, flat, la);
            LineReplaced(g, flat, Apply(flat, r), la,
                         if r.write then MergeResult(line, g.Offset(r.addr), r.wdata, r.size) else line)
  {
    hide Misaligned, IsPow2, InSpace, LineAt, Geometry.Offset, Geometry.LineAddr;
    LineInSpace(g, r.addr);
    LineOffset(g, r.addr);
    if r.write {
      PutReplacesLine(g, flat, g.LineAddr(r.addr), r.addr, r.wdata[..AccessBytes(r.size)]);
    }
  }

  lemma AlignedAnswer(flat: Memory, r: Request)
    requires IsMemory(flat) && !Misaligned(r.addr, r.size)
    ensures var n := AccessBytes(r.size);
            && r.addr + n <= ADDRESS_SPACE
            && Answer(flat, r) == Response(Extend(Apply(flat, r)[r.addr..r.addr + n], r.unsigned), false, RSP_OK)
  {
    AlignedAccess(r.addr, r.size);
    hide Extend, Apply;
  }

  /** The datapath's load/merge on the requested line is the architectural access. */
  lemma DatapathIsArchitectural(g: Geometry, c: State, flat: Memory)
    requires g.Valid() && IsMemory(flat)
    requires !Misaligned(c.req.addr, c.req.size)
    requires g.Offset(c.req.addr) + AccessBytes(c.req.size) <= g.lineBytes
    ensures ReqLine(g, c) + g.lineBytes <= ADDRESS_SPACE
    ensures var merged := MergedLine(g, c, LineAt(g, flat, ReqLine(g, c)));
            && LineReplaced(g, flat, Apply(flat, c.req), ReqLine(g, c), merged)
            && Answer(flat, c.req) == Response(LoadOf(g, c, merged), false, RSP_OK)
  {
    hide Extend, Apply, Answer, Misaligned, MergeResult, AccessBytes;
    hide Geometry.LineAddr, Geometry.Offset, Geometry.Aligned, IsPow2;
    StoreReplacesLine(g, flat, c.req);
    AlignedAnswer(flat, c.req);
    LineWindow(g, Apply(flat, c.req), c.req.addr, AccessBytes(c.req.size));
  }

  /** A tag match in the requested set is a copy of the requested line. */
  lemma MatchIsCopy(g: Geometry, c: State, w: nat)
    requires Sized(g, c) && Fresh(g, c) && w < g.ways
    ensures L1(ReqSet(g, c), w) in Held(g, c)
    ensures WayMatches(g, c, w) <==> Holds(Held(g, c), L1(ReqSet(g, c), w), ReqLine(g, c))
  {
    var i := ReqSet(g, c);
    assert L1(i, w) in AllSlots(g);
    g.TagMatchIsLineMatch(c.l1[w][i].tag, c.req.addr);
  }

  lemma VictimMatchIsCopy(g: Geometry, c: State, k: nat)
    requires Sized(g, c) && k < g.victims
    ensures VC(k) in Held(g, c)
    ensures VictimMatches(g, c, k) <==> Holds(Held(g, c), VC(k), ReqLine(g, c))
  {
    assert VC(k) in AllSlots(g);
  }

  /** When neither search finds anything, no copy of the line exists anywhere. */
  lemma MissMeansAbsent(g: Geometry, c: State, lower: Memory, flat: Memory)
    requires Sized(g, c) && Fresh(g, c) && Coherent(g, Held(g, c), lower, flat)
    requires HitWay(g, c, g.ways) < 0 && VictimHit(g, c, g.victims) < 0
    ensures Absent(Held(g, c), ReqLine(g, c))
  {
    var m, la := Held(g, c), ReqLine(g, c);
    g.LineAddrIdempotent(c.req.addr);
    forall p | p in m
      ensures !Holds(m, p, la)
    {
      match p {
        case L1(i, w) =>
          if i == ReqSet(g, c) {
            MatchIsCopy(g, c, w);
          }
        case VC(k) =>
          VictimMatchIsCopy(g, c, k);
      }
    }
  }

  /** The snapshot taken of a valid way is the copy that the way holds. */
  lemma SnapshotIsCopy(g: Geometry, c: State, w: nat)
    requires Sized(g, c) && Fresh(g, c) && w < g.ways
    ensures L1(ReqSet(g, c), w) in Held(g, c)
    ensures c.l1[w][ReqSet(g, c)].valid <==> Held(g, c)[L1(ReqSet(g, c), w)].valid
    ensures c.l1[w][ReqSet(g, c)].valid ==> Snapshot(g, c, w) == Held(g, c)[L1(ReqSet(g, c), w)]
  {
    assert L1(ReqSet(g, c), w) in AllSlots(g);
  }

  /** A line waiting in the victim cache was pushed out of a set that is still full. */
  lemma VictimHitMeansFull(g: Geometry, c: State, v: nat)
    requires Sized(g, c) && v < g.victims && VictimMatches(g, c, v)
    requires FullBehindVictims(g, Held(g, c), None)
    ensures InvalidWay(g, c, g.ways) < 0
  {
    var m, n := Held(g, c), ReqSet(g, c);
    g.LineAddrIdempotent(c.req.addr);
    VictimMatchIsCopy(g, c, v);
    forall w | 0 <= w < g.ways
      ensures c.l1[w][n].valid
    {
      assert L1(n, w) in AllSlots(g);
      assert m[L1(n, w)].valid;
    }
  }

  lemma NoInvalidWayMeansFull(g: Geometry, c: State)
    requires Sized(g, c) && InvalidWay(g, c, g.ways) < 0
    ensures SetFull(Held(g, c), ReqSet(g, c))
  {
  }
}
