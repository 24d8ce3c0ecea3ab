/** The cache as a clocked object whose registers and arrays are updated in place. */
module Machine {
  import opened Geometries
  import opened Bytes
  import opened LoadStore
  import opened CacheSpec
  import Arithmetic
  import NextLine

  /** Cleared registers of the right sizes are a reset state. */
  lemma ClearedIsReset(g: Geometry, s: State)
    requires g.Valid() && s.fsm == Idle && s.req == CLEARED_REQUEST && !s.reqIsPrefetch
    requires s.selectedWay == s.selectedVc == s.vcRr == s.wbAddr == 0 && !s.workingDirty
    requires s.workingLine == s.fillLine == s.wbLine == Repeat(0, g.lineBytes) && s.evicted == NoCopy(g)
    requires s.response == Response(ZERO_WORD, false, RSP_OK) && s.stats == NO_STATS && s.nextLine == NextLine.RESET
    requires |s.l1| == g.ways && forall w :: 0 <= w < g.ways ==> |s.l1[w]| == g.sets
    requires forall w, i :: 0 <= w < g.ways && 0 <= i < g.sets ==>
      |s.l1[w][i].line| == g.lineBytes && !s.l1[w][i].valid && !s.l1[w][i].dirty && !s.l1[w][i].prefetched
    requires |s.q| == g.ways && forall w :: 0 <= w < g.ways ==> |s.q[w].line| == g.lineBytes
    requires |s.replacement| == g.sets && forall i :: 0 <= i < g.sets ==> s.replacement[i] == 0
    requires |s.vc| == g.victims && forall i :: 0 <= i < g.victims ==> s.vc[i] == NoCopy(g)
    ensures Sized(g, s) && IsReset(g, s)
  {
  }

  /** The registers that a demand's victim hit writes, given what the searches and the datapath deliver. */
  lemma VictimLatches(g: Geometry, s: State, v: nat, way: nat, snapshot: Copy, line: Line, data: Word)
    requires Sized(g, s) && s.fsm == Lookup && v < g.victims && !s.reqIsPrefetch
    requires var free, r := InvalidWay(g, s, g.ways), s.replacement[ReqSet(g, s)];
             if free >= 0 then way == free && snapshot == NoCopy(g) else way == r && snapshot == Snapshot(g, s, r)
    requires line == MergedLine(g, s, s.vc[v].line) && data == LoadOf(g, s, line)
    ensures FromLookupVictim(g, s, v) ==
            s.(selectedWay := way, selectedVc := v, evicted := snapshot, workingLine := line,
               workingDirty := s.req.write || s.vc[v].dirty, response := s.response.(data := data),
               stats := s.stats.(cpuMisses := s.stats.cpuMisses + 1, victimHits := s.stats.victimHits + 1,
                                 prefetchUseful := s.stats.prefetchUseful + (if s.vc[v].prefetched then 1 else 0)),
               fsm := VcSwap)
  {
    hide InvalidWay, Snapshot, MergedLine, LoadOf, NoCopy, ReqSet;
  }

  class Cache {
    const g: Geometry
    const l1: array2<Entry>          // [way, set]
    const q: array<SramOut>          // SRAM read ports, one per way
    const replacement: array<nat>
    const vc: array<Copy>
    const generator: NextLine.Generator

    var fsm: Fsm
    var vcRr: nat
    var req: Request
    var reqIsPrefetch: bool
    var selectedWay: nat
    var selectedVc: nat
    var workingLine: Line
    var workingDirty: bool
    var fillLine: Line
    var evicted: Copy
    var wbAddr: nat
    var wbLine: Line
    var response: Response
    var stats: Stats

    ghost predicate Shaped() {
      && g.Positive() && l1.Length0 == g.ways && l1.Length1 == g.sets
      && q.Length == g.ways && replacement.Length == g.sets && vc.Length == g.victims
      && generator.g == g
    }

    ghost function Ways(): (v: seq<seq<Entry>>)
      requires Shaped()
      reads l1
      ensures |v| == g.ways && forall w :: 0 <= w < g.ways ==> |v[w]| == g.sets
      ensures forall w, i :: 0 <= w < g.ways && 0 <= i < g.sets ==> v[w][i] == l1[w, i]
    {
      seq(g.ways, w requires 0 <= w < g.ways reads l1 =>
        seq(g.sets, i requires 0 <= i < g.sets reads l1 => l1[w, i]))
    }

    /** All registers and arrays as one value. */
    ghost function View(): State
      requires Shaped()
      reads this, l1, q, replacement, vc, generator
    {
      State(fsm, Ways(), q[..], replacement[..], vc[..], vcRr, req, reqIsPrefetch, selectedWay, selectedVc,
            workingLine, workingDirty, fillLine, evicted, wbAddr, wbLine, response, stats, generator.View())
    }

    ghost predicate Valid()
      reads this, l1, q, replacement, vc, generator
    {
      Shaped() && Sized(g, View())
    }

    /** Reset: every register is cleared, while the SRAM words are whatever they happen to be. */
    constructor (g: Geometry, sram: (nat, nat) -> SramOut)
      requires g.Valid()
      requires forall w, i :: |sram(w, i).line| == g.lineBytes
      ensures this.g == g && Valid() && IsReset(g, View())
      ensures fresh(l1) && fresh(q) && fresh(replacement) && fresh(vc) && fresh(generator)
    {
      hide Arithmetic.IsPow2;
      this.g := g;
      var zeros := Repeat(0, g.lineBytes);
      l1 := new Entry[g.ways, g.sets]((w: nat, i: nat) => Entry(false, false, false, sram(w, i).tag, sram(w, i).line));
      q := new SramOut[g.ways]((w: nat) => sram(w, 0));
      replacement := new nat[g.sets](_ => 0);
      vc := new Copy[g.victims](_ => NoCopy(g));
      generator := new NextLine.Generator(g);
      fsm, vcRr, reqIsPrefetch, selectedWay, selectedVc := Idle, 0, false, 0, 0;
      req := CLEARED_REQUEST;
      workingLine, workingDirty, fillLine := zeros, false, zeros;
      evicted := NoCopy(g);
      wbAddr, wbLine := 0, zeros;
      response, stats := Response(ZERO_WORD, false, RSP_OK), NO_STATS;
      new;
      ghost var s := View();
      hide Sized, IsReset;
      ClearedIsReset(g, s);
    }

    // ------------------------------------------------------------ combinational searches

    method FindHitWay() returns (w: int)
      requires Valid()
      ensures w == HitWay(g, View(), g.ways)
    {
      w := -1;
      var i, tag := g.SetOf(req.addr), g.TagOf(req.addr);
      for k := 0 to g.ways
        invariant w == HitWay(g, View(), k)
      {
        if l1[k, i].valid && q[k].tag == tag {
          w := k;
        }
      }
    }

    method FindInvalidWay() returns (w: int)
      requires Valid()
      ensures w == InvalidWay(g, View(), g.ways)
    {
      w := -1;
      var i := g.SetOf(req.addr);
      for k := 0 to g.ways
        invariant w == InvalidWay(g, View(), k)
      {
        if !l1[k, i].valid && w == -1 {
          w := k;
        }
      }
    }

    method FindVictim() returns (v: int)
      requires Valid()
      ensures v == VictimHit(g, View(), g.victims)
    {
      v := -1;
      var la := g.LineAddr(req.addr);
      for k := 0 to g.victims
        invariant v == VictimHit(g, View(), k)
      {
        if vc[k].valid && vc[k].addr == la {
          v := k;
        }
      }
    }

    /** The store-merge and load-extend datapath applied to one line. */
    method Access(line: Line) returns (merged: Line, data: Word)
      requires Valid() && |line| == g.lineBytes && fsm != Idle && fsm != Resp
      ensures merged == MergedLine(g, View(), line) && data == LoadOf(g, View(), merged)
    {
      merged := line;
      if req.write {
        merged := MergeStoreData(line, g.Offset(req.addr), req.wdata, req.size);
      }
      data := LineLoadData(merged, g.Offset(req.addr), req.size, req.unsigned);
    }

    // ----------------------------------------------------------------------- array ports

    method WriteEntry(w: nat, i: nat, e: Entry)
      requires Shaped() && w < g.ways && i < g.sets
      modifies l1
      ensures Ways() == old(Ways())[w := old(Ways())[w][i := e]]
    {
      l1[w, i] := e;
      ghost var before, after := old(Ways()), Ways();
      assert after[w] == before[w][i := e];
      assert forall k :: 0 <= k < g.ways && k != w ==> after[k] == before[k];
    }

    /** An SRAM read of set i on every way. */
    method ReadPorts(i: nat)
      requires Valid() && i < g.sets
      modifies q
      ensures q[..] == Launch(g, old(View()), i)
    {
      for w := 0 to g.ways
        modifies q
        invariant forall k :: 0 <= k < w ==> q[k] == SramOut(l1[k, i].tag, l1[k, i].line)
      {
        q[w] := SramOut(l1[w, i].tag, l1[w, i].line);
      }
    }

    /** An SRAM write to the selected way; the other ways read the requested set. */
    method WritePorts(line: Line, valid: bool, dirty: bool, prefetched: bool)
      requires Valid()
      modifies q, l1
      ensures var i, s := g.SetOf(req.addr), old(View());
              var e := Entry(valid, dirty, prefetched, g.TagOf(req.addr), line);
              && q[..] == WritePort(g, s, line)
              && Ways() == s.l1[selectedWay := s.l1[selectedWay][i := e]]
    {
      var i := g.SetOf(req.addr);
      ReadPorts(i);
      q[selectedWay] := SramOut(g.TagOf(req.addr), line);
      assert q[..] == Launch(g, old(View()), i)[selectedWay := SramOut(g.TagOf(req.addr), line)];
      WriteEntry(selectedWay, i, Entry(valid, dirty, prefetched, g.TagOf(req.addr), line));
    }

    method WriteReplacement(i: nat, w: nat)
      requires Shaped() && i < g.sets
      modifies replacement
      ensures replacement[..] == old(replacement[..])[i := w]
    {
      replacement[i] := w;
    }

    method WriteVictim(v: nat, c: Copy)
      requires Shaped() && v < g.victims
      modifies vc
      ensures vc[..] == old(vc[..])[v := c]
    {
      vc[v] := c;
    }

    // ------------------------------------------------------------------------ the states

    method TakeDemand(r: Request)
      requires Valid() && fsm == Idle
      modifies this, q
      ensures View() == AcceptDemand(g, old(View()), r)
    {
      hide Sized, Launch, Misaligned, Geometry.SetOf;
      ghost var s := View();
      if Misaligned(r.addr, r.size) {
        var cause := if r.write then RSP_STORE_MISALIGNED else RSP_LOAD_MISALIGNED;
        response := Response(ZERO_WORD, true, cause);
        fsm := Resp;
      } else {
        ReadPorts(g.SetOf(r.addr));
        response := Response(ZERO_WORD, false, RSP_OK);
        fsm := Lookup;
      }
      req, reqIsPrefetch := r, false;
      assert Ways() == s.l1;
    }

    method TakePrefetch(a: Address, candidate: Address)
      requires Valid() && fsm == Idle
      modifies this, q
      ensures View() == AcceptPrefetch(g, old(View()), a, candidate)
    {
      hide Sized, Launch, Geometry.SetOf;
      ghost var s := View();
      ReadPorts(g.SetOf(candidate));
      req, reqIsPrefetch, fsm := PrefetchRequest(a), true, Lookup;
      assert Ways() == s.l1;
    }

    method EdgeIdle(i: Inputs)
      requires Valid() && fsm == Idle
      modifies this, q
      ensures View() == FromIdle(g, old(View()), i)
    {
      hide AcceptDemand, AcceptPrefetch, Geometry.LineAddr, Geometry.SetOf;
      var acceptExt := !i.cpuValid && g.enablePrefetch && i.cfgPrefetch && i.extValid;
      var acceptNext := !i.cpuValid && !i.extValid && g.enablePrefetch && i.cfgPrefetch && generator.pending;
      if i.cpuValid {
        TakeDemand(i.cpu);
      } else if acceptExt {
        TakePrefetch(g.LineAddr(i.extAddr), i.extAddr);
      } else if acceptNext {
        TakePrefetch(generator.pendingAddr, generator.pendingAddr);
      }
    }

    method EdgeLookup()
      requires Valid() && fsm == Lookup
      modifies this, l1, replacement
      ensures View() == FromLookup(g, old(View()))
    {
      var w := FindHitWay();
      if w >= 0 {
        EdgeLookupHit(w);
      } else {
        var v := FindVictim();
        if v >= 0 {
          EdgeLookupVictim(v);
        } else {
          EdgeLookupMiss();
        }
      }
    }

    /** Registers written together at the end of a lookup that answers or swaps. */
    method Latch(way: nat, victim: nat, snapshot: Copy, line: Line, dirty: bool, data: Word, counted: Stats, next: Fsm)
      requires Shaped()
      modifies this
      ensures View() == old(View()).(selectedWay := way, selectedVc := victim, evicted := snapshot, workingLine := line,
                                     workingDirty := dirty, response := old(response).(data := data),
                                     stats := counted, fsm := next)
    {
      hide Geometry.SetOf, Geometry.TagOf, Geometry.LineAddr, Geometry.Offset, Geometry.Compose;
      ghost var ways := Ways();
      selectedWay, selectedVc, evicted, workingLine, workingDirty := way, victim, snapshot, line, dirty;
      response, stats, fsm := response.(data := data), counted, next;
      assert Ways() == ways;
    }

    /** The end of a state that only counts and moves on. */
    method Advance(counted: Stats, next: Fsm)
      requires Shaped()
      modifies this
      ensures View() == old(View()).(stats := counted, fsm := next)
    {
      ghost var ways := Ways();
      stats, fsm := counted, next;
      assert Ways() == ways;
    }

    method EdgeLookupHit(w: nat)
      requires Valid() && fsm == Lookup && w < g.ways
      modifies this, l1, replacement
      ensures View() == FromLookupHit(g, old(View()), w)
    {
      ghost var s := View();
      if reqIsPrefetch {
        selectedWay, fsm := w, Idle;
        assert Ways() == s.l1;
      } else {
        var i := g.SetOf(req.addr);
        var e := l1[w, i];
        var line, data := Access(q[w].line);
        assert View() == s;
        hide Sized, MergedLine, LoadOf;
        var counted := stats.(cpuHits := stats.cpuHits + 1,
                              prefetchUseful := stats.prefetchUseful + (if e.prefetched then 1 else 0));
        WriteReplacement(i, (w + 1) % g.ways);
        WriteEntry(w, i, e.(prefetched := false));
        assert View() == WithEntry(s, w, i, e.(prefetched := false)).(
                           replacement := s.replacement[i := (w + 1) % g.ways]);
        Latch(w, selectedVc, evicted, if req.write then line else workingLine, workingDirty, data, counted,
              if req.write then HitWrite else Resp);
      }
    }

    /** The snapshot of way w that goes to the evicted_* registers. */
    method Evict(w: nat) returns (c: Copy)
      requires Valid() && w < g.ways
      ensures c == Snapshot(g, View(), w)
    {
      var i := g.SetOf(req.addr);
      c := Copy(true, l1[w, i].dirty, l1[w, i].prefetched, g.Compose(q[w].tag, i), q[w].line);
    }

    /** The way to fill and, when no way is free, the line that leaves it. */
    method ChooseWay() returns (free: int, way: nat, snapshot: Copy)
      requires Valid()
      ensures free == InvalidWay(g, View(), g.ways)
      ensures way == (if free >= 0 then free else View().replacement[ReqSet(g, View())]) && way < g.ways
      ensures snapshot == if free >= 0 then NoCopy(g) else Snapshot(g, View(), way)
    {
      free := FindInvalidWay();
      if free >= 0 {
        way, snapshot := free, NoCopy(g);
      } else {
        way := replacement[g.SetOf(req.addr)];
        snapshot := Evict(way);
      }
    }

    method EdgeLookupVictim(v: nat)
      requires Valid() && fsm == Lookup && v < g.victims
      modifies this
      ensures View() == FromLookupVictim(g, old(View()), v)
    {
      hide Geometry.SetOf, Geometry.TagOf, Geometry.LineAddr, Geometry.Offset, Geometry.Compose;
      hide MergedLine, LoadOf, Snapshot, InvalidWay, NoCopy;
      ghost var s := View();
      var entry := vc[v];
      if reqIsPrefetch {
        hide Sized;
        Advance(stats, Idle);
      } else {
        var free, way, snapshot := ChooseWay();
        var line, data := Access(entry.line);
        assert View() == s;
        VictimLatches(g, s, v, way, snapshot, line, data);
        hide Sized, FromLookupVictim;
        Latch(way, v, snapshot, line, req.write || entry.dirty, data,
              stats.(cpuMisses := stats.cpuMisses + 1, victimHits := stats.victimHits + 1,
                     prefetchUseful := stats.prefetchUseful + (if entry.prefetched then 1 else 0)),
              VcSwap);
      }
    }

    /** Registers written when a valid L1 line has to make room. */
    method LatchReplacement(way: nat, snapshot: Copy, counted: Stats, addr: nat, line: Line, next: Fsm)
      requires Shaped()
      modifies this
      ensures View() == old(View()).(selectedWay := way, selectedVc := old(vcRr), evicted := snapshot, stats := counted,
                                     wbAddr := addr, wbLine := line, fsm := next)
    {
      ghost var ways := Ways();
      selectedWay, selectedVc, evicted, stats := way, vcRr, snapshot, counted;
      wbAddr, wbLine, fsm := addr, line, next;
      assert Ways() == ways;
    }

    /** Registers written when a free way can take the line. */
    method LatchRefill(way: nat, snapshot: Copy, counted: Stats)
      requires Shaped()
      modifies this
      ensures View() == old(View()).(selectedWay := way, evicted := snapshot, stats := counted, fsm := MemReadReq)
    {
      ghost var ways := Ways();
      selectedWay, evicted, stats, fsm := way, snapshot, counted, MemReadReq;
      assert Ways() == ways;
    }

    method EdgeLookupMiss()
      requires Valid() && fsm == Lookup
      modifies this
      ensures View() == FromLookupMiss(g, old(View()))
    {
      ghost var s := View();
      var free, way, snapshot := ChooseWay();
      var counted := stats.(cpuMisses := stats.cpuMisses + (if reqIsPrefetch then 0 else 1));
      var displaces := reqIsPrefetch && !l1[way, g.SetOf(req.addr)].prefetched;
      var v := vc[vcRr];
      var writeBack := v.valid && v.dirty;
      assert View() == s;
      hide Sized, InvalidWay, Snapshot, NoCopy, HitWay, VictimHit;
      hide Geometry.SetOf, Geometry.TagOf, Geometry.LineAddr, Geometry.Offset, Geometry.Compose;
      if free >= 0 {
        LatchRefill(way, snapshot, counted);
      } else {
        LatchReplacement(way, snapshot,
                         counted.(prefetchPollution := counted.prefetchPollution + (if displaces then 1 else 0)),
                         if writeBack then v.addr else wbAddr, if writeBack then v.line else wbLine,
                         if writeBack then WbReq else VcInsert);
      }
    }

    method EdgeHitWrite()
      requires Valid() && fsm == HitWrite
      modifies this, q, l1
      ensures View() == FromHitWrite(g, old(View()))
    {
      hide Geometry.SetOf, Geometry.TagOf, Geometry.LineAddr, Geometry.Offset, Geometry.Compose;
      var valid := l1[selectedWay, g.SetOf(req.addr)].valid;
      WritePorts(workingLine, valid, true, false);
      fsm := Resp;
    }

    method EdgeVcSwap()
      requires Valid() && fsm == VcSwap
      modifies this, q, l1, replacement, vc
      ensures View() == FromVcSwap(g, old(View()))
    {
      hide Geometry.SetOf, Geometry.TagOf, Geometry.LineAddr, Geometry.Offset, Geometry.Compose;
      ghost var s := View();
      var i, v := g.SetOf(req.addr), vc[selectedVc];
      var c := if evicted.valid then evicted else v.(valid := false, dirty := false, prefetched := false);
      ghost var e := Entry(true, workingDirty, false, g.TagOf(req.addr), workingLine);
      ghost var after := WithEntry(s, s.selectedWay, i, e).(
                         q := WritePort(g, s, s.workingLine),
                         replacement := s.replacement[i := (s.selectedWay + 1) % g.ways],
                         vc := s.vc[s.selectedVc := c]);
      WritePorts(workingLine, true, workingDirty, false);
      WriteReplacement(i, (selectedWay + 1) % g.ways);
      WriteVictim(selectedVc, c);
      hide Sized, WritePort;
      assert View() == after;
      Advance(stats, Resp);
    }

    method LatchInsert(rr: nat, counted: Stats)
      requires Shaped()
      modifies this
      ensures View() == old(View()).(vcRr := rr, stats := counted, fsm := MemReadReq)
    {
      ghost var ways := Ways();
      vcRr, stats, fsm := rr, counted, MemReadReq;
      assert Ways() == ways;
    }

    method EdgeVcInsert()
      requires Valid() && fsm == VcInsert
      modifies this, l1, vc
      ensures View() == FromVcInsert(g, old(View()))
    {
      hide Geometry.SetOf, Geometry.TagOf, Geometry.LineAddr, Geometry.Offset, Geometry.Compose;
      ghost var s := View();
      var i := g.SetOf(req.addr);
      var e, v := l1[selectedWay, i], vc[selectedVc];
      WriteVictim(selectedVc, evicted);
      WriteEntry(selectedWay, i, e.(valid := false, dirty := false, prefetched := false));
      hide Sized;
      assert View() == WithEntry(s, s.selectedWay, i, e.(valid := false, dirty := false, prefetched := false)).(
                         vc := s.vc[s.selectedVc := s.evicted]);
      LatchInsert(if vcRr == g.victims - 1 then 0 else vcRr + 1,
                  stats.(prefetchUseless := stats.prefetchUseless + (if v.valid && v.prefetched then 1 else 0)));
    }

    method LatchFill(line: Line, data: Word)
      requires Shaped()
      modifies this
      ensures View() == old(View()).(fillLine := line, response := old(response).(data := data), fsm := Install)
    {
      ghost var ways := Ways();
      fillLine, response, fsm := line, response.(data := data), Install;
      assert Ways() == ways;
    }

    method EdgeMemReadWait(i: Inputs)
      requires Valid() && fsm == MemReadWait && (i.memRspValid ==> |i.memRspLine| == g.lineBytes)
      modifies this
      ensures View() == FromMemReadWait(g, old(View()), i)
    {
      hide Geometry.SetOf, Geometry.TagOf, Geometry.LineAddr, Geometry.Offset, Geometry.Compose;
      ghost var s := View();
      if i.memRspValid {
        var line, data := i.memRspLine, ZERO_WORD;
        if reqIsPrefetch {
          data := LineLoadData(line, g.Offset(req.addr), req.size, req.unsigned);
        } else {
          line, data := Access(i.memRspLine);
        }
        assert View() == s && data == LoadOf(g, s, line);
        hide Sized, MergedLine, LoadOf;
        LatchFill(line, data);
      }
    }

    method EdgeInstall()
      requires Valid() && fsm == Install
      modifies this, q, l1, replacement
      ensures View() == FromInstall(g, old(View()))
    {
      hide Geometry.SetOf, Geometry.TagOf, Geometry.LineAddr, Geometry.Offset, Geometry.Compose;
      ghost var s := View();
      var i := g.SetOf(req.addr);
      ghost var e := Entry(true, !reqIsPrefetch && req.write, reqIsPrefetch, g.TagOf(req.addr), fillLine);
      ghost var after := WithEntry(s, s.selectedWay, i, e).(
                         q := WritePort(g, s, s.fillLine),
                         replacement := s.replacement[i := (s.selectedWay + 1) % g.ways]);
      WritePorts(fillLine, true, !reqIsPrefetch && req.write, reqIsPrefetch);
      WriteReplacement(i, (selectedWay + 1) % g.ways);
      hide Sized, WritePort;
      assert View() == after;
      Advance(stats.(prefetchFills := stats.prefetchFills + (if reqIsPrefetch then 1 else 0)),
              if reqIsPrefetch then Idle else Resp);
    }

    /** The clocked case statement. */
    method EdgeCore(i: Inputs)
      requires Valid() && InputsFit(g, View(), i)
      modifies this, l1, q, replacement, vc
      ensures View() == Core(g, old(View()), i)
    {
      match fsm {
        case Idle => EdgeIdle(i);
        case Lookup => EdgeLookup();
        case HitWrite => EdgeHitWrite();
        case VcSwap => EdgeVcSwap();
        case WbReq =>
          if i.memReady {
            stats := stats.(writebacks := stats.writebacks + 1);
            fsm := VcInsert;
          }
        case VcInsert => EdgeVcInsert();
        case MemReadReq =>
          if i.memReady {
            fsm := MemReadWait;
          }
        case MemReadWait => EdgeMemReadWait(i);
        case Install => EdgeInstall();
        case Resp =>
          if i.rspReady {
            fsm := Idle;
          }
      }
    }

    /** The combinational outputs. */
    method Show(i: Inputs) returns (o: Outputs)
      requires Shaped()
      ensures o == OutputsOf(g, View(), i)
    {
      var memWrite, memRead := fsm == WbReq, fsm == MemReadReq;
      o := Outputs(fsm == Idle, fsm == Resp, response,
                   fsm == Idle && !i.cpuValid && g.enablePrefetch && i.cfgPrefetch,
                   memWrite || memRead, memWrite,
                   if memWrite then wbAddr else if memRead then g.LineAddr(req.addr) else 0,
                   if memWrite then wbLine else []);
    }

    method FeedGenerator(i: Inputs) returns (c: NextLine.Input)
      requires Shaped()
      ensures c == GeneratorInput(g, View(), i)
    {
      c := NextLine.Input(
        g.enablePrefetch && i.cfgPrefetch && i.cfgNextLine,
        fsm == Install && !reqIsPrefetch, g.LineAddr(req.addr),
        fsm == Idle && !i.cpuValid && !i.extValid && g.enablePrefetch && i.cfgPrefetch);
    }

    /** One clock cycle: the outputs shown before the edge, and the registers after it. */
    method Edge(i: Inputs) returns (o: Outputs)
      requires Valid() && InputsFit(g, View(), i)
      modifies this, l1, q, replacement, vc, generator
      ensures o == OutputsOf(g, old(View()), i)
      ensures View() == Clock(g, old(View()), i)
    {
      hide Core, Sized, OutputsOf, GeneratorInput, NextLine.Clock;
      ghost var s := View();
      o := Show(i);
      var candidate := FeedGenerator(i);
      var wasDropped := generator.dropped;
      assert View() == s;
      EdgeCore(i);
      ghost var c := View();
      generator.Edge(candidate);
      assert Ways() == c.l1 && View() == c.(nextLine := NextLine.Clock(g, s.nextLine, candidate));
      if wasDropped {
        stats := stats.(prefetchDropped := stats.prefetchDropped + 1);
      }
      assert Ways() == c.l1;
    }
  }
}
