/**
 What becomes of a prefetch: which line an idle cache takes on, what is read for it and what it
 leaves behind; and which demand a next-line candidate comes from.
 */
module Prefetching {
  import opened Geometries
  import opened Wrappers
  import opened LoadStore
  import opened CacheSpec
  import opened Coherence
  import opened Systems
  import opened Invariant
  import opened Preservation
  import opened Correctness
  import opened Progress
  import opened Measurement
  import NextLine

  // ----------------------------------------------------------------- taking a prefetch on

  /** The line that an idle cache is asked to prefetch: external requests go before the own candidate. */
  function Asked(g: Geometry, c: State, i: Inputs): Option<nat>
    requires g.Positive()
  {
    if c.fsm != Idle || i.cpuValid || !g.enablePrefetch || !i.cfgPrefetch then None
    else if i.extValid then Some(g.LineAddr(i.extAddr))
    else if c.nextLine.pending then Some(c.nextLine.addr)
    else None
  }

  lemma AskedCore(g: Geometry, s: State, i: Inputs)
    requires Sized(g, s) && s.fsm == Idle && !i.cpuValid
    ensures var c := FromIdle(g, s, i);
            && c.l1 == s.l1 && c.vc == s.vc
            && match Asked(g, s, i)
               case Some(la) => c.fsm == Lookup && c.reqIsPrefetch && ReqLine(g, c) == la
               case None => c == s
  {
    hide Launch, Geometry.SetOf;
    g.LineAddrIdempotent(i.extAddr);
    assert g.LineAddr(s.nextLine.addr) == s.nextLine.addr;
  }

  lemma DrivenAsks(g: Geometry, w: World, i: Inputs)
    requires g.Positive()
    ensures Asked(g, w.cache, Driven(w, i)) == Asked(g, w.cache, i)
  {
  }

  /** An idle cycle without a CPU request: the asked prefetch starts, or nothing happens. */
  lemma IdleTakesPrefetch(g: Geometry, w: World, i: Inputs)
    requires Fit(g, w) && w.cache.fsm == Idle && !i.cpuValid
    ensures var c, c' := w.cache, Step(g, w, i).cache;
            && c'.l1 == c.l1 && c'.vc == c.vc
            && match Asked(g, c, i)
               case Some(la) => c'.fsm == Lookup && c'.reqIsPrefetch && ReqLine(g, c') == la
               case None => c'.fsm == Idle
  {
    hide Step, Driven, FromIdle, Asked, Sized, Geometry.LineAddr;
    IdleStepPorts(g, w, i);
    DrivenAsks(g, w, i);
    AskedCore(g, w.cache, Driven(w, i));
  }

  /** The handshakes with the two prefetch sources are exactly the prefetches taken on. */
  lemma HandshakesAsk(g: Geometry, c: State, i: Inputs)
    requires g.Positive()
    ensures var ext, own := OutputsOf(g, c, i).extReady && i.extValid,
                            GeneratorInput(g, c, i).ready && c.nextLine.pending;
            && !(ext && own) && (ext || own <==> Asked(g, c, i).Some?)
            && (ext ==> Asked(g, c, i) == Some(g.LineAddr(i.extAddr)))
            && (own ==> Asked(g, c, i) == Some(c.nextLine.addr))
  {
  }

  // ----------------------------------------------------------------- serving a prefetch

  /** Addresses of the reads that lower memory accepts during a run, as the memory port shows them. */
  ghost function ReadsSent(g: Geometry, w: World, run: seq<Inputs>): seq<nat>
    requires Fit(g, w)
  {
    if run == [] then []
    else
      var k := |run| - 1;
      var o := OutputsOf(g, After(g, w, run[..k]).cache, run[k]);
      ReadsSent(g, w, run[..k]) + if o.memValid && !o.memWrite && run[k].memReady then [o.memAddr] else []
  }

  /** The line sits clean in L1 or in the victim cache, marked as prefetched. */
  ghost predicate Prefetched(m: Copies, la: nat) {
    exists p :: Holds(m, p, la) && m[p].prefetched && !m[p].dirty
  }

  /** A finished prefetch: nothing at all for a line that was held, one read and one copy otherwise. */
  ghost predicate Served(before: Copies, after: Copies, la: nat, sent: seq<nat>) {
    if Absent(before, la) then sent == [la] && Prefetched(after, la) else sent == [] && after == before
  }

  /** Where a prefetch of line `la`, taken on when the copies were `before`, stands. */
  ghost predicate Pursuing(g: Geometry, w: World, la: nat, before: Copies, sent: seq<nat>)
    requires Fit(g, w)
  {
    var c, f := w.cache, w.cache.fsm;
    if f == Idle then Served(before, Held(g, c), la, sent)
    else
      && c.reqIsPrefetch && ReqLine(g, c) == la
      && (f == Lookup ==> Held(g, c) == before && sent == [])
      && (f == WbReq || f == VcInsert || f == MemReadReq ==> Absent(before, la) && sent == [])
      && (f == MemReadWait || f == Install ==> Absent(before, la) && sent == [la])
      && f != HitWrite && f != VcSwap && f != Resp
  }

  /** What one more cycle adds to them. */
  function ReadSent(g: Geometry, w: World, i: Inputs): seq<nat>
    requires g.Positive()
  {
    if w.cache.fsm == MemReadReq && i.memReady then [ReqLine(g, w.cache)] else []
  }

  lemma ReadsExtend(g: Geometry, w: World, run: seq<Inputs>, i: Inputs)
    requires Fit(g, w)
    ensures ReadsSent(g, w, run + [i]) == ReadsSent(g, w, run) + ReadSent(g, After(g, w, run), i)
    ensures After(g, w, run + [i]) == Step(g, After(g, w, run), i)
  {
    hide Step, Sized;
    assert (run + [i])[..|run|] == run;
  }

  lemma LookupPursues(g: Geometry, w: World, i: Inputs, la: nat, before: Copies)
    requires Good(g, w) && Fit(g, w) && w.cache.fsm == Lookup && Pursuing(g, w, la, before, [])
    ensures Fit(g, Step(g, w, i)) && Pursuing(g, Step(g, w, i), la, before, [])
  {
    hide Step, Coherent, FullBehindVictims, Owed, Snapshot, MergedLine, LoadOf, Sized;
    hide Geometry.LineAddr, Geometry.SetOf;
    StepKeepsFit(g, w, i);
    var c, m := w.cache, Held(g, w.cache);
    if HitWay(g, c, g.ways) >= 0 {
      LookupHitEffect(g, w, i);
      MatchIsCopy(g, c, HitWay(g, c, g.ways));
    } else if VictimHit(g, c, g.victims) >= 0 {
      VictimSetFull(g, w);
      LookupVictimEffect(g, w, i);
      VictimMatchIsCopy(g, c, VictimHit(g, c, g.victims));
    } else {
      LookupMissEffect(g, w, i);
      MissMeansAbsent(g, c, w.lower, w.flat);
    }
  }

  lemma InstallPursues(g: Geometry, w: World, i: Inputs, la: nat, before: Copies)
    requires Good(g, w) && Fit(g, w) && w.cache.fsm == Install && Pursuing(g, w, la, before, [la])
    ensures Fit(g, Step(g, w, i)) && Pursuing(g, Step(g, w, i), la, before, [la])
  {
    hide Step, Coherent, FullBehindVictims, Owed, Target, Geometry.LineAddr, Geometry.SetOf, Geometry.TagOf;
    hide Geometry.Compose, Absent;
    StepKeepsFit(g, w, i);
    InstallEffect(g, w, i);
    var c, n := w.cache, ReqSet(g, w.cache);
    var e := Entry(true, false, true, g.TagOf(c.req.addr), c.fillLine);
    EntryUpdate(g, c.l1, c.vc, c.selectedWay, n, e);
    g.ComposeSlices(c.req.addr);
    assert Holds(Held(g, Step(g, w, i).cache), Way(g, c), la);
  }

  lemma StepPursues(g: Geometry, w: World, i: Inputs, la: nat, before: Copies, sent: seq<nat>)
    requires Good(g, w) && Fit(g, w) && w.cache.fsm != Idle && Pursuing(g, w, la, before, sent)
    ensures Fit(g, Step(g, w, i)) && Pursuing(g, Step(g, w, i), la, before, sent + ReadSent(g, w, i))
  {
    hide Step, Good, Absent, Geometry.LineAddr, Geometry.SetOf, Served;
    StepKeepsFit(g, w, i);
    var f := w.cache.fsm;
    assert sent + [] == sent;
    if f == Lookup {
      LookupPursues(g, w, i, la, before);
    } else if f == Install {
      InstallPursues(g, w, i, la, before);
    } else {
      hide Held;
      PassPursues(g, w, i);
    }
  }

  /** The states between lookup and installation only pass the request on. */
  lemma PassPursues(g: Geometry, w: World, i: Inputs)
    requires Good(g, w) && Fit(g, w) && w.cache.fsm in {WbReq, VcInsert, MemReadReq, MemReadWait}
    ensures var c, c' := w.cache, Step(g, w, i).cache;
            && c'.req == c.req && c'.reqIsPrefetch == c.reqIsPrefetch
            && match c.fsm
               case WbReq => c'.fsm == VcInsert || c'.fsm == WbReq
               case VcInsert => c'.fsm == MemReadReq
               case MemReadReq => c'.fsm == if i.memReady then MemReadWait else MemReadReq
               case _ => c'.fsm == MemReadWait || c'.fsm == Install
  {
    hide Step, Consistent, Owed, Held, Filling, Replacing, Sized;
    match w.cache.fsm {
      case WbReq => WbReqEffect(g, w, i);
      case VcInsert => VcInsertEffect(g, w, i);
      case MemReadReq => ReadEffect(g, w, i);
      case MemReadWait =>
        if i.memRspValid {
          ReadWaitEffect(g, w, i);
        } else {
          ReadEffect(g, w, i);
        }
    }
  }

  /** From its first cycle on, and until it is idle again, the cache serves the prefetch it was asked for. */
  lemma {:induction false} PrefetchIsPursued(g: Geometry, w: World, run: seq<Inputs>)
    requires Good(g, w) && Fit(g, w) && run != [] && Asked(g, w.cache, run[0]).Some?
    requires forall k :: 1 <= k < |run| ==> After(g, w, run[..k]).cache.fsm != Idle
    ensures Pursuing(g, After(g, w, run), Asked(g, w.cache, run[0]).value, Held(g, w.cache), ReadsSent(g, w, run))
  {
    hide Good, Step, After, ReadsSent, Asked, Pursuing, Held, Sized;
    var n := |run| - 1;
    var before, la := run[..n], Asked(g, w.cache, run[0]).value;
    ReadsExtend(g, w, before, run[n]);
    assert before + [run[n]] == run;
    if n == 0 {
      NothingRun(g, w);
      FirstPursues(g, w, run[0]);
    } else {
      assert forall k :: 1 <= k < n ==> before[..k] == run[..k];
      PrefetchIsPursued(g, w, before);
      AfterIsGood(g, w, before);
      assert run[..n] == before;
      StepPursues(g, After(g, w, before), run[n], la, Held(g, w.cache), ReadsSent(g, w, before));
    }
  }

  lemma NothingRun(g: Geometry, w: World)
    requires Fit(g, w)
    ensures After(g, w, []) == w && ReadsSent(g, w, []) == []
  {
  }

  lemma FirstPursues(g: Geometry, w: World, i: Inputs)
    requires Fit(g, w) && Asked(g, w.cache, i).Some?
    ensures Fit(g, Step(g, w, i)) && ReadSent(g, w, i) == []
    ensures Pursuing(g, Step(g, w, i), Asked(g, w.cache, i).value, Held(g, w.cache), [])
  {
    hide Step, Sized, Geometry.LineAddr;
    StepKeepsFit(g, w, i);
    IdleTakesPrefetch(g, w, i);
  }

  /**
   A prefetch that the cache takes on in the first cycle of a run, and works on until the end of it.
   A line that was held somewhere is not read and nothing moves. Any other line is the only one
   read, and once the cache is idle again it has been read exactly once and sits in the cache,
   clean and marked as prefetched.
   */
  lemma PrefetchIsServed(g: Geometry, w: World, run: seq<Inputs>)
    requires Good(g, w) && Fit(g, w) && run != [] && Asked(g, w.cache, run[0]).Some?
    requires forall k :: 1 <= k < |run| ==> After(g, w, run[..k]).cache.fsm != Idle
    ensures var la, e := Asked(g, w.cache, run[0]).value, After(g, w, run);
            var sent := ReadsSent(g, w, run);
            && sent <= (if Absent(Held(g, w.cache), la) then [la] else [])
            && (e.cache.fsm == Idle ==> Served(Held(g, w.cache), Held(g, e.cache), la, sent))
  {
    hide Good, Asked, Absent, Held, Sized, After, ReadsSent, Prefetched;
    PrefetchIsPursued(g, w, run);
  }

  // ------------------------------------------------------------- next-line candidates

  /** The address of the latest CPU request. */
  function LatestAddress(w: World): Address
    requires w.requests != []
  {
    w.requests[|w.requests| - 1].addr
  }

  /** Cycle k installed the line of a demand while next-line prefetching was on. */
  ghost predicate InstallsDemand(g: Geometry, d: World, i: Inputs) {
    d.cache.fsm == Install && !d.cache.reqIsPrefetch && Enabled(g, i) && d.requests != []
  }

  /** The cache is free for its own candidate. */
  predicate Offers(c: State, i: Inputs) {
    c.fsm == Idle && !i.cpuValid && !i.extValid
  }

  /** Cycle k installed a demand while no candidate was pending, and nothing took or cancelled the new one since. */
  ghost predicate ComesFrom(g: Geometry, w: World, run: seq<Inputs>, k: nat)
    requires Fit(g, w)
  {
    k < |run| && Captures(g, After(g, w, run[..k]), run[k]) && Untouched(g, w, run, k)
  }

  /** The cycle makes a new candidate. */
  ghost predicate Captures(g: Geometry, d: World, i: Inputs) {
    InstallsDemand(g, d, i) && !d.cache.nextLine.pending
  }

  ghost predicate Untouched(g: Geometry, w: World, run: seq<Inputs>, k: nat)
    requires Fit(g, w)
  {
    forall j :: k < j < |run| ==> Enabled(g, run[j]) && !Offers(After(g, w, run[..j]).cache, run[j])
  }

  lemma SuccessorOfRequest(g: Geometry, a: Address)
    requires g.Valid()
    ensures g.Follows(NextLine.Successor(g, g.LineAddr(a)), a)
  {
    hide Geometry.Follows;
    g.NextLineFollows(g.LineAddr(a));
    g.FollowsLine(NextLine.Successor(g, g.LineAddr(a)), a);
  }

  lemma PendingIsLatest(w: World, mem: Memory)
    requires Recorded(w, mem) && PhaseOf(w.cache) == Pending
    ensures w.requests != [] && w.cache.req.addr == LatestAddress(w)
  {
    hide AnswerAll, ApplyAll, Answer;
  }

  /** The candidate on offer, if any, is the line after that of the demand it comes from. */
  ghost predicate Explained(g: Geometry, w: World, run: seq<Inputs>)
    requires Fit(g, w)
  {
    && (After(g, w, run).cache.nextLine.pending <==> exists k: nat :: ComesFrom(g, w, run, k))
    && forall k: nat | k < |run| && ComesFrom(g, w, run, k) ::
         && After(g, w, run[..k]).requests != []
         && g.Follows(After(g, w, run).cache.nextLine.addr, LatestAddress(After(g, w, run[..k])))
  }

  /** What an edge does with the candidate, told from outside the generator. */
  ghost predicate Passes(g: Geometry, d: World, i: Inputs, d': World)
    requires g.Positive()
  {
    var r, r' := d.cache.nextLine, d'.cache.nextLine;
    if Captures(g, d, i) then !r.pending && d.requests != [] && r'.pending && g.Follows(r'.addr, LatestAddress(d))
    else r'.addr == r.addr && (r'.pending <==> r.pending && Enabled(g, i) && !Offers(d.cache, i))
  }

  lemma CandidateStep(g: Geometry, w: World, i: Inputs, mem: Memory)
    requires Good(g, w) && Fit(g, w) && Recorded(w, mem)
    ensures Passes(g, w, i, Step(g, w, i))
  {
    hide Step, CoreStep, Good, Sized, Recorded, Geometry.Follows, NextLine.Successor;
    Accounting.StepStats(g, w, i);
    if w.cache.fsm == Install && !w.cache.reqIsPrefetch {
      SuccessorOfRequest(g, w.cache.req.addr);
      PendingIsLatest(w, mem);
    }
  }

  lemma ResetOffersNothing(g: Geometry, w: World, mem: Memory)
    requires Boot(g, w, mem)
    ensures !After(g, w, []).cache.nextLine.pending
    ensures forall k: nat :: !ComesFrom(g, w, [], k)
  {
  }

  lemma UntouchedExtends(g: Geometry, w: World, run: seq<Inputs>, i: Inputs, k: nat)
    requires Fit(g, w) && k < |run|
    ensures Untouched(g, w, run + [i], k) <==>
              Untouched(g, w, run, k) && Enabled(g, i) && !Offers(After(g, w, run).cache, i)
  {
    hide After, Enabled, Offers;
    var n, more := |run|, run + [i];
    assert more[..n] == run && more[n] == i;
    assert forall j :: 0 <= j < n ==> more[..j] == run[..j] && more[j] == run[j];
  }

  lemma ComesFromExtends(g: Geometry, w: World, run: seq<Inputs>, i: Inputs)
    requires Fit(g, w)
    ensures var d := After(g, w, run);
            forall k: nat ::
              ComesFrom(g, w, run + [i], k) <==>
                if k == |run| then Captures(g, d, i)
                else ComesFrom(g, w, run, k) && Enabled(g, i) && !Offers(d.cache, i)
  {
    hide After, Enabled, Offers, Captures, Untouched;
    var n, more := |run|, run + [i];
    assert more[..n] == run && more[n] == i;
    JustUntouched(g, w, more);
    forall k: nat | k < n
      ensures ComesFrom(g, w, more, k) <==>
                ComesFrom(g, w, run, k) && Enabled(g, i) && !Offers(After(g, w, run).cache, i)
    {
      assert more[..k] == run[..k] && more[k] == run[k];
      UntouchedExtends(g, w, run, i, k);
    }
  }

  lemma JustUntouched(g: Geometry, w: World, run: seq<Inputs>)
    requires Fit(g, w) && run != []
    ensures Untouched(g, w, run, |run| - 1)
  {
  }

  lemma ComesFromInside(g: Geometry, w: World, run: seq<Inputs>)
    requires Fit(g, w)
    ensures forall k: nat :: ComesFrom(g, w, run, k) ==> k < |run|
  {
    hide After, Captures, Untouched;
  }

  lemma StillFollows(g: Geometry, w: World, run: seq<Inputs>, i: Inputs, k: nat)
    requires Fit(g, w) && g.Positive() && Explained(g, w, run) && Passes(g, After(g, w, run), i, After(g, w, run + [i]))
    requires k <= |run| && ComesFrom(g, w, run + [i], k)
    ensures var d, e := After(g, w, (run + [i])[..k]), After(g, w, run + [i]);
            e.cache.nextLine.pending && d.requests != [] && g.Follows(e.cache.nextLine.addr, LatestAddress(d))
  {
    hide Fit, After, Enabled, ComesFrom, LatestAddress, Offers, Captures, Geometry.Follows;
    ComesFromExtends(g, w, run, i);
    assert (run + [i])[..k] == run[..k];
    if k == |run| {
      assert run[..k] == run;
    } else {
      assert ComesFrom(g, w, run, k);
    }
  }

  lemma CandidateExtends(g: Geometry, w: World, run: seq<Inputs>, i: Inputs)
    requires Fit(g, w) && g.Positive() && Explained(g, w, run) && Passes(g, After(g, w, run), i, After(g, w, run + [i]))
    ensures Explained(g, w, run + [i])
  {
    hide Fit, After, Enabled, ComesFrom, LatestAddress, Offers, Captures, Geometry.Follows;
    var n, more := |run|, run + [i];
    ComesFromExtends(g, w, run, i);
    ComesFromInside(g, w, more);
    if Captures(g, After(g, w, run), i) {
      assert ComesFrom(g, w, more, n);
    } else if After(g, w, more).cache.nextLine.pending {
      var k: nat :| ComesFrom(g, w, run, k);
      ComesFromInside(g, w, run);
      assert ComesFrom(g, w, more, k);
    }
    forall k: nat | k <= n && ComesFrom(g, w, more, k)
      ensures var d, e := After(g, w, more[..k]), After(g, w, more);
              e.cache.nextLine.pending && d.requests != [] && g.Follows(e.cache.nextLine.addr, LatestAddress(d))
    {
      StillFollows(g, w, run, i, k);
    }
  }

  /**
   From reset, a candidate is on offer exactly when some accepted CPU request had its line
   installed while next-line prefetching was on and the offer was free, and nothing took or
   cancelled the candidate since. It is the line after that request's line.
   */
  lemma {:induction false} CandidateFollowsDemand(g: Geometry, w: World, mem: Memory, run: seq<Inputs>)
    requires Boot(g, w, mem)
    ensures Explained(g, w, run)
  {
    hide Good, Recorded, Step, After, Enabled, ComesFrom, LatestAddress, ReadsSent, Offers, IsReset, Sized;
    hide Geometry.Follows;
    if run == [] {
      ResetOffersNothing(g, w, mem);
    } else {
      var before, i := run[..|run| - 1], run[|run| - 1];
      assert run == before + [i];
      CandidateFollowsDemand(g, w, mem, before);
      RunIsGood(g, w, mem, before);
      ReadsExtend(g, w, before, i);
      CandidateStep(g, After(g, w, before), i, mem);
      CandidateExtends(g, w, before, i);
    }
  }
}
