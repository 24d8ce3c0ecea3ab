/**
 What holds in every run of the tracer: its counters are the counts of the attributed events,
 its window tallies are those of the events that fall into the windows, and the strict reader
 can follow everything it writes.
 */
module TracerRuns {
  import opened Counting
  import opened Wrappers
  import opened Geometries
  import opened LoadStore
  import opened Canonical
  import opened WindowText
  import opened Tracer
  import opened Splitter

  /** The callback is counted as an event of the traced program. */
  predicate Counts(s: State, cb: Callback) {
    cb.Memory? && s.tracing && Judge(s, cb).Attributed?
  }

  /** The attributed events of a run, in order. */
  function Events(c: Config, run: seq<Callback>): seq<RawEvent> {
    if run == [] then []
    else
      var before, cb := run[..|run| - 1], run[|run| - 1];
      var s := After(c, before);
      Events(c, before) + if Counts(s, cb) then [EventOf(s, cb)] else []
  }

  // ----------------------------------------------------------------------------- windows

  function Clamp(x: int, n: nat): (r: nat)
    ensures r <= n
  {
    if x < 0 then 0 else if x > n then n else x
  }

  /** The events that fall into a window. */
  function Slice(w: WindowSpec, h: seq<RawEvent>): seq<RawEvent>
    requires w.start >= 0
  {
    h[Clamp(w.start, |h|)..Clamp(w.start + w.count, |h|)]
  }

  lemma SliceGrows(w: WindowSpec, h: seq<RawEvent>, e: RawEvent)
    requires w.start >= 0
    ensures Slice(w, h + [e]) == Slice(w, h) + if Within(w, |h|) then [e] else []
  {
  }

  /** Windows that start before event n; they come first. */
  function Opened(ws: seq<WindowSpec>, n: nat, i: nat): (m: nat)
    requires i <= |ws|
    ensures i <= m <= |ws|
    ensures forall k :: i <= k < m ==> ws[k].start < n
    ensures m < |ws| ==> ws[m].start >= n
    decreases |ws| - i
  {
    if i < |ws| && ws[i].start < n then Opened(ws, n, i + 1) else i
  }

  lemma OpenedIs(ws: seq<WindowSpec>, n: nat, m: nat)
    requires ValidWindows(ws) && m <= |ws|
    requires (m > 0 ==> ws[m - 1].start < n) && (m < |ws| ==> ws[m].start >= n)
    ensures Opened(ws, n, 0) == m
  {
    var o := Opened(ws, n, 0);
    if o < m {
      if o < m - 1 {
        WindowsAreOrdered(ws, o, m - 1);
      }
    }
    if m < |ws| {
      assert ws[m].start >= n;
    }
  }

  /** The search finds the one window that holds the event, or there is none. */
  lemma {:induction false} SearchFinds(ws: seq<WindowSpec>, i: nat, n: nat)
    requires ValidWindows(ws) && i <= |ws|
    ensures var w := WindowFrom(ws, i, n);
            forall k :: i <= k < |ws| ==> (Within(ws[k], n) <==> w == Some(k))
    decreases |ws| - i
  {
    if i < |ws| {
      SearchFinds(ws, i + 1, n);
      forall k | i < k < |ws|
        ensures ws[i].start + ws[i].count <= ws[k].start
      {
        WindowsAreOrdered(ws, i, k);
      }
    }
  }

  lemma OpenedByEvent(ws: seq<WindowSpec>, n: nat)
    requires ValidWindows(ws)
    ensures var found, m := WindowFrom(ws, 0, n), Opened(ws, n, 0);
      && (found.None? ==> Opened(ws, n + 1, 0) == m)
      && (found.Some? ==>
            && Opened(ws, n + 1, 0) == found.value + 1
            && m == if ws[found.value].start < n then found.value + 1 else found.value)
  {
    hide WindowFrom, ValidWindows, Opened;
    SearchFinds(ws, 0, n);
    var found := WindowFrom(ws, 0, n);
    match found
    case None => OpenedBySkipped(ws, n);
    case Some(i) => OpenedByWindow(ws, n, i);
  }

  lemma OpenedBySkipped(ws: seq<WindowSpec>, n: nat)
    requires ValidWindows(ws) && forall k :: 0 <= k < |ws| ==> !Within(ws[k], n)
    ensures Opened(ws, n + 1, 0) == Opened(ws, n, 0)
  {
    var m := Opened(ws, n, 0);
    if m < |ws| {
      assert ValidWindow(ws[m]) && !Within(ws[m], n);
    }
    if m > 0 {
      assert ws[m - 1].start < n;
    }
    hide Opened;
    OpenedIs(ws, n + 1, m);
  }

  lemma OpenedByWindow(ws: seq<WindowSpec>, n: nat, i: nat)
    requires ValidWindows(ws) && i < |ws| && Within(ws[i], n)
    ensures Opened(ws, n + 1, 0) == i + 1
    ensures Opened(ws, n, 0) == if ws[i].start < n then i + 1 else i
  {
    hide Opened;
    assert ValidWindow(ws[i]);
    if i > 0 {
      assert ValidWindow(ws[i - 1]) && ws[i - 1].start + ws[i - 1].count <= ws[i].start;
    }
    if i + 1 < |ws| {
      assert ws[i].start + ws[i].count <= ws[i + 1].start;
    }
    hide ValidWindow;
    OpenedIs(ws, n + 1, i + 1);
    OpenedIs(ws, n, if ws[i].start < n then i + 1 else i);
  }

  // --------------------------------------------------------------------------- invariants

  function IdentityOf(c: Config, s: State): Identity {
    Identity(c.nonce, c.command, s.satp, s.pid, s.tid, 0, 0)
  }

  ghost predicate Counters(s: State, h: seq<RawEvent>) {
    && s.seen == |h|
    && s.misaligned == MisalignedIn(h)
    && s.crossLine == s.expanded == CrossLineIn(h)
    && s.canonical == CanonicalIn(h)
  }

  ghost predicate EventsBelong(c: Config, s: State, h: seq<RawEvent>) {
    forall k :: 0 <= k < |h| ==> RowBelongs(h[k], k, IdentityOf(c, s))
  }

  /** The markers seen so far and what they imply. */
  ghost predicate Flow(s: State, h: seq<RawEvent>) {
    && (s.tracing ==> s.startSeen && !s.stopSeen)
    && (s.stopSeen ==> s.startSeen)
    && (!s.startSeen ==> h == [])
    && (s.startSeen ==> s.pid != 0 && s.tid != 0 && !BareSatp(s.satp))
    && (s.invalid <==> s.violations > 0)
  }

  function TallyOf(w: WindowSpec, h: seq<RawEvent>): Tally
    requires w.start >= 0
  {
    TallyIn(Slice(w, h))
  }

  function TallyIn(rows: seq<RawEvent>): Tally {
    Tally(|rows|, MisalignedIn(rows), CrossLineIn(rows), CanonicalIn(rows), rows != [])
  }

  function RowsIn(ws: seq<WindowSpec>, h: seq<RawEvent>): nat
    requires ValidWindows(ws)
  {
    if ws == [] then 0 else RowsIn(ws[..|ws| - 1], h) + |Slice(ws[|ws| - 1], h)|
  }

  function CanonicalOf(ws: seq<WindowSpec>, h: seq<RawEvent>): nat
    requires ValidWindows(ws)
  {
    if ws == [] then 0 else CanonicalOf(ws[..|ws| - 1], h) + CanonicalIn(Slice(ws[|ws| - 1], h))
  }

  ghost predicate Tallies(c: Config, s: State, h: seq<RawEvent>)
    requires ValidWindows(c.windows)
  {
    && |s.tallies| == |c.windows|
    && (forall i :: 0 <= i < |c.windows| ==> s.tallies[i] == TallyOf(c.windows[i], h))
    && s.capturedRows == RowsIn(c.windows, h)
    && s.capturedCanonical == CanonicalOf(c.windows, h)
  }

  function WindowsRead(ws: seq<WindowSpec>, h: seq<RawEvent>, m: nat): (r: seq<ParsedWindow>)
    requires m <= |ws| && ValidWindows(ws)
    ensures |r| == m
  {
    seq(m, i requires 0 <= i < m => ParsedWindow(i, ws[i], Slice(ws[i], h)))
  }

  /** The header lines that the reader has gathered. */
  ghost predicate Headed(c: Config, s: State, p: Reader) {
    && p.header != [] && p.header[0] == Schema
    && p.contexts == [Context(c.mode, c.nonce, c.command, if c.expectedTotal.Some? then c.expectedTotal.value else 0)]
    && p.starts == (if s.startSeen then [IdentityOf(c, s)] else [])
    && p.stops == (if s.stopSeen then [IdentityOf(c, s)] else [])
    && (forall i: nat :: i in p.configs <==> i < |c.windows|)
    && (forall i: nat :: i < |c.windows| ==> p.configs[i] == c.windows[i])
    && p.summaries == map[] && p.summary == None
  }

  /** The windows that the reader has gathered when m of them are open. */
  ghost predicate Windowed(ws: seq<WindowSpec>, h: seq<RawEvent>, m: nat, p: Reader)
    requires ValidWindows(ws) && m <= |ws|
  {
    if m == 0 then p.marker == None && p.rows == [] && p.windows == []
    else
      && p.marker == Some((m - 1, ws[m - 1]))
      && p.rows == Slice(ws[m - 1], h)
      && p.windows == WindowsRead(ws, h, m - 1)
  }

  ghost predicate Gathered(c: Config, s: State, h: seq<RawEvent>, p: Reader)
    requires ValidWindows(c.windows)
  {
    Headed(c, s, p) && Windowed(c.windows, h, Opened(c.windows, |h|, 0), p)
  }

  ghost predicate Followed(c: Config, s: State, h: seq<RawEvent>)
    requires ValidWindows(c.windows)
  {
    var p := ReadAll(FRESH, s.output);
    p.Some? && Gathered(c, s, h, p.value)
  }

  ghost predicate Sound(c: Config, s: State, h: seq<RawEvent>)
    requires ValidWindows(c.windows)
  {
    Counters(s, h) && EventsBelong(c, s, h) && Flow(s, h) && Tallies(c, s, h) && Followed(c, s, h)
  }

  // ------------------------------------------------------------------------ counted events

  lemma CountsGrow(h: seq<RawEvent>, e: RawEvent)
    ensures MisalignedIn(h + [e]) == MisalignedIn(h) + Bit(e.Misaligned())
    ensures CrossLineIn(h + [e]) == CrossLineIn(h) + Bit(e.CrossLine())
    ensures CanonicalIn(h + [e]) == CanonicalIn(h) + e.CanonicalAccesses()
  {
    assert (h + [e])[..|h|] == h;
  }

  lemma EventMatchesPlan(s: State, cb: Callback)
    requires cb.Memory? && Judge(s, cb).Attributed?
    ensures var e, plan := EventOf(s, cb), Judge(s, cb).plan;
      && WellFormed(e) && e.seqId == s.seen && e.satp == s.satp && e.vcpu == 0 && e.priv == 0
      && e.Misaligned() == plan.misaligned && e.CrossLine() == plan.crossLine
      && e.CanonicalAccesses() == plan.accesses
  {
    PlannerAgrees(s.seen, cb.context.value.1, cb.pc, cb.write, cb.sizeShift, cb.vaddr, cb.physical.value.0,
                  cb.translate);
  }

  lemma TallyInGrows(rows: seq<RawEvent>, e: RawEvent, plan: Plan)
    requires e.Misaligned() == plan.misaligned && e.CrossLine() == plan.crossLine
    requires e.CanonicalAccesses() == plan.accesses
    ensures TallyIn(rows + [e]) == Tallied(TallyIn(rows), plan)
  {
    CountsGrow(rows, e);
    hide MisalignedIn, CrossLineIn, CanonicalIn, RawEvent.Misaligned, RawEvent.CrossLine;
  }

  lemma TallyGrows(w: WindowSpec, h: seq<RawEvent>, e: RawEvent, plan: Plan)
    requires w.start >= 0
    requires e.Misaligned() == plan.misaligned && e.CrossLine() == plan.crossLine
    requires e.CanonicalAccesses() == plan.accesses
    ensures TallyOf(w, h + [e]) == if Within(w, |h|) then Tallied(TallyOf(w, h), plan) else TallyOf(w, h)
  {
    hide Slice, TallyIn, Tallied, Within;
    SliceGrows(w, h, e);
    TallyInGrows(Slice(w, h), e, plan);
    assert Slice(w, h) + [] == Slice(w, h);
  }

  /** The event falls into the last window or into one before it, not both. */
  lemma LastWindow(ws: seq<WindowSpec>, n: nat)
    requires ValidWindows(ws) && ws != []
    ensures var before, last := ws[..|ws| - 1], ws[|ws| - 1];
      && ValidWindows(before)
      && (WindowFrom(ws, 0, n).Some? <==> WindowFrom(before, 0, n).Some? || Within(last, n))
      && !(WindowFrom(before, 0, n).Some? && Within(last, n))
  {
    hide WindowFrom, Within;
    var before := ws[..|ws| - 1];
    SearchFinds(ws, 0, n);
    SearchFinds(before, 0, n);
    forall i | 0 <= i < |before|
      ensures Within(before[i], n) <==> Within(ws[i], n)
    {
    }
    var found, earlier := WindowFrom(ws, 0, n), WindowFrom(before, 0, n);
    if earlier.Some? {
      assert Within(before[earlier.value], n);
      assert found == Some(earlier.value);
    }
    if found.Some? && found.value < |before| {
      assert Within(before[found.value], n);
    }
  }

  /** The totals over the windows grow by the event when some window holds it. */
  lemma {:induction false} TotalsGrow(ws: seq<WindowSpec>, h: seq<RawEvent>, e: RawEvent)
    requires ValidWindows(ws)
    ensures RowsIn(ws, h + [e]) == RowsIn(ws, h) + Bit(WindowFrom(ws, 0, |h|).Some?)
    ensures CanonicalOf(ws, h + [e])
         == CanonicalOf(ws, h) + if WindowFrom(ws, 0, |h|).Some? then e.CanonicalAccesses() else 0
  {
    if ws != [] {
      hide WindowFrom, Within, Slice, CanonicalIn, ValidWindows, RawEvent.CanonicalAccesses;
      var before, last := ws[..|ws| - 1], ws[|ws| - 1];
      LastWindow(ws, |h|);
      TotalsGrow(before, h, e);
      LastTotals(last, h, e);
    }
  }

  lemma LastTotals(w: WindowSpec, h: seq<RawEvent>, e: RawEvent)
    requires w.start >= 0
    ensures |Slice(w, h + [e])| == |Slice(w, h)| + Bit(Within(w, |h|))
    ensures CanonicalIn(Slice(w, h + [e]))
         == CanonicalIn(Slice(w, h)) + if Within(w, |h|) then e.CanonicalAccesses() else 0
  {
    SliceGrows(w, h, e);
    CountsGrow(Slice(w, h), e);
    assert Slice(w, h) + [] == Slice(w, h);
    hide Slice, CanonicalIn, CrossLineIn, MisalignedIn, RawEvent.CrossLine, RawEvent.Misaligned;
  }

  // ------------------------------------------------------------------------- preservation

  lemma ReadOne(out: seq<Record>, r: Record)
    requires ReadAll(FRESH, out).Some?
    ensures ReadAll(FRESH, out + [r]) == Read(ReadAll(FRESH, out).value, r)
  {
    assert (out + [r])[..|out|] == out;
  }

  /** Lines that tell the reader nothing. */
  lemma NeutralLine(c: Config, s: State, h: seq<RawEvent>, r: Record)
    requires ValidWindows(c.windows) && Followed(c, s, h) && (r.Violation? || r.Registers?)
    ensures Followed(c, s.(output := s.output + [r]), h)
  {
    ReadOne(s.output, r);
  }

  /** The counters and the window table are those of an earlier state. */
  predicate SameCounts(s: State, t: State) {
    && t.seen == s.seen && t.misaligned == s.misaligned && t.crossLine == s.crossLine
    && t.expanded == s.expanded && t.canonical == s.canonical && t.tallies == s.tallies
    && t.capturedRows == s.capturedRows && t.capturedCanonical == s.capturedCanonical
  }

  predicate SameBinding(s: State, t: State) {
    t.satp == s.satp && t.pid == s.pid && t.tid == s.tid
  }

  lemma CountsCarry(c: Config, s: State, t: State, h: seq<RawEvent>)
    requires ValidWindows(c.windows) && SameCounts(s, t) && Counters(s, h) && Tallies(c, s, h)
    ensures Counters(t, h) && Tallies(c, t, h)
  {
    hide MisalignedIn, CrossLineIn, CanonicalIn, RowsIn, CanonicalOf, TallyOf, ValidWindows;
  }

  lemma EventsCarry(c: Config, s: State, t: State, h: seq<RawEvent>)
    requires SameBinding(s, t) && EventsBelong(c, s, h)
    ensures EventsBelong(c, t, h)
  {
    hide RowBelongs;
  }

  lemma FollowedCarries(c: Config, s: State, t: State, h: seq<RawEvent>)
    requires ValidWindows(c.windows) && SameBinding(s, t) && Followed(c, s, h)
    requires t.output == s.output && t.startSeen == s.startSeen && t.stopSeen == s.stopSeen
    ensures Followed(c, t, h)
  {
    hide ReadAll, Read, Opened, Slice, WindowsRead, ValidWindows;
  }

  lemma BooksCarryOver(c: Config, s: State, t: State, h: seq<RawEvent>)
    requires ValidWindows(c.windows) && Sound(c, s, h) && SameCounts(s, t) && SameBinding(s, t)
    requires t.startSeen == s.startSeen && t.stopSeen == s.stopSeen && (t.tracing ==> s.tracing)
    requires t.invalid <==> t.violations > 0
    requires t.output == s.output || exists r: Record :: (r.Violation? || r.Registers?) && t.output == s.output + [r]
    ensures Sound(c, t, h)
  {
    hide Counters, Tallies, EventsBelong, Followed, ValidWindows, SameCounts;
    CountsCarry(c, s, t, h);
    EventsCarry(c, s, t, h);
    if t.output == s.output {
      FollowedCarries(c, s, t, h);
    } else {
      var r: Record :| (r.Violation? || r.Registers?) && t.output == s.output + [r];
      NeutralLine(c, s, h, r);
      FollowedCarries(c, s.(output := s.output + [r]), t, h);
    }
  }

  lemma ViolateIsSound(c: Config, s: State, h: seq<RawEvent>, code: Code)
    requires ValidWindows(c.windows) && Sound(c, s, h)
    ensures Sound(c, Violate(s, code), h)
  {
    var t := Violate(s, code);
    assert t.output == s.output + [Violation(code, s.seen)];
    BooksCarryOver(c, s, t, h);
  }

  lemma StartIsSound(c: Config, s: State, h: seq<RawEvent>, priv: Address, satp: Address, pid: Address, tid: Address)
    requires ValidWindows(c.windows) && Sound(c, s, h) && pid != 0 && tid != 0
    ensures Sound(c, OnStart(c, s, priv, satp, pid, tid), h)
  {
    hide BareSatp;
    if s.startSeen || s.stopSeen || priv != 0 || BareSatp(satp) {
      hide Sound, Violate;
      ViolateIsSound(c, s, h, DuplicateStart);
      ViolateIsSound(c, s, h, StartNotUserMode);
      ViolateIsSound(c, s, h, StartBareSatp);
    } else {
      assert h == [];
      OpeningIsSound(c, s, satp, pid, tid);
      hide Sound;
    }
  }

  /** The accepted START of a run that has seen no event yet. */
  lemma OpeningIsSound(c: Config, s: State, satp: Address, pid: Address, tid: Address)
    requires ValidWindows(c.windows) && Sound(c, s, []) && !s.startSeen && !s.stopSeen
    requires pid != 0 && tid != 0 && !BareSatp(satp)
    ensures Sound(c, s.(startSeen := true, tracing := true, satp := satp, pid := pid, tid := tid,
                        seen := 0, capturedRows := 0,
                        output := s.output + [RoiStart(Identity(c.nonce, c.command, satp, pid, tid, 0, 0))]), [])
  {
    hide Followed, ValidWindows, TallyOf, BareSatp;
    var t := s.(startSeen := true, tracing := true, satp := satp, pid := pid, tid := tid, seen := 0, capturedRows := 0,
                output := s.output + [RoiStart(Identity(c.nonce, c.command, satp, pid, tid, 0, 0))]);
    NoRows(c.windows);
    assert SameCounts(s, t);
    CountsCarry(c, s, t, []);
    hide Counters, Tallies;
    OpeningIsFollowed(c, s, t);
  }

  lemma OpeningIsFollowed(c: Config, s: State, t: State)
    requires ValidWindows(c.windows) && Followed(c, s, []) && !s.startSeen && !s.stopSeen
    requires t.startSeen && t.stopSeen == s.stopSeen && t.output == s.output + [RoiStart(IdentityOf(c, t))]
    ensures Followed(c, t, [])
  {
    hide Read, Headed;
    hide ReadAll, Windowed, Opened, ValidWindows;
    var p := ReadAll(FRESH, s.output).value;
    var line := RoiStart(IdentityOf(c, t));
    ReadOne(s.output, line);
    StartIsHeaded(c, s, t, p);
    var q := Read(p, line).value;
    CommentKeepsWindows(c.windows, [], Opened(c.windows, 0, 0), p, q);
    FollowedWhenGathered(c, t, [], q);
  }

  lemma StartIsHeaded(c: Config, s: State, t: State, p: Reader)
    requires Headed(c, s, p) && !s.startSeen && !s.stopSeen && t.startSeen && t.stopSeen == s.stopSeen
    ensures var q := Read(p, RoiStart(IdentityOf(c, t)));
      q.Some? && Headed(c, t, q.value) && q.value == p.(starts := q.value.starts, header := q.value.header)
  {
    assert [] + [IdentityOf(c, t)] == [IdentityOf(c, t)];
  }

  /** Lines that only concern the header leave the windows alone. */
  lemma CommentKeepsWindows(ws: seq<WindowSpec>, h: seq<RawEvent>, m: nat, p: Reader, q: Reader)
    requires ValidWindows(ws) && m <= |ws| && Windowed(ws, h, m, p)
    requires q == p.(starts := q.starts, stops := q.stops, header := q.header)
    ensures Windowed(ws, h, m, q)
  {
    hide Slice, WindowsRead, ValidWindows;
  }

  lemma {:induction false} NoRows(ws: seq<WindowSpec>)
    requires ValidWindows(ws)
    ensures RowsIn(ws, []) == 0 && CanonicalOf(ws, []) == 0
  {
    if ws != [] {
      NoRows(ws[..|ws| - 1]);
    }
  }

  lemma StopIsSound(c: Config, s: State, h: seq<RawEvent>, priv: Address, satp: Address, pid: Address, tid: Address)
    requires ValidWindows(c.windows) && Sound(c, s, h)
    ensures Sound(c, OnStop(c, s, priv, satp, pid, tid), h)
  {
    var t := OnStop(c, s, priv, satp, pid, tid);
    if !s.startSeen || s.stopSeen || priv != 0 || satp != s.satp || pid != s.pid || tid != s.tid {
      hide Sound;
      ViolateIsSound(c, s, h, StopBeforeStart);
      ViolateIsSound(c, s, h, DuplicateStop);
      ViolateIsSound(c, s, h, StopNotUserMode);
      ViolateIsSound(c, s, h, StopSatpMismatch);
      ViolateIsSound(c, s, h, StopPidTidMismatch);
    } else {
      CountsCarry(c, s, t, h);
      EventsCarry(c, s, t, h);
      StopIsFollowed(c, s, t, h);
      hide Tallies, Counters, EventsBelong, Followed, ValidWindows;
    }
  }

  lemma StopIsFollowed(c: Config, s: State, t: State, h: seq<RawEvent>)
    requires ValidWindows(c.windows) && Followed(c, s, h)
    requires s.startSeen && !s.stopSeen
    requires t == s.(stopSeen := true, tracing := false, output := s.output + [RoiStop(IdentityOf(c, s), s.seen)])
    ensures Followed(c, t, h)
  {
    hide Read, Headed;
    hide ReadAll, Windowed, Opened, ValidWindows;
    var p := ReadAll(FRESH, s.output).value;
    var line := RoiStop(IdentityOf(c, s), s.seen);
    ReadOne(s.output, line);
    StopIsHeaded(c, s, t, p);
    var q := Read(p, line).value;
    CommentKeepsWindows(c.windows, h, Opened(c.windows, |h|, 0), p, q);
    FollowedWhenGathered(c, t, h, q);
  }

  lemma StopIsHeaded(c: Config, s: State, t: State, p: Reader)
    requires Headed(c, s, p) && s.startSeen && !s.stopSeen
    requires t.startSeen && t.stopSeen && SameBinding(s, t)
    ensures var q := Read(p, RoiStop(IdentityOf(c, s), s.seen));
      q.Some? && Headed(c, t, q.value) && q.value == p.(stops := q.value.stops, header := q.value.header)
  {
    var id, line := IdentityOf(c, s), RoiStop(IdentityOf(c, s), s.seen);
    assert Read(p, line) == Some(Commented(p.(stops := p.stops + [id]), line));
    hide Read;
    assert IdentityOf(c, t) == id && p.stops + [id] == [id];
  }

  lemma SliceKept(w: WindowSpec, h: seq<RawEvent>, e: RawEvent)
    requires w.start >= 0 && !Within(w, |h|)
    ensures Slice(w, h + [e]) == Slice(w, h)
  {
    SliceGrows(w, h, e);
  }

  lemma WindowsReadKept(ws: seq<WindowSpec>, h: seq<RawEvent>, e: RawEvent, m: nat)
    requires m <= |ws| && ValidWindows(ws) && forall k :: 0 <= k < m ==> !Within(ws[k], |h|)
    ensures WindowsRead(ws, h + [e], m) == WindowsRead(ws, h, m)
  {
    hide Slice, Within;
    forall k | 0 <= k < m
      ensures Slice(ws[k], h + [e]) == Slice(ws[k], h)
    {
      SliceKept(ws[k], h, e);
    }
  }

  lemma EventCounters(c: Config, s: State, h: seq<RawEvent>, e: RawEvent, plan: Plan)
    requires Counters(s, h)
    requires e.Misaligned() == plan.misaligned && e.CrossLine() == plan.crossLine
    requires e.CanonicalAccesses() == plan.accesses
    ensures Counters(Captured(c, Counted(s, plan), e, plan).(seen := s.seen + 1), h + [e])
  {
    hide MisalignedIn, CrossLineIn, CanonicalIn, WindowFrom;
    CountsGrow(h, e);
  }

  /** Capturing an event, as far as the tallies and the two totals are concerned. */
  lemma CapturedTotals(c: Config, s: State, e: RawEvent, plan: Plan)
    requires c.Installed() && |s.tallies| == |c.windows|
    ensures var found, t := WindowFrom(c.windows, 0, s.seen), Captured(c, s, e, plan);
      && t.tallies == (if found.Some? then s.tallies[found.value := Tallied(s.tallies[found.value], plan)]
                       else s.tallies)
      && t.capturedRows == s.capturedRows + Bit(found.Some?)
      && t.capturedCanonical == s.capturedCanonical + if found.Some? then plan.accesses else 0
  {
    hide WindowFrom, Tallied, Within, ValidWindow, ValidWindows;
    SearchFinds(c.windows, 0, s.seen);
  }

  lemma EventTallies(c: Config, s: State, h: seq<RawEvent>, e: RawEvent, plan: Plan)
    requires c.Installed() && Tallies(c, s, h) && s.seen == |h|
    requires e.Misaligned() == plan.misaligned && e.CrossLine() == plan.crossLine
    requires e.CanonicalAccesses() == plan.accesses
    ensures Tallies(c, Captured(c, Counted(s, plan), e, plan).(seen := s.seen + 1), h + [e])
  {
    hide TallyOf, Tallied, WindowFrom, Within, RowsIn, CanonicalOf, Captured, ValidWindows;
    hide RawEvent.Misaligned, RawEvent.CrossLine, RawEvent.CanonicalAccesses;
    var ws := c.windows;
    SearchFinds(ws, 0, |h|);
    TotalsGrow(ws, h, e);
    TalliesGrow(ws, h, e, plan);
    CapturedTotals(c, Counted(s, plan), e, plan);
  }

  lemma TalliesGrow(ws: seq<WindowSpec>, h: seq<RawEvent>, e: RawEvent, plan: Plan)
    requires ValidWindows(ws)
    requires e.Misaligned() == plan.misaligned && e.CrossLine() == plan.crossLine
    requires e.CanonicalAccesses() == plan.accesses
    ensures forall i :: 0 <= i < |ws| ==>
      TallyOf(ws[i], h + [e])
        == if WindowFrom(ws, 0, |h|) == Some(i) then Tallied(TallyOf(ws[i], h), plan) else TallyOf(ws[i], h)
  {
    hide TallyOf, Tallied, WindowFrom, Within, RawEvent.Misaligned, RawEvent.CrossLine, RawEvent.CanonicalAccesses;
    SearchFinds(ws, 0, |h|);
    forall i | 0 <= i < |ws|
      ensures TallyOf(ws[i], h + [e])
           == if WindowFrom(ws, 0, |h|) == Some(i) then Tallied(TallyOf(ws[i], h), plan) else TallyOf(ws[i], h)
    {
      TallyGrows(ws[i], h, e, plan);
    }
  }

  /** An event outside all windows changes nothing that the reader knows. */
  lemma UncapturedIsWindowed(ws: seq<WindowSpec>, h: seq<RawEvent>, e: RawEvent, p: Reader)
    requires ValidWindows(ws) && WindowFrom(ws, 0, |h|).None?
    requires Windowed(ws, h, Opened(ws, |h|, 0), p)
    ensures Windowed(ws, h + [e], Opened(ws, |h| + 1, 0), p)
  {
    hide Opened, WindowFrom, Slice, WindowsRead, Within;
    var n := |h|;
    OpenedByEvent(ws, n);
    SearchFinds(ws, 0, n);
    var m := Opened(ws, n, 0);
    if m > 0 {
      SliceKept(ws[m - 1], h, e);
      WindowsReadKept(ws, h, e, m - 1);
    }
  }

  /** A row of an open window is added to that window's rows. */
  lemma RowIsWindowed(ws: seq<WindowSpec>, h: seq<RawEvent>, e: RawEvent, i: nat, p: Reader)
    requires ValidWindows(ws) && i < |ws| && Windowed(ws, h, i + 1, p)
    requires WindowFrom(ws, 0, |h|) == Some(i)
    ensures Windowed(ws, h + [e], i + 1, p.(rows := p.rows + [e]))
  {
    hide WindowFrom, Slice, WindowsRead, Within;
    SearchFinds(ws, 0, |h|);
    SliceGrows(ws[i], h, e);
    WindowsReadKept(ws, h, e, i);
  }

  /** A marker ends the window under way and opens the next one. */
  lemma MarkerIsWindowed(ws: seq<WindowSpec>, h: seq<RawEvent>, i: nat, p: Reader)
    requires ValidWindows(ws) && i < |ws| && Windowed(ws, h, i, p) && Slice(ws[i], h) == []
    ensures var q := Read(p, WindowMark(i, ws[i]));
      && q.Some? && Windowed(ws, h, i + 1, q.value)
      && q.value == p.(windows := q.value.windows, marker := q.value.marker, rows := q.value.rows)
  {
    if i > 0 {
      assert ValidWindow(ws[i - 1]);
      WindowsReadGrows(ws, h, i - 1);
      hide Slice, WindowsRead;
    }
  }

  lemma WindowsReadGrows(ws: seq<WindowSpec>, h: seq<RawEvent>, m: nat)
    requires m < |ws| && ValidWindows(ws)
    ensures WindowsRead(ws, h, m + 1) == WindowsRead(ws, h, m) + [ParsedWindow(m, ws[m], Slice(ws[m], h))]
  {
    hide Slice;
  }

  lemma HeadCarries(c: Config, s: State, t: State, p: Reader, q: Reader)
    requires Headed(c, s, p) && SameBinding(s, t) && t.startSeen == s.startSeen && t.stopSeen == s.stopSeen
    requires q == p.(windows := q.windows, marker := q.marker, rows := q.rows)
    ensures Headed(c, t, q)
  {
  }

  lemma UncapturedIsFollowed(c: Config, s: State, t: State, h: seq<RawEvent>, e: RawEvent)
    requires ValidWindows(c.windows) && Followed(c, s, h)
    requires WindowFrom(c.windows, 0, |h|).None?
    requires SameBinding(s, t) && t.output == s.output && t.startSeen == s.startSeen && t.stopSeen == s.stopSeen
    ensures Followed(c, t, h + [e])
  {
    hide ReadAll, Headed, Windowed, WindowFrom, Opened, ValidWindows, SameBinding;
    var p := ReadAll(FRESH, s.output).value;
    HeadCarries(c, s, t, p, p);
    UncapturedIsWindowed(c.windows, h, e, p);
    FollowedWhenGathered(c, t, h + [e], p);
  }

  lemma RowIsRead(ws: seq<WindowSpec>, h: seq<RawEvent>, m: nat, p: Reader, e: RawEvent)
    requires ValidWindows(ws) && 0 < m <= |ws| && Windowed(ws, h, m, p)
    ensures Read(p, Row(e)) == Some(p.(rows := p.rows + [e]))
  {
    hide Slice, WindowsRead, ValidWindows;
  }

  lemma RowFollows(c: Config, s: State, t: State, h: seq<RawEvent>, e: RawEvent, i: nat, p: Reader)
    requires ValidWindows(c.windows) && i < |c.windows| && Headed(c, s, p) && Windowed(c.windows, h, i + 1, p)
    requires WindowFrom(c.windows, 0, |h|) == Some(i)
    requires SameBinding(s, t) && t.startSeen == s.startSeen && t.stopSeen == s.stopSeen
    ensures var q := Read(p, Row(e));
      q.Some? && Headed(c, t, q.value) && Windowed(c.windows, h + [e], i + 1, q.value)
  {
    hide Headed, Read, WindowFrom, ValidWindows, Windowed, SameBinding;
    var q := p.(rows := p.rows + [e]);
    RowIsRead(c.windows, h, i + 1, p, e);
    RowIsWindowed(c.windows, h, e, i, p);
    HeadCarries(c, s, t, p, q);
  }

  lemma FollowedWhenGathered(c: Config, t: State, h: seq<RawEvent>, p: Reader)
    requires ValidWindows(c.windows) && ReadAll(FRESH, t.output) == Some(p) && Gathered(c, t, h, p)
    ensures Followed(c, t, h)
  {
  }

  /** A row of a window that is open already. */
  lemma OpenRowIsFollowed(c: Config, s: State, t: State, h: seq<RawEvent>, e: RawEvent, i: nat)
    requires ValidWindows(c.windows) && Followed(c, s, h)
    requires WindowFrom(c.windows, 0, |h|) == Some(i) && c.windows[i].start < |h|
    requires SameBinding(s, t) && t.startSeen == s.startSeen && t.stopSeen == s.stopSeen
    requires t.output == s.output + [Row(e)]
    ensures Followed(c, t, h + [e])
  {
    hide ReadAll, Headed, Windowed, WindowFrom, Opened, ValidWindows, Read, SameBinding;
    var p := ReadAll(FRESH, s.output).value;
    OpenedByEvent(c.windows, |h|);
    ReadOne(s.output, Row(e));
    RowFollows(c, s, t, h, e, i, p);
    FollowedWhenGathered(c, t, h + [e], Read(p, Row(e)).value);
  }

  /** The first row of a window, behind the window's marker. */
  lemma FirstRowIsFollowed(c: Config, s: State, t: State, h: seq<RawEvent>, e: RawEvent, i: nat)
    requires ValidWindows(c.windows) && Followed(c, s, h)
    requires WindowFrom(c.windows, 0, |h|) == Some(i) && c.windows[i].start >= |h|
    requires SameBinding(s, t) && t.startSeen == s.startSeen && t.stopSeen == s.stopSeen
    requires t.output == s.output + [WindowMark(i, c.windows[i])] + [Row(e)]
    ensures Followed(c, t, h + [e])
  {
    hide ReadAll, Headed, Windowed, WindowFrom, Opened, ValidWindows, Read, SameBinding;
    var line := WindowMark(i, c.windows[i]);
    var p := ReadAll(FRESH, s.output).value;
    OpenedByEvent(c.windows, |h|);
    ReadOne(s.output, line);
    MarkerFollows(c, s, h, i, p);
    var q := Read(p, line).value;
    ReadOne(s.output + [line], Row(e));
    RowFollows(c, s, t, h, e, i, q);
    FollowedWhenGathered(c, t, h + [e], Read(q, Row(e)).value);
  }

  lemma MarkerFollows(c: Config, s: State, h: seq<RawEvent>, i: nat, p: Reader)
    requires ValidWindows(c.windows) && i < |c.windows| && c.windows[i].start >= |h|
    requires Headed(c, s, p) && Windowed(c.windows, h, i, p)
    ensures var q := Read(p, WindowMark(i, c.windows[i]));
      q.Some? && Headed(c, s, q.value) && Windowed(c.windows, h, i + 1, q.value)
  {
    assert Slice(c.windows[i], h) == [];
    hide Headed, Windowed, Read, ValidWindows, Slice;
    MarkerIsWindowed(c.windows, h, i, p);
    SameBindingSelf(s);
    HeadCarries(c, s, s, p, Read(p, WindowMark(i, c.windows[i])).value);
  }

  lemma SameBindingSelf(s: State)
    ensures SameBinding(s, s)
  {
  }

  lemma EventIsSound(c: Config, s: State, h: seq<RawEvent>, cb: Callback)
    requires c.Installed() && Sound(c, s, h) && Counts(s, cb)
    ensures Sound(c, OnMemory(c, s, cb), h + [EventOf(s, cb)])
  {
    EventMatchesPlan(s, cb);
    var e, plan := EventOf(s, cb), Judge(s, cb).plan;
    var t := OnMemory(c, s, cb);
    assert t == Captured(c, Counted(s, plan), e, plan).(seen := s.seen + 1);
    hide Judge, EventOf, OnMemory, Followed, Tallies, Counters, RawEvent.Misaligned, RawEvent.CrossLine, WellFormed,
         RawEvent.CanonicalAccesses;
    EventCounters(c, s, h, e, plan);
    SeenIsLength(s, h);
    EventTallies(c, s, h, e, plan);
    EventIsFollowed(c, s, h, e, plan);
    hide Captured, Counted;
    CapturedKeeps(c, s, e, plan);
    EventBelongs(c, s, t, h, e);
  }

  lemma SeenIsLength(s: State, h: seq<RawEvent>)
    requires Counters(s, h)
    ensures s.seen == |h|
  {
  }

  lemma CapturedKeeps(c: Config, s: State, e: RawEvent, plan: Plan)
    ensures var t := Captured(c, Counted(s, plan), e, plan).(seen := s.seen + 1);
      && SameBinding(s, t) && t.startSeen == s.startSeen && t.stopSeen == s.stopSeen && t.tracing == s.tracing
      && t.invalid == s.invalid && t.violations == s.violations
  {
    hide WindowFrom, Tallied;
  }

  lemma EventBelongs(c: Config, s: State, t: State, h: seq<RawEvent>, e: RawEvent)
    requires EventsBelong(c, s, h) && SameBinding(s, t) && RowBelongs(e, |h|, IdentityOf(c, s))
    ensures EventsBelong(c, t, h + [e])
  {
    hide RowBelongs;
  }

  lemma EventIsFollowed(c: Config, s: State, h: seq<RawEvent>, e: RawEvent, plan: Plan)
    requires c.Installed() && Followed(c, s, h) && Tallies(c, s, h) && s.seen == |h|
    ensures Followed(c, Captured(c, Counted(s, plan), e, plan).(seen := s.seen + 1), h + [e])
  {
    hide Followed, ValidWindows, Tallied, WindowFrom, SameBinding;
    var t := Captured(c, Counted(s, plan), e, plan).(seen := s.seen + 1);
    CapturedKeeps(c, s, e, plan);
    var found := WindowFrom(c.windows, 0, |h|);
    match found
    case None => UncapturedIsFollowed(c, s, t, h, e);
    case Some(i) =>
      WindowStarts(c, i);
      AnnouncedWhenOpened(c.windows[i], h);
      if c.windows[i].start < |h| {
        assert t.output == s.output + [] + [Row(e)];
        assert s.output + [] == s.output;
        OpenRowIsFollowed(c, s, t, h, e, i);
      } else {
        FirstRowIsFollowed(c, s, t, h, e, i);
      }
  }

  lemma WindowStarts(c: Config, i: nat)
    requires ValidWindows(c.windows) && i < |c.windows|
    ensures c.windows[i].start >= 0
  {
  }

  lemma AnnouncedWhenOpened(w: WindowSpec, h: seq<RawEvent>)
    requires w.start >= 0 && Within(w, |h|)
    ensures TallyOf(w, h).announced <==> w.start < |h|
  {
  }

  // --------------------------------------------------------------------------- every step

  lemma VcpuInitIsSound(c: Config, s: State, h: seq<RawEvent>, vcpu: nat, found: Option<bool>)
    requires ValidWindows(c.windows) && Sound(c, s, h)
    ensures Sound(c, OnVcpuInit(s, vcpu, found), h)
  {
    var t := OnVcpuInit(s, vcpu, found);
    if vcpu == 0 && found == Some(true) {
      assert t.output == s.output + [Registers];
    } else {
      var code := if vcpu != 0 then UnexpectedVcpuInit else if found.None? then RegisterListFailed
                  else RequiredRegisterMissing;
      assert t.output == s.output + [Violation(code, s.seen)];
    }
    BooksCarryOver(c, s, t, h);
  }

  /** Counting something that the invariant does not relate changes nothing, violation or not. */
  lemma AsideIsSound(c: Config, s: State, u: State, h: seq<RawEvent>, code: Code)
    requires ValidWindows(c.windows) && Sound(c, s, h)
    requires u == s.(readFailures := u.readFailures, filteredNonU := u.filteredNonU,
                     filteredForeign := u.filteredForeign)
    ensures Sound(c, u, h) && Sound(c, Violate(u, code), h)
  {
    BooksCarryOver(c, s, u, h);
    ViolateIsSound(c, u, h, code);
  }

  lemma MemoryIsSound(c: Config, s: State, h: seq<RawEvent>, cb: Callback)
    requires c.Installed() && Sound(c, s, h) && cb.Memory?
    ensures Sound(c, OnMemory(c, s, cb), h + if Counts(s, cb) then [EventOf(s, cb)] else [])
  {
    hide Sound, Judge, EventOf, Violate, OnMemory;
    if Counts(s, cb) {
      EventIsSound(c, s, h, cb);
    } else {
      assert h + [] == h;
      UncountedIsSound(c, s, h, cb);
    }
  }

  lemma UncountedIsSound(c: Config, s: State, h: seq<RawEvent>, cb: Callback)
    requires ValidWindows(c.windows) && Sound(c, s, h) && cb.Memory? && !Counts(s, cb)
    ensures Sound(c, OnMemory(c, s, cb), h)
  {
    hide Sound, Judge, EventOf, Violate, ValidWindows, Captured, Counted;
    var v := Judge(s, cb);
    if s.tracing && v.ReadFailed? {
      AsideIsSound(c, s, s.(readFailures := s.readFailures + 1), h, RegisterReadFailed);
    } else if s.tracing && v.Refused? {
      ViolateIsSound(c, s, h, v.code);
    } else if s.tracing && v.kind.IgnoreNonU? {
      AsideIsSound(c, s, s.(filteredNonU := s.filteredNonU + 1), h, RegisterReadFailed);
    } else if s.tracing {
      AsideIsSound(c, s, s.(filteredForeign := s.filteredForeign + 1), h, RegisterReadFailed);
    }
  }

  lemma MarkerIsSound(c: Config, s: State, h: seq<RawEvent>, cb: Callback)
    requires ValidWindows(c.windows) && Sound(c, s, h) && cb.Marker?
    ensures Sound(c, OnMarker(c, s, cb), h)
  {
    hide Sound, Violate, ValidWindows, OnStart, OnStop;
    var failed := s.(readFailures := s.readFailures + 1);
    AsideIsSound(c, s, failed, h, RegistersNotReady);
    AsideIsSound(c, s, failed, h, MarkerRegisterReadFailed);
    AsideIsSound(c, s, failed, h, RegisterReadFailed);
    if s.ready && cb.args.Some? && cb.context.Some? {
      var (magic, nonce, event, command, pid, tid) := cb.args.value;
      var (priv, satp) := cb.context.value;
      forall code
        ensures Sound(c, Violate(s, code), h)
      {
        ViolateIsSound(c, s, h, code);
      }
      if pid != 0 && tid != 0 {
        StartIsSound(c, s, h, priv, satp, pid, tid);
        StopIsSound(c, s, h, priv, satp, pid, tid);
      }
    }
  }

  lemma ConfigIsRead(p: Reader, k: nat, w: WindowSpec)
    requires p.marker.None? && k !in p.configs
    ensures var line := WindowConfig(k, w);
      Read(p, line) == Some(p.(configs := p.configs[k := w], header := p.header + [line]))
  {
  }

  lemma {:induction false} ConfigsAreRead(ws: seq<WindowSpec>, k: nat, p: Reader)
    requires k <= |ws| && p.configs == map[] && p.marker.None?
    ensures var q := ReadAll(p, Configs(ws)[..k]);
      && q.Some?
      && q.value == p.(configs := q.value.configs, header := p.header + Configs(ws)[..k])
      && (forall i: nat :: i in q.value.configs <==> i < k)
      && (forall i: nat :: i < k ==> q.value.configs[i] == ws[i])
  {
    if k == 0 {
      assert p.header + Configs(ws)[..0] == p.header;
    } else {
      ConfigsAreRead(ws, k - 1, p);
      assert Configs(ws)[..k] == Configs(ws)[..k - 1] + [WindowConfig(k - 1, ws[k - 1])];
      var q := ReadAll(p, Configs(ws)[..k - 1]).value;
      ConfigIsRead(q, k - 1, ws[k - 1]);
      hide Read;
      assert Configs(ws)[..k][..k - 1] == Configs(ws)[..k - 1];
    }
  }

  function ContextLine(c: Config): Record {
    Context(c.mode, c.nonce, c.command, if c.expectedTotal.Some? then c.expectedTotal.value else 0)
  }

  function HeaderLines(c: Config): seq<Record> {
    [Schema, Columns, DataPolicy, ContextLine(c)]
  }

  lemma HeaderIsRead(c: Config)
    ensures ReadAll(FRESH, HeaderLines(c)) == Some(FRESH.(header := HeaderLines(c), contexts := [ContextLine(c)]))
  {
    var line := ContextLine(c);
    var one, two, three := [Schema], [Schema, Columns], [Schema, Columns, DataPolicy];
    ReadOne([], Schema);
    assert [] + [Schema] == one && FRESH.header + [Schema] == one;
    assert ReadAll(FRESH, one) == Some(FRESH.(header := one));
    ReadOne(one, Columns);
    assert one + [Columns] == two;
    assert ReadAll(FRESH, two) == Some(FRESH.(header := two));
    ReadOne(two, DataPolicy);
    assert two + [DataPolicy] == three;
    assert ReadAll(FRESH, three) == Some(FRESH.(header := three));
    ReadOne(three, line);
    assert three + [line] == [Schema, Columns, DataPolicy, line];
    assert FRESH.contexts + [line] == [line];
  }

  lemma NoEventsYet(ws: seq<WindowSpec>)
    requires ValidWindows(ws)
    ensures Opened(ws, 0, 0) == 0
    ensures forall i :: 0 <= i < |ws| ==> TallyOf(ws[i], []) == EMPTY_TALLY
  {
  }

  lemma InstalledIsSound(c: Config)
    requires c.Installed()
    ensures Sound(c, Installed(c), [])
  {
    hide Followed, Opened, ValidWindows, TallyOf, RowsIn, CanonicalOf;
    NoRows(c.windows);
    NoEventsYet(c.windows);
    InstalledIsFollowed(c);
  }

  lemma InstalledIsFollowed(c: Config)
    requires c.Installed()
    ensures Followed(c, Installed(c), [])
  {
    hide ReadAll, Read, Configs, Opened, ValidWindows, Followed, HeaderLines, ContextLine, Installed;
    hide Headed;
    NoneOpened(c.windows);
    InstalledHeader(c);
    var p := FRESH.(header := HeaderLines(c), contexts := [ContextLine(c)]);
    HeaderIsRead(c);
    ReadAllConcat(FRESH, HeaderLines(c), Configs(c.windows));
    ConfigsAreRead(c.windows, |c.windows|, p);
    assert Configs(c.windows)[..|c.windows|] == Configs(c.windows);
    var q := ReadAll(p, Configs(c.windows)).value;
    HeadOfConfigs(c, q);
    FollowedWhenGathered(c, Installed(c), [], q);
  }

  lemma NoneOpened(ws: seq<WindowSpec>)
    requires ValidWindows(ws)
    ensures Opened(ws, 0, 0) == 0
  {
  }

  lemma InstalledHeader(c: Config)
    ensures Installed(c).output == HeaderLines(c) + Configs(c.windows)
  {
    hide Configs;
  }

  lemma HeadOfConfigs(c: Config, q: Reader)
    requires q == FRESH.(header := HeaderLines(c) + Configs(c.windows), contexts := [ContextLine(c)],
                         configs := q.configs)
    requires forall i: nat :: i in q.configs <==> i < |c.windows|
    requires forall i: nat :: i < |c.windows| ==> q.configs[i] == c.windows[i]
    ensures Headed(c, Installed(c), q)
  {
    hide Configs;
  }

  lemma StepIsSound(c: Config, s: State, h: seq<RawEvent>, cb: Callback)
    requires c.Installed() && Sound(c, s, h)
    ensures Sound(c, OnCallback(c, s, cb), h + if Counts(s, cb) then [EventOf(s, cb)] else [])
  {
    hide Sound, EventOf, OnMarker, OnMemory, OnVcpuInit, ValidWindows, Judge;
    match cb
    case VcpuInit(vcpu, found) =>
      assert h + [] == h;
      VcpuInitIsSound(c, s, h, vcpu, found);
    case Memory(_, _, _, _, _, _, _, _) => MemoryIsSound(c, s, h, cb);
    case Marker(_, _, _) =>
      assert h + [] == h;
      MarkerIsSound(c, s, h, cb);
  }

  /** In every run the invariant holds between the state and the attributed events. */
  lemma {:induction false} RunIsSound(c: Config, run: seq<Callback>)
    requires c.Installed()
    ensures Sound(c, After(c, run), Events(c, run))
  {
    if run == [] {
      InstalledIsSound(c);
    } else {
      var before, cb := run[..|run| - 1], run[|run| - 1];
      RunIsSound(c, before);
      hide Sound, EventOf, OnCallback, Counts, Config.Installed;
      StepIsSound(c, After(c, before), Events(c, before), cb);
    }
  }
}
