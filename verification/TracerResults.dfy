/** The main results about the tracer and its reader, over every sequence of callbacks. */
module TracerResults {
  import opened Wrappers
  import opened Geometries
  import opened LoadStore
  import opened Canonical
  import opened WindowText
  import opened Tracer
  import opened Splitter
  import opened TracerRuns

  // ------------------------------------------------------------------------ what PASS means

  lemma {:induction false} WindowsPass(c: Config, s: State, i: nat)
    requires i <= |c.windows| == |s.tallies| && !CheckWindows(c, s, i).invalid
    ensures CheckWindows(c, s, i) == s && !s.invalid
    ensures forall k :: 0 <= k < i ==> s.tallies[k].captured == c.windows[k].count
  {
    if i > 0 {
      WindowsPass(c, s, i - 1);
    }
  }

  lemma PassIsClean(c: Config, s: State)
    requires |c.windows| == |s.tallies| && Pass(c, s)
    ensures Validated(c, s) == s && !s.invalid && s.ready && s.startSeen && s.stopSeen
    ensures c.mode.Capture? ==> c.expectedTotal == Some(s.seen)
    ensures c.mode.Capture? ==> forall k :: 0 <= k < |c.windows| ==> s.tallies[k].captured == c.windows[k].count
  {
    if c.mode.Capture? {
      var a := ViolateIf(s, !s.ready, RequiredRegisterMissingAtExit);
      var b := ViolateIf(a, !s.startSeen, MissingStart);
      var d := ViolateIf(b, !s.stopSeen, MissingStop);
      var e := ViolateIf(d, Unbalanced(d), CanonicalizationConservationFailed);
      var f := ViolateIf(e, c.expectedTotal.None? || e.seen != c.expectedTotal.value, CountCaptureTotalMismatch);
      WindowsPass(c, f, |c.windows|);
    }
  }

  // ----------------------------------------------------------------------- reading the end

  lemma {:induction false} SummariesAreRead(c: Config, s: State, k: nat, p: Reader)
    requires k <= |c.windows| == |s.tallies| && p.summaries == map[]
    ensures var q := ReadAll(p, WindowSummaries(c, s)[..k]);
      && q.Some? && q.value == p.(summaries := q.value.summaries)
      && (forall i: nat :: i in q.value.summaries <==> i < k)
      && (forall i: nat :: i < k ==> q.value.summaries[i] == WindowSummaries(c, s)[i])
  {
    var lines := WindowSummaries(c, s);
    SummaryCount(c, s);
    if k > 0 {
      SummariesAreRead(c, s, k - 1, p);
      hide WindowSummaries, Read, ReadAll;
      ReadMore(p, lines, k);
      SummaryIsRead(ReadAll(p, lines[..k - 1]).value, lines[k - 1], k - 1);
    }
  }

  lemma ReadMore(p: Reader, lines: seq<Record>, k: nat)
    requires 0 < k <= |lines| && ReadAll(p, lines[..k - 1]).Some?
    ensures ReadAll(p, lines[..k]) == Read(ReadAll(p, lines[..k - 1]).value, lines[k - 1])
  {
    assert lines[..k][..k - 1] == lines[..k - 1];
  }

  lemma SummaryIsRead(p: Reader, r: Record, i: nat)
    requires r.WindowSummary? && r.index == i && i !in p.summaries
    ensures Read(p, r) == Some(p.(summaries := p.summaries[i := r]))
  {
  }

  /** The reader's state at the end of the file. */
  lemma StreamIsRead(c: Config, s: State, h: seq<RawEvent>)
    requires ValidWindows(c.windows) && |c.windows| == |s.tallies| && Validated(c, s) == s && Followed(c, s, h)
    ensures var q := ReadAll(FRESH, Stream(c, s));
      && q.Some?
      && q.value == ReadAll(FRESH, s.output).value.(summary := Some(SummaryOf(c, s)), summaries := q.value.summaries)
      && (forall i: nat :: i in q.value.summaries <==> i < |c.windows|)
      && (forall i: nat :: i < |c.windows| ==> q.value.summaries[i] == WindowSummaries(c, s)[i])
  {
    hide Validated, WindowSummaries, SummaryOf, ReadAll, Windowed, ValidWindows;
    var p := ReadAll(FRESH, s.output).value;
    var line := SummaryLine(SummaryOf(c, s));
    ReadOne(s.output, line);
    var last := p.(summary := Some(SummaryOf(c, s)));
    assert ReadAll(FRESH, s.output + [line]) == Some(last);
    SummariesAreRead(c, s, |c.windows|, last);
    assert WindowSummaries(c, s)[..|c.windows|] == WindowSummaries(c, s) by {
      SummaryCount(c, s);
    }
    ReadAllConcat(FRESH, s.output + [line], WindowSummaries(c, s));
  }

  lemma SummaryCount(c: Config, s: State)
    requires |c.windows| == |s.tallies|
    ensures |WindowSummaries(c, s)| == |c.windows|
    ensures forall i :: 0 <= i < |c.windows| ==>
      WindowSummaries(c, s)[i].WindowSummary? && WindowSummaries(c, s)[i].index == i
  {
  }

  // -------------------------------------------------------------------- full windows agree

  /** A full window holds exactly the events that it asks for. */
  lemma FullSlice(w: WindowSpec, h: seq<RawEvent>)
    requires w.start >= 0 && w.count > 0 && |Slice(w, h)| == w.count
    ensures w.start + w.count <= |h| && Slice(w, h) == h[w.start..w.start + w.count]
  {
  }

  lemma FullIsOpened(ws: seq<WindowSpec>, h: seq<RawEvent>)
    requires ValidWindows(ws) && forall i :: 0 <= i < |ws| ==> |Slice(ws[i], h)| == ws[i].count
    ensures Opened(ws, |h|, 0) == |ws|
  {
    if ws != [] {
      assert ValidWindow(ws[|ws| - 1]);
      FullSlice(ws[|ws| - 1], h);
    }
    OpenedIs(ws, |h|, |ws|);
  }

  lemma {:induction false} TotalsOfFull(ws: seq<WindowSpec>, h: seq<RawEvent>)
    requires ValidWindows(ws) && forall i :: 0 <= i < |ws| ==> |Slice(ws[i], h)| == ws[i].count
    ensures TotalCount(WindowsRead(ws, h, |ws|)) == RowsIn(ws, h)
    ensures TotalCanonical(WindowsRead(ws, h, |ws|)) == CanonicalOf(ws, h)
  {
    if ws != [] {
      AllButLast(ws, h);
      hide Slice, CanonicalIn, ValidWindows, WindowsRead;
      var before := ws[..|ws| - 1];
      TotalsOfFull(before, h);
      var read, last := WindowsRead(before, h, |before|), ParsedWindow(|before|, ws[|ws| - 1], Slice(ws[|ws| - 1], h));
      assert (read + [last])[..|read|] == read;
    }
  }

  lemma AllButLast(ws: seq<WindowSpec>, h: seq<RawEvent>)
    requires ValidWindows(ws) && ws != []
    ensures var before, last := ws[..|ws| - 1], ws[|ws| - 1];
      && ValidWindows(before) && last.start >= 0
      && WindowsRead(ws, h, |ws|)
           == WindowsRead(before, h, |before|) + [ParsedWindow(|before|, last, Slice(last, h))]
  {
    hide Slice;
    assert ValidWindow(ws[|ws| - 1]);
  }

  /** Window i of a captured run satisfies everything that the reader checks. */
  lemma FullWindowAgrees(c: Config, s: State, h: seq<RawEvent>, q: Reader, i: nat)
    requires ValidWindows(c.windows) && i < |c.windows| == |s.tallies|
    requires EventsBelong(c, s, h) && s.tallies[i] == TallyOf(c.windows[i], h)
    requires s.tallies[i].captured == c.windows[i].count
    requires i in q.configs && q.configs[i] == c.windows[i]
    requires i in q.summaries && q.summaries[i] == WindowSummaries(c, s)[i]
    ensures WindowAgrees(q, i, ParsedWindow(i, c.windows[i], Slice(c.windows[i], h)), IdentityOf(c, s))
  {
    var w := c.windows[i];
    assert ValidWindow(w);
    FullSlice(w, h);
    var rows := Slice(w, h);
    hide Slice, ValidWindows, MisalignedIn, CrossLineIn, CanonicalIn;
    forall k | 0 <= k < |rows|
      ensures RowBelongs(rows[k], w.start + k, IdentityOf(c, s))
    {
      assert rows[k] == h[w.start + k];
    }
    hide EventsBelong;
    ReplayIsConserved(rows);
    hide RawEvent.Misaligned, RawEvent.CrossLine, WellFormed;
  }

  /** The reader's state when the last window is closed. */
  lemma LastWindowCloses(ws: seq<WindowSpec>, h: seq<RawEvent>, p: Reader)
    requires ValidWindows(ws) && ws != [] && Windowed(ws, h, |ws|, p)
    ensures Closed(p) == Some(p.(windows := WindowsRead(ws, h, |ws|), marker := None, rows := []))
  {
    assert ValidWindow(ws[|ws| - 1]);
    WindowsReadGrows(ws, h, |ws| - 1);
    hide WindowsRead, Slice, ValidWindows;
  }

  lemma FileOfPassAgrees(c: Config, s: State, h: seq<RawEvent>, q: Reader)
    requires c.Installed() && c.mode.Capture? && Sound(c, s, h) && Validated(c, s) == s && Pass(c, s)
    requires Headed(c, s, q.(summaries := map[], summary := None))
    requires q.windows == WindowsRead(c.windows, h, |c.windows|) && q.summary == Some(SummaryOf(c, s))
    requires forall i: nat :: i in q.summaries <==> i < |c.windows|
    requires forall i: nat :: i < |c.windows| ==> q.summaries[i] == WindowSummaries(c, s)[i]
    ensures FileAgrees(q)
  {
    PassIsClean(c, s);
    hide Validated, Pass, WindowSummaries, Followed, SameIdentity, SummaryAgrees, SummaryOf, Headed, WindowAgrees,
         WindowsRead, Slice, ValidWindows, Counters, RowsIn, CanonicalOf, TallyOf;
    HeadOfPass(c, s, h, q);
    SummaryOfPass(c, s, h);
    SummaryRows(c, s);
    FullTallies(c, s, h);
    TotalsOfFull(c.windows, h);
    forall i | 0 <= i < |c.windows|
      ensures WindowAgrees(q, i, q.windows[i], q.starts[0])
    {
      FullWindowAgrees(c, s, h, q, i);
      WindowReadAt(c.windows, h, i);
    }
  }

  lemma WindowReadAt(ws: seq<WindowSpec>, h: seq<RawEvent>, i: nat)
    requires ValidWindows(ws) && i < |ws|
    ensures WindowsRead(ws, h, |ws|)[i] == ParsedWindow(i, ws[i], Slice(ws[i], h))
  {
  }

  /** What the header lines of a passing run say about its identity. */
  lemma HeadOfPass(c: Config, s: State, h: seq<RawEvent>, q: Reader)
    requires Headed(c, s, q.(summaries := map[], summary := None)) && Flow(s, h)
    requires s.startSeen && s.stopSeen && c.mode.Capture? && q.summary == Some(SummaryOf(c, s))
    ensures q.header != [] && q.header[0] == Schema
    ensures SameIdentity(q, SummaryOf(c, s)) && q.starts == [IdentityOf(c, s)]
    ensures forall i: nat :: i in q.configs <==> i < |c.windows|
    ensures forall i: nat :: i < |c.windows| ==> q.configs[i] == c.windows[i]
  {
  }

  lemma SummaryRows(c: Config, s: State)
    ensures SummaryOf(c, s).capturedRows == s.capturedRows
    ensures SummaryOf(c, s).capturedCanonical == s.capturedCanonical
  {
  }

  lemma FullTallies(c: Config, s: State, h: seq<RawEvent>)
    requires ValidWindows(c.windows) && Tallies(c, s, h)
    requires forall k :: 0 <= k < |c.windows| ==> s.tallies[k].captured == c.windows[k].count
    ensures forall i :: 0 <= i < |c.windows| ==> |Slice(c.windows[i], h)| == c.windows[i].count
  {
    hide Slice, RowsIn, CanonicalOf;
  }

  lemma SummaryOfPass(c: Config, s: State, h: seq<RawEvent>)
    requires Counters(s, h) && EventsBelong(c, s, h) && Flow(s, h)
    requires !s.invalid && s.startSeen && s.stopSeen && c.mode.Capture? && c.expectedTotal == Some(s.seen)
    ensures SummaryAgrees(SummaryOf(c, s))
  {
    forall k | 0 <= k < |h|
      ensures WellFormed(h[k])
    {
      assert RowBelongs(h[k], k, IdentityOf(c, s));
    }
    ReplayIsConserved(h);
  }

  // -------------------------------------------------------------------------- main results

  /**
   Writer and reader agree: the trace file of a capture run is accepted exactly when the run
   passes, and then window i holds exactly the attributed events from its start on, in order.
   */
  lemma AcceptedExactlyWhenPassed(c: Config, run: seq<Callback>)
    requires c.Installed() && c.mode.Capture?
    ensures var s, h, file := After(c, run), Events(c, run), Parsed(Stream(c, After(c, run)));
      && (file.Some? <==> Pass(c, s))
      && (file.Some? ==>
            && |file.value| == |c.windows|
            && forall i :: 0 <= i < |c.windows| ==>
                 var w := c.windows[i];
                 && w.start + w.count <= |h|
                 && file.value[i] == ParsedWindow(i, w, h[w.start..w.start + w.count]))
  {
    hide After, Events;
    RunIsSound(c, run);
    var s, h := After(c, run), Events(c, run);
    if Pass(c, s) {
      PassedIsAccepted(c, s, h);
    } else {
      RefusedIsRejected(c, s);
    }
  }

  lemma PassedIsAccepted(c: Config, s: State, h: seq<RawEvent>)
    requires c.Installed() && c.mode.Capture? && Sound(c, s, h) && Pass(c, s)
    ensures Parsed(Stream(c, s)) == Some(WindowsRead(c.windows, h, |c.windows|))
    ensures forall i :: 0 <= i < |c.windows| ==>
              var w := c.windows[i];
              w.start + w.count <= |h| && Slice(w, h) == h[w.start..w.start + w.count]
  {
    hide Closed, Parsed, Headed, Windowed;
    PassIsClean(c, s);
    FullTallies(c, s, h);
    hide Slice, WindowsRead, ReadAll, Stream, Validated, Opened, WindowSummaries, SummaryOf, ValidWindows, Counters,
         Tallies, EventsBelong, Flow, FileAgrees;
    FullSlices(c.windows, h);
    FullIsOpened(c.windows, h);
    StreamIsRead(c, s, h);
    var p, q := ReadAll(FRESH, s.output).value, ReadAll(FRESH, Stream(c, s)).value;
    SummaryKeepsWindows(c.windows, h, p, q);
    LastWindowCloses(c.windows, h, q);
    var closed := Closed(q).value;
    SummaryKeepsHead(c, s, p, closed);
    FileOfPassAgrees(c, s, h, closed);
    ParsedIs(Stream(c, s), q, closed);
  }

  lemma SummaryKeepsWindows(ws: seq<WindowSpec>, h: seq<RawEvent>, p: Reader, q: Reader)
    requires ValidWindows(ws) && Windowed(ws, h, |ws|, p)
    requires q == p.(summary := q.summary, summaries := q.summaries)
    ensures Windowed(ws, h, |ws|, q)
  {
    hide Slice, WindowsRead, ValidWindows;
  }

  lemma SummaryKeepsHead(c: Config, s: State, p: Reader, q: Reader)
    requires Headed(c, s, p)
    requires q == p.(summary := q.summary, summaries := q.summaries, windows := q.windows, marker := q.marker,
                     rows := q.rows)
    ensures Headed(c, s, q.(summaries := map[], summary := None))
  {
  }

  lemma ParsedIs(records: seq<Record>, q: Reader, closed: Reader)
    requires ReadAll(FRESH, records) == Some(q) && Closed(q) == Some(closed) && FileAgrees(closed)
    ensures Parsed(records) == Some(closed.windows)
  {
    hide ReadAll, FileAgrees, Closed;
  }

  lemma FullSlices(ws: seq<WindowSpec>, h: seq<RawEvent>)
    requires ValidWindows(ws) && forall i :: 0 <= i < |ws| ==> |Slice(ws[i], h)| == ws[i].count
    ensures forall i :: 0 <= i < |ws| ==>
              var w := ws[i];
              0 <= w.start && w.start + w.count <= |h| && Slice(w, h) == h[w.start..w.start + w.count]
  {
    hide Slice;
    forall i | 0 <= i < |ws|
      ensures var w := ws[i];
              0 <= w.start && w.start + w.count <= |h| && Slice(w, h) == h[w.start..w.start + w.count]
    {
      assert ValidWindow(ws[i]);
      FullSlice(ws[i], h);
    }
  }

  lemma RefusedIsRejected(c: Config, s: State)
    requires |c.windows| == |s.tallies| && !Pass(c, s)
    ensures Parsed(Stream(c, s)).None?
  {
    var end := Validated(c, s);
    var line := SummaryLine(SummaryOf(c, end));
    assert end.tallies == s.tallies && !SummaryOf(c, end).pass;
    var lines := WindowSummaries(c, end);
    assert Stream(c, s) == (end.output + [line]) + lines;
    assert (end.output + [line])[..|end.output|] == end.output;
    hide Validated, SummaryOf, WindowSummaries, Stream, Pass;
    ReadAllConcat(FRESH, end.output + [line], lines);
    var before := ReadAll(FRESH, end.output + [line]);
    if before.Some? {
      assert before.value.summary == Some(line.summary);
      SummaryCount(c, end);
      SummaryKept(before.value, lines);
    }
  }

  lemma {:induction false} SummaryKept(p: Reader, lines: seq<Record>)
    requires forall i :: 0 <= i < |lines| ==> lines[i].WindowSummary?
    ensures ReadAll(p, lines).Some? ==> ReadAll(p, lines).value.summary == p.summary
  {
    if lines != [] {
      SummaryKept(p, lines[..|lines| - 1]);
    }
  }

  /** Once invalid, always invalid, and so never PASS. */
  lemma {:induction false} InvalidIsAbsorbing(c: Config, run: seq<Callback>, k: nat)
    requires k <= |run| && After(c, run[..k]).invalid
    ensures After(c, run).invalid && !Pass(c, After(c, run))
    decreases |run|
  {
    if k == |run| {
      assert run[..k] == run;
    } else {
      var before := run[..|run| - 1];
      assert before[..k] == run[..k];
      InvalidIsAbsorbing(c, before, k);
      StepKeepsInvalid(c, After(c, before), run[|run| - 1]);
    }
    hide After;
    if Pass(c, After(c, run)) {
      PassIsClean(c, After(c, run));
    }
  }

  lemma StepKeepsInvalid(c: Config, s: State, cb: Callback)
    requires s.invalid
    ensures OnCallback(c, s, cb).invalid
  {
    forall u: State, code
      ensures Violate(u, code).invalid
    {
    }
    hide Judge, EventOf, WindowFrom, Tallied, Violate, BareSatp;
  }

  /** The counters that do not concern the windows. */
  predicate SameTotals(s: State, t: State) {
    && t.ready == s.ready && t.tracing == s.tracing && t.startSeen == s.startSeen && t.stopSeen == s.stopSeen
    && t.invalid == s.invalid && t.satp == s.satp && t.pid == s.pid && t.tid == s.tid
    && t.seen == s.seen && t.filteredNonU == s.filteredNonU && t.filteredForeign == s.filteredForeign
    && t.misaligned == s.misaligned && t.crossLine == s.crossLine
    && t.expanded == s.expanded && t.canonical == s.canonical
    && t.violations == s.violations && t.readFailures == s.readFailures && t.first == s.first
  }

  /** Totals and attributed events depend on the callbacks alone, not on the mode or the windows. */
  lemma {:induction false} TotalsIgnoreWindows(c1: Config, c2: Config, run: seq<Callback>)
    requires c1.nonce == c2.nonce && c1.command == c2.command
    ensures SameTotals(After(c1, run), After(c2, run)) && Events(c1, run) == Events(c2, run)
  {
    if run != [] {
      var before, cb := run[..|run| - 1], run[|run| - 1];
      TotalsIgnoreWindows(c1, c2, before);
      var s, t := After(c1, before), After(c2, before);
      SameJudgement(s, t, cb);
      SameStep(c1, c2, s, t, cb);
      hide SameTotals, OnCallback, Judge, EventOf;
    }
  }

  lemma SameJudgement(s: State, t: State, cb: Callback)
    requires SameTotals(s, t)
    ensures Counts(s, cb) == Counts(t, cb)
    ensures cb.Memory? ==> Judge(s, cb) == Judge(t, cb)
    ensures Counts(s, cb) ==> EventOf(s, cb) == EventOf(t, cb)
  {
  }

  lemma SameViolation(s: State, t: State, code: Code)
    requires SameTotals(s, t)
    ensures SameTotals(Violate(s, code), Violate(t, code))
  {
  }

  lemma SameReadFailure(s: State, t: State, code: Code)
    requires SameTotals(s, t)
    ensures SameTotals(Violate(s.(readFailures := s.readFailures + 1), code),
                       Violate(t.(readFailures := t.readFailures + 1), code))
  {
    SameViolation(s.(readFailures := s.readFailures + 1), t.(readFailures := t.readFailures + 1), code);
  }

  lemma SameStep(c1: Config, c2: Config, s: State, t: State, cb: Callback)
    requires c1.nonce == c2.nonce && c1.command == c2.command && SameTotals(s, t)
    ensures SameTotals(OnCallback(c1, s, cb), OnCallback(c2, t, cb))
  {
    hide SameTotals, OnMemory, OnMarker, OnVcpuInit, Judge, EventOf, Counts;
    SameJudgement(s, t, cb);
    match cb
    case VcpuInit(vcpu, found) => SameInitStep(s, t, vcpu, found);
    case Memory(_, _, _, _, _, _, _, _) => SameMemoryStep(c1, c2, s, t, cb);
    case Marker(_, _, _) => SameMarkerStep(c1, c2, s, t, cb);
  }

  lemma SameInitStep(s: State, t: State, vcpu: nat, found: Option<bool>)
    requires SameTotals(s, t)
    ensures SameTotals(OnVcpuInit(s, vcpu, found), OnVcpuInit(t, vcpu, found))
  {
    hide Violate;
    SameViolation(s, t, UnexpectedVcpuInit);
    SameViolation(s, t, RegisterListFailed);
    SameViolation(s.(ready := false), t.(ready := false), RequiredRegisterMissing);
  }

  lemma SameMarkerStep(c1: Config, c2: Config, s: State, t: State, cb: Callback)
    requires c1.nonce == c2.nonce && c1.command == c2.command && SameTotals(s, t) && cb.Marker?
    ensures SameTotals(OnMarker(c1, s, cb), OnMarker(c2, t, cb))
  {
    forall code
      ensures SameTotals(Violate(s, code), Violate(t, code))
      ensures SameTotals(Violate(s.(readFailures := s.readFailures + 1), code),
                         Violate(t.(readFailures := t.readFailures + 1), code))
    {
      SameViolation(s, t, code);
      SameReadFailure(s, t, code);
    }
    if cb.args.Some? && cb.context.Some? {
      var (_, _, _, _, pid, tid) := cb.args.value;
      var (priv, satp) := cb.context.value;
      SameRegionStep(c1, c2, s, t, priv, satp, pid, tid);
    }
    assert s.ready == t.ready;
    hide Violate, OnStart, OnStop, SameTotals;
  }

  lemma SameRegionStep(c1: Config, c2: Config, s: State, t: State, priv: Address, satp: Address, pid: Address,
                       tid: Address)
    requires c1.nonce == c2.nonce && c1.command == c2.command && SameTotals(s, t)
    ensures SameTotals(OnStart(c1, s, priv, satp, pid, tid), OnStart(c2, t, priv, satp, pid, tid))
    ensures SameTotals(OnStop(c1, s, priv, satp, pid, tid), OnStop(c2, t, priv, satp, pid, tid))
  {
    hide Violate;
    forall code
      ensures SameTotals(Violate(s, code), Violate(t, code))
    {
      SameViolation(s, t, code);
    }
  }

  lemma SameCapture(c1: Config, c2: Config, s: State, t: State, e: RawEvent, plan: Plan)
    requires SameTotals(s, t)
    ensures SameTotals(Captured(c1, Counted(s, plan), e, plan).(seen := s.seen + 1),
                       Captured(c2, Counted(t, plan), e, plan).(seen := t.seen + 1))
  {
    hide Captured;
    CaptureIsAside(c1, Counted(s, plan), e, plan);
    CaptureIsAside(c2, Counted(t, plan), e, plan);
  }

  /** Writing an event touches the books of the windows and the file, nothing else. */
  lemma CaptureIsAside(c: Config, s: State, e: RawEvent, plan: Plan)
    ensures var t := Captured(c, s, e, plan);
      t == s.(capturedRows := t.capturedRows, capturedCanonical := t.capturedCanonical, tallies := t.tallies,
              output := t.output)
  {
    hide WindowFrom, Tallied;
  }

  lemma SameMemoryStep(c1: Config, c2: Config, s: State, t: State, cb: Callback)
    requires SameTotals(s, t) && cb.Memory? && Judge(s, cb) == Judge(t, cb)
    requires Counts(s, cb) ==> EventOf(s, cb) == EventOf(t, cb)
    ensures SameTotals(OnMemory(c1, s, cb), OnMemory(c2, t, cb))
  {
    hide Judge, EventOf, WindowFrom, Tallied, Captured, Counted, Violate;
    if s.tracing {
      match Judge(s, cb)
      case ReadFailed => SameReadFailure(s, t, RegisterReadFailed);
      case Refused(code) => SameViolation(s, t, code);
      case Ignored(_) =>
      case Attributed(plan, _, _) => SameCapture(c1, c2, s, t, EventOf(s, cb), plan);
    }
  }

  /** The counters always balance, in the file as a whole and in every window. */
  lemma CountersAlwaysBalance(c: Config, run: seq<Callback>)
    requires c.Installed()
    ensures var s := After(c, run);
      !Unbalanced(s) && forall i :: 0 <= i < |s.tallies| ==> !WindowUnbalanced(s.tallies[i])
  {
    hide After, Events, Followed, Flow, Counters, Tallies, EventsBelong, Unbalanced, WindowUnbalanced;
    RunIsSound(c, run);
    CountersBalance(c, After(c, run), Events(c, run));
    TalliesBalance(c, After(c, run), Events(c, run));
  }

  lemma CountersBalance(c: Config, s: State, h: seq<RawEvent>)
    requires Counters(s, h) && EventsBelong(c, s, h)
    ensures !Unbalanced(s)
  {
    AllWellFormed(c, s, h);
    ReplayIsConserved(h);
  }

  lemma TalliesBalance(c: Config, s: State, h: seq<RawEvent>)
    requires ValidWindows(c.windows) && Tallies(c, s, h) && EventsBelong(c, s, h)
    ensures forall i :: 0 <= i < |s.tallies| ==> !WindowUnbalanced(s.tallies[i])
  {
    hide WindowUnbalanced, TallyOf, RowsIn, CanonicalOf, EventsBelong, WellFormed;
    AllWellFormed(c, s, h);
    forall i | 0 <= i < |s.tallies|
      ensures !WindowUnbalanced(s.tallies[i])
    {
      assert ValidWindow(c.windows[i]);
      TallyBalances(c.windows[i], h);
    }
  }

  lemma TallyBalances(w: WindowSpec, h: seq<RawEvent>)
    requires w.start >= 0 && forall k :: 0 <= k < |h| ==> WellFormed(h[k])
    ensures !WindowUnbalanced(TallyOf(w, h))
  {
    ReplayIsConserved(Slice(w, h));
  }

  lemma AllWellFormed(c: Config, s: State, h: seq<RawEvent>)
    requires EventsBelong(c, s, h)
    ensures forall k :: 0 <= k < |h| ==> WellFormed(h[k])
  {
    forall k | 0 <= k < |h|
      ensures WellFormed(h[k])
    {
      assert RowBelongs(h[k], k, IdentityOf(c, s));
    }
  }

  predicate BalanceCode(r: Record) {
    r.Violation? && (r.code.CanonicalizationConservationFailed? || r.code.WindowCanonicalizationFailed?)
  }

  ghost predicate NoBalanceCode(out: seq<Record>) {
    forall i :: 0 <= i < |out| ==> !BalanceCode(out[i])
  }

  lemma {:induction false} RunRaisesNone(c: Config, run: seq<Callback>)
    ensures NoBalanceCode(After(c, run).output)
  {
    if run != [] {
      RunRaisesNone(c, run[..|run| - 1]);
      StepRaisesNone(c, After(c, run[..|run| - 1]), run[|run| - 1]);
      hide OnCallback;
    }
  }

  lemma ViolateRaisesNone(s: State, code: Code)
    requires NoBalanceCode(s.output)
    requires !code.CanonicalizationConservationFailed? && !code.WindowCanonicalizationFailed?
    ensures NoBalanceCode(Violate(s, code).output)
  {
  }

  lemma ViolationsRaiseNone(out: seq<Record>)
    requires NoBalanceCode(out)
    ensures forall u: State, code: Code :: (u.output == out && !code.CanonicalizationConservationFailed?
              && !code.WindowCanonicalizationFailed?) ==> NoBalanceCode(Violate(u, code).output)
  {
    forall u: State, code: Code
        | u.output == out && !code.CanonicalizationConservationFailed? && !code.WindowCanonicalizationFailed?
      ensures NoBalanceCode(Violate(u, code).output)
    {
      ViolateRaisesNone(u, code);
    }
  }

  lemma StepRaisesNone(c: Config, s: State, cb: Callback)
    requires NoBalanceCode(s.output)
    ensures NoBalanceCode(OnCallback(c, s, cb).output)
  {
    hide OnMemory, OnMarker, NoBalanceCode;
    match cb
    case VcpuInit(vcpu, found) => InitRaisesNone(s, vcpu, found);
    case Memory(_, _, _, _, _, _, _, _) => MemoryRaisesNone(c, s, cb);
    case Marker(_, _, _) => MarkerRaisesNone(c, s, cb);
  }

  lemma InitRaisesNone(s: State, vcpu: nat, found: Option<bool>)
    requires NoBalanceCode(s.output)
    ensures NoBalanceCode(OnVcpuInit(s, vcpu, found).output)
  {
    hide Violate, NoBalanceCode;
    ViolationsRaiseNone(s.output);
    LineRaisesNone(s.output, Registers);
  }

  lemma LineRaisesNone(out: seq<Record>, r: Record)
    requires NoBalanceCode(out) && !BalanceCode(r)
    ensures NoBalanceCode(out + [r])
  {
  }

  lemma MemoryRaisesNone(c: Config, s: State, cb: Callback)
    requires NoBalanceCode(s.output) && cb.Memory?
    ensures NoBalanceCode(OnMemory(c, s, cb).output)
  {
    hide Violate, EventOf, PlanOf, Captured, Counted, NoBalanceCode, Classify;
    ViolationsRaiseNone(s.output);
    if Counts(s, cb) {
      CaptureRaisesNone(c, s, EventOf(s, cb), Judge(s, cb).plan);
    }
  }

  lemma CaptureRaisesNone(c: Config, s: State, e: RawEvent, plan: Plan)
    requires NoBalanceCode(s.output)
    ensures NoBalanceCode(Captured(c, Counted(s, plan), e, plan).output)
  {
    hide WindowFrom, Tallied;
  }

  lemma MarkerRaisesNone(c: Config, s: State, cb: Callback)
    requires NoBalanceCode(s.output) && cb.Marker?
    ensures NoBalanceCode(OnMarker(c, s, cb).output)
  {
    hide Violate, NoBalanceCode, OnStart, OnStop;
    ViolationsRaiseNone(s.output);
    if cb.args.Some? && cb.context.Some? {
      var (_, _, _, _, pid, tid) := cb.args.value;
      var (priv, satp) := cb.context.value;
      RegionRaisesNone(c, s, priv, satp, pid, tid);
    }
  }

  lemma RegionRaisesNone(c: Config, s: State, priv: Address, satp: Address, pid: Address, tid: Address)
    requires NoBalanceCode(s.output)
    ensures NoBalanceCode(OnStart(c, s, priv, satp, pid, tid).output)
    ensures NoBalanceCode(OnStop(c, s, priv, satp, pid, tid).output)
  {
    hide Violate, NoBalanceCode, BareSatp;
    ViolationsRaiseNone(s.output);
    LineRaisesNone(s.output, RoiStart(Identity(c.nonce, c.command, satp, pid, tid, 0, priv)));
    LineRaisesNone(s.output, RoiStop(Identity(c.nonce, c.command, satp, pid, tid, 0, priv), s.seen));
  }

  /** The two conservation violations that the exit checks look for are never raised. */
  lemma ConservationIsNeverViolated(c: Config, run: seq<Callback>)
    requires c.Installed()
    ensures NoBalanceCode(Stream(c, After(c, run)))
  {
    hide After;
    hide Validated, SummaryOf;
    var s := After(c, run);
    CountersAlwaysBalance(c, run);
    RunRaisesNone(c, run);
    ValidationRaisesNone(c, s);
  }

  lemma ValidationRaisesNone(c: Config, s: State)
    requires |c.windows| == |s.tallies| && NoBalanceCode(s.output)
    requires !Unbalanced(s) && forall i :: 0 <= i < |s.tallies| ==> !WindowUnbalanced(s.tallies[i])
    ensures NoBalanceCode(Validated(c, s).output)
  {
    hide WindowUnbalanced;
    var a := ViolateIf(s, !s.ready, RequiredRegisterMissingAtExit);
    var b := ViolateIf(a, !s.startSeen, MissingStart);
    var d := ViolateIf(b, !s.stopSeen, MissingStop);
    var e := ViolateIf(d, Unbalanced(d), CanonicalizationConservationFailed);
    if c.mode.Capture? {
      var f := ViolateIf(e, c.expectedTotal.None? || e.seen != c.expectedTotal.value, CountCaptureTotalMismatch);
      WindowsRaiseNone(c, f, |c.windows|);
    }
  }

  lemma {:induction false} WindowsRaiseNone(c: Config, s: State, i: nat)
    requires i <= |c.windows| == |s.tallies| && NoBalanceCode(s.output)
    requires forall i :: 0 <= i < |s.tallies| ==> !WindowUnbalanced(s.tallies[i])
    ensures NoBalanceCode(CheckWindows(c, s, i).output)
  {
    hide WindowUnbalanced;
    if i > 0 {
      WindowsRaiseNone(c, s, i - 1);
    }
  }

  // ----------------------------------------------------------------- the order of the file

  predicate Captures(r: Record) {
    r.Row? || r.WindowMark?
  }

  /**
   At a stands the one accepted START and at b the one STOP, if they have happened (-1 when not);
   everything captured stands after the START and before the STOP, and violations are not silent.
   */
  ghost predicate Bracketed(c: Config, s: State, a: int, b: int) {
    var out := s.output;
    && -1 <= a < |out| && -1 <= b < |out|
    && (s.startSeen <==> a >= 0) && (s.stopSeen <==> b >= 0) && (b >= 0 ==> 0 <= a < b)
    && (s.tracing ==> s.startSeen && !s.stopSeen)
    && (a >= 0 ==> out[a] == RoiStart(IdentityOf(c, s)))
    && (b >= 0 ==> out[b] == RoiStop(IdentityOf(c, s), s.seen))
    && forall i :: 0 <= i < |out| ==>
         && (out[i].RoiStart? <==> i == a)
         && (out[i].RoiStop? <==> i == b)
         && (Captures(out[i]) ==> 0 <= a < i && (b >= 0 ==> i < b))
         && (out[i].Violation? ==> s.invalid)
  }

  lemma AppendedNeutral(c: Config, s: State, t: State, r: Record, a: int, b: int)
    requires Bracketed(c, s, a, b) && t.output == s.output + [r]
    requires !r.RoiStart? && !r.RoiStop? && (Captures(r) ==> s.tracing)
    requires SameBinding(s, t) && t.startSeen == s.startSeen && t.stopSeen == s.stopSeen && (t.tracing ==> s.tracing)
    requires s.stopSeen ==> t.seen == s.seen
    requires (r.Violation? ==> t.invalid) && (s.invalid ==> t.invalid)
    ensures Bracketed(c, t, a, b)
  {
  }

  lemma NothingAppended(c: Config, s: State, t: State, a: int, b: int)
    requires Bracketed(c, s, a, b) && t.output == s.output
    requires SameBinding(s, t) && t.startSeen == s.startSeen && t.stopSeen == s.stopSeen && (t.tracing ==> s.tracing)
    requires (s.stopSeen ==> t.seen == s.seen) && t.invalid == s.invalid
    ensures Bracketed(c, t, a, b)
  {
  }

  /** A violation, whatever was counted beside it, leaves the brackets where they are. */
  lemma ViolationIsBracketed(c: Config, s: State, u: State, code: Code, a: int, b: int)
    requires Bracketed(c, s, a, b)
    requires u == s.(ready := u.ready, readFailures := u.readFailures)
    ensures Bracketed(c, Violate(u, code), a, b)
  {
    hide Bracketed;
    var t, r := Violate(u, code), Violation(code, u.seen);
    assert t.output == s.output + [r];
    AppendedNeutral(c, s, t, r, a, b);
  }

  lemma StartIsBracketed(c: Config, s: State, priv: Address, satp: Address, pid: Address, tid: Address, a: int, b: int)
    returns (a': int)
    requires Bracketed(c, s, a, b)
    ensures Bracketed(c, OnStart(c, s, priv, satp, pid, tid), a', b)
  {
    hide BareSatp;
    if s.startSeen || s.stopSeen || priv != 0 || BareSatp(satp) {
      a' := a;
      hide Bracketed, Violate;
      ViolationIsBracketed(c, s, s, DuplicateStart, a, b);
      ViolationIsBracketed(c, s, s, StartNotUserMode, a, b);
      ViolationIsBracketed(c, s, s, StartBareSatp, a, b);
    } else {
      a' := |s.output|;
    }
  }

  lemma StopIsBracketed(c: Config, s: State, priv: Address, satp: Address, pid: Address, tid: Address, a: int, b: int)
    returns (b': int)
    requires Bracketed(c, s, a, b)
    ensures Bracketed(c, OnStop(c, s, priv, satp, pid, tid), a, b')
  {
    if !s.startSeen || s.stopSeen || priv != 0 || satp != s.satp || pid != s.pid || tid != s.tid {
      b' := b;
      hide Bracketed, Violate;
      ViolationIsBracketed(c, s, s, StopBeforeStart, a, b);
      ViolationIsBracketed(c, s, s, DuplicateStop, a, b);
      ViolationIsBracketed(c, s, s, StopNotUserMode, a, b);
      ViolationIsBracketed(c, s, s, StopSatpMismatch, a, b);
      ViolationIsBracketed(c, s, s, StopPidTidMismatch, a, b);
    } else {
      b' := |s.output|;
    }
  }

  lemma MarkerIsBracketed(c: Config, s: State, cb: Callback, a: int, b: int) returns (a': int, b': int)
    requires cb.Marker? && Bracketed(c, s, a, b)
    ensures Bracketed(c, OnMarker(c, s, cb), a', b')
  {
    hide Bracketed, Violate, OnStart, OnStop;
    a', b' := a, b;
    var failed := s.(readFailures := s.readFailures + 1);
    if !s.ready {
      ViolationIsBracketed(c, s, failed, RegistersNotReady, a, b);
    } else if cb.args.None? {
      ViolationIsBracketed(c, s, failed, MarkerRegisterReadFailed, a, b);
    } else if cb.context.None? {
      ViolationIsBracketed(c, s, failed, RegisterReadFailed, a, b);
    } else {
      var (magic, nonce, event, command, pid, tid) := cb.args.value;
      var (priv, satp) := cb.context.value;
      ViolationIsBracketed(c, s, s, MarkerWrongVcpu, a, b);
      ViolationIsBracketed(c, s, s, MarkerMagicOrVersionMismatch, a, b);
      ViolationIsBracketed(c, s, s, MarkerNonceMismatch, a, b);
      ViolationIsBracketed(c, s, s, MarkerCommandMismatch, a, b);
      ViolationIsBracketed(c, s, s, MarkerPidTidInvalid, a, b);
      ViolationIsBracketed(c, s, s, MarkerEventInvalid, a, b);
      var ours :=
        && cb.vcpu == 0 && magic == ROI_MAGIC && nonce == c.nonce && command == c.command && pid != 0 && tid != 0;
      if ours && event == ROI_EVENT_START {
        a' := StartIsBracketed(c, s, priv, satp, pid, tid, a, b);
      } else if ours && event == ROI_EVENT_STOP {
        b' := StopIsBracketed(c, s, priv, satp, pid, tid, a, b);
      }
    }
  }

  lemma InitIsBracketed(c: Config, s: State, vcpu: nat, found: Option<bool>, a: int, b: int)
    requires Bracketed(c, s, a, b)
    ensures Bracketed(c, OnVcpuInit(s, vcpu, found), a, b)
  {
    hide Bracketed, Violate;
    if vcpu == 0 && found == Some(true) {
      AppendedNeutral(c, s, s.(ready := true, output := s.output + [Registers]), Registers, a, b);
    } else {
      ViolationIsBracketed(c, s, s, UnexpectedVcpuInit, a, b);
      ViolationIsBracketed(c, s, s, RegisterListFailed, a, b);
      ViolationIsBracketed(c, s, s.(ready := false), RequiredRegisterMissing, a, b);
    }
  }

  lemma CaptureIsBracketed(c: Config, s: State, e: RawEvent, plan: Plan, a: int, b: int)
    requires Bracketed(c, s, a, b) && s.tracing
    ensures Bracketed(c, Captured(c, Counted(s, plan), e, plan).(seen := s.seen + 1), a, b)
  {
    var t := Captured(c, Counted(s, plan), e, plan).(seen := s.seen + 1);
    CapturedKeeps(c, s, e, plan);
    var found := WindowFrom(c.windows, 0, s.seen);
    if !c.mode.Capture? || found.None? || found.value >= |s.tallies| {
      assert t.output == s.output;
      hide Bracketed, Captured;
      NothingAppended(c, s, t, a, b);
    } else if s.tallies[found.value].announced {
      assert t.output == s.output + [Row(e)];
      hide Bracketed, Captured;
      AppendedNeutral(c, s, t, Row(e), a, b);
    } else {
      var mark := WindowMark(found.value, c.windows[found.value]);
      assert t.output == s.output + [mark] + [Row(e)];
      var u := t.(output := s.output + [mark]);
      hide Bracketed, Captured;
      AppendedNeutral(c, s, u, mark, a, b);
      AppendedNeutral(c, u, t, Row(e), a, b);
    }
  }

  lemma MemoryIsBracketed(c: Config, s: State, cb: Callback, a: int, b: int)
    requires cb.Memory? && Bracketed(c, s, a, b)
    ensures Bracketed(c, OnMemory(c, s, cb), a, b)
  {
    var t := OnMemory(c, s, cb);
    if Counts(s, cb) {
      CaptureIsBracketed(c, s, EventOf(s, cb), Judge(s, cb).plan, a, b);
    } else {
      hide Judge, EventOf, Bracketed;
      if |t.output| == |s.output| {
        NothingAppended(c, s, t, a, b);
      } else {
        var r := t.output[|s.output|];
        assert t.output == s.output + [r];
        AppendedNeutral(c, s, t, r, a, b);
      }
    }
  }

  lemma {:induction false} RunIsBracketed(c: Config, run: seq<Callback>) returns (a: int, b: int)
    ensures Bracketed(c, After(c, run), a, b)
  {
    if run == [] {
      a, b := -1, -1;
    } else {
      var s, cb := After(c, run[..|run| - 1]), run[|run| - 1];
      a, b := RunIsBracketed(c, run[..|run| - 1]);
      hide Bracketed, OnMemory, OnMarker, OnVcpuInit;
      match cb
      case VcpuInit(vcpu, found) => InitIsBracketed(c, s, vcpu, found, a, b);
      case Memory(_, _, _, _, _, _, _, _) => MemoryIsBracketed(c, s, cb, a, b);
      case Marker(_, _, _) => a, b := MarkerIsBracketed(c, s, cb, a, b);
    }
  }

  /**
   A PASS file has one START and after it one STOP of the same identity that reports as many
   events as were attributed; all captured rows stand between the two, no violation is in the
   file, the bound context is a translated user process, and in capture mode the total is the
   expected one and every window is exactly full.
   */
  lemma PassMeansOneRegion(c: Config, run: seq<Callback>) returns (a: nat, b: nat)
    requires c.Installed() && Pass(c, After(c, run))
    ensures var s, h, file := After(c, run), Events(c, run), Stream(c, After(c, run));
      && a < b < |file|
      && file[a] == RoiStart(IdentityOf(c, s)) && file[b] == RoiStop(IdentityOf(c, s), |h|)
      && (forall i :: 0 <= i < |file| ==>
            && (file[i].RoiStart? <==> i == a) && (file[i].RoiStop? <==> i == b)
            && (Captures(file[i]) ==> a < i < b) && !file[i].Violation?)
      && s.pid != 0 && s.tid != 0 && !BareSatp(s.satp)
      && (c.mode.Capture? ==>
            && c.expectedTotal == Some(|h|)
            && forall i :: 0 <= i < |c.windows| ==> s.tallies[i].captured == c.windows[i].count)
  {
    var s, h := After(c, run), Events(c, run);
    var x, y := RunIsBracketed(c, run);
    RunIsSound(c, run);
    SeenIsLength(s, h);
    BindingOfStarted(s, h);
    hide After, Events, Sound, Bracketed, BareSatp;
    PassIsClean(c, s);
    BracketsInFile(c, s, x, y);
    hide Stream, Validated, Pass;
    a, b := x, y;
  }

  lemma BindingOfStarted(s: State, h: seq<RawEvent>)
    requires Flow(s, h)
    ensures s.startSeen ==> s.pid != 0 && s.tid != 0 && !BareSatp(s.satp)
  {
  }

  lemma BracketsInFile(c: Config, s: State, a: int, b: int)
    requires |c.windows| == |s.tallies| && Validated(c, s) == s && !s.invalid && s.startSeen && s.stopSeen
    requires Bracketed(c, s, a, b)
    ensures var file := Stream(c, s);
      && 0 <= a < b < |file|
      && file[a] == RoiStart(IdentityOf(c, s)) && file[b] == RoiStop(IdentityOf(c, s), s.seen)
      && (forall i :: 0 <= i < |file| ==>
            && (file[i].RoiStart? <==> i == a) && (file[i].RoiStop? <==> i == b)
            && (Captures(file[i]) ==> a < i < b) && !file[i].Violation?)
  {
    SummaryCount(c, s);
    var out, tail := s.output, [SummaryLine(SummaryOf(c, s))] + WindowSummaries(c, s);
    var file := Stream(c, s);
    assert file == out + tail;
    assert forall i :: 0 <= i < |tail| ==> tail[i].SummaryLine? || tail[i].WindowSummary?;
    hide Stream, Validated, WindowSummaries, SummaryOf;
    forall i | 0 <= i < |file|
      ensures (file[i].RoiStart? <==> i == a) && (file[i].RoiStop? <==> i == b)
      ensures (Captures(file[i]) ==> a < i < b) && !file[i].Violation?
    {
      assert file[i] == if i < |out| then out[i] else tail[i - |out|];
    }
  }

  // ------------------------------------------------------------------ what is an event

  /** The access is made by the bound context: the one CPU, in user mode, under the locked SATP. */
  predicate ByTarget(s: State, cb: Callback) {
    cb.Memory? && cb.vcpu == 0 && cb.context.Some? && cb.context.value.0 == 0 && cb.context.value.1 == s.satp
  }

  lemma TargetCountsOrInvalidates(c: Config, s: State, cb: Callback)
    requires cb.Memory? && s.tracing
    ensures !OnMemory(c, s, cb).invalid ==> (Counts(s, cb) <==> ByTarget(s, cb))
  {
    hide PlanOf, EventOf, Captured, Counted;
  }

  /**
   In a PASS run nothing is dropped and nothing foreign is counted: while tracing, a memory
   callback is an event exactly when the bound context made the access.
   */
  lemma PassCountsExactlyTargets(c: Config, run: seq<Callback>, k: nat)
    requires c.Installed() && Pass(c, After(c, run)) && k < |run|
    requires run[k].Memory? && After(c, run[..k]).tracing
    ensures var s, h := After(c, run[..k]), Events(c, run[..k]);
      && (Counts(s, run[k]) <==> ByTarget(s, run[k]))
      && Events(c, run[..k + 1]) == h + if Counts(s, run[k]) then [EventOf(s, run[k])] else []
  {
    var s := After(c, run[..k]);
    assert run[..k + 1][..k] == run[..k];
    if After(c, run[..k + 1]).invalid {
      InvalidIsAbsorbing(c, run, k + 1);
    } else {
      TargetCountsOrInvalidates(c, s, run[k]);
    }
  }

  // -------------------------------------------------------------- exactly when a run passes

  /** What the run itself has to bring: never invalid, registers found, and both markers seen. */
  predicate Complete(s: State) {
    !s.invalid && s.ready && s.startSeen && s.stopSeen
  }

  lemma CompleteAndFullIsPass(c: Config, s: State)
    requires |c.windows| == |s.tallies| && Complete(s) && !Unbalanced(s)
    requires forall i :: 0 <= i < |s.tallies| ==> !WindowUnbalanced(s.tallies[i])
    requires c.mode.Capture? ==> c.expectedTotal == Some(s.seen)
    requires c.mode.Capture? ==> forall i :: 0 <= i < |c.windows| ==> s.tallies[i].captured == c.windows[i].count
    ensures Pass(c, s)
  {
    hide Unbalanced, WindowUnbalanced;
    if c.mode.Capture? {
      FullWindowsRaiseNothing(c, s, |c.windows|);
    }
  }

  lemma {:induction false} FullWindowsRaiseNothing(c: Config, s: State, i: nat)
    requires i <= |c.windows| == |s.tallies|
    requires forall k :: 0 <= k < i ==> !WindowUnbalanced(s.tallies[k]) && s.tallies[k].captured == c.windows[k].count
    ensures CheckWindows(c, s, i) == s
  {
    hide WindowUnbalanced;
    if i > 0 {
      FullWindowsRaiseNothing(c, s, i - 1);
    }
  }

  /** A window is full exactly when the events reach its end. */
  lemma FullExactlyWhenReached(w: WindowSpec, h: seq<RawEvent>)
    requires ValidWindow(w)
    ensures TallyOf(w, h).captured == w.count <==> w.start + w.count <= |h|
  {
  }

  lemma FullExactlyWhenInside(c: Config, s: State, h: seq<RawEvent>)
    requires ValidWindows(c.windows) && Tallies(c, s, h)
    ensures (forall i :: 0 <= i < |c.windows| ==> s.tallies[i].captured == c.windows[i].count)
       <==> Inside(c.windows, |h|)
  {
    hide TallyOf, RowsIn, CanonicalOf;
    forall i | 0 <= i < |c.windows|
      ensures s.tallies[i].captured == c.windows[i].count <==> c.windows[i].start + c.windows[i].count <= |h|
      ensures c.windows[i].start >= 0
    {
      assert ValidWindow(c.windows[i]);
      FullExactlyWhenReached(c.windows[i], h);
    }
  }

  /**
   The exact condition for PASS: the run is complete, and a capture run also saw the expected
   number of events and all its windows lie inside that number.
   */
  lemma PassesExactlyWhen(c: Config, run: seq<Callback>)
    requires c.Installed()
    ensures var s, n := After(c, run), |Events(c, run)|;
      Pass(c, s) <==>
        Complete(s) && (c.mode.Capture? ==> c.expectedTotal == Some(n) && Inside(c.windows, n))
  {
    hide After, Events, EventsBelong, Flow, Followed, Unbalanced, WindowUnbalanced, Validated, Pass, Inside;
    hide Counters, Tallies, ValidWindows;
    var s, h := After(c, run), Events(c, run);
    RunIsSound(c, run);
    CountersAlwaysBalance(c, run);
    SeenIsLength(s, h);
    FullExactlyWhenInside(c, s, h);
    if Pass(c, s) {
      PassIsClean(c, s);
    }
    if Complete(s) && (c.mode.Capture? ==> c.expectedTotal == Some(|h|) && Inside(c.windows, |h|)) {
      CompleteAndFullIsPass(c, s);
    }
  }

  /**
   The two passes: after a count run that passes with N events, a capture run on the same
   callbacks passes exactly when it expects N and its windows lie inside N.
   */
  lemma CaptureAfterCount(count: Config, capture: Config, run: seq<Callback>)
    requires count.Installed() && capture.Installed() && capture.mode.Capture?
    requires count.nonce == capture.nonce && count.command == capture.command
    requires Pass(count, After(count, run))
    ensures var n := |Events(count, run)|;
      && Events(capture, run) == Events(count, run)
      && (Pass(capture, After(capture, run)) <==> capture.expectedTotal == Some(n) && Inside(capture.windows, n))
  {
    hide After, Events, Pass, Inside;
    TotalsIgnoreWindows(count, capture, run);
    PassesExactlyWhen(count, run);
    PassesExactlyWhen(capture, run);
  }

  /** The host's windows for the counted total always let the capture run pass. */
  method WindowsThatPass(ghost count: Config, ghost run: seq<Callback>, total: Address)
    returns (ws: seq<WindowSpec>, text: string)
    requires count.Installed() && Pass(count, After(count, run)) && total == |Events(count, run)| > 0
    ensures ParsedWindows([], text) == Some(ws)
    ensures forall capture: Config :: CapturesWith(capture, count, ws, total) ==> Pass(capture, After(capture, run))
  {
    ws, text := CaptureWindows(total);
    forall capture: Config | CapturesWith(capture, count, ws, total)
      ensures Pass(capture, After(capture, run))
    {
      CaptureAfterCount(count, capture, run);
    }
  }

  /** A capture run of the counted command, with these windows and this expected total. */
  predicate CapturesWith(capture: Config, count: Config, ws: seq<WindowSpec>, total: Address) {
    && capture.mode.Capture? && capture.nonce == count.nonce && capture.command == count.command
    && capture.expectedTotal == Some(total) && capture.windows == ws && capture.Installed()
  }
}
