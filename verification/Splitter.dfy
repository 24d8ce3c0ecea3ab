/**
 The strict reader of trace files (parse_capture of scripts/split_qemu_memtrace_windows.py), at
 the level of records: it collects the windows and accepts the file only when every summary
 agrees with what was collected.
 */
module Splitter {
  import opened Counting
  import opened Wrappers
  import opened Geometries
  import opened Canonical
  import opened WindowText
  import opened Tracer

  datatype ParsedWindow = ParsedWindow(index: nat, window: WindowSpec, rows: seq<RawEvent>)

  datatype Reader = Reader(header: seq<Record>, contexts: seq<Record>, starts: seq<Identity>, stops: seq<Identity>,
                           configs: map<nat, WindowSpec>, summaries: map<nat, Record>, windows: seq<ParsedWindow>,
                           marker: Option<(nat, WindowSpec)>, rows: seq<RawEvent>, summary: Option<Summary>)

  const FRESH: Reader := Reader([], [], [], [], map[], map[], [], None, [], None)

  /** Ends the window under way, if its marker makes sense. */
  function Closed(p: Reader): (r: Option<Reader>) {
    match p.marker
    case None => Some(p)
    case Some((index, w)) =>
      if w.start < 0 || w.count == 0 || w.warmup + w.measure != w.count then None
      else Some(p.(windows := p.windows + [ParsedWindow(index, w, p.rows)], marker := None, rows := []))
  }

  /** A line that is neither a window, a row nor a summary goes to the header until windows begin. */
  function Commented(p: Reader, r: Record): Reader {
    if p.marker.None? then p.(header := p.header + [r]) else p
  }

  function Read(p: Reader, r: Record): Option<Reader> {
    match r
    case WindowMark(index, w) =>
      var closed := Closed(p);
      if closed.None? then None else Some(closed.value.(marker := Some((index, w)), rows := []))
    case Row(e) => if p.marker.None? then None else Some(p.(rows := p.rows + [e]))
    case Violation(_, _) => Some(p)
    case SummaryLine(s) => if p.summary.Some? then None else Some(p.(summary := Some(s)))
    case WindowSummary(index, _, _, _) =>
      if index in p.summaries then None else Some(p.(summaries := p.summaries[index := r]))
    case WindowConfig(index, w) =>
      if index in p.configs then None else Some(Commented(p.(configs := p.configs[index := w]), r))
    case Context(_, _, _, _) => Some(Commented(p.(contexts := p.contexts + [r]), r))
    case RoiStart(id) => Some(Commented(p.(starts := p.starts + [id]), r))
    case RoiStop(id, _) => Some(Commented(p.(stops := p.stops + [id]), r))
    case _ => Some(Commented(p, r))
  }

  function ReadAll(p: Reader, records: seq<Record>): Option<Reader> {
    if records == [] then Some(p)
    else
      var before := ReadAll(p, records[..|records| - 1]);
      if before.None? then None else Read(before.value, records[|records| - 1])
  }

  lemma {:induction false} ReadAllConcat(p: Reader, a: seq<Record>, b: seq<Record>)
    ensures ReadAll(p, a + b) == if ReadAll(p, a).None? then None else ReadAll(ReadAll(p, a).value, b)
    decreases |b|
  {
    if b == [] {
      assert a + b == a;
    } else {
      var last := b[|b| - 1];
      assert (a + b)[..|a + b| - 1] == a + b[..|b| - 1];
      ReadAllConcat(p, a, b[..|b| - 1]);
    }
  }

  // -------------------------------------------------------------------------- final checks

  function MisalignedIn(events: seq<RawEvent>): nat {
    if events == [] then 0 else MisalignedIn(events[..|events| - 1]) + Bit(events[|events| - 1].Misaligned())
  }

  function CrossLineIn(events: seq<RawEvent>): nat {
    if events == [] then 0 else CrossLineIn(events[..|events| - 1]) + Bit(events[|events| - 1].CrossLine())
  }

  function CanonicalIn(events: seq<RawEvent>): nat {
    if events == [] then 0 else CanonicalIn(events[..|events| - 1]) + events[|events| - 1].CanonicalAccesses()
  }

  function TotalCount(windows: seq<ParsedWindow>): nat {
    if windows == [] then 0 else TotalCount(windows[..|windows| - 1]) + windows[|windows| - 1].window.count
  }

  function TotalCanonical(windows: seq<ParsedWindow>): nat {
    if windows == [] then 0 else TotalCanonical(windows[..|windows| - 1]) + CanonicalIn(windows[|windows| - 1].rows)
  }

  /** A row in its place: numbered from the window's start and bound to the traced context. */
  predicate RowBelongs(e: RawEvent, seqId: int, id: Identity) {
    e.seqId == seqId && WellFormed(e) && e.vcpu == id.vcpu && e.priv == id.priv && e.satp == id.satp
  }

  predicate RowsBelong(w: ParsedWindow, id: Identity) {
    forall k :: 0 <= k < |w.rows| ==> RowBelongs(w.rows[k], w.window.start + k, id)
  }

  predicate WindowAgrees(p: Reader, i: nat, w: ParsedWindow, id: Identity) {
    && w.index == i
    && |w.rows| == w.window.count
    && i in p.configs && p.configs[i] == w.window
    && i in p.summaries && p.summaries[i].WindowSummary?
    && p.summaries[i].window == w.window
    && p.summaries[i].tally.captured == w.window.count && p.summaries[i].pass
    && RowsBelong(w, id)
    && p.summaries[i].tally.misaligned == MisalignedIn(w.rows)
    && p.summaries[i].tally.crossLine == CrossLineIn(w.rows)
    && p.summaries[i].tally.canonical == CanonicalIn(w.rows)
    && CanonicalIn(w.rows) == w.window.count + CrossLineIn(w.rows)
  }

  /** The same run identity in the context, the two region markers and the summary. */
  predicate SameIdentity(p: Reader, s: Summary) {
    && |p.contexts| == 1 && |p.starts| == 1 && |p.stops| == 1
    && var id := p.starts[0];
       && id.vcpu == 0 && id.priv == 0 && id.pid != 0 && id.tid != 0
       && p.contexts[0].Context? && p.contexts[0].mode.Capture?
       && p.contexts[0].nonce == id.nonce && p.contexts[0].command == id.command
       && p.stops[0] == id && s.identity == id
  }

  predicate SummaryAgrees(s: Summary) {
    && s.pass && s.mode.Capture?
    && s.startSeen && s.stopSeen && s.countMatches && s.violations == 0
    && s.crossLine <= s.misaligned && s.expanded == s.crossLine && s.canonical == s.totalEvents + s.expanded
  }

  predicate FileAgrees(p: Reader) {
    && p.header != [] && p.header[0] == Schema
    && p.summary.Some? && SameIdentity(p, p.summary.value) && SummaryAgrees(p.summary.value)
    && p.windows != []
    && (forall i :: 0 <= i < |p.windows| ==> WindowAgrees(p, i, p.windows[i], p.starts[0]))
    && p.summary.value.capturedRows == TotalCount(p.windows)
    && p.summary.value.capturedCanonical == TotalCanonical(p.windows)
  }

  /** The windows of an acceptable file. */
  function Parsed(records: seq<Record>): Option<seq<ParsedWindow>> {
    var read := ReadAll(FRESH, records);
    if read.None? then None
    else
      var closed := Closed(read.value);
      if closed.None? || !FileAgrees(closed.value) then None else Some(closed.value.windows)
  }

  lemma TotalsStep(ws: seq<ParsedWindow>, i: nat)
    requires i < |ws|
    ensures TotalCount(ws[..i + 1]) == TotalCount(ws[..i]) + ws[i].window.count
    ensures TotalCanonical(ws[..i + 1]) == TotalCanonical(ws[..i]) + CanonicalIn(ws[i].rows)
  {
    assert ws[..i + 1][..i] == ws[..i];
  }

  lemma TotalsEnds(ws: seq<ParsedWindow>)
    ensures TotalCount(ws[..0]) == TotalCanonical(ws[..0]) == 0
    ensures TotalCount(ws[..|ws|]) == TotalCount(ws) && TotalCanonical(ws[..|ws|]) == TotalCanonical(ws)
  {
    assert ws[..|ws|] == ws;
  }

  /** The line loop: none when some line has no place in the file. */
  method ReadRecords(records: seq<Record>) returns (r: Option<Reader>)
    ensures r == ReadAll(FRESH, records)
  {
    var p := FRESH;
    assert records[..0] == [];
    for n := 0 to |records|
      invariant ReadAll(FRESH, records[..n]) == Some(p)
    {
      ReadFails(records, n);
      assert records[..n + 1][..n] == records[..n];
      var next := Read(p, records[n]);
      if next.None? { return None; }
      p := next.value;
    }
    assert records[..|records|] == records;
    return Some(p);
  }

  /** The window loop: every window agrees with its summary, and the totals with the last line. */
  method WindowsMatch(p: Reader, s: Summary) returns (ok: bool)
    requires |p.starts| == 1
    ensures ok <==>
      && (forall i :: 0 <= i < |p.windows| ==> WindowAgrees(p, i, p.windows[i], p.starts[0]))
      && s.capturedRows == TotalCount(p.windows) && s.capturedCanonical == TotalCanonical(p.windows)
  {
    hide WindowAgrees, TotalCount, TotalCanonical;
    var rows, canonical := 0, 0;
    TotalsEnds(p.windows);
    for i := 0 to |p.windows|
      invariant forall k :: 0 <= k < i ==> WindowAgrees(p, k, p.windows[k], p.starts[0])
      invariant rows == TotalCount(p.windows[..i]) && canonical == TotalCanonical(p.windows[..i])
    {
      if !WindowAgrees(p, i, p.windows[i], p.starts[0]) { return false; }
      TotalsStep(p.windows, i);
      rows := rows + p.windows[i].window.count;
      canonical := canonical + CanonicalIn(p.windows[i].rows);
    }
    return s.capturedRows == rows && s.capturedCanonical == canonical;
  }

  /** parse_capture: the windows of an acceptable file. */
  method ParseCapture(records: seq<Record>) returns (r: Option<seq<ParsedWindow>>)
    ensures r == Parsed(records)
  {
    hide ReadAll, WindowAgrees, SameIdentity, SummaryAgrees, TotalCount, TotalCanonical;
    var read := ReadRecords(records);
    if read.None? { return None; }
    var closed := Closed(read.value);
    if closed.None? { return None; }
    var p := closed.value;
    if p.header == [] || p.header[0] != Schema || p.summary.None? { return None; }
    var s := p.summary.value;
    if !SameIdentity(p, s) || !SummaryAgrees(s) || p.windows == [] { return None; }
    SingleStart(p, s);
    var agree := WindowsMatch(p, s);
    if !agree { return None; }
    return Some(p.windows);
  }

  lemma SingleStart(p: Reader, s: Summary)
    requires SameIdentity(p, s)
    ensures |p.starts| == 1
  {
  }

  lemma {:induction false} ReadFails(records: seq<Record>, n: nat)
    requires n < |records|
    ensures ReadAll(FRESH, records[..n + 1]).None? ==> ReadAll(FRESH, records).None?
  {
    ReadAllConcat(FRESH, records[..n + 1], records[n + 1..]);
    assert records[..n + 1] + records[n + 1..] == records;
  }

  // ------------------------------------------------------------------------ replay totals

  function ReplayLength(events: seq<RawEvent>): nat
    requires forall k :: 0 <= k < |events| ==> WellFormed(events[k])
  {
    if events == [] then 0 else ReplayLength(events[..|events| - 1]) + |ToReplay(events[|events| - 1])|
  }

  /** The derived replay of an accepted window is as long as its summary announces. */
  lemma {:induction false} ReplayIsConserved(events: seq<RawEvent>)
    requires forall k :: 0 <= k < |events| ==> WellFormed(events[k])
    ensures ReplayLength(events) == CanonicalIn(events) == |events| + CrossLineIn(events)
    ensures CrossLineIn(events) <= MisalignedIn(events)
  {
    if events != [] {
      var last := events[|events| - 1];
      ReplayIsConserved(events[..|events| - 1]);
      if last.CrossLine() {
        CrossLineIsMisaligned(last);
      }
    }
  }

  // ------------------------------------------------------------- what an accepted file holds

  /** The lines of a file by kind, in order. */
  datatype Contents = Contents(rows: seq<RawEvent>, marks: seq<(nat, WindowSpec)>, starts: seq<Identity>,
                               stops: seq<Identity>, contexts: seq<Record>, summaries: seq<Summary>)

  function Added(c: Contents, r: Record): Contents {
    match r
    case Row(e) => c.(rows := c.rows + [e])
    case WindowMark(index, w) => c.(marks := c.marks + [(index, w)])
    case RoiStart(id) => c.(starts := c.starts + [id])
    case RoiStop(id, _) => c.(stops := c.stops + [id])
    case Context(_, _, _, _) => c.(contexts := c.contexts + [r])
    case SummaryLine(s) => c.(summaries := c.summaries + [s])
    case _ => c
  }

  function ContentsOf(records: seq<Record>): Contents {
    if records == [] then Contents([], [], [], [], [], [])
    else Added(ContentsOf(records[..|records| - 1]), records[|records| - 1])
  }

  function AllRows(ws: seq<ParsedWindow>): seq<RawEvent> {
    if ws == [] then [] else AllRows(ws[..|ws| - 1]) + ws[|ws| - 1].rows
  }

  function Marks(ws: seq<ParsedWindow>): (marks: seq<(nat, WindowSpec)>)
    ensures |marks| == |ws| && forall i :: 0 <= i < |ws| ==> marks[i] == (ws[i].index, ws[i].window)
  {
    seq(|ws|, i requires 0 <= i < |ws| => (ws[i].index, ws[i].window))
  }

  /** What the reader has kept of the lines so far. */
  ghost predicate Kept(p: Reader, c: Contents) {
    && p.starts == c.starts && p.stops == c.stops && p.contexts == c.contexts
    && c.summaries == (if p.summary.Some? then [p.summary.value] else [])
    && c.rows == AllRows(p.windows) + p.rows
    && c.marks == Marks(p.windows) + (if p.marker.Some? then [p.marker.value] else [])
    && (p.marker.None? ==> p.windows == [] && p.rows == [])
    && forall i :: 0 <= i < |p.windows| ==> Sensible(p.windows[i].window)
  }

  predicate Sensible(w: WindowSpec) {
    w.start >= 0 && w.count > 0 && w.warmup + w.measure == w.count
  }

  ghost predicate Listed(p: Reader, records: seq<Record>) {
    && (forall i :: i in p.configs ==> WindowConfig(i, p.configs[i]) in records)
    && (forall i :: i in p.summaries ==> p.summaries[i] in records && p.summaries[i].WindowSummary?
                                         && p.summaries[i].index == i)
  }

  lemma ClosedKeeps(p: Reader, c: Contents)
    requires Kept(p, c) && Closed(p).Some?
    ensures var q := Closed(p).value;
      && q.marker.None? && q.rows == [] && q.starts == p.starts && q.stops == p.stops && q.contexts == p.contexts
      && q.summary == p.summary && q.configs == p.configs && q.summaries == p.summaries
      && AllRows(q.windows) == c.rows && Marks(q.windows) == c.marks
      && forall i :: 0 <= i < |q.windows| ==> Sensible(q.windows[i].window)
  {
    hide AllRows, Marks;
    if p.marker.Some? {
      WindowAdded(p.windows, ParsedWindow(p.marker.value.0, p.marker.value.1, p.rows));
    } else {
      assert AllRows(p.windows) + p.rows == AllRows(p.windows);
      assert Marks(p.windows) + [] == Marks(p.windows);
    }
  }

  lemma WindowAdded(ws: seq<ParsedWindow>, w: ParsedWindow)
    ensures AllRows(ws + [w]) == AllRows(ws) + w.rows
    ensures Marks(ws + [w]) == Marks(ws) + [(w.index, w.window)]
  {
    assert (ws + [w])[..|ws|] == ws;
  }

  lemma MarkKeeps(p: Reader, c: Contents, r: Record)
    requires Kept(p, c) && r.WindowMark? && Read(p, r).Some?
    ensures Kept(Read(p, r).value, c.(marks := c.marks + [(r.index, r.window)]))
  {
    ClosedKeeps(p, c);
    hide AllRows, Closed, Marks, Sensible;
    var q := Read(p, r).value;
    assert AllRows(q.windows) + [] == AllRows(q.windows);
  }

  /** Any other line leaves the closed windows alone. */
  lemma LineKeeps(p: Reader, c: Contents, r: Record)
    requires Kept(p, c) && !r.WindowMark? && Read(p, r).Some?
    ensures Kept(Read(p, r).value, Added(c, r))
  {
    hide AllRows, Closed, Marks, Sensible;
    if r.Row? {
      assert AllRows(p.windows) + (p.rows + [r.event]) == AllRows(p.windows) + p.rows + [r.event];
    }
  }

  lemma ReadLists(p: Reader, records: seq<Record>, r: Record)
    requires Listed(p, records) && Read(p, r).Some?
    ensures Listed(Read(p, r).value, records + [r])
  {
    assert r in records + [r];
    assert forall x :: x in records ==> x in records + [r];
  }

  lemma ContentsExtend(records: seq<Record>, r: Record)
    ensures ContentsOf(records + [r]) == Added(ContentsOf(records), r)
  {
    assert (records + [r])[..|records|] == records;
  }

  lemma ReadAllExtends(records: seq<Record>, r: Record)
    ensures var before := ReadAll(FRESH, records);
            ReadAll(FRESH, records + [r]) == if before.None? then None else Read(before.value, r)
  {
    hide Read;
    assert (records + [r])[..|records|] == records;
  }

  lemma StepKeeps(p: Reader, c: Contents, records: seq<Record>, r: Record)
    requires Kept(p, c) && Listed(p, records) && Read(p, r).Some?
    ensures Kept(Read(p, r).value, Added(c, r)) && Listed(Read(p, r).value, records + [r])
  {
    hide Kept, Listed, Read;
    ReadLists(p, records, r);
    if r.WindowMark? {
      MarkKeeps(p, c, r);
    } else {
      LineKeeps(p, c, r);
    }
  }

  lemma NothingKept()
    ensures ReadAll(FRESH, []) == Some(FRESH) && Kept(FRESH, ContentsOf([])) && Listed(FRESH, [])
  {
  }

  lemma {:induction false} ReadingKeeps(records: seq<Record>)
    requires ReadAll(FRESH, records).Some?
    ensures var p := ReadAll(FRESH, records).value; Kept(p, ContentsOf(records)) && Listed(p, records)
  {
    hide ReadAll, Kept, Listed, Read, ContentsOf, Added;
    if records == [] {
      NothingKept();
    } else {
      var before, r := records[..|records| - 1], records[|records| - 1];
      assert records == before + [r];
      ReadAllExtends(before, r);
      ContentsExtend(before, r);
      ReadingKeeps(before);
      StepKeeps(ReadAll(FRESH, before).value, ContentsOf(before), before, r);
    }
  }

  /** Row k of a window: numbered on from the window's start, well-formed, made by the traced program. */
  predicate RowHolds(e: RawEvent, w: WindowSpec, k: nat, id: Identity) {
    && e.seqId == w.start + k && e.satp == id.satp && e.vcpu == 0 && e.priv == 0
    && e.size in {1, 2, 4, 8} && e.vaddr + e.size <= ADDRESS_SPACE
    && (!e.CrossLine() ==> e.paddrEnd == e.paddr + e.size - 1)
  }

  /** Window i of a file: announced and summed up under its number, with all its rows. */
  ghost predicate WindowHolds(records: seq<Record>, w: ParsedWindow, i: nat, id: Identity) {
    && w.index == i && Sensible(w.window) && |w.rows| == w.window.count
    && (forall k :: 0 <= k < |w.rows| ==> RowHolds(w.rows[k], w.window, k, id))
    && WindowConfig(i, w.window) in records
    && exists t: Tally :: WindowSummary(i, w.window, t, true) in records && SumsUp(t, w.rows)
  }

  predicate SumsUp(t: Tally, rows: seq<RawEvent>) {
    && t.captured == |rows| && t.misaligned == MisalignedIn(rows) && t.crossLine == CrossLineIn(rows)
    && t.canonical == |rows| + CrossLineIn(rows)
  }

  /** One context, one region and one summary, all of the same traced program. */
  ghost predicate RegionHolds(c: Contents) {
    && |c.contexts| == |c.starts| == |c.stops| == |c.summaries| == 1
    && var id, s, context := c.starts[0], c.summaries[0], c.contexts[0];
       && id == c.stops[0] == s.identity
       && id.vcpu == 0 && id.priv == 0 && id.pid != 0 && id.tid != 0
       && context.Context? && context.mode.Capture?
       && context.nonce == id.nonce && context.command == id.command
       && s.pass && s.mode.Capture? && s.startSeen && s.stopSeen && s.countMatches && s.violations == 0
       && s.crossLine == s.expanded <= s.misaligned && s.canonical == s.totalEvents + s.expanded
  }

  lemma WindowAgreesHolds(p: Reader, records: seq<Record>, i: nat, w: ParsedWindow, id: Identity)
    requires Listed(p, records) && WindowAgrees(p, i, w, id) && Sensible(w.window) && id.vcpu == 0 && id.priv == 0
    ensures WindowHolds(records, w, i, id) && forall k :: 0 <= k < |w.rows| ==> WellFormed(w.rows[k])
  {
    hide CanonicalIn, CrossLineIn, MisalignedIn, RawEvent.CrossLine;
    forall k | 0 <= k < |w.rows|
      ensures RowHolds(w.rows[k], w.window, k, id) && WellFormed(w.rows[k])
    {
      assert RowBelongs(w.rows[k], w.window.start + k, id);
    }
    var t := p.summaries[i].tally;
    assert p.summaries[i] == WindowSummary(i, w.window, t, true);
  }

  lemma ReplayLengthConcat(a: seq<RawEvent>, b: seq<RawEvent>)
    requires forall e :: e in a + b ==> WellFormed(e)
    ensures ReplayLength(a + b) == ReplayLength(a) + ReplayLength(b)
  {
    hide WellFormed, ToReplay;
    if b == [] {
      assert a + b == a;
    } else {
      var last := b[|b| - 1];
      assert (a + b)[..|a + b| - 1] == a + b[..|b| - 1];
      ReplayLengthConcat(a, b[..|b| - 1]);
    }
  }

  /** The totals over all windows are those of all rows. */
  lemma {:induction false} TotalsOfRows(ws: seq<ParsedWindow>)
    requires forall i, k :: 0 <= i < |ws| && 0 <= k < |ws[i].rows| ==> WellFormed(ws[i].rows[k])
    requires forall i :: 0 <= i < |ws| ==> |ws[i].rows| == ws[i].window.count
    ensures (forall e :: e in AllRows(ws) ==> WellFormed(e))
    ensures |AllRows(ws)| == TotalCount(ws) && ReplayLength(AllRows(ws)) == TotalCanonical(ws)
  {
    hide WellFormed, ToReplay;
    if ws != [] {
      var n := |ws| - 1;
      TotalsOfRows(ws[..n]);
      ReplayLengthConcat(AllRows(ws[..n]), ws[n].rows);
      ReplayIsConserved(ws[n].rows);
    }
  }

  /**
   Whatever the file: if it is accepted, its rows are exactly those of the windows, in order, and
   every window is announced, complete and summed up correctly. All of them belong to one traced
   region, and the replay of all rows is as long as the summary says.
   */
  lemma AcceptedFilesAreWhole(records: seq<Record>)
    requires Parsed(records).Some?
    ensures var ws, c := Parsed(records).value, ContentsOf(records);
      && ws != [] && c.rows == AllRows(ws) && c.marks == Marks(ws)
      && RegionHolds(c)
      && (forall i :: 0 <= i < |ws| ==> WindowHolds(records, ws[i], i, c.starts[0]))
      && (forall e :: e in c.rows ==> WellFormed(e))
      && c.summaries[0].capturedRows == |c.rows| && c.summaries[0].capturedCanonical == ReplayLength(c.rows)
  {
    hide ReadAll, ContentsOf, Closed, WellFormed, WindowHolds, WindowAgrees, Sensible, AllRows, Marks, ReplayLength;
    hide TotalCount, TotalCanonical;
    ReadingKeeps(records);
    var p, c := ReadAll(FRESH, records).value, ContentsOf(records);
    ClosedKeeps(p, c);
    var q := Closed(p).value;
    var ws := q.windows;
    forall i | 0 <= i < |ws|
      ensures WindowHolds(records, ws[i], i, c.starts[0]) && |ws[i].rows| == ws[i].window.count
      ensures forall k :: 0 <= k < |ws[i].rows| ==> WellFormed(ws[i].rows[k])
    {
      assert Listed(q, records);
      WindowAgreesHolds(q, records, i, ws[i], c.starts[0]);
      WindowComplete(records, ws[i], i, c.starts[0]);
    }
    TotalsOfRows(ws);
  }

  lemma WindowComplete(records: seq<Record>, w: ParsedWindow, i: nat, id: Identity)
    requires WindowHolds(records, w, i, id)
    ensures |w.rows| == w.window.count
  {
  }
}
