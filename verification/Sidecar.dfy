/**
 The per-transaction sidecar checker of the replay analyzer: rows are read once, checked
 against dictionaries of what was seen so far, and the lifecycle of every transaction is
 judged at the end. Proved: exactly which row lists are accepted, and that the local checks
 add up to global conservation laws of the row counts.
 */
module Sidecar {
  import opened Arithmetic
  import opened Counting
  import opened Wrappers

  datatype Event =
    | Demand | DemandPresent | DemandAccept | DemandResponse
    | Candidate | Admit | Issue | Return | Fill | Install | Use | Evict | Cancel | Discard | Merge
    | Suppressed | Writeback
    | ControllerState
    | Unsupported

  datatype Op = Load | Store | Prefetch | OtherOp

  datatype Outcome = L1Hit | VictimHit | LowerMemory | Pending | OtherOutcome

  datatype Details = NoDetails | Malformed | Items(fields: map<string, string>)

  datatype Row = Row(schema: int, event: Event, seqId: int, cycle: int, addr: nat, op: Op, size: int,
                     outcome: Outcome, latency: int, details: Details)

  datatype Access = Access(seqId: int, cycle: int, addr: nat, op: Op, size: int, outcome: Outcome) {
    function Identity(): (int, nat, Op, int) {
      (seqId, addr, op, size)
    }
  }

  datatype Entry = Entry(cycle: int, addr: nat)

  datatype Parsed = Parsed(accesses: seq<Access>, counts: multiset<Event>)

  const REQUIRED_METADATA: set<string> := {"source", "stream_id", "generation", "confidence"}

  // ------------------------------------------------------------------------- single rows

  predicate IsDemand(e: Event) {
    e.Demand? || e.DemandPresent? || e.DemandAccept? || e.DemandResponse?
  }

  predicate IsPrefetch(e: Event) {
    !IsDemand(e) && !e.ControllerState? && !e.Unsupported?
  }

  predicate Supported(schema: int, e: Event) {
    if schema == 2 then e.Demand? || e.Issue? || e.Fill? else !e.Demand? && !e.Unsupported?
  }

  /** A demand row that reports a finished access. */
  predicate Completed(row: Row) {
    row.event.Demand? || row.event.DemandResponse?
  }

  /** A prefetch row that names its transaction. */
  predicate Identified(row: Row) {
    IsPrefetch(row.event) && row.schema == 3 && row.seqId != -1
  }

  predicate Unidentified(row: Row) {
    IsPrefetch(row.event) && !(row.schema == 3 && row.seqId != -1)
  }

  predicate HasMetadata(row: Row) {
    row.details.Items? && REQUIRED_METADATA <= row.details.fields.Keys
  }

  function Snapshot(row: Row): map<string, string>
    requires HasMetadata(row)
  {
    map k | k in REQUIRED_METADATA :: row.details.fields[k]
  }

  predicate PrefetchRowOk(row: Row, lineBytes: nat) {
    && row.seqId >= -1
    && row.op.Prefetch?
    && row.size == lineBytes
    && lineBytes > 0 && row.addr % lineBytes == 0
    && (row.event.Issue? ==> row.outcome.LowerMemory?)
    && (row.schema == 2 && !row.event.Issue? ==> row.outcome.L1Hit?)
    && (Identified(row) ==> HasMetadata(row))
  }

  predicate DemandRowOk(row: Row) {
    && row.seqId >= 0
    && (row.op.Load? || row.op.Store?)
    && 0 <= row.size <= 3
    && if Completed(row) then row.outcome.L1Hit? || row.outcome.VictimHit? || row.outcome.LowerMemory?
       else row.outcome.Pending? && row.latency == if row.event.DemandPresent? then -1 else 0
  }

  /** The checks that look at one row alone. */
  predicate RowOk(row: Row, lineBytes: nat) {
    && (row.schema == 2 || row.schema == 3)
    && Supported(row.schema, row.event)
    && row.cycle >= 0
    && (row.schema == 2 ==> row.details.NoDetails?)
    && (row.schema == 3 ==> row.latency >= -1)
    && if IsDemand(row.event) then DemandRowOk(row)
       else if row.event.ControllerState? then row.seqId == -1
       else PrefetchRowOk(row, lineBytes)
  }

  // ---------------------------------------------------------------------------- row lists

  predicate Same(row: Row, e: Event, s: int) {
    row.event == e && row.seqId == s
  }

  /** Row n fits what comes before it. */
  ghost predicate RowFits(rows: seq<Row>, n: nat, lineBytes: nat)
    requires n < |rows|
  {
    var row := rows[n];
    && RowOk(row, lineBytes)
    && row.schema == rows[0].schema
    && (IsDemand(row.event) && !Completed(row) ==> forall j :: 0 <= j < n ==> !Same(rows[j], row.event, row.seqId))
    && (row.event.DemandResponse? ==> exists j :: 0 <= j < n && Answers(row, rows[j]))
    && (Completed(row) ==> forall j :: 0 <= j < n && Completed(rows[j]) ==> rows[j].seqId < row.seqId)
    && (Identified(row) ==> forall j :: 0 <= j < n ==> Distinguished(row, rows[j]))
  }

  predicate Answers(response: Row, accept: Row) {
    Same(accept, DemandAccept, response.seqId) && response.latency == response.cycle - accept.cycle
  }

  /** Two rows of one transaction are different events with the same metadata. */
  ghost predicate Distinguished(row: Row, earlier: Row) {
    Identified(earlier) && earlier.seqId == row.seqId ==>
      && earlier.event != row.event
      && HasMetadata(earlier) && HasMetadata(row) && Snapshot(earlier) == Snapshot(row)
  }

  /** The events recorded for transaction s by the first n rows. */
  ghost function EventsOf(rows: seq<Row>, n: nat, s: int): map<Event, Entry>
    requires n <= |rows|
  {
    if n == 0 then map[]
    else
      var m, row := EventsOf(rows, n - 1, s), rows[n - 1];
      if Identified(row) && row.seqId == s then m[row.event := Entry(row.cycle, row.addr)] else m
  }

  predicate NotAfter(ev: map<Event, Entry>, a: Event, b: Event) {
    a in ev && b in ev ==> ev[a].cycle <= ev[b].cycle
  }

  function Terminals(ev: map<Event, Entry>): set<Event> {
    {Install, Merge, Discard} * ev.Keys
  }

  /** One transaction from candidate to its end. */
  ghost predicate Lifecycle(ev: map<Event, Entry>) {
    && (forall a, b :: a in ev && b in ev ==> ev[a].addr == ev[b].addr)
    && (Issue in ev <==> Return in ev)
    && (if Return in ev then exists t :: Terminals(ev) == {t} else Terminals(ev) == {})
    && (Admit in ev ==> Candidate in ev && (Issue in ev || Cancel in ev))
    && (Issue in ev ==> Admit in ev && Cancel !in ev)
    && (Use in ev || Evict in ev ==> Install in ev)
    && !(Use in ev && Evict in ev)
    && NotAfter(ev, Candidate, Admit) && NotAfter(ev, Admit, Issue) && NotAfter(ev, Issue, Return)
    && (forall t :: t in Terminals(ev) ==> NotAfter(ev, Return, t))
    && NotAfter(ev, Install, Use) && NotAfter(ev, Install, Evict)
  }

  /** Row `i` reports a finished demand that was presented, accepted and answered in that order. */
  ghost predicate Chained(rows: seq<Row>, i: nat)
    requires i < |rows|
  {
    exists p, a :: 0 <= p < |rows| && 0 <= a < |rows|
      && Same(rows[p], DemandPresent, rows[i].seqId) && Same(rows[a], DemandAccept, rows[i].seqId)
      && rows[p].cycle <= rows[a].cycle <= rows[i].cycle
  }

  /** What is judged after the last row. */
  ghost predicate Settled(rows: seq<Row>) {
    && (exists i :: 0 <= i < |rows| && Completed(rows[i]))
    && (rows != [] && rows[0].schema == 3 ==> AllChained(rows) && Unmixed(rows) && AllLifecycles(rows))
  }

  ghost predicate AllChained(rows: seq<Row>) {
    forall i :: 0 <= i < |rows| && Completed(rows[i]) ==> Chained(rows, i)
  }

  ghost predicate Unmixed(rows: seq<Row>) {
    forall i, j :: 0 <= i < |rows| && 0 <= j < |rows| && Identified(rows[i]) ==> !Unidentified(rows[j])
  }

  ghost predicate AllLifecycles(rows: seq<Row>) {
    forall s :: EventsOf(rows, |rows|, s) != map[] ==> Lifecycle(EventsOf(rows, |rows|, s))
  }

  ghost predicate AllFit(rows: seq<Row>, n: nat, lineBytes: nat)
    requires n <= |rows|
  {
    forall k :: 0 <= k < n ==> RowFits(rows, k, lineBytes)
  }

  /** The row lists a sidecar file may hold. */
  ghost predicate Accepted(rows: seq<Row>, lineBytes: nat) {
    AllFit(rows, |rows|, lineBytes) && Settled(rows)
  }

  function AccessesOf(rows: seq<Row>): seq<Access> {
    if rows == [] then []
    else
      var row := rows[|rows| - 1];
      AccessesOf(rows[..|rows| - 1])
      + if Completed(row) then [Access(row.seqId, row.cycle, row.addr, row.op, row.size, row.outcome)] else []
  }

  function EventsIn(rows: seq<Row>): (es: seq<Event>)
    ensures |es| == |rows| && forall i :: 0 <= i < |rows| ==> es[i] == rows[i].event
  {
    seq(|rows|, i requires 0 <= i < |rows| => rows[i].event)
  }

  // -------------------------------------------------------------------------- the checker

  method CheckLifecycle(ev: map<Event, Entry>) returns (ok: bool)
    requires ev != map[]
    ensures ok <==> Lifecycle(ev)
  {
    var terminals := Terminals(ev);
    if exists a, b :: a in ev && b in ev && ev[a].addr != ev[b].addr { return false; }
    if Admit in ev && Candidate !in ev { return false; }
    if Issue in ev && Admit !in ev { return false; }
    if Return in ev && Issue !in ev { return false; }
    if |terminals| > 1 {
      return false;
    }
    if terminals != {} && Return !in ev { return false; }
    if Admit in ev && Issue !in ev && Cancel !in ev { return false; }
    if Issue in ev && Return !in ev { return false; }
    if Return in ev && |terminals| != 1 { return false; }
    if Cancel in ev && Issue in ev { return false; }
    if Use in ev && Install !in ev { return false; }
    if Evict in ev && Install !in ev { return false; }
    if Use in ev && Evict in ev { return false; }
    assert terminals == {} || exists t :: terminals == {t} by {
      if terminals != {} {
        var t :| t in terminals;
        SingletonSet(terminals, t);
      }
    }
    var order := [Candidate, Admit, Issue, Return];
    assert NotAfter(ev, order[0], order[1]) && NotAfter(ev, order[1], order[2]) && NotAfter(ev, order[2], order[3])
      <==> Sorted(ev, order);
    if exists i, j :: 0 <= i < j < |order| && !NotAfter(ev, order[i], order[j]) { return false; }
    if exists t :: t in terminals && !NotAfter(ev, Return, t) { return false; }
    if !NotAfter(ev, Install, Use) || !NotAfter(ev, Install, Evict) { return false; }
    return true;
  }

  ghost predicate Sorted(ev: map<Event, Entry>, order: seq<Event>) {
    forall i, j :: 0 <= i < j < |order| ==> NotAfter(ev, order[i], order[j])
  }

  lemma SingletonSet<T>(s: set<T>, t: T)
    requires t in s && |s| <= 1
    ensures s == {t}
  {
    assert |s - {t}| == 0;
  }

  // -------------------------------------------------------------- what the parser remembers

  /** Cycles of the schema-3 demand events, which no two rows share. */
  ghost predicate CyclesTrack(rows: seq<Row>, n: nat, cycles: map<(int, Event), int>)
    requires n <= |rows|
  {
    && (forall j :: 0 <= j < n && rows[j].schema == 3 && IsDemand(rows[j].event) ==>
          (rows[j].seqId, rows[j].event) in cycles && cycles[(rows[j].seqId, rows[j].event)] == rows[j].cycle)
    && (forall s, e :: (s, e) in cycles ==>
          exists j :: 0 <= j < n && rows[j].schema == 3 && Same(rows[j], e, s) && IsDemand(e))
  }

  ghost predicate TransactionsTrack(rows: seq<Row>, n: nat, pf: map<int, map<Event, Entry>>)
    requires n <= |rows|
  {
    forall s: int :: EventsOf(rows, n, s) == (if s in pf then pf[s] else map[]) && (s in pf ==> pf[s] != map[])
  }

  ghost predicate MetadataTracks(rows: seq<Row>, n: nat, metadata: map<int, map<string, string>>)
    requires n <= |rows|
  {
    && (forall j :: 0 <= j < n && Identified(rows[j]) ==>
          rows[j].seqId in metadata && HasMetadata(rows[j]) && metadata[rows[j].seqId] == Snapshot(rows[j]))
    && (forall s :: s in metadata ==> exists j :: 0 <= j < n && Identified(rows[j]) && rows[j].seqId == s)
  }

  /** An event is recorded for a transaction exactly when a row reports it. */
  lemma {:induction false} EventsOfRows(rows: seq<Row>, n: nat, s: int, e: Event)
    requires n <= |rows|
    ensures e in EventsOf(rows, n, s) <==> exists j :: 0 <= j < n && Identified(rows[j]) && Same(rows[j], e, s)
  {
    if n > 0 {
      EventsOfRows(rows, n - 1, s, e);
      if Identified(rows[n - 1]) && Same(rows[n - 1], e, s) {
      } else {
        assert e in EventsOf(rows, n, s) <==> e in EventsOf(rows, n - 1, s);
      }
    }
  }

  /** The sequence ids of finished demands, and the last of them. */
  ghost predicate Finished(rows: seq<Row>, n: nat, seen: set<int>, last: Option<int>)
    requires n <= |rows|
  {
    && (forall s :: s in seen <==> exists j :: 0 <= j < n && Completed(rows[j]) && rows[j].seqId == s)
    && (last.None? ==> seen == {})
    && (last.Some? ==> last.value in seen && forall s :: s in seen ==> s <= last.value)
  }

  ghost predicate Flags(rows: seq<Row>, n: nat, identified: bool, unidentified: bool)
    requires n <= |rows|
  {
    && (identified <==> exists j :: 0 <= j < n && Identified(rows[j]))
    && (unidentified <==> exists j :: 0 <= j < n && Unidentified(rows[j]))
  }

  /** What the whole loop has established after n rows. */
  ghost predicate Read(rows: seq<Row>, n: nat, lineBytes: nat, accesses: seq<Access>, counts: multiset<Event>)
    requires n <= |rows|
  {
    && AllFit(rows, n, lineBytes)
    && accesses == AccessesOf(rows[..n])
    && counts == multiset(EventsIn(rows[..n]))
  }

  function EventsFor(pf: map<int, map<Event, Entry>>, s: int): map<Event, Entry> {
    if s in pf then pf[s] else map[]
  }

  function AccessOf(row: Row): Access {
    Access(row.seqId, row.cycle, row.addr, row.op, row.size, row.outcome)
  }

  lemma ReadOn(rows: seq<Row>, n: nat, lineBytes: nat, accesses: seq<Access>, counts: multiset<Event>)
    requires n < |rows| && Read(rows, n, lineBytes, accesses, counts) && RowFits(rows, n, lineBytes)
    ensures Read(rows, n + 1, lineBytes,
                 accesses + (if Completed(rows[n]) then [AccessOf(rows[n])] else []),
                 counts + multiset{rows[n].event})
  {
    hide RowFits;
    assert rows[..n + 1] == rows[..n] + [rows[n]];
    assert EventsIn(rows[..n + 1]) == EventsIn(rows[..n]) + [rows[n].event];
  }

  lemma NotRead(rows: seq<Row>, n: nat, lineBytes: nat)
    requires n < |rows| && !RowFits(rows, n, lineBytes)
    ensures !Accepted(rows, lineBytes)
  {
  }

  /** An identified prefetch row fits exactly when the dictionaries raise no objection. */
  lemma IdentifiedFits(rows: seq<Row>, n: nat, lineBytes: nat, pf: map<int, map<Event, Entry>>,
                       metadata: map<int, map<string, string>>)
    requires n < |rows| && RowOk(rows[n], lineBytes) && rows[n].schema == rows[0].schema && Identified(rows[n])
    requires TransactionsTrack(rows, n, pf) && MetadataTracks(rows, n, metadata)
    ensures var row := rows[n];
      RowFits(rows, n, lineBytes) <==>
        && (row.seqId in metadata ==> metadata[row.seqId] == Snapshot(row))
        && row.event !in EventsFor(pf, row.seqId)
  {
    var row := rows[n];
    EventsOfRows(rows, n, row.seqId, row.event);
    assert EventsOf(rows, n, row.seqId) == EventsFor(pf, row.seqId);
    if row.seqId in metadata && metadata[row.seqId] != Snapshot(row) {
      var j :| 0 <= j < n && Identified(rows[j]) && rows[j].seqId == row.seqId;
      assert !Distinguished(row, rows[j]);
    }
    if row.event in EventsFor(pf, row.seqId) {
      var j :| 0 <= j < n && Identified(rows[j]) && Same(rows[j], row.event, row.seqId);
      assert !Distinguished(row, rows[j]);
    }
  }

  lemma IdentifiedTracks(rows: seq<Row>, n: nat, lineBytes: nat, pf: map<int, map<Event, Entry>>,
                         metadata: map<int, map<string, string>>)
    requires n < |rows| && RowFits(rows, n, lineBytes) && Identified(rows[n])
    requires TransactionsTrack(rows, n, pf) && MetadataTracks(rows, n, metadata)
    ensures var row := rows[n];
      && TransactionsTrack(rows, n + 1,
           pf[row.seqId := EventsFor(pf, row.seqId)[row.event := Entry(row.cycle, row.addr)]])
      && MetadataTracks(rows, n + 1, metadata[row.seqId := Snapshot(row)])
  {
    var row := rows[n];
    var events := EventsFor(pf, row.seqId)[row.event := Entry(row.cycle, row.addr)];
    assert row.event in events;
    assert EventsOf(rows, n + 1, row.seqId) == events;
    forall j | 0 <= j < n && Identified(rows[j]) && rows[j].seqId == row.seqId
      ensures HasMetadata(rows[j]) && Snapshot(rows[j]) == Snapshot(row)
    {
      assert Distinguished(row, rows[j]);
    }
  }

  lemma OtherTracks(rows: seq<Row>, n: nat, pf: map<int, map<Event, Entry>>, metadata: map<int, map<string, string>>)
    requires n < |rows| && !Identified(rows[n])
    requires TransactionsTrack(rows, n, pf) && MetadataTracks(rows, n, metadata)
    ensures TransactionsTrack(rows, n + 1, pf) && MetadataTracks(rows, n + 1, metadata)
  {
    assert forall s :: EventsOf(rows, n + 1, s) == EventsOf(rows, n, s);
  }

  /** A demand row fits exactly when the dictionaries raise no objection. */
  lemma DemandFits(rows: seq<Row>, n: nat, lineBytes: nat, cycles: map<(int, Event), int>, seen: set<int>,
                   last: Option<int>)
    requires n < |rows| && RowOk(rows[n], lineBytes) && rows[n].schema == rows[0].schema && IsDemand(rows[n].event)
    requires AllFit(rows, n, lineBytes)
    requires CyclesTrack(rows, n, cycles) && Finished(rows, n, seen, last)
    ensures var row := rows[n];
      RowFits(rows, n, lineBytes) <==>
        && (row.schema == 3 && !Completed(row) ==> (row.seqId, row.event) !in cycles)
        && (row.schema == 3 && Completed(row) ==>
              && (row.seqId, DemandAccept) in cycles
              && row.latency == row.cycle - cycles[(row.seqId, DemandAccept)])
        && (Completed(row) ==> row.seqId !in seen && (last.None? || last.value < row.seqId))
  {
    var row := rows[n];
    forall k | 0 <= k < n
      ensures rows[k].schema == row.schema
    {
      assert RowFits(rows, k, lineBytes);
    }
    assert row.schema == 2 ==> row.event.Demand?;
    assert row.schema == 3 && Completed(row) ==> row.event.DemandResponse?;
    if Completed(row) {
      CompletedIsLatest(rows, n, seen, last);
      if row.schema == 3 {
        ResponseAnswers(rows, n, cycles);
      }
    } else {
      if (row.seqId, row.event) in cycles {
        var j :| 0 <= j < n && rows[j].schema == 3 && Same(rows[j], row.event, row.seqId);
      }
    }
  }

  lemma CompletedIsLatest(rows: seq<Row>, n: nat, seen: set<int>, last: Option<int>)
    requires n < |rows| && Finished(rows, n, seen, last)
    ensures (forall j :: 0 <= j < n && Completed(rows[j]) ==> rows[j].seqId < rows[n].seqId)
       <==> (last.None? || last.value < rows[n].seqId)
  {
    if last.Some? {
      var j :| 0 <= j < n && Completed(rows[j]) && rows[j].seqId == last.value;
    }
    forall j | 0 <= j < n && Completed(rows[j])
      ensures last.Some? && rows[j].seqId <= last.value
    {
      assert rows[j].seqId in seen;
    }
  }

  lemma ResponseAnswers(rows: seq<Row>, n: nat, cycles: map<(int, Event), int>)
    requires n < |rows| && rows[n].schema == 3 && CyclesTrack(rows, n, cycles)
    requires forall k :: 0 <= k < n ==> rows[k].schema == 3
    ensures var row := rows[n];
      (exists j :: 0 <= j < n && Answers(row, rows[j])) <==>
        && (row.seqId, DemandAccept) in cycles
        && row.latency == row.cycle - cycles[(row.seqId, DemandAccept)]
  {
    var row := rows[n];
    if (row.seqId, DemandAccept) in cycles {
      var j :| 0 <= j < n && rows[j].schema == 3 && Same(rows[j], DemandAccept, row.seqId);
      assert cycles[(rows[j].seqId, rows[j].event)] == rows[j].cycle;
      assert Answers(row, rows[j]) <==> row.latency == row.cycle - rows[j].cycle;
    }
  }

  lemma DemandTracks(rows: seq<Row>, n: nat, lineBytes: nat, cycles: map<(int, Event), int>)
    requires n < |rows| && RowFits(rows, n, lineBytes) && IsDemand(rows[n].event)
    requires AllFit(rows, n, lineBytes)
    requires CyclesTrack(rows, n, cycles)
    ensures CyclesTrack(rows, n + 1, if rows[n].schema == 3 then cycles[(rows[n].seqId, rows[n].event) := rows[n].cycle]
                                     else cycles)
  {
    var row := rows[n];
    if row.schema == 3 {
      assert Completed(row) <==> row.event.DemandResponse?;
      forall j | 0 <= j < n && rows[j].schema == 3 && IsDemand(rows[j].event)
        ensures !Same(rows[j], row.event, row.seqId)
      {
        assert RowFits(rows, j, lineBytes);
      }
    }
  }

  lemma OtherCycles(rows: seq<Row>, n: nat, cycles: map<(int, Event), int>)
    requires n < |rows| && !IsDemand(rows[n].event) && CyclesTrack(rows, n, cycles)
    ensures CyclesTrack(rows, n + 1, cycles)
  {
  }

  lemma FinishedOn(rows: seq<Row>, n: nat, seen: set<int>, last: Option<int>)
    requires n < |rows| && Finished(rows, n, seen, last)
    requires Completed(rows[n]) ==> last.None? || last.value < rows[n].seqId
    ensures if Completed(rows[n]) then Finished(rows, n + 1, seen + {rows[n].seqId}, Some(rows[n].seqId))
            else Finished(rows, n + 1, seen, last)
  {
  }

  lemma FlagsOn(rows: seq<Row>, n: nat, identified: bool, unidentified: bool)
    requires n < |rows| && Flags(rows, n, identified, unidentified)
    ensures Flags(rows, n + 1, identified || Identified(rows[n]), unidentified || Unidentified(rows[n]))
  {
  }

  lemma NothingRead(rows: seq<Row>, lineBytes: nat)
    ensures Read(rows, 0, lineBytes, [], multiset{}) && Finished(rows, 0, {}, None) && Flags(rows, 0, false, false)
    ensures CyclesTrack(rows, 0, map[]) && TransactionsTrack(rows, 0, map[]) && MetadataTracks(rows, 0, map[])
  {
    assert rows[..0] == [];
    assert EventsIn(rows[..0]) == [];
  }

  lemma {:induction false} AccessesAreCompleted(rows: seq<Row>)
    ensures AccessesOf(rows) != [] <==> exists i :: 0 <= i < |rows| && Completed(rows[i])
  {
    if rows != [] {
      var n := |rows| - 1;
      AccessesAreCompleted(rows[..n]);
      assert forall i :: 0 <= i < n ==> rows[..n][i] == rows[i];
    }
  }

  predicate InOrder(cycles: map<(int, Event), int>, s: int) {
    && (s, DemandPresent) in cycles && (s, DemandAccept) in cycles && (s, DemandResponse) in cycles
    && cycles[(s, DemandPresent)] <= cycles[(s, DemandAccept)] <= cycles[(s, DemandResponse)]
  }

  lemma InOrderIsChained(rows: seq<Row>, cycles: map<(int, Event), int>, i: nat)
    requires i < |rows| && CyclesTrack(rows, |rows|, cycles) && rows[i].event.DemandResponse?
    requires forall k :: 0 <= k < |rows| ==> rows[k].schema == 3
    ensures InOrder(cycles, rows[i].seqId) <==> Chained(rows, i)
  {
    var s := rows[i].seqId;
    assert cycles[(s, DemandResponse)] == rows[i].cycle;
    if InOrder(cycles, s) {
      var p :| 0 <= p < |rows| && rows[p].schema == 3 && Same(rows[p], DemandPresent, s);
      var a :| 0 <= a < |rows| && rows[a].schema == 3 && Same(rows[a], DemandAccept, s);
      assert cycles[(rows[p].seqId, rows[p].event)] == rows[p].cycle;
      assert cycles[(rows[a].seqId, rows[a].event)] == rows[a].cycle;
    }
    if Chained(rows, i) {
      var p, a :| 0 <= p < |rows| && 0 <= a < |rows|
        && Same(rows[p], DemandPresent, s) && Same(rows[a], DemandAccept, s)
        && rows[p].cycle <= rows[a].cycle <= rows[i].cycle;
      assert cycles[(rows[p].seqId, rows[p].event)] == rows[p].cycle;
      assert cycles[(rows[a].seqId, rows[a].event)] == rows[a].cycle;
    }
  }

  lemma FlagsDecide(rows: seq<Row>, identified: bool, unidentified: bool)
    requires Flags(rows, |rows|, identified, unidentified)
    ensures !(identified && unidentified)
       <==> Unmixed(rows)
  {
  }

  lemma DemandsDecide(rows: seq<Row>, cycles: map<(int, Event), int>, seen: set<int>, last: Option<int>)
    requires forall k :: 0 <= k < |rows| ==> rows[k].schema == 3
    requires forall k :: 0 <= k < |rows| && Completed(rows[k]) ==> rows[k].event.DemandResponse?
    requires CyclesTrack(rows, |rows|, cycles) && Finished(rows, |rows|, seen, last)
    ensures (forall s :: s in seen ==> InOrder(cycles, s))
       <==> AllChained(rows)
  {
    forall i | 0 <= i < |rows| && Completed(rows[i])
      ensures rows[i].seqId in seen && (InOrder(cycles, rows[i].seqId) <==> Chained(rows, i))
    {
      InOrderIsChained(rows, cycles, i);
    }
  }

  lemma AllSchema3(rows: seq<Row>, lineBytes: nat)
    requires rows != [] && rows[0].schema == 3 && AllFit(rows, |rows|, lineBytes)
    ensures forall k :: 0 <= k < |rows| ==> rows[k].schema == 3
    ensures forall k :: 0 <= k < |rows| && Completed(rows[k]) ==> rows[k].event.DemandResponse?
  {
    forall k | 0 <= k < |rows|
      ensures rows[k].schema == 3 && (Completed(rows[k]) ==> rows[k].event.DemandResponse?)
    {
      assert RowFits(rows, k, lineBytes);
    }
  }

  lemma TransactionsDecide(rows: seq<Row>, pf: map<int, map<Event, Entry>>)
    requires TransactionsTrack(rows, |rows|, pf)
    ensures (forall s :: s in pf ==> Lifecycle(pf[s]))
       <==> AllLifecycles(rows)
    ensures forall s :: s in pf ==> pf[s] != map[]
  {
    hide Lifecycle, EventsOf;
    forall s: int
      ensures s in pf <==> EventsOf(rows, |rows|, s) != map[]
      ensures s in pf ==> EventsOf(rows, |rows|, s) == pf[s]
    {
    }
    if forall s :: s in pf ==> Lifecycle(pf[s]) {
      forall s | EventsOf(rows, |rows|, s) != map[]
        ensures Lifecycle(EventsOf(rows, |rows|, s))
      {
        assert Lifecycle(pf[s]);
      }
    }
    if forall s :: EventsOf(rows, |rows|, s) != map[] ==> Lifecycle(EventsOf(rows, |rows|, s)) {
      forall s | s in pf
        ensures Lifecycle(pf[s])
      {
        assert Lifecycle(EventsOf(rows, |rows|, s));
      }
    }
  }

  /** Everything the parser keeps while it reads. */
  datatype Ledger = Ledger(accesses: seq<Access>, counts: multiset<Event>, seen: set<int>, last: Option<int>,
                           cycles: map<(int, Event), int>, pf: map<int, map<Event, Entry>>,
                           metadata: map<int, map<string, string>>, identified: bool, unidentified: bool)

  /** The ledger after n rows, stated against the rows themselves. */
  ghost predicate Tracks(rows: seq<Row>, n: nat, lineBytes: nat, l: Ledger)
    requires n <= |rows|
  {
    && Read(rows, n, lineBytes, l.accesses, l.counts)
    && Finished(rows, n, l.seen, l.last)
    && Flags(rows, n, l.identified, l.unidentified)
    && CyclesTrack(rows, n, l.cycles)
    && TransactionsTrack(rows, n, l.pf)
    && MetadataTracks(rows, n, l.metadata)
  }

  method TakePrefetch(ghost rows: seq<Row>, ghost n: nat, ghost lineBytes: nat, row: Row, l: Ledger)
    returns (r: Option<Ledger>)
    requires n < |rows| && Tracks(rows, n, lineBytes, l) && row == rows[n]
    requires RowOk(row, lineBytes) && row.schema == rows[0].schema && IsPrefetch(row.event)
    ensures r.Some? <==> RowFits(rows, n, lineBytes)
    ensures r.Some? ==> Tracks(rows, n + 1, lineBytes, r.value)
  {
    assert !Completed(row) && !IsDemand(row.event);
    FinishedOn(rows, n, l.seen, l.last);
    FlagsOn(rows, n, l.identified, l.unidentified);
    OtherCycles(rows, n, l.cycles);
    if Unidentified(row) {
      assert RowFits(rows, n, lineBytes);
      ReadOn(rows, n, lineBytes, l.accesses, l.counts);
      OtherTracks(rows, n, l.pf, l.metadata);
      hide RowFits, RowOk, Read, Finished, Flags, CyclesTrack, TransactionsTrack, MetadataTracks;
      return Some(l.(counts := l.counts + multiset{row.event}, unidentified := true));
    }
    IdentifiedFits(rows, n, lineBytes, l.pf, l.metadata);
    hide RowFits, RowOk, Read, Finished, Flags, CyclesTrack, TransactionsTrack, MetadataTracks;
    var s, snapshot := row.seqId, Snapshot(row);
    if s in l.metadata && l.metadata[s] != snapshot { return None; }
    if row.event in EventsFor(l.pf, s) { return None; }
    ReadOn(rows, n, lineBytes, l.accesses, l.counts);
    IdentifiedTracks(rows, n, lineBytes, l.pf, l.metadata);
    return Some(l.(counts := l.counts + multiset{row.event}, identified := true,
                   metadata := l.metadata[s := snapshot],
                   pf := l.pf[s := EventsFor(l.pf, s)[row.event := Entry(row.cycle, row.addr)]]));
  }

  method TakeDemand(ghost rows: seq<Row>, ghost n: nat, ghost lineBytes: nat, row: Row, l: Ledger)
    returns (r: Option<Ledger>)
    requires n < |rows| && Tracks(rows, n, lineBytes, l) && row == rows[n]
    requires RowOk(row, lineBytes) && row.schema == rows[0].schema && IsDemand(row.event)
    ensures r.Some? <==> RowFits(rows, n, lineBytes)
    ensures r.Some? ==> Tracks(rows, n + 1, lineBytes, r.value)
  {
    assert !Identified(row) && !Unidentified(row);
    DemandFits(rows, n, lineBytes, l.cycles, l.seen, l.last);
    FlagsOn(rows, n, l.identified, l.unidentified);
    OtherTracks(rows, n, l.pf, l.metadata);
    var s, key := row.seqId, (row.seqId, row.event);
    ghost var fits := RowFits(rows, n, lineBytes);
    if fits {
      ReadOn(rows, n, lineBytes, l.accesses, l.counts);
      DemandTracks(rows, n, lineBytes, l.cycles);
      FinishedOn(rows, n, l.seen, l.last);
    }
    hide RowFits, RowOk, Read, Finished, Flags, CyclesTrack, TransactionsTrack, MetadataTracks;
    var cycles := l.cycles;
    if row.schema == 3 {
      if !Completed(row) && key in cycles { return None; }
      if Completed(row) {
        if (s, DemandAccept) !in cycles { return None; }
        if row.latency != row.cycle - cycles[(s, DemandAccept)] { return None; }
      }
      cycles := cycles[key := row.cycle];
    }
    if !Completed(row) {
      return Some(l.(counts := l.counts + multiset{row.event}, cycles := cycles));
    }
    if s in l.seen { return None; }
    if l.last.Some? && s <= l.last.value { return None; }
    return Some(l.(counts := l.counts + multiset{row.event}, cycles := cycles, seen := l.seen + {s}, last := Some(s),
                   accesses := l.accesses + [AccessOf(row)]));
  }

  /** One more row: taken in exactly when it fits. */
  method TakeRow(ghost rows: seq<Row>, ghost n: nat, lineBytes: nat, first: int, row: Row, l: Ledger)
    returns (r: Option<Ledger>)
    requires n < |rows| && Tracks(rows, n, lineBytes, l) && row == rows[n] && first == rows[0].schema
    ensures r.Some? <==> RowFits(rows, n, lineBytes)
    ensures r.Some? ==> Tracks(rows, n + 1, lineBytes, r.value)
  {
    if !RowOk(row, lineBytes) { return None; }
    if row.schema != first { return None; }
    if IsPrefetch(row.event) {
      r := TakePrefetch(rows, n, lineBytes, row, l);
    } else if IsDemand(row.event) {
      r := TakeDemand(rows, n, lineBytes, row, l);
    } else {
      assert RowFits(rows, n, lineBytes);
      ReadOn(rows, n, lineBytes, l.accesses, l.counts);
      FinishedOn(rows, n, l.seen, l.last);
      FlagsOn(rows, n, l.identified, l.unidentified);
      OtherCycles(rows, n, l.cycles);
      OtherTracks(rows, n, l.pf, l.metadata);
      hide RowFits, Read, Finished, Flags, CyclesTrack, TransactionsTrack, MetadataTracks;
      r := Some(l.(counts := l.counts + multiset{row.event}));
    }
  }

  /** The verdict after the last row, read off the dictionaries. */
  ghost predicate Balanced(l: Ledger) {
    && (forall s :: s in l.seen ==> InOrder(l.cycles, s))
    && !(l.identified && l.unidentified)
    && (forall s :: s in l.pf ==> Lifecycle(l.pf[s]))
  }

  lemma BalancedIsSettled(rows: seq<Row>, lineBytes: nat, l: Ledger)
    requires rows != [] && Tracks(rows, |rows|, lineBytes, l)
    ensures l.accesses == AccessesOf(rows) && l.counts == multiset(EventsIn(rows))
    ensures Accepted(rows, lineBytes) <==> l.accesses != [] && (rows[0].schema == 3 ==> Balanced(l))
    ensures forall s :: s in l.pf ==> l.pf[s] != map[]
  {
    hide RowFits, Read, Finished, Flags, CyclesTrack, TransactionsTrack, MetadataTracks, EventsOf, Lifecycle, InOrder,
         Chained, Completed, Identified, Unidentified, AllFit, AllChained, Unmixed, AllLifecycles, AccessesOf, EventsIn;
    ReadAll(rows, lineBytes, l.accesses, l.counts);
    TransactionsDecide(rows, l.pf);
    if rows[0].schema == 3 {
      AllSchema3(rows, lineBytes);
      DemandsDecide(rows, l.cycles, l.seen, l.last);
      FlagsDecide(rows, l.identified, l.unidentified);
    }
  }

  lemma ReadAll(rows: seq<Row>, lineBytes: nat, accesses: seq<Access>, counts: multiset<Event>)
    requires Read(rows, |rows|, lineBytes, accesses, counts)
    ensures AllFit(rows, |rows|, lineBytes) && accesses == AccessesOf(rows) && counts == multiset(EventsIn(rows))
    ensures accesses != [] <==> exists i :: 0 <= i < |rows| && Completed(rows[i])
  {
    assert rows[..|rows|] == rows;
    AccessesAreCompleted(rows);
  }

  lemma Inhabited(s: set<int>)
    ensures s == {} || exists x :: x in s
  {
    if forall x :: x !in s {
      assert s == {};
    }
  }

  method Judge(l: Ledger) returns (ok: bool)
    requires forall s :: s in l.pf ==> l.pf[s] != map[]
    ensures ok <==> Balanced(l)
  {
    var todo := l.seen;
    while todo != {}
      decreases |todo|
      invariant todo <= l.seen
      invariant forall s :: s in l.seen && s !in todo ==> InOrder(l.cycles, s)
    {
      Inhabited(todo);
      var s :| s in todo;
      if !InOrder(l.cycles, s) { return false; }
      todo := todo - {s};
    }
    if l.identified && l.unidentified { return false; }
    var left := l.pf.Keys;
    while left != {}
      decreases |left|
      invariant left <= l.pf.Keys
      invariant forall s :: s in l.pf && s !in left ==> Lifecycle(l.pf[s])
    {
      Inhabited(left);
      var s :| s in left;
      var fine := CheckLifecycle(l.pf[s]);
      if !fine { return false; }
      left := left - {s};
    }
    return true;
  }

  /** The parser accepts exactly the row lists that `Accepted` describes. */
  method ParseSidecar(rows: seq<Row>, lineBytes: nat) returns (r: Result<Parsed, string>)
    ensures r.Ok? <==> IsPow2(lineBytes) && Accepted(rows, lineBytes)
    ensures r.Ok? ==> r.value == Parsed(AccessesOf(rows), multiset(EventsIn(rows)))
  {
    if !PowerOfTwo(lineBytes) { return Err("line_bytes must be a positive power of two"); }
    if rows == [] { return Err("contains no records"); }
    var l := Ledger([], multiset{}, {}, None, map[], map[], map[], false, false);
    NothingRead(rows, lineBytes);
    assert Tracks(rows, 0, lineBytes, l);
    hide Tracks, RowFits, Settled, Balanced, EventsIn, AccessesOf;
    for n := 0 to |rows|
      invariant Tracks(rows, n, lineBytes, l)
    {
      var taken := TakeRow(rows, n, lineBytes, rows[0].schema, rows[n], l);
      if taken.None? {
        NotRead(rows, n, lineBytes);
        return Err("row refused");
      }
      l := taken.value;
    }
    BalancedIsSettled(rows, lineBytes, l);
    if l.accesses == [] { return Err("contains no completed demand records"); }
    if rows[0].schema == 3 {
      var ok := Judge(l);
      if !ok { return Err("lifecycle"); }
    }
    return Ok(Parsed(l.accesses, l.counts));
  }

  // ------------------------------------------------------------------- conservation laws

  /** The transactions, or demands, that have a row of this event. */
  function IdsOf(rows: seq<Row>, e: Event): set<int> {
    if rows == [] then {}
    else
      var row := rows[|rows| - 1];
      IdsOf(rows[..|rows| - 1], e) + if row.event == e then {row.seqId} else {}
  }

  lemma {:induction false} IdsAreRows(rows: seq<Row>, e: Event)
    ensures forall s :: s in IdsOf(rows, e) <==> exists i :: 0 <= i < |rows| && Same(rows[i], e, s)
  {
    if rows != [] {
      var n := |rows| - 1;
      IdsAreRows(rows[..n], e);
      assert rows == rows[..n] + [rows[n]];
      assert Same(rows[n], rows[n].event, rows[n].seqId);
    }
  }

  function CountOf(rows: seq<Row>, e: Event): nat {
    multiset(EventsIn(rows))[e]
  }

  ghost predicate NoTwice(rows: seq<Row>, e: Event) {
    forall i, j :: 0 <= i < j < |rows| && rows[i].event == e && rows[j].event == e ==> rows[i].seqId != rows[j].seqId
  }

  lemma CountExtends(rows: seq<Row>, row: Row, e: Event)
    ensures CountOf(rows + [row], e) == CountOf(rows, e) + if row.event == e then 1 else 0
  {
    assert EventsIn(rows + [row]) == EventsIn(rows) + [row.event];
  }

  lemma FreshId(rows: seq<Row>, e: Event)
    requires rows != [] && NoTwice(rows, e) && rows[|rows| - 1].event == e
    ensures rows[|rows| - 1].seqId !in IdsOf(rows[..|rows| - 1], e)
  {
    var before := rows[..|rows| - 1];
    IdsAreRows(before, e);
    forall i | 0 <= i < |before| && before[i].event == e
      ensures before[i].seqId != rows[|rows| - 1].seqId
    {
      assert before[i] == rows[i];
    }
  }

  lemma NoTwiceBefore(rows: seq<Row>, e: Event)
    requires rows != [] && NoTwice(rows, e)
    ensures NoTwice(rows[..|rows| - 1], e)
  {
    assert forall i :: 0 <= i < |rows| - 1 ==> rows[..|rows| - 1][i] == rows[i];
  }

  lemma {:induction false} CountIsIds(rows: seq<Row>, e: Event)
    requires NoTwice(rows, e)
    ensures CountOf(rows, e) == |IdsOf(rows, e)|
  {
    if rows != [] {
      hide CountOf, EventsIn, NoTwice;
      var n := |rows| - 1;
      var before := rows[..n];
      assert rows == before + [rows[n]];
      NoTwiceBefore(rows, e);
      CountIsIds(before, e);
      CountExtends(before, rows[n], e);
      if rows[n].event == e {
        FreshId(rows, e);
      }
    }
  }

  ghost predicate Recorded(rows: seq<Row>, e: Event) {
    forall s :: s in IdsOf(rows, e) <==> e in EventsOf(rows, |rows|, s)
  }

  /** In an accepted schema-3 file with identified prefetches no prefetch event repeats. */
  lemma PrefetchIdsAreEvents(rows: seq<Row>, lineBytes: nat, e: Event)
    requires Accepted(rows, lineBytes) && rows[0].schema == 3 && IsPrefetch(e)
    requires exists i :: 0 <= i < |rows| && Identified(rows[i])
    ensures NoTwice(rows, e)
    ensures Recorded(rows, e)
  {
    forall j | 0 <= j < |rows| && rows[j].event == e
      ensures Identified(rows[j])
    {
      assert !Unidentified(rows[j]);
    }
    forall i, j | 0 <= i < j < |rows| && rows[i].event == e && rows[j].event == e
      ensures rows[i].seqId != rows[j].seqId
    {
      assert RowFits(rows, j, lineBytes);
      assert Distinguished(rows[j], rows[i]);
    }
    IdsAreRows(rows, e);
    forall s
      ensures s in IdsOf(rows, e) <==> e in EventsOf(rows, |rows|, s)
    {
      EventsOfRows(rows, |rows|, s, e);
    }
  }

  ghost predicate PrefetchLaws(rows: seq<Row>) {
    && CountOf(rows, Issue) == CountOf(rows, Return)
    && CountOf(rows, Return) == CountOf(rows, Install) + CountOf(rows, Merge) + CountOf(rows, Discard)
    && CountOf(rows, Issue) <= CountOf(rows, Admit) <= CountOf(rows, Candidate)
    && CountOf(rows, Admit) <= CountOf(rows, Issue) + CountOf(rows, Cancel)
    && CountOf(rows, Use) + CountOf(rows, Evict) <= CountOf(rows, Install)
  }

  /**
   Conservation: every file the checker accepts with identified prefetches has as many returns
   as issues, each return is installed, merged or discarded, and so on, over the whole file.
   */
  lemma AcceptedPrefetchesAreConserved(rows: seq<Row>, lineBytes: nat)
    requires Accepted(rows, lineBytes) && rows[0].schema == 3
    requires exists i :: 0 <= i < |rows| && Identified(rows[i])
    ensures PrefetchLaws(rows)
  {
    hide Accepted, Identified, EventsOf, CountOf, IdsOf, Recorded, TransactionLaws, IsPrefetch;
    EveryTransactionObeys(rows, lineBytes);
    EveryEventIsRecorded(rows, lineBytes);
    IdsObeyLaws(rows);
    PrefetchEvents();
  }

  lemma PrefetchEvents()
    ensures IsPrefetch(Candidate) && IsPrefetch(Admit) && IsPrefetch(Issue) && IsPrefetch(Return) && IsPrefetch(Install)
    ensures IsPrefetch(Merge) && IsPrefetch(Discard) && IsPrefetch(Cancel) && IsPrefetch(Use) && IsPrefetch(Evict)
  {
  }

  lemma EveryEventIsRecorded(rows: seq<Row>, lineBytes: nat)
    requires Accepted(rows, lineBytes) && rows[0].schema == 3
    requires exists i :: 0 <= i < |rows| && Identified(rows[i])
    ensures forall e :: IsPrefetch(e) ==> Recorded(rows, e)
    ensures forall e :: IsPrefetch(e) ==> CountOf(rows, e) == |IdsOf(rows, e)|
  {
    hide Accepted, Identified, EventsOf, CountOf, IdsOf, Recorded, NoTwice;
    forall e | IsPrefetch(e)
      ensures CountOf(rows, e) == |IdsOf(rows, e)| && Recorded(rows, e)
    {
      PrefetchIdsAreEvents(rows, lineBytes, e);
      CountIsIds(rows, e);
    }
  }

  lemma EveryTransactionObeys(rows: seq<Row>, lineBytes: nat)
    requires Accepted(rows, lineBytes) && rows[0].schema == 3
    ensures forall s :: TransactionLaws(EventsOf(rows, |rows|, s))
  {
    assert AllLifecycles(rows);
    hide Accepted, EventsOf, TransactionLaws, Lifecycle;
    forall s: int
      ensures TransactionLaws(EventsOf(rows, |rows|, s))
    {
      LifecycleLaws(EventsOf(rows, |rows|, s));
    }
  }

  lemma TransactionIds(rows: seq<Row>)
    requires forall e :: IsPrefetch(e) ==> Recorded(rows, e)
    requires forall s :: TransactionLaws(EventsOf(rows, |rows|, s))
    ensures IdsOf(rows, Issue) == IdsOf(rows, Return)
    ensures IdsOf(rows, Return) == IdsOf(rows, Install) + IdsOf(rows, Merge) + IdsOf(rows, Discard)
    ensures IdsOf(rows, Install) !! IdsOf(rows, Merge) !! IdsOf(rows, Discard)
    ensures IdsOf(rows, Issue) <= IdsOf(rows, Admit) <= IdsOf(rows, Candidate)
    ensures IdsOf(rows, Admit) <= IdsOf(rows, Issue) + IdsOf(rows, Cancel)
    ensures IdsOf(rows, Use) + IdsOf(rows, Evict) <= IdsOf(rows, Install) && IdsOf(rows, Use) !! IdsOf(rows, Evict)
  {
    hide EventsOf, IdsOf;
    assert Recorded(rows, Candidate) && Recorded(rows, Admit) && Recorded(rows, Issue) && Recorded(rows, Return);
    assert Recorded(rows, Install) && Recorded(rows, Merge) && Recorded(rows, Discard) && Recorded(rows, Cancel);
    assert Recorded(rows, Use) && Recorded(rows, Evict);
    forall s: int
      ensures s in IdsOf(rows, Issue) <==> s in IdsOf(rows, Return)
      ensures s in IdsOf(rows, Return) <==>
                s in IdsOf(rows, Install) || s in IdsOf(rows, Merge) || s in IdsOf(rows, Discard)
      ensures !(s in IdsOf(rows, Install) && s in IdsOf(rows, Merge))
      ensures !(s in IdsOf(rows, Install) && s in IdsOf(rows, Discard))
      ensures !(s in IdsOf(rows, Merge) && s in IdsOf(rows, Discard))
      ensures s in IdsOf(rows, Issue) ==> s in IdsOf(rows, Admit)
      ensures s in IdsOf(rows, Admit) ==>
                s in IdsOf(rows, Candidate) && (s in IdsOf(rows, Issue) || s in IdsOf(rows, Cancel))
      ensures s in IdsOf(rows, Use) || s in IdsOf(rows, Evict) ==> s in IdsOf(rows, Install)
      ensures !(s in IdsOf(rows, Use) && s in IdsOf(rows, Evict))
    {
      assert TransactionLaws(EventsOf(rows, |rows|, s));
    }
  }

  lemma IdsObeyLaws(rows: seq<Row>)
    requires forall e :: IsPrefetch(e) ==> Recorded(rows, e)
    requires forall s :: TransactionLaws(EventsOf(rows, |rows|, s))
    ensures |IdsOf(rows, Issue)| == |IdsOf(rows, Return)|
    ensures |IdsOf(rows, Return)| == |IdsOf(rows, Install)| + |IdsOf(rows, Merge)| + |IdsOf(rows, Discard)|
    ensures |IdsOf(rows, Issue)| <= |IdsOf(rows, Admit)| <= |IdsOf(rows, Candidate)|
    ensures |IdsOf(rows, Admit)| <= |IdsOf(rows, Issue)| + |IdsOf(rows, Cancel)|
    ensures |IdsOf(rows, Use)| + |IdsOf(rows, Evict)| <= |IdsOf(rows, Install)|
  {
    TransactionIds(rows);
    hide Recorded, TransactionLaws, EventsOf, IdsOf;
    SetsObeyLaws(IdsOf(rows, Candidate), IdsOf(rows, Admit), IdsOf(rows, Issue), IdsOf(rows, Return),
                 IdsOf(rows, Install), IdsOf(rows, Merge), IdsOf(rows, Discard), IdsOf(rows, Cancel),
                 IdsOf(rows, Use), IdsOf(rows, Evict));
  }

  lemma SetsObeyLaws(candidates: set<int>, admitted: set<int>, issued: set<int>, returned: set<int>,
                     installed: set<int>, merged: set<int>, discarded: set<int>, cancelled: set<int>,
                     used: set<int>, evicted: set<int>)
    requires issued == returned == installed + merged + discarded
    requires installed !! merged !! discarded
    requires issued <= admitted <= candidates && admitted <= issued + cancelled
    requires used + evicted <= installed && used !! evicted
    ensures |issued| == |returned| == |installed| + |merged| + |discarded|
    ensures |issued| <= |admitted| <= |candidates| && |admitted| <= |issued| + |cancelled|
    ensures |used| + |evicted| <= |installed|
  {
    DisjointUnion(installed, merged);
    DisjointUnion(installed + merged, discarded);
    SubsetCount(issued, admitted);
    SubsetCount(admitted, candidates);
    CoveredCount(admitted, issued, cancelled);
    PackedCount(used, evicted, installed);
  }

  lemma CoveredCount(s: set<int>, a: set<int>, b: set<int>)
    requires a <= s <= a + b
    ensures |s| <= |a| + |b|
  {
    assert s == (s - a) + a;
    DisjointUnion(s - a, a);
    SubsetCount(s - a, b);
  }

  lemma PackedCount(a: set<int>, b: set<int>, s: set<int>)
    requires a + b <= s && a !! b
    ensures |a| + |b| <= |s|
  {
    DisjointUnion(a, b);
    SubsetCount(a + b, s);
  }

  /** What a single transaction's lifecycle says about which of its events happened. */
  ghost predicate TransactionLaws(ev: map<Event, Entry>) {
    && (Issue in ev <==> Return in ev)
    && (Return in ev <==> Install in ev || Merge in ev || Discard in ev)
    && !(Install in ev && Merge in ev) && !(Install in ev && Discard in ev) && !(Merge in ev && Discard in ev)
    && (Issue in ev ==> Admit in ev)
    && (Admit in ev ==> Candidate in ev && (Issue in ev || Cancel in ev))
    && (Use in ev || Evict in ev ==> Install in ev)
    && !(Use in ev && Evict in ev)
  }

  lemma LifecycleLaws(ev: map<Event, Entry>)
    requires ev == map[] || Lifecycle(ev)
    ensures TransactionLaws(ev)
  {
    if Return in ev {
      var t :| Terminals(ev) == {t};
      assert t in Terminals(ev);
      assert forall u :: u in Terminals(ev) <==> u == t;
    } else {
      assert forall u :: u !in Terminals(ev);
    }
    assert forall u :: u in Terminals(ev) <==> u in {Install, Merge, Discard} && u in ev;
  }

  /** Exactly the presented demands were accepted and answered, each once. */
  ghost predicate AnsweredOnce(rows: seq<Row>) {
    && NoTwice(rows, DemandPresent) && NoTwice(rows, DemandAccept) && NoTwice(rows, DemandResponse)
    && IdsOf(rows, DemandPresent) == IdsOf(rows, DemandAccept) == IdsOf(rows, DemandResponse)
  }

  /**
   The row counts settle the demands: an accepted schema-3 file has equally many present,
   accept and response rows exactly when every demand that was presented was accepted and
   answered exactly once.
   */
  lemma EqualCountsMeanAnsweredOnce(rows: seq<Row>, lineBytes: nat)
    requires Accepted(rows, lineBytes) && rows[0].schema == 3
    ensures CountOf(rows, DemandPresent) == CountOf(rows, DemandAccept) == CountOf(rows, DemandResponse)
       <==> AnsweredOnce(rows)
  {
    hide Accepted, NoTwice, CountOf, IdsOf;
    DemandsNeverRepeat(rows, lineBytes);
    CountIsIds(rows, DemandPresent);
    CountIsIds(rows, DemandAccept);
    CountIsIds(rows, DemandResponse);
    AnsweredWasPresented(rows, lineBytes);
    SubsetCount(IdsOf(rows, DemandResponse), IdsOf(rows, DemandPresent));
    SubsetCount(IdsOf(rows, DemandResponse), IdsOf(rows, DemandAccept));
  }

  lemma DemandsNeverRepeat(rows: seq<Row>, lineBytes: nat)
    requires Accepted(rows, lineBytes) && rows[0].schema == 3
    ensures NoTwice(rows, DemandPresent) && NoTwice(rows, DemandAccept) && NoTwice(rows, DemandResponse)
  {
    forall i, j | 0 <= i < j < |rows| && rows[i].event == rows[j].event && IsDemand(rows[j].event)
      ensures rows[i].seqId != rows[j].seqId
    {
      assert RowFits(rows, j, lineBytes);
      assert Completed(rows[i]) <==> Completed(rows[j]);
      if !Completed(rows[j]) {
        assert !Same(rows[i], rows[j].event, rows[j].seqId);
      }
    }
  }

  lemma AnsweredWasPresented(rows: seq<Row>, lineBytes: nat)
    requires Accepted(rows, lineBytes) && rows[0].schema == 3
    ensures IdsOf(rows, DemandResponse) <= IdsOf(rows, DemandPresent)
    ensures IdsOf(rows, DemandResponse) <= IdsOf(rows, DemandAccept)
  {
    IdsAreRows(rows, DemandPresent);
    IdsAreRows(rows, DemandAccept);
    IdsAreRows(rows, DemandResponse);
    forall s | s in IdsOf(rows, DemandResponse)
      ensures s in IdsOf(rows, DemandPresent) && s in IdsOf(rows, DemandAccept)
    {
      var i :| 0 <= i < |rows| && Same(rows[i], DemandResponse, s);
      assert Completed(rows[i]) && Chained(rows, i);
    }
  }

  // ------------------------------------------------------------- what accepted rows tell

  /** How far a transaction has come when this event happens to it. */
  function Stage(e: Event): Option<nat> {
    match e
    case Candidate => Some(0)
    case Admit => Some(1)
    case Issue => Some(2)
    case Return => Some(3)
    case Install => Some(4)
    case Merge => Some(4)
    case Discard => Some(4)
    case Use => Some(5)
    case Evict => Some(5)
    case _ => None
  }

  /** No row of the transaction repeats an event. */
  ghost predicate Singular(rows: seq<Row>, s: int) {
    forall i, j :: 0 <= i < j < |rows| && OfTransaction(rows[i], s) && OfTransaction(rows[j], s) ==>
      rows[i].event != rows[j].event
  }

  predicate OfTransaction(row: Row, s: int) {
    Identified(row) && row.seqId == s
  }

  lemma {:induction false} EntryOfRow(rows: seq<Row>, n: nat, i: nat, s: int)
    requires i < n <= |rows| && Singular(rows, s) && OfTransaction(rows[i], s)
    ensures var ev := EventsOf(rows, n, s);
            rows[i].event in ev && ev[rows[i].event] == Entry(rows[i].cycle, rows[i].addr)
  {
    if i < n - 1 {
      EntryOfRow(rows, n - 1, i, s);
    }
  }

  lemma AcceptedIsSingular(rows: seq<Row>, lineBytes: nat, s: int)
    requires Accepted(rows, lineBytes)
    ensures Singular(rows, s)
  {
    hide RowOk, Settled, HasMetadata, Snapshot;
    forall i, j | 0 <= i < j < |rows| && OfTransaction(rows[i], s) && OfTransaction(rows[j], s)
      ensures rows[i].event != rows[j].event
    {
      assert RowFits(rows, j, lineBytes);
      assert Distinguished(rows[j], rows[i]);
    }
  }

  lemma StagesInOrder(ev: map<Event, Entry>, a: Event, b: Event)
    requires Lifecycle(ev) && a in ev && b in ev
    ensures ev[a].addr == ev[b].addr
    ensures Stage(a).Some? && Stage(b).Some? && Stage(a).value < Stage(b).value ==> ev[a].cycle <= ev[b].cycle
    ensures a != b && Stage(a).Some? ==> Stage(a) != Stage(b)
  {
    OneTerminal(ev);
  }

  lemma OneTerminal(ev: map<Event, Entry>)
    requires Lifecycle(ev)
    ensures Install in ev || Merge in ev || Discard in ev ==> Return in ev
    ensures !(Install in ev && Merge in ev) && !(Install in ev && Discard in ev) && !(Merge in ev && Discard in ev)
    ensures Install in ev ==> Install in Terminals(ev)
    ensures Merge in ev ==> Merge in Terminals(ev)
    ensures Discard in ev ==> Discard in Terminals(ev)
  {
    LifecycleLaws(ev);
  }

  /**
   The rows of one transaction in an accepted file: one address and one origin, no event twice,
   never two outcomes of one stage, and the cycles never run against the stages of its life.
   */
  lemma TransactionRowsInOrder(rows: seq<Row>, lineBytes: nat, i: nat, j: nat)
    requires Accepted(rows, lineBytes) && i < |rows| && j < |rows| && i != j
    requires Identified(rows[i]) && Identified(rows[j]) && rows[i].seqId == rows[j].seqId
    ensures var a, b := Stage(rows[i].event), Stage(rows[j].event);
      && rows[i].event != rows[j].event && rows[i].addr == rows[j].addr
      && HasMetadata(rows[i]) && HasMetadata(rows[j]) && Snapshot(rows[i]) == Snapshot(rows[j])
      && (a.Some? && b.Some? ==> a != b && (a.value < b.value ==> rows[i].cycle <= rows[j].cycle))
  {
    hide Lifecycle, EventsOf, RowOk, Stage;
    var s := rows[i].seqId;
    var ev := EventsOf(rows, |rows|, s);
    AcceptedIsSingular(rows, lineBytes, s);
    EntryOfRow(rows, |rows|, i, s);
    EntryOfRow(rows, |rows|, j, s);
    assert RowFits(rows, if i < j then j else i, lineBytes) && RowFits(rows, 0, lineBytes);
    assert Distinguished(rows[if i < j then j else i], rows[if i < j then i else j]);
    assert Lifecycle(ev);
    assert Singular(rows, s) && rows[i].event != rows[j].event;
    StagesInOrder(ev, rows[i].event, rows[j].event);
  }

  /**
   A finished demand of an accepted schema-3 file: it was presented, then accepted, then answered,
   the latency is the time since it was accepted, and its sequence number is above those of all
   demands finished before it.
   */
  lemma AnsweredInOrder(rows: seq<Row>, lineBytes: nat, i: nat) returns (p: nat, a: nat)
    requires Accepted(rows, lineBytes) && rows[0].schema == 3 && i < |rows| && Completed(rows[i])
    ensures p < |rows| && rows[p].event == DemandPresent && rows[p].seqId == rows[i].seqId
    ensures a < i && rows[a].event == DemandAccept && rows[a].seqId == rows[i].seqId
    ensures rows[p].cycle <= rows[a].cycle && rows[i].latency == rows[i].cycle - rows[a].cycle >= 0
    ensures forall j :: 0 <= j < i && Completed(rows[j]) ==> rows[j].seqId < rows[i].seqId
  {
    hide RowOk, Unmixed, AllLifecycles;
    AllSchema3(rows, lineBytes);
    assert RowFits(rows, i, lineBytes) && Chained(rows, i);
    var q: nat :| q < i && Answers(rows[i], rows[q]);
    var x, y :| 0 <= x < |rows| && 0 <= y < |rows| && Same(rows[x], DemandPresent, rows[i].seqId)
      && Same(rows[y], DemandAccept, rows[i].seqId) && rows[x].cycle <= rows[y].cycle <= rows[i].cycle;
    assert RowFits(rows, y, lineBytes) && RowFits(rows, q, lineBytes);
    p, a := x, q;
  }

  /** Positions of the finished demands, in order; access k repeats row at[k]. */
  ghost predicate Reported(rows: seq<Row>, accesses: seq<Access>, at: seq<nat>) {
    && |at| == |accesses|
    && (forall i, j :: 0 <= i < j < |at| ==> at[i] < at[j])
    && (forall k :: 0 <= k < |at| ==> at[k] < |rows| && Completed(rows[at[k]]) && Repeats(accesses[k], rows[at[k]]))
    && (forall n: nat :: n < |rows| && Completed(rows[n]) ==> n in at)
  }

  predicate Repeats(a: Access, row: Row) {
    && a.seqId == row.seqId && a.cycle == row.cycle && a.addr == row.addr && a.op == row.op && a.size == row.size
    && a.outcome == row.outcome
  }

  lemma ReportedExtends(rows: seq<Row>, accesses: seq<Access>, at: seq<nat>, row: Row, a: Access)
    requires Reported(rows, accesses, at) && Repeats(a, row)
    ensures if Completed(row) then Reported(rows + [row], accesses + [a], at + [|rows|])
            else Reported(rows + [row], accesses, at)
  {
    hide Completed, Repeats;
    assert forall n: nat :: n < |rows| ==> (rows + [row])[n] == rows[n];
    assert forall n :: n in at ==> n in at + [|rows|];
    assert |rows| in at + [|rows|];
  }

  /** The accesses are the finished demands, one for each, in the order of the file. */
  lemma {:induction false} AccessesAreRows(rows: seq<Row>) returns (at: seq<nat>)
    ensures Reported(rows, AccessesOf(rows), at)
  {
    hide Reported, Completed;
    if rows == [] {
      at := [];
      NothingReported();
    } else {
      var before, row := rows[..|rows| - 1], rows[|rows| - 1];
      assert rows == before + [row];
      at := AccessesAreRows(before);
      ReportedExtends(before, AccessesOf(before), at, row, AccessOf(row));
      assert AccessesOf(before) + [] == AccessesOf(before);
      if Completed(row) {
        at := at + [|before|];
      }
    }
  }

  lemma NothingReported()
    ensures Reported([], [], [])
  {
  }

  /**
   Every row of an accepted file makes sense by itself. Demands: 1 to 8 bytes loaded or stored,
   and an outcome exactly when they are finished. Prefetches: one whole aligned line, and an
   issued one goes to lower memory. One schema throughout, and nothing happens before cycle 0.
   */
  lemma AcceptedRowsMakeSense(rows: seq<Row>, lineBytes: nat, i: nat)
    requires Accepted(rows, lineBytes) && i < |rows|
    ensures var row := rows[i];
      && row.cycle >= 0 && row.schema == rows[0].schema && row.schema in {2, 3} && row.event != Unsupported
      && (row.schema == 2 ==> row.details == NoDetails && row.event in {Demand, Issue, Fill})
      && (row.schema == 3 ==> row.latency >= -1 && row.event != Demand)
      && (row.event in {Demand, DemandResponse} ==> row.outcome in {L1Hit, VictimHit, LowerMemory})
      && (row.event in {DemandPresent, DemandAccept} ==> row.outcome == Pending)
      && (row.event == DemandPresent ==> row.latency == -1) && (row.event == DemandAccept ==> row.latency == 0)
      && (row.event in {Demand, DemandPresent, DemandAccept, DemandResponse} ==>
            row.seqId >= 0 && row.op in {Load, Store} && 0 <= row.size <= 3)
      && (row.event == ControllerState ==> row.seqId == -1)
      && (row.event !in {Demand, DemandPresent, DemandAccept, DemandResponse, ControllerState} ==>
            && row.seqId >= -1 && row.op == Prefetch && row.size == lineBytes > 0 && row.addr % lineBytes == 0
            && (row.event == Issue ==> row.outcome == LowerMemory)
            && (row.schema == 2 && row.event == Fill ==> row.outcome == L1Hit)
            && (row.schema == 3 && row.seqId >= 0 ==>
                  row.details.Items?
                  && forall key :: key in {"source", "stream_id", "generation", "confidence"} ==>
                       key in row.details.fields))
  {
    hide Settled, Snapshot;
    assert RowFits(rows, i, lineBytes);
  }
}
