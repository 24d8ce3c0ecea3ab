/**
 Help and pollution of the prefetcher: two runs over the same demands are compared demand by
 demand, and the per-demand counts are reconciled with the runs' counters, pair by pair and
 summed over every aggregate group.
 */
module Pairing {
  import opened Wrappers
  import opened Sidecar

  /** The numeric result fields that are copied into pair rows and summed over groups. */
  datatype Field =
    | NumSets | NumWays | LineBytes | L1Bytes | VictimEntries | VictimBytes | TotalBytes | PrefetchOn
    | Accesses | Hits | Misses | VictimHits | DemandMemReads | PrefetchMemReads | MemReads | MemWrites
    | ReadBytes | WriteBytes | Writebacks | Fills | Useful | UselessEvicted | UnusedResident | PollutionProxy
    | Dropped | TimelyUseful | LateUseful | ServiceCycles | Watchdogs | Protocol | DuplicateLines
    | PfCandidates | PfAdmitted | PfIssued | PfReturned | PfInstalled | PfMerged | PfDiscarded | PfCancelled
    | PfUnusedEvicted | PfUnusedResident | PfVcBypass | PfCausedWritebacks | PfDemandBlockCycles | PfTrueHelp
    | PfTruePollution | PfSuppressedQuota | PfSuppressedUnsafe | PfSameLineCoalesced

  datatype Counters = Counters(schema: nat, value: Field -> nat)

  /**
   The equations on counters alone, checked before a run is used. For schema 2 they leave no room
   for merged or discarded prefetches.
   */
  predicate Validated(c: Counters) {
    && (c.schema == 2 || c.schema == 3)
    && c.value(Hits) + c.value(Misses) == c.value(Accesses)
    && c.value(DemandMemReads) + (if c.schema == 3 then c.value(PfMerged) else 0) + c.value(VictimHits)
         == c.value(Misses)
    && (c.schema == 2 ==> c.value(PrefetchMemReads) == c.value(Fills))
    && c.value(PrefetchMemReads) == c.value(PfIssued) == c.value(PfReturned)
    && c.value(PfReturned) == c.value(PfInstalled) + c.value(PfMerged) + c.value(PfDiscarded)
    && c.value(Fills) == c.value(PfInstalled)
  }

  datatype Run = Run(accesses: Option<seq<Access>>, counters: Counters)

  datatype Attribution = Attribution(l1Help: nat, l1Pollution: nat, lowerHelp: nat, lowerPollution: nat)

  /** Positions among the first n demands that ended with this outcome. */
  ghost function Where(a: seq<Access>, n: nat, o: Outcome): set<nat>
    requires n <= |a|
  {
    set i: nat | i < n && a[i].outcome == o
  }

  ghost predicate SameDemands(off: seq<Access>, on: seq<Access>) {
    |off| == |on| && forall i :: 0 <= i < |off| ==> off[i].Identity() == on[i].Identity()
  }

  /** Help is an outcome gained by prefetching, pollution one lost. */
  ghost function AttributionOf(off: seq<Access>, on: seq<Access>, n: nat): Attribution
    requires n <= |off| && n <= |on|
  {
    var offL1, onL1 := Where(off, n, L1Hit), Where(on, n, L1Hit);
    var offLower, onLower := Where(off, n, LowerMemory), Where(on, n, LowerMemory);
    Attribution(|onL1 - offL1|, |offL1 - onL1|, |offLower - onLower|, |onLower - offLower|)
  }

  function Delta(off: Counters, on: Counters, f: Field): int {
    on.value(f) - off.value(f)
  }

  predicate DeltasHold(off: Counters, on: Counters, t: Attribution) {
    && Delta(off, on, Misses) == t.l1Pollution - t.l1Help
    && Delta(off, on, DemandMemReads) + Delta(off, on, PfMerged) == t.lowerPollution - t.lowerHelp
  }

  lemma WhereStep(a: seq<Access>, n: nat, o: Outcome)
    requires n < |a|
    ensures Where(a, n + 1, o) == Where(a, n, o) + if a[n].outcome == o then {n} else {}
    ensures n !in Where(a, n, o)
  {
  }

  lemma ChangeStep(off: seq<Access>, on: seq<Access>, n: nat, o: Outcome)
    requires n < |off| && n < |on|
    ensures |Where(on, n + 1, o) - Where(off, n + 1, o)|
         == |Where(on, n, o) - Where(off, n, o)| + if off[n].outcome != o && on[n].outcome == o then 1 else 0
  {
    WhereStep(off, n, o);
    WhereStep(on, n, o);
    DifferenceStep(Where(on, n, o), Where(off, n, o), n, on[n].outcome == o, off[n].outcome == o);
  }

  lemma DifferenceStep(a: set<nat>, b: set<nat>, x: nat, inA: bool, inB: bool)
    requires x !in a && x !in b
    ensures |(a + if inA then {x} else {}) - (b + if inB then {x} else {})| == |a - b| + if inA && !inB then 1 else 0
  {
    var after := (a + if inA then {x} else {}) - (b + if inB then {x} else {});
    if inA && !inB {
      assert after == (a - b) + {x};
    } else {
      assert after == a - b;
    }
  }

  lemma AttributionStep(off: seq<Access>, on: seq<Access>, n: nat)
    requires n < |off| && n < |on|
    ensures var t, o, w := AttributionOf(off, on, n), off[n].outcome, on[n].outcome;
      AttributionOf(off, on, n + 1) == Attribution(
        t.l1Help + (if !o.L1Hit? && w.L1Hit? then 1 else 0),
        t.l1Pollution + (if o.L1Hit? && !w.L1Hit? then 1 else 0),
        t.lowerHelp + (if o.LowerMemory? && !w.LowerMemory? then 1 else 0),
        t.lowerPollution + (if !o.LowerMemory? && w.LowerMemory? then 1 else 0))
  {
    ChangeStep(off, on, n, L1Hit);
    ChangeStep(on, off, n, L1Hit);
    ChangeStep(off, on, n, LowerMemory);
    ChangeStep(on, off, n, LowerMemory);
    hide Where;
  }

  lemma NothingAttributed(off: seq<Access>, on: seq<Access>)
    ensures AttributionOf(off, on, 0) == Attribution(0, 0, 0, 0)
  {
  }

  /** The comparison loop: none when some row is a different demand in the two runs. */
  method Compare(a: seq<Access>, b: seq<Access>) returns (r: Option<Attribution>)
    requires |a| == |b|
    ensures r == if SameDemands(a, b) then Some(AttributionOf(a, b, |a|)) else None
  {
    var l1Help, l1Pollution, lowerHelp, lowerPollution := 0, 0, 0, 0;
    NothingAttributed(a, b);
    hide AttributionOf;
    for n := 0 to |a|
      invariant forall i :: 0 <= i < n ==> a[i].Identity() == b[i].Identity()
      invariant AttributionOf(a, b, n) == Attribution(l1Help, l1Pollution, lowerHelp, lowerPollution)
    {
      if a[n].Identity() != b[n].Identity() { return None; }
      AttributionStep(a, b, n);
      hide Access.Identity;
      var offL1, onL1 := a[n].outcome == L1Hit, b[n].outcome == L1Hit;
      var offLower, onLower := a[n].outcome == LowerMemory, b[n].outcome == LowerMemory;
      if !offL1 && onL1 {
        l1Help := l1Help + 1;
      } else if offL1 && !onL1 {
        l1Pollution := l1Pollution + 1;
      }
      if offLower && !onLower {
        lowerHelp := lowerHelp + 1;
      } else if !offLower && onLower {
        lowerPollution := lowerPollution + 1;
      }
    }
    return Some(Attribution(l1Help, l1Pollution, lowerHelp, lowerPollution));
  }

  method PairSidecars(off: Run, on: Run) returns (r: Result<Option<Attribution>, string>)
    ensures off.accesses.None? && on.accesses.None? ==> r == Ok(None)
    ensures off.accesses.None? != on.accesses.None? ==> r.Err?
    ensures off.accesses.Some? && on.accesses.Some? ==>
        var a, b := off.accesses.value, on.accesses.value;
        if SameDemands(a, b) && DeltasHold(off.counters, on.counters, AttributionOf(a, b, |a|))
        then r == Ok(Some(AttributionOf(a, b, |a|)))
        else r.Err?
  {
    hide AttributionOf, DeltasHold;
    if off.accesses.None? && on.accesses.None? { return Ok(None); }
    if off.accesses.None? || on.accesses.None? { return Err("sidecars must be present for both runs or neither"); }
    var a, b := off.accesses.value, on.accesses.value;
    if |a| != |b| { return Err("off/on sidecar lengths differ"); }
    var t := Compare(a, b);
    if t.None? { return Err("demand identity mismatch"); }
    if !DeltasHold(off.counters, on.counters, t.value) { return Err("delta is not pollution - help"); }
    return Ok(Some(t.value));
  }

  /** A run whose counters are valid and agree with its sidecar outcomes, as checked when it is loaded. */
  ghost predicate CountsMatch(run: Run)
    requires run.accesses.Some?
  {
    var a, c := run.accesses.value, run.counters;
    && Validated(c)
    && |a| == c.value(Accesses)
    && |Where(a, |a|, L1Hit)| == c.value(Hits)
    && |Where(a, |a|, VictimHit)| == c.value(VictimHits)
    && |Where(a, |a|, LowerMemory)| == c.value(DemandMemReads) + if c.schema == 3 then c.value(PfMerged) else 0
  }

  lemma GainedMinusLost(a: set<nat>, b: set<nat>)
    ensures |b| - |a| == |b - a| - |a - b|
  {
    assert a == (a - b) + (a * b);
    assert b == (b - a) + (a * b);
  }

  /** The counter deltas of two matching runs over the same demands always reconcile. */
  lemma MatchingRunsReconcile(off: Run, on: Run)
    requires off.accesses.Some? && on.accesses.Some? && CountsMatch(off) && CountsMatch(on)
    requires SameDemands(off.accesses.value, on.accesses.value)
    ensures DeltasHold(off.counters, on.counters,
                       AttributionOf(off.accesses.value, on.accesses.value, |off.accesses.value|))
  {
    var a, b := off.accesses.value, on.accesses.value;
    GainedMinusLost(Where(a, |a|, L1Hit), Where(b, |b|, L1Hit));
    GainedMinusLost(Where(a, |a|, LowerMemory), Where(b, |b|, LowerMemory));
  }

  // -------------------------------------------------------------------------- aggregation

  datatype Pair<K> = Pair(key: K, off: Counters, on: Counters, attribution: Option<Attribution>)

  datatype Aggregate = Aggregate(pairCount: nat, off: map<Field, nat>, on: map<Field, nat>,
                                 attribution: Option<Attribution>)

  /** Sum of one counter over the rows, on the side without or with prefetching. */
  function SumPrefixed<K>(rows: seq<Pair<K>>, on: bool, f: Field): nat {
    if rows == [] then 0
    else
      var last := rows[|rows| - 1];
      SumPrefixed(rows[..|rows| - 1], on, f) + (if on then last.on else last.off).value(f)
  }

  function Sums<K>(rows: seq<Pair<K>>, on: bool): map<Field, nat> {
    map f: Field | true :: SumPrefixed(rows, on, f)
  }

  predicate Attributed<K>(rows: seq<Pair<K>>) {
    forall i :: 0 <= i < |rows| ==> rows[i].attribution.Some?
  }

  function SumAttribution<K>(rows: seq<Pair<K>>): Attribution
    requires Attributed(rows)
  {
    if rows == [] then Attribution(0, 0, 0, 0)
    else
      var t, u := SumAttribution(rows[..|rows| - 1]), rows[|rows| - 1].attribution.value;
      Attribution(t.l1Help + u.l1Help, t.l1Pollution + u.l1Pollution,
                  t.lowerHelp + u.lowerHelp, t.lowerPollution + u.lowerPollution)
  }

  function Summary<K>(rows: seq<Pair<K>>): Aggregate {
    Aggregate(|rows|, Sums(rows, false), Sums(rows, true),
              if Attributed(rows) then Some(SumAttribution(rows)) else None)
  }

  /** The two identities that every attributed group must meet. */
  predicate GroupHolds<K>(rows: seq<Pair<K>>) {
    var a := Summary(rows);
    a.attribution.Some? ==>
      var t := a.attribution.value;
      var onMisses: int, onReads: int, onMerged: int := a.on[Misses], a.on[DemandMemReads], a.on[PfMerged];
      && onMisses - a.off[Misses] == t.l1Pollution - t.l1Help
      && onReads + onMerged - (a.off[DemandMemReads] + a.off[PfMerged]) == t.lowerPollution - t.lowerHelp
  }

  /** The pairs of one group, in order. */
  function OfKey<K(==)>(pairs: seq<Pair<K>>, k: K): seq<Pair<K>> {
    if pairs == [] then []
    else
      var last := pairs[|pairs| - 1];
      OfKey(pairs[..|pairs| - 1], k) + if last.key == k then [last] else []
  }

  function Keys<K>(pairs: seq<Pair<K>>): set<K> {
    set i | 0 <= i < |pairs| :: pairs[i].key
  }

  ghost predicate Grouped<K(!new)>(pairs: seq<Pair<K>>, grouped: map<K, seq<Pair<K>>>) {
    && grouped.Keys == Keys(pairs)
    && forall k :: OfKey(pairs, k) == if k in grouped then grouped[k] else []
  }

  lemma GroupedOn<K(!new)>(pairs: seq<Pair<K>>, grouped: map<K, seq<Pair<K>>>, pair: Pair<K>)
    requires Grouped(pairs, grouped)
    ensures Grouped(pairs + [pair],
                    grouped[pair.key := (if pair.key in grouped then grouped[pair.key] else []) + [pair]])
  {
    hide Keys;
    KeysExtend(pairs, pair);
    forall k
      ensures OfKey(pairs + [pair], k) == OfKey(pairs, k) + if pair.key == k then [pair] else []
    {
      assert (pairs + [pair])[..|pairs|] == pairs;
    }
    hide OfKey;
  }

  lemma KeysExtend<K>(pairs: seq<Pair<K>>, pair: Pair<K>)
    ensures Keys(pairs + [pair]) == Keys(pairs) + {pair.key}
  {
    var now := pairs + [pair];
    assert now[|pairs|] == pair;
    assert forall i :: 0 <= i < |pairs| ==> now[i] == pairs[i];
  }

  /** Groups the pairs by key and sums each group; fails when a group's identities do. */
  method AggregatePairs<K(==, !new)>(pairs: seq<Pair<K>>) returns (r: Result<map<K, Aggregate>, string>)
    ensures r.Ok? <==> forall k :: k in Keys(pairs) ==> GroupHolds(OfKey(pairs, k))
    ensures r.Ok? ==> r.value.Keys == Keys(pairs) && forall k :: k in r.value ==> r.value[k] == Summary(OfKey(pairs, k))
  {
    var grouped: map<K, seq<Pair<K>>> := map[];
    assert Grouped(pairs[..0], grouped);
    hide Grouped, GroupHolds, Summary, OfKey, Keys;
    for n := 0 to |pairs|
      invariant Grouped(pairs[..n], grouped)
    {
      var pair := pairs[n];
      GroupedOn(pairs[..n], grouped, pair);
      assert pairs[..n + 1] == pairs[..n] + [pair];
      grouped := grouped[pair.key := (if pair.key in grouped then grouped[pair.key] else []) + [pair]];
    }
    assert pairs[..|pairs|] == pairs;
    GroupsRead(pairs, grouped);
    r := SumGroups(grouped);
  }

  /** The loop over the groups. */
  method SumGroups<K(==, !new)>(grouped: map<K, seq<Pair<K>>>) returns (r: Result<map<K, Aggregate>, string>)
    ensures r.Ok? <==> forall k :: k in grouped ==> GroupHolds(grouped[k])
    ensures r.Ok? ==> r.value.Keys == grouped.Keys && forall k :: k in r.value ==> r.value[k] == Summary(grouped[k])
  {
    hide GroupHolds, Summary;
    var aggregates: map<K, Aggregate> := map[];
    var todo := grouped.Keys;
    while todo != {}
      invariant todo <= grouped.Keys && aggregates.Keys == grouped.Keys - todo
      invariant forall k :: k in aggregates ==> GroupHolds(grouped[k]) && aggregates[k] == Summary(grouped[k])
    {
      var k :| k in todo;
      if !GroupHolds(grouped[k]) { return Err("group delta is not pollution - help"); }
      aggregates := aggregates[k := Summary(grouped[k])];
      todo := todo - {k};
    }
    return Ok(aggregates);
  }

  lemma GroupsRead<K(!new)>(pairs: seq<Pair<K>>, grouped: map<K, seq<Pair<K>>>)
    requires Grouped(pairs, grouped)
    ensures grouped.Keys == Keys(pairs) && forall k :: k in grouped ==> grouped[k] == OfKey(pairs, k)
  {
  }

  ghost predicate PairsHold<K>(pairs: seq<Pair<K>>) {
    forall i :: 0 <= i < |pairs| && pairs[i].attribution.Some? ==>
      DeltasHold(pairs[i].off, pairs[i].on, pairs[i].attribution.value)
  }

  /** Deltas that hold pair by pair hold for their sum. */
  lemma {:induction false} SumsHold<K>(rows: seq<Pair<K>>)
    requires PairsHold(rows)
    ensures GroupHolds(rows)
  {
    if rows != [] && Attributed(rows) {
      var before := rows[..|rows| - 1];
      assert PairsHold(before) && Attributed(before);
      SumsHold(before);
    }
  }

  lemma {:induction false} GroupIsPart<K>(pairs: seq<Pair<K>>, k: K)
    requires PairsHold(pairs)
    ensures PairsHold(OfKey(pairs, k))
  {
    if pairs != [] {
      GroupIsPart(pairs[..|pairs| - 1], k);
    }
  }

  /** So aggregation never fails on pairs that passed their own check. */
  lemma GroupsAlwaysReconcile<K>(pairs: seq<Pair<K>>)
    requires PairsHold(pairs)
    ensures forall k :: k in Keys(pairs) ==> GroupHolds(OfKey(pairs, k))
  {
    forall k | k in Keys(pairs)
      ensures GroupHolds(OfKey(pairs, k))
    {
      GroupIsPart(pairs, k);
      SumsHold(OfKey(pairs, k));
    }
  }

  /** From the load-time checks to the whole campaign: matching runs never fail the aggregation. */
  lemma MatchingCampaignReconciles<K>(offs: seq<Run>, ons: seq<Run>, pairs: seq<Pair<K>>)
    requires |offs| == |ons| == |pairs|
    requires forall i :: 0 <= i < |pairs| ==> PairOfMatchingRuns(offs[i], ons[i], pairs[i])
    ensures forall k :: k in Keys(pairs) ==> GroupHolds(OfKey(pairs, k))
  {
    forall i | 0 <= i < |pairs| && pairs[i].attribution.Some?
      ensures DeltasHold(pairs[i].off, pairs[i].on, pairs[i].attribution.value)
    {
      assert PairOfMatchingRuns(offs[i], ons[i], pairs[i]);
      MatchingRunsReconcile(offs[i], ons[i]);
    }
    GroupsAlwaysReconcile(pairs);
  }

  /** A pair row made of two loaded runs over the same demands, with or without sidecars. */
  ghost predicate PairOfMatchingRuns<K>(off: Run, on: Run, pair: Pair<K>) {
    && pair.off == off.counters && pair.on == on.counters
    && (pair.attribution.Some? ==>
          && off.accesses.Some? && on.accesses.Some? && CountsMatch(off) && CountsMatch(on)
          && SameDemands(off.accesses.value, on.accesses.value)
          && pair.attribution.value
               == AttributionOf(off.accesses.value, on.accesses.value, |off.accesses.value|))
  }

  // ------------------------------------------------------------- what the aggregates are

  /** The aggregate z counts everything in x and everything in y. */
  ghost predicate Adds(x: Aggregate, y: Aggregate, z: Aggregate) {
    && z.pairCount == x.pairCount + y.pairCount
    && (forall f :: f in x.off && f in x.on && f in y.off && f in y.on && f in z.off && f in z.on)
    && (forall f :: z.off[f] == x.off[f] + y.off[f])
    && (forall f :: z.on[f] == x.on[f] + y.on[f])
    && z.attribution == (if x.attribution.None? || y.attribution.None? then None
                         else Some(Together(x.attribution.value, y.attribution.value)))
  }

  function Together(t: Attribution, u: Attribution): Attribution {
    Attribution(t.l1Help + u.l1Help, t.l1Pollution + u.l1Pollution,
                t.lowerHelp + u.lowerHelp, t.lowerPollution + u.lowerPollution)
  }

  lemma {:induction false} SumPrefixedConcat<K>(a: seq<Pair<K>>, b: seq<Pair<K>>, on: bool, f: Field)
    ensures SumPrefixed(a + b, on, f) == SumPrefixed(a, on, f) + SumPrefixed(b, on, f)
  {
    if b == [] {
      assert a + b == a;
    } else {
      assert (a + b)[..|a + b| - 1] == a + b[..|b| - 1];
      SumPrefixedConcat(a, b[..|b| - 1], on, f);
    }
  }

  lemma AttributedConcat<K>(a: seq<Pair<K>>, b: seq<Pair<K>>)
    ensures Attributed(a + b) <==> Attributed(a) && Attributed(b)
  {
    assert forall i :: 0 <= i < |a| ==> (a + b)[i] == a[i];
    assert forall i :: 0 <= i < |b| ==> (a + b)[|a| + i] == b[i];
  }

  lemma {:induction false} SumAttributionConcat<K>(a: seq<Pair<K>>, b: seq<Pair<K>>)
    requires Attributed(a) && Attributed(b) && Attributed(a + b)
    ensures SumAttribution(a + b) == Together(SumAttribution(a), SumAttribution(b))
  {
    if b == [] {
      assert a + b == a;
    } else {
      assert (a + b)[..|a + b| - 1] == a + b[..|b| - 1];
      AttributedConcat(a, b[..|b| - 1]);
      SumAttributionConcat(a, b[..|b| - 1]);
    }
  }

  lemma SummariesAdd<K>(a: seq<Pair<K>>, b: seq<Pair<K>>)
    ensures Adds(Summary(a), Summary(b), Summary(a + b))
  {
    hide SumPrefixed, SumAttribution, Attributed;
    forall on, f
      ensures SumPrefixed(a + b, on, f) == SumPrefixed(a, on, f) + SumPrefixed(b, on, f)
    {
      SumPrefixedConcat(a, b, on, f);
    }
    AttributedConcat(a, b);
    if Attributed(a + b) {
      SumAttributionConcat(a, b);
    }
  }

  lemma {:induction false} OfKeyConcat<K>(a: seq<Pair<K>>, b: seq<Pair<K>>, k: K)
    ensures OfKey(a + b, k) == OfKey(a, k) + OfKey(b, k)
  {
    if b == [] {
      assert a + b == a;
    } else {
      assert (a + b)[..|a + b| - 1] == a + b[..|b| - 1];
      OfKeyConcat(a, b[..|b| - 1], k);
    }
  }

  /** Two campaigns put together: every group's aggregate adds up what it had in each of them. */
  lemma CampaignsAdd<K>(a: seq<Pair<K>>, b: seq<Pair<K>>, k: K)
    ensures Adds(Summary(OfKey(a, k)), Summary(OfKey(b, k)), Summary(OfKey(a + b, k)))
  {
    OfKeyConcat(a, b, k);
    SummariesAdd(OfKey(a, k), OfKey(b, k));
  }

  /** A campaign of one pair: its own group holds the pair's counters, every other group is empty. */
  lemma CampaignOfOne<K>(pair: Pair<K>, k: K)
    ensures var z := Summary(OfKey([pair], k));
      if k == pair.key then
        && z.pairCount == 1 && z.attribution == pair.attribution
        && forall f :: f in z.off && z.off[f] == pair.off.value(f) && f in z.on && z.on[f] == pair.on.value(f)
      else
        && z.pairCount == 0 && z.attribution == Some(Attribution(0, 0, 0, 0))
        && forall f :: f in z.off && z.off[f] == 0 && f in z.on && z.on[f] == 0
  {
    var one := [pair];
    assert one[..0] == [];
    assert OfKey(one, k) == if pair.key == k then one else [];
    forall on, f
      ensures SumPrefixed(one, on, f) == (if on then pair.on else pair.off).value(f)
    {
      assert one[..0] == [];
    }
    assert Attributed(one) <==> one[0].attribution.Some?;
    if Attributed(one) {
      assert SumAttribution(one) == Together(SumAttribution(one[..0]), pair.attribution.value);
    }
  }
}
