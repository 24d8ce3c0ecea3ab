/** Reuse distances of a line trace, computed with a Fenwick tree, and what they say about hits. */
module Reuse {
  import Arithmetic
  import opened Counting
  import opened Geometries
  import opened Recency
  import opened FenwickTrees
  import opened LoadStore
  import opened CacheSpec
  import opened Systems
  import opened Accounting
  import Lru

  /** Position k holds the last use of its line among the first n accesses. */
  ghost predicate LastHere(h: seq<nat>, n: nat, k: nat)
    requires k < n <= |h|
  {
    forall j :: k < j < n ==> h[j] != h[k]
  }

  ghost predicate Marks(freq: seq<int>, h: seq<nat>, n: nat)
    requires n <= |h|
  {
    && |freq| == |h|
    && (forall k :: 0 <= k < n ==> freq[k] == if LastHere(h, n, k) then 1 else 0)
    && (forall k :: n <= k < |h| ==> freq[k] == 0)
  }

  /** Between lo and n there are as many last uses as different lines. */
  lemma {:induction false} LastUsesCountLines(freq: seq<int>, h: seq<nat>, lo: nat, n: nat)
    requires lo <= n <= |h| && Marks(freq, h, n)
    ensures Sum(freq, lo, n) == |LinesBetween(h, lo, n)|
    decreases n - lo
  {
    if lo == n {
      assert LinesBetween(h, lo, n) == {};
    } else {
      LastUsesCountLines(freq, h, lo + 1, n);
      SumSplits(freq, lo, lo + 1, n);
      var rest := LinesBetween(h, lo + 1, n);
      assert LinesBetween(h, lo, n) == rest + {h[lo]};
      assert h[lo] in rest <==> !LastHere(h, n, lo);
      assert Sum(freq, lo, lo + 1) == freq[lo];
    }
  }

  /** The different lines used since the last use of x; their number is its reuse distance. */
  ghost function LinesSince(h: seq<nat>, x: nat): set<nat> {
    LinesBetween(h, LastUse(h, x) + 1, |h|)
  }

  ghost function Distance(h: seq<nat>, x: nat): nat {
    |LinesSince(h, x)|
  }

  /** What the access x after history h adds to the distances: nothing when it is the first of its line. */
  ghost function DistancesAt(h: seq<nat>, x: nat): seq<int> {
    if x in h then [Distance(h, x)] else []
  }

  /** Plain definition: for every reuse, the number of different lines since the previous use. */
  ghost function ReuseDistances(h: seq<nat>): (d: seq<int>) {
    if h == [] then [] else ReuseDistances(h[..|h| - 1]) + DistancesAt(h[..|h| - 1], h[|h| - 1])
  }

  /** The last position of every line seen so far. */
  ghost predicate Positions(last: map<nat, nat>, h: seq<nat>) {
    forall x: nat :: if x in last then LastUse(h, x) == last[x] else LastUse(h, x) == -1
  }

  lemma PositionsExtend(last: map<nat, nat>, h: seq<nat>, x: nat)
    requires Positions(last, h)
    ensures Positions(last[x := |h|], h + [x])
  {
    assert (h + [x])[..|h|] == h;
  }

  /** The mark of the previous use, if there is one, moves to position n. */
  ghost function Marked(freq: seq<int>, previous: int, n: nat): (marked: seq<int>)
    requires previous < n < |freq|
    ensures |marked| == |freq|
  {
    var rest := if previous < 0 then freq else freq[previous := freq[previous] + -1];
    rest[n := rest[n] + 1]
  }

  lemma MarksExtend(freq: seq<int>, h: seq<nat>, n: nat, previous: int)
    requires n < |h| && Marks(freq, h, n) && previous == LastUse(h[..n], h[n])
    ensures Marks(Marked(freq, previous, n), h, n + 1)
  {
    forall k | 0 <= k < n
      ensures LastHere(h, n + 1, k) <==> LastHere(h, n, k) && k != previous
    {
      assert LastHere(h, n + 1, k) <==> LastHere(h, n, k) && h[n] != h[k];
      assert h[..n][k] == h[k];
      if previous >= 0 {
        assert h[..n][previous] == h[n];
        assert previous < k && LastHere(h, n, previous) ==> h[k] != h[previous];
      }
    }
    if previous >= 0 {
      assert LastHere(h, n, previous) by {
        assert forall j :: previous < j < n ==> h[j] == h[..n][j];
      }
    }
  }

  lemma ReuseDistancesExtend(h: seq<nat>, n: nat)
    requires n < |h|
    ensures h[..n + 1] == h[..n] + [h[n]]
    ensures ReuseDistances(h[..n + 1]) == ReuseDistances(h[..n]) + DistancesAt(h[..n], h[n])
  {
    assert h[..n + 1][..n] == h[..n];
  }

  /** A line seen before adds the number of lines in between. */
  lemma DistanceInTrace(h: seq<nat>, n: nat, p: nat)
    requires n < |h| && p == LastUse(h[..n], h[n])
    ensures DistancesAt(h[..n], h[n]) == [|LinesBetween(h, p + 1, n)|]
  {
    var before := h[..n];
    assert before[p] == h[n];
    assert LinesBetween(h, p + 1, n) == LinesBetween(before, p + 1, n) by {
      assert forall k :: 0 <= k < n ==> before[k] == h[k];
    }
  }

  lemma DistanceIsSum(freq: seq<int>, h: seq<nat>, n: nat, p: nat)
    requires n < |h| && Marks(freq, h, n) && p == LastUse(h[..n], h[n])
    ensures DistancesAt(h[..n], h[n]) == [Sum(freq, p + 1, n)]
  {
    LastUsesCountLines(freq, h, p + 1, n);
    DistanceInTrace(h, n, p);
  }

  lemma FirstUseAddsNothing(last: map<nat, nat>, h: seq<nat>, x: nat)
    requires Positions(last, h) && x !in last
    ensures DistancesAt(h, x) == [] && LastUse(h, x) == -1
  {
  }

  /** What the loop knows after n accesses. */
  ghost predicate Tracked(freq: seq<int>, last: map<nat, nat>, distances: seq<int>, h: seq<nat>, n: nat)
    requires n <= |h|
  {
    && Marks(freq, h, n)
    && Positions(last, h[..n])
    && distances == ReuseDistances(h[..n])
  }

  lemma NothingTracked(freq: seq<int>, h: seq<nat>)
    requires |freq| == |h| && forall k :: 0 <= k < |h| ==> freq[k] == 0
    ensures Tracked(freq, map[], [], h, 0)
  {
  }

  lemma AllTracked(freq: seq<int>, last: map<nat, nat>, distances: seq<int>, h: seq<nat>)
    requires Tracked(freq, last, distances, h, |h|)
    ensures distances == ReuseDistances(h)
  {
    assert h[..|h|] == h;
  }

  lemma PositionOf(last: map<nat, nat>, h: seq<nat>, x: nat)
    requires Positions(last, h) && x in last
    ensures last[x] == LastUse(h, x) && last[x] < |h|
  {
  }

  /** One more access: its mark, its position and what it adds to the distances. */
  lemma TrackedExtends(freq: seq<int>, last: map<nat, nat>, distances: seq<int>, added: seq<int>, h: seq<nat>, n: nat)
    requires n < |h| && Marks(freq, h, n + 1) && Positions(last, h[..n] + [h[n]])
    requires distances == ReuseDistances(h[..n]) && added == DistancesAt(h[..n], h[n])
    ensures Tracked(freq, last, distances + added, h, n + 1)
  {
    hide Marks, Positions, ReuseDistances, DistancesAt;
    ReuseDistancesExtend(h, n);
  }

  /** A line seen before adds the sum over the accesses since, and its old mark moves. */
  lemma TrackReuse(freq: seq<int>, last: map<nat, nat>, distances: seq<int>, h: seq<nat>, n: nat)
    requires n < |h| && Tracked(freq, last, distances, h, n) && h[n] in last
    ensures |freq| == |h| && last[h[n]] < n
    ensures var p := last[h[n]];
            Tracked(Marked(freq, p, n), last[h[n] := n], distances + [Sum(freq, p + 1, n)], h, n + 1)
  {
    hide Tracked, Marks, Marked, LastUse, Positions, ReuseDistances, DistancesAt, Sum;
    TrackedParts(freq, last, distances, h, n);
    var p := last[h[n]];
    PositionOf(last, h[..n], h[n]);
    DistanceIsSum(freq, h, n, p);
    MarksExtend(freq, h, n, p);
    PositionsExtend(last, h[..n], h[n]);
    TrackedExtends(Marked(freq, p, n), last[h[n] := n], distances, [Sum(freq, p + 1, n)], h, n);
  }

  lemma TrackedParts(freq: seq<int>, last: map<nat, nat>, distances: seq<int>, h: seq<nat>, n: nat)
    requires n <= |h| && Tracked(freq, last, distances, h, n)
    ensures |freq| == |h| && Marks(freq, h, n) && Positions(last, h[..n]) && distances == ReuseDistances(h[..n])
  {
  }

  lemma TrackFirst(freq: seq<int>, last: map<nat, nat>, distances: seq<int>, h: seq<nat>, n: nat)
    requires n < |h| && Tracked(freq, last, distances, h, n) && h[n] !in last
    ensures |freq| == |h|
    ensures Tracked(Marked(freq, -1, n), last[h[n] := n], distances, h, n + 1)
  {
    TrackedParts(freq, last, distances, h, n);
    hide Tracked, Marks, Marked, LastUse, Positions, ReuseDistances, DistancesAt;
    FirstUseAddsNothing(last, h[..n], h[n]);
    MarksExtend(freq, h, n, -1);
    PositionsExtend(last, h[..n], h[n]);
    TrackedExtends(Marked(freq, -1, n), last[h[n] := n], distances, [], h, n);
    assert distances + [] == distances;
  }

  /** Marks a use, and clears the mark of the previous use if there is one. */
  method Mark(fenwick: Fenwick, previous: int, position: nat)
    requires fenwick.Valid() && previous < position < |fenwick.freq|
    modifies fenwick, fenwick.tree
    ensures fenwick.Valid() && fenwick.freq == Marked(old(fenwick.freq), previous, position)
  {
    hide Fenwick.Valid;
    if previous >= 0 {
      fenwick.Add(previous, -1);
    }
    fenwick.Add(position, 1);
  }

  /** The analyzer's loop computes exactly the plain definition, for every trace. */
  method Analyze(lines: seq<nat>) returns (distances: seq<int>)
    ensures distances == ReuseDistances(lines)
  {
    hide Tracked, Marked, Sum, ReuseDistances, Fenwick.Valid;
    var fenwick := new Fenwick(|lines|);
    var lastPosition: map<nat, nat> := map[];
    distances := [];
    NothingTracked(fenwick.freq, lines);
    for position := 0 to |lines|
      invariant fenwick.Valid() && fresh(fenwick) && fresh(fenwick.tree)
      invariant |fenwick.freq| == |lines|
      invariant Tracked(fenwick.freq, lastPosition, distances, lines, position)
    {
      var line := lines[position];
      var previous: int := -1;
      if line in lastPosition {
        previous := lastPosition[line];
        TrackReuse(fenwick.freq, lastPosition, distances, lines, position);
        var distance := fenwick.RangeSum(previous + 1, position);
        distances := distances + [distance];
      } else {
        TrackFirst(fenwick.freq, lastPosition, distances, lines, position);
      }
      Mark(fenwick, previous, position);
      lastPosition := lastPosition[line := position];
    }
    AllTracked(fenwick.freq, lastPosition, distances, lines);
  }

  /** Every access is either the first of its line or a reuse. */
  lemma {:induction false} ColdPlusReuses(h: seq<nat>)
    ensures |ReuseDistances(h)| + |LinesBetween(h, 0, |h|)| == |h|
  {
    if h == [] {
      assert LinesBetween(h, 0, 0) == {};
    } else {
      var n := |h| - 1;
      var before := h[..n];
      ColdPlusReuses(before);
      assert LinesBetween(h, 0, |h|) == LinesBetween(before, 0, n) + {h[n]} by {
        assert forall k :: 0 <= k < n ==> before[k] == h[k];
        assert h[n] in LinesBetween(h, 0, |h|);
      }
      assert h[n] in before <==> h[n] in LinesBetween(before, 0, n);
    }
  }

  lemma LinesSinceExtends(h: seq<nat>, x: nat, y: nat)
    ensures LinesSince(h + [y], x) == if x == y then {} else LinesSince(h, x) + {y}
  {
    assert (h + [y])[..|h|] == h;
    if x != y {
      var lo := LastUse(h, x) + 1;
      assert forall k :: lo <= k < |h| ==> (h + [y])[k] == h[k];
      assert (h + [y])[|h|] == y;
    }
  }

  /** The trace of one set's lines. */
  function OfSet(g: Geometry, h: seq<nat>, si: nat): (t: seq<nat>)
    requires g.Positive()
    ensures |t| <= |h|
    ensures forall y :: y in t <==> y in h && g.SetOf(y) == si
  {
    if h == [] then []
    else
      var n := |h| - 1;
      assert h == h[..n] + [h[n]];
      OfSet(g, h[..n], si) + if g.SetOf(h[n]) == si then [h[n]] else []
  }

  lemma OfSetExtends(g: Geometry, h: seq<nat>, y: nat, si: nat)
    requires g.Positive()
    ensures OfSet(g, h + [y], si) == OfSet(g, h, si) + (if g.SetOf(y) == si then [y] else [])
  {
    hide Geometry.SetOf;
    assert (h + [y])[..|h|] == h;
  }

  lemma SetLinesSinceRestarts(g: Geometry, h: seq<nat>, x: nat)
    requires g.Positive()
    ensures SetLinesSince(g, h + [x], x) == {}
  {
    hide Geometry.SetOf;
    assert LastUse(h + [x], x) == |h|;
  }

  lemma {:induction false} SetTraceSince(g: Geometry, h: seq<nat>, x: nat)
    requires g.Positive()
    ensures LinesSince(OfSet(g, h, g.SetOf(x)), x) == SetLinesSince(g, h, x)
  {
    hide Geometry.SetOf, LinesBetween;
    if h != [] {
      var y, before := h[|h| - 1], h[..|h| - 1];
      assert h == before + [y];
      SetTraceSince(g, before, x);
      hide SetLinesSince, LinesSince, OfSet;
      LinesSinceExtends(OfSet(g, before, g.SetOf(x)), x, y);
      OfSetExtends(g, before, y, g.SetOf(x));
      if y == x {
        SetLinesSinceRestarts(g, before, x);
      } else {
        SetLinesSinceExtends(g, before, x, y);
        assert OfSet(g, before, g.SetOf(x)) + [] == OfSet(g, before, g.SetOf(x));
      }
    } else {
      NothingSince(g, x);
    }
  }

  lemma NothingSince(g: Geometry, x: nat)
    requires g.Positive()
    ensures OfSet(g, [], g.SetOf(x)) == [] && LinesSince([], x) == {} == SetLinesSince(g, [], x)
  {
  }

  /** What the analyzer's list gains at an access: a distance below the ways, exactly at an LRU hit. */
  lemma ReuseInSetDecides(g: Geometry, h: seq<nat>, x: nat)
    requires g.Positive()
    ensures var t := OfSet(g, h, g.SetOf(x));
            LruHit(g, h, x) <==> exists d :: DistancesAt(t, x) == [d] && d < g.ways
  {
    SetTraceSince(g, h, x);
    LruHitIsStackDistance(g, h, x);
    hide LruHit, SetLinesSince, LinesSince, OfSet;
    var t := OfSet(g, h, g.SetOf(x));
    if x in t {
      assert DistancesAt(t, x) == [Distance(t, x)];
      assert [Distance(t, x)][0] == Distance(t, x);
    }
  }

  /**
   The cache's hits are the analyzer's reuse distances: in any run with prefetching off, demand
   k hits in L1 exactly when the analyzer, given the trace of the demand's own set up to and
   including it, ends its list with a distance below NUM_WAYS for it.
   */
  lemma ReuseDistancesDecideHits(g: Geometry, w: World, mem: Memory, run: seq<Inputs>, k: nat)
    requires Boot(g, w, mem) && PrefetchOff(g, run) && k < |After(g, w, run).hits|
    ensures g.Positive() && k < |After(g, w, run).demands|
    ensures var e := After(g, w, run);
            var x := e.demands[k];
            var t := OfSet(g, e.demands[..k], g.SetOf(x));
            e.hits[k] <==> exists d :: ReuseDistances(t + [x]) == ReuseDistances(t) + [d] && d < g.ways
  {
    hide Boot, After, PrefetchOff, SetLinesSince, OfSet;
    Lru.BootFits(g, w, mem);
    Lru.HitsAreExactLru(g, w, mem, run, k);
    var e := After(g, w, run);
    var h, x := e.demands[..k], e.demands[k];
    ReuseInSetDecides(g, h, x);
    LruHitIsStackDistance(g, h, x);
    ListGrows(OfSet(g, h, g.SetOf(x)), x, g.ways);
  }

  lemma ListGrows(t: seq<nat>, x: nat, ways: nat)
    ensures (exists d :: DistancesAt(t, x) == [d] && d < ways)
       <==> (exists d :: ReuseDistances(t + [x]) == ReuseDistances(t) + [d] && d < ways)
  {
    var before, at := ReuseDistances(t), DistancesAt(t, x);
    assert (t + [x])[..|t|] == t;
    assert ReuseDistances(t + [x]) == before + at;
    forall d: int
      ensures before + at == before + [d] <==> at == [d]
    {
      assert |at| == 1 ==> (before + at)[|before|] == at[0];
      assert (before + [d])[|before|] == d;
    }
  }

  /**
   On the whole trace: a distance below NUM_WAYS is always a hit, and when only lines of the
   demand's own set came in between the distance decides.
   */
  lemma WholeTraceReuse(g: Geometry, w: World, mem: Memory, run: seq<Inputs>, k: nat)
    requires Boot(g, w, mem) && PrefetchOff(g, run) && k < |After(g, w, run).hits|
    ensures g.Positive() && k < |After(g, w, run).demands|
    ensures var e := After(g, w, run);
            var h, x := e.demands[..k], e.demands[k];
            && (x in h && Distance(h, x) < g.ways ==> e.hits[k])
            && ((forall y :: y in LinesSince(h, x) ==> g.SetOf(y) == g.SetOf(x)) ==>
                  (e.hits[k] <==> x in h && Distance(h, x) < g.ways))
  {
    hide Boot, After, PrefetchOff;
    Lru.BootFits(g, w, mem);
    Lru.HitsAreExactLru(g, w, mem, run, k);
    var e := After(g, w, run);
    SetLinesAreSome(g, e.demands[..k], e.demands[k]);
  }

  lemma SetLinesAreSome(g: Geometry, h: seq<nat>, x: nat)
    requires g.Positive()
    ensures |SetLinesSince(g, h, x)| <= Distance(h, x)
    ensures (forall y :: y in LinesSince(h, x) ==> g.SetOf(y) == g.SetOf(x)) ==>
              |SetLinesSince(g, h, x)| == Distance(h, x)
  {
    hide Geometry.SetOf;
    SubsetCount(SetLinesSince(g, h, x), LinesSince(h, x));
    if forall y :: y in LinesSince(h, x) ==> g.SetOf(y) == g.SetOf(x) {
      assert SetLinesSince(g, h, x) == LinesSince(h, x);
    }
  }

  // ------------------------------------------------------------ line numbers and addresses

  function Renamed(h: seq<nat>, f: nat -> nat): (r: seq<nat>)
    ensures |r| == |h| && forall k :: 0 <= k < |h| ==> r[k] == f(h[k])
  {
    seq(|h|, k requires 0 <= k < |h| => f(h[k]))
  }

  ghost predicate Injective(f: nat -> nat) {
    forall x, y :: f(x) == f(y) ==> x == y
  }

  lemma {:induction false} LastUseRenamed(h: seq<nat>, x: nat, f: nat -> nat)
    requires Injective(f)
    ensures LastUse(Renamed(h, f), f(x)) == LastUse(h, x)
  {
    if h != [] && h[|h| - 1] != x {
      LastUseRenamed(h[..|h| - 1], x, f);
      assert Renamed(h, f)[..|h| - 1] == Renamed(h[..|h| - 1], f);
    }
  }

  /** Two sets of the same size, one holding the new names of the other's elements. */
  ghost predicate SameNamed(lines: set<nat>, named: set<nat>, f: nat -> nat) {
    |lines| == |named| && forall x :: f(x) in named <==> x in lines
  }

  lemma OneMoreNamed(lines: set<nat>, named: set<nat>, f: nat -> nat, x: nat)
    requires SameNamed(lines, named, f) && Injective(f)
    ensures SameNamed(lines + {x}, named + {f(x)}, f)
  {
    var more, moreNamed := lines + {x}, named + {f(x)};
    forall y: nat
      ensures f(y) in moreNamed <==> y in more
    {
      assert f(y) in named <==> y in lines;
    }
    assert f(x) in named <==> x in lines;
    if x in lines {
      assert more == lines && moreNamed == named;
    }
  }

  lemma {:induction false} LinesRenamed(h: seq<nat>, lo: nat, hi: nat, f: nat -> nat)
    requires lo <= hi <= |h| && Injective(f)
    ensures SameNamed(LinesBetween(h, lo, hi), LinesBetween(Renamed(h, f), lo, hi), f)
    decreases hi - lo
  {
    if lo == hi {
      assert LinesBetween(h, lo, hi) == {} == LinesBetween(Renamed(h, f), lo, hi);
    } else {
      LastLine(h, lo, hi);
      LastLine(Renamed(h, f), lo, hi);
      hide LinesBetween, SameNamed, Injective;
      LinesRenamed(h, lo, hi - 1, f);
      OneMoreNamed(LinesBetween(h, lo, hi - 1), LinesBetween(Renamed(h, f), lo, hi - 1), f, h[hi - 1]);
    }
  }

  lemma LastLine(h: seq<nat>, lo: nat, hi: nat)
    requires lo < hi <= |h|
    ensures LinesBetween(h, lo, hi) == LinesBetween(h, lo, hi - 1) + {h[hi - 1]}
  {
  }

  /** Distances depend on which accesses share a line, not on how lines are named. */
  lemma {:induction false} DistancesIgnoreNames(h: seq<nat>, f: nat -> nat)
    requires Injective(f)
    ensures ReuseDistances(Renamed(h, f)) == ReuseDistances(h)
  {
    if h != [] {
      var before, x := h[..|h| - 1], h[|h| - 1];
      DistancesIgnoreNames(before, f);
      assert Renamed(h, f)[..|h| - 1] == Renamed(before, f);
      LastUseRenamed(before, x, f);
      LinesRenamed(before, LastUse(before, x) + 1, |before|, f);
      UsedIsIn(before, x);
      UsedIsIn(Renamed(before, f), f(x));
      hide LinesBetween, LastUse, Renamed, Injective;
    }
  }

  lemma UsedIsIn(h: seq<nat>, x: nat)
    ensures x in h <==> LastUse(h, x) >= 0
  {
  }

  function LineNumbers(g: Geometry, addresses: seq<nat>): (r: seq<nat>)
    requires g.Positive()
    ensures |r| == |addresses| && forall k :: 0 <= k < |r| ==> r[k] == addresses[k] / g.lineBytes
  {
    seq(|addresses|, k requires 0 <= k < |addresses| => addresses[k] / g.lineBytes)
  }

  function LineAddresses(g: Geometry, addresses: seq<nat>): (r: seq<nat>)
    requires g.Positive()
    ensures |r| == |addresses| && forall k :: 0 <= k < |r| ==> r[k] == g.LineAddr(addresses[k])
  {
    seq(|addresses|, k requires 0 <= k < |addresses| => g.LineAddr(addresses[k]))
  }

  lemma ScaledApart(x: nat, y: nat, n: nat)
    requires n > 0 && x * n == y * n
    ensures x == y
  {
    Arithmetic.MultipleMod(x, n);
    Arithmetic.MultipleMod(y, n);
  }

  lemma ScaledNumber(g: Geometry, a: nat)
    requires g.Positive()
    ensures g.LineAddr(a) == (a / g.lineBytes) * g.lineBytes
  {
    Arithmetic.EuclideanSplit(a, g.lineBytes);
  }

  ghost predicate Scales(f: nat -> nat, n: nat) {
    forall x: nat :: f(x) == x * n
  }

  lemma ScaleIsInjective(f: nat -> nat, n: nat)
    requires n > 0 && Scales(f, n)
    ensures Injective(f)
  {
    forall x: nat, y: nat | f(x) == f(y)
      ensures x == y
    {
      ScaledApart(x, y, n);
    }
  }

  lemma AddressesAreScaled(g: Geometry, addresses: seq<nat>, f: nat -> nat)
    requires g.Positive() && Scales(f, g.lineBytes)
    ensures LineAddresses(g, addresses) == Renamed(LineNumbers(g, addresses), f)
  {
    hide Geometry.LineAddr;
    var numbers := LineNumbers(g, addresses);
    forall k | 0 <= k < |addresses|
      ensures g.LineAddr(addresses[k]) == f(numbers[k])
    {
      ScaledNumber(g, addresses[k]);
    }
  }

  /** The analyzer numbers lines, the cache addresses them; the distances are the same. */
  lemma NumbersAndAddressesAgree(g: Geometry, addresses: seq<nat>)
    requires g.Positive()
    ensures ReuseDistances(LineNumbers(g, addresses)) == ReuseDistances(LineAddresses(g, addresses))
  {
    hide ReuseDistances, LineNumbers, LineAddresses, Renamed, Injective;
    var scale := (n: nat) => n * g.lineBytes;
    assert Scales(scale, g.lineBytes);
    hide Scales;
    ScaleIsInjective(scale, g.lineBytes);
    AddressesAreScaled(g, addresses, scale);
    DistancesIgnoreNames(LineNumbers(g, addresses), scale);
  }
}
