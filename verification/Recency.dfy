/**
 Least-recently-used order of the lines of one cache set, derived from the demand history
 alone, and its reading as a stack distance.
 */
module Recency {
  import opened Geometries

  function Without(s: seq<nat>, x: nat): (r: seq<nat>)
    ensures |r| <= |s|
    ensures forall y :: y in r <==> y in s && y != x
  {
    if s == [] then [] else if s[0] == x then Without(s[1..], x) else [s[0]] + Without(s[1..], x)
  }

  ghost predicate Distinct(s: seq<nat>) {
    forall i, j :: 0 <= i < j < |s| ==> s[i] != s[j]
  }

  lemma {:induction false} WithoutKeepsDistinct(s: seq<nat>, x: nat)
    requires Distinct(s)
    ensures Distinct(Without(s, x))
  {
    if s != [] {
      assert Distinct(s[1..]) && s[0] !in s[1..];
      WithoutKeepsDistinct(s[1..], x);
    }
  }

  /** The entries before the first x stay where they are; the ones after it move up by one. */
  lemma {:induction false} WithoutAt(s: seq<nat>, x: nat, p: nat)
    requires Distinct(s) && p < |s| && s[p] == x
    ensures Without(s, x) == s[..p] + s[p + 1..]
  {
    if p == 0 {
      WithoutAbsent(s[1..], x);
    } else {
      WithoutAt(s[1..], x, p - 1);
      assert s[1..][..p - 1] == s[1..p] && s[1..][p..] == s[p + 1..];
      assert s[..p] == [s[0]] + s[1..p];
    }
  }

  lemma {:induction false} WithoutAbsent(s: seq<nat>, x: nat)
    requires x !in s
    ensures Without(s, x) == s
  {
    if s != [] {
      WithoutAbsent(s[1..], x);
    }
  }

  /** The lines of set `si` in the history, most recently used first, each once. */
  function Recent(g: Geometry, h: seq<nat>, si: nat): (st: seq<nat>)
    requires g.Positive()
    ensures forall y :: y in st <==> y in h && g.SetOf(y) == si
  {
    if h == [] then []
    else
      var x, before := h[|h| - 1], h[..|h| - 1];
      assert h == before + [x];
      if g.SetOf(x) == si then [x] + Without(Recent(g, before, si), x) else Recent(g, before, si)
  }

  lemma {:induction false} RecentIsDistinct(g: Geometry, h: seq<nat>, si: nat)
    requires g.Positive()
    ensures Distinct(Recent(g, h, si))
  {
    if h != [] {
      var before := h[..|h| - 1];
      RecentIsDistinct(g, before, si);
      WithoutKeepsDistinct(Recent(g, before, si), h[|h| - 1]);
    }
  }

  lemma RecentExtends(g: Geometry, h: seq<nat>, x: nat, si: nat)
    requires g.Positive()
    ensures Recent(g, h + [x], si) == if g.SetOf(x) == si then [x] + Without(Recent(g, h, si), x) else Recent(g, h, si)
  {
    assert (h + [x])[..|h|] == h;
  }

  /** The lines a set of `ways` ways keeps under LRU. */
  function Kept(st: seq<nat>, ways: nat): (top: seq<nat>)
    ensures |top| <= ways && top <= st
  {
    if |st| <= ways then st else st[..ways]
  }

  /** An LRU cache of this geometry would hit `x` after history `h`. */
  predicate LruHit(g: Geometry, h: seq<nat>, x: nat)
    requires g.Positive()
  {
    x in Kept(Recent(g, h, g.SetOf(x)), g.ways)
  }

  // ------------------------------------------------------------------ stack distance

  /** Position of the last use of x in h, or -1. */
  function LastUse(h: seq<nat>, x: nat): (k: int)
    ensures -1 <= k < |h|
    ensures k >= 0 ==> h[k] == x
    ensures forall j :: 0 <= j < |h| && k < j ==> h[j] != x
  {
    if h == [] then -1 else if h[|h| - 1] == x then |h| - 1 else LastUse(h[..|h| - 1], x)
  }

  /** The different lines demanded at positions lo..hi. */
  ghost function LinesBetween(h: seq<nat>, lo: int, hi: int): set<nat>
    requires 0 <= lo && hi <= |h|
  {
    set k | lo <= k < hi :: h[k]
  }

  /** The different lines of x's set demanded since the last use of x. */
  ghost function SetLinesSince(g: Geometry, h: seq<nat>, x: nat): set<nat>
    requires g.Positive()
  {
    set y | y in LinesBetween(h, LastUse(h, x) + 1, |h|) && g.SetOf(y) == g.SetOf(x)
  }

  ghost function Elements(s: seq<nat>): set<nat> {
    set y | y in s
  }

  lemma {:induction false} DistinctCardinality(s: seq<nat>)
    requires Distinct(s)
    ensures |Elements(s)| == |s|
  {
    if s != [] {
      DistinctCardinality(s[1..]);
      assert Elements(s) == {s[0]} + Elements(s[1..]);
    }
  }

  /** Moving y to the front puts exactly y before what already preceded x. */
  lemma MovedToFront(st: seq<nat>, y: nat, q: nat) returns (p: nat)
    requires Distinct(st) && q < |st| && st[q] != y
    ensures var st' := [y] + Without(st, y);
            p < |st'| && st'[p] == st[q] && Elements(st'[..p]) == Elements(st[..q]) + {y}
  {
    var st' := [y] + Without(st, y);
    if y in st {
      var r :| 0 <= r < |st| && st[r] == y;
      WithoutAt(st, y, r);
      if r < q {
        p := q;
        assert st'[..p] == [y] + st[..r] + st[r + 1..q];
        assert st[..q] == st[..r] + [y] + st[r + 1..q];
      } else {
        p := q + 1;
        assert st'[..p] == [y] + st[..q];
      }
    } else {
      WithoutAbsent(st, y);
      p := q + 1;
      assert st'[..p] == [y] + st[..q];
    }
  }

  /** One more demand of another line is one more line since the last use of x, if in its set. */
  lemma SetLinesSinceExtends(g: Geometry, h: seq<nat>, x: nat, y: nat)
    requires g.Positive() && x != y
    ensures SetLinesSince(g, h + [y], x)
         == SetLinesSince(g, h, x) + (if g.SetOf(y) == g.SetOf(x) then {y} else {})
  {
    assert (h + [y])[..|h|] == h;
    var lo := LastUse(h, x) + 1;
    assert LinesBetween(h + [y], lo, |h| + 1) == LinesBetween(h, lo, |h|) + {y} by {
      assert forall k :: lo <= k < |h| ==> (h + [y])[k] == h[k];
      assert (h + [y])[|h|] == y;
    }
  }

  /** In the recency order x is preceded exactly by the lines used since its own last use. */
  lemma {:induction false} StackPosition(g: Geometry, h: seq<nat>, x: nat) returns (p: nat)
    requires g.Positive() && x in h
    ensures var st := Recent(g, h, g.SetOf(x));
            p < |st| && st[p] == x && Elements(st[..p]) == SetLinesSince(g, h, x)
  {
    hide Geometry.SetOf;
    var si, y, before := g.SetOf(x), h[|h| - 1], h[..|h| - 1];
    assert h == before + [y];
    if y == x {
      p := 0;
      assert SetLinesSince(g, h, x) == {};
    } else {
      p := StackPosition(g, before, x);
      SetLinesSinceExtends(g, before, x, y);
      RecentExtends(g, before, y, si);
      if g.SetOf(y) == si {
        RecentIsDistinct(g, before, si);
        p := MovedToFront(Recent(g, before, si), y, p);
      }
    }
  }

  /**
   LRU hits exactly when the line has been used before and fewer different lines of its set
   than there are ways have been used since.
   */
  lemma LruHitIsStackDistance(g: Geometry, h: seq<nat>, x: nat)
    requires g.Positive()
    ensures LruHit(g, h, x) <==> x in h && |SetLinesSince(g, h, x)| < g.ways
  {
    var st := Recent(g, h, g.SetOf(x));
    if x in h {
      var p := StackPosition(g, h, x);
      RecentIsDistinct(g, h, g.SetOf(x));
      DistinctCardinality(st[..p]);
      assert LruHit(g, h, x) <==> p < g.ways by {
        if p < g.ways {
          assert Kept(st, g.ways)[p] == x;
        }
      }
    }
  }
}
