/**
 The binary indexed tree of the trace analyzer: point updates and prefix sums in logarithmic
 time, proved against the plain frequency array it stands for.
 */
module FenwickTrees {
  import opened Arithmetic

  function Sum(freq: seq<int>, lo: int, hi: int): int
    requires 0 <= lo <= hi <= |freq|
    decreases hi - lo
  {
    if lo == hi then 0 else Sum(freq, lo, hi - 1) + freq[hi - 1]
  }

  lemma {:induction false} SumSplits(freq: seq<int>, lo: int, mid: int, hi: int)
    requires 0 <= lo <= mid <= hi <= |freq|
    ensures Sum(freq, lo, hi) == Sum(freq, lo, mid) + Sum(freq, mid, hi)
    decreases hi - mid
  {
    if mid < hi {
      SumSplits(freq, lo, mid, hi - 1);
    }
  }

  /** Changing one entry changes exactly the sums whose range contains it. */
  lemma {:induction false} SumAfterAdd(freq: seq<int>, k: nat, delta: int, lo: int, hi: int)
    requires 0 <= lo <= hi <= |freq| && k < |freq|
    ensures Sum(freq[k := freq[k] + delta], lo, hi) == Sum(freq, lo, hi) + (if lo <= k < hi then delta else 0)
    decreases hi - lo
  {
    if lo < hi {
      SumAfterAdd(freq, k, delta, lo, hi - 1);
    }
  }

  /** The lowest one bit of an index, which the program writes `index & -index`. */
  function LowBit(i: nat): (b: nat)
    requires i > 0
    ensures 1 <= b <= i
  {
    if i % 2 == 1 then 1 else 2 * LowBit(i / 2)
  }

  /** What makes it the lowest one bit: the power of two that divides i an odd number of times. */
  lemma {:induction false} LowBitIsLowestOne(i: nat)
    requires i > 0
    ensures IsPow2(LowBit(i))
    ensures exists m: nat :: i == LowBit(i) * (2 * m + 1)
  {
    if i % 2 == 1 {
      assert LowBit(i) == Pow2(0);
      assert i == LowBit(i) * (2 * (i / 2) + 1);
    } else {
      LowBitIsLowestOne(i / 2);
      var b := LowBit(i / 2);
      var k: nat :| b == Pow2(k);
      assert LowBit(i) == Pow2(k + 1);
      var m: nat :| i / 2 == b * (2 * m + 1);
      assert i == 2 * (i / 2) == 2 * (b * (2 * m + 1)) == (2 * b) * (2 * m + 1);
    }
  }

  /** Tree node i sums the entries i - LowBit(i) .. i, so it contains one-based position p. */
  predicate Covers(i: nat, p: nat)
    requires i > 0
  {
    i - LowBit(i) < p <= i
  }

  lemma {:induction false} NextLowBitDoubles(i: nat)
    requires i > 0
    ensures LowBit(i + LowBit(i)) >= 2 * LowBit(i)
  {
    if i % 2 == 1 {
      assert (i + 1) % 2 == 0;
    } else {
      NextLowBitDoubles(i / 2);
      var up := i / 2 + LowBit(i / 2);
      assert i + LowBit(i) == 2 * up;
    }
  }

  lemma {:induction false} SkippedNodesStartLater(i: nat, j: nat)
    requires 0 < i < j < i + LowBit(i)
    ensures i <= j - LowBit(j)
  {
    if i % 2 == 0 && j % 2 == 0 {
      SkippedNodesStartLater(i / 2, j / 2);
    }
  }

  /** Climbing by the lowest bit visits the nodes that contain a position and skips no other. */
  lemma ClimbVisitsCovers(i: nat, p: nat)
    requires 0 < i && Covers(i, p)
    ensures Covers(i + LowBit(i), p)
    ensures forall j :: i < j < i + LowBit(i) ==> !Covers(j, p)
  {
    NextLowBitDoubles(i);
    forall j | i < j < i + LowBit(i)
      ensures !Covers(j, p)
    {
      SkippedNodesStartLater(i, j);
    }
  }

  lemma UncoveredNode(freq: seq<int>, k: nat, delta: int, i: nat)
    requires k < |freq| && 0 < i <= |freq| && !Covers(i, k + 1)
    ensures Sum(freq[k := freq[k] + delta], i - LowBit(i), i) == Sum(freq, i - LowBit(i), i)
  {
    SumAfterAdd(freq, k, delta, i - LowBit(i), i);
  }

  class Fenwick {
    const tree: array<int>
    ghost var freq: seq<int>

    ghost predicate Node(i: nat, value: int)
      requires 0 < i <= |freq|
      reads this
    {
      value == Sum(freq, i - LowBit(i), i)
    }

    ghost predicate Valid()
      reads this, tree
    {
      && tree.Length == |freq| + 1
      && forall i :: 0 < i < tree.Length ==> Node(i, tree[i])
    }

    constructor (size: nat)
      ensures Valid() && fresh(tree)
      ensures |freq| == size && forall k :: 0 <= k < size ==> freq[k] == 0
    {
      tree := new int[size + 1](_ => 0);
      freq := seq(size, _ => 0);
      new;
      forall i | 0 < i < tree.Length
        ensures Node(i, tree[i])
      {
        SumOfZeros(freq, i - LowBit(i), i);
      }
    }

    method Add(position: nat, delta: int)
      requires Valid() && position < |freq|
      modifies this, tree
      ensures Valid()
      ensures freq == old(freq)[position := old(freq)[position] + delta]
    {
      hide Sum, LowBit;
      ghost var was := freq;
      var index := position + 1;
      freq := was[position := was[position] + delta];
      forall i | 0 < i <= position
        ensures Node(i, tree[i])
      {
        UncoveredNode(was, position, delta, i);
      }
      while index < tree.Length
        invariant tree.Length == |freq| + 1
        invariant freq == was[position := was[position] + delta]
        invariant index > 0 && Covers(index, position + 1)
        invariant forall i :: 0 < i < tree.Length && i < index ==> Node(i, tree[i])
        invariant forall i :: index <= i < tree.Length ==> tree[i] == Sum(was, i - LowBit(i), i)
      {
        SumAfterAdd(was, position, delta, index - LowBit(index), index);
        ClimbVisitsCovers(index, position + 1);
        ghost var next := index + LowBit(index);
        forall j | index < j < next && j < tree.Length
          ensures Node(j, tree[j])
        {
          assert !Covers(j, position + 1);
          UncoveredNode(was, position, delta, j);
        }
        tree[index] := tree[index] + delta;
        index := index + LowBit(index);
      }
    }

    method Prefix(end: nat) returns (total: int)
      requires Valid() && end <= |freq|
      ensures total == Sum(freq, 0, end)
    {
      total := 0;
      var rest: nat := end;
      while rest > 0
        invariant rest <= end
        invariant total == Sum(freq, rest, end)
      {
        var next := rest - LowBit(rest);
        SumSplits(freq, next, rest, end);
        assert Node(rest, tree[rest]);
        total := total + tree[rest];
        rest := next;
      }
    }

    method RangeSum(start: nat, end: nat) returns (total: int)
      requires Valid() && start <= end <= |freq|
      ensures total == Sum(freq, start, end)
    {
      var upto := Prefix(end);
      var before := Prefix(start);
      SumSplits(freq, 0, start, end);
      total := upto - before;
    }
  }

  lemma {:induction false} SumOfZeros(freq: seq<int>, lo: int, hi: int)
    requires 0 <= lo <= hi <= |freq| && forall k :: 0 <= k < |freq| ==> freq[k] == 0
    ensures Sum(freq, lo, hi) == 0
    decreases hi - lo
  {
    if lo < hi {
      SumOfZeros(freq, lo, hi - 1);
    }
  }
}
