/** Byte strings: cache lines, CPU words and the flat memory are all sequences of bytes. */
module Bytes {
  import opened Arithmetic

  type Byte = b: int | 0 <= b < 256

  type Word = w: seq<Byte> | |w| == 8 witness [0, 0, 0, 0, 0, 0, 0, 0]

  const ZERO_WORD: Word := [0, 0, 0, 0, 0, 0, 0, 0]

  /** `m` with the bytes `bs` laid over it from index `at`. */
  function Put(m: seq<Byte>, at: nat, bs: seq<Byte>): (r: seq<Byte>)
    requires at + |bs| <= |m|
    ensures |r| == |m|
    ensures forall i :: 0 <= i < |m| ==> r[i] == if at <= i < at + |bs| then bs[i - at] else m[i]
  {
    m[..at] + bs + m[at + |bs|..]
  }

  /** Writing inside a window of `m` writes the same bytes inside a copy of the window. */
  lemma PutInsideWindow(m: seq<Byte>, lo: nat, len: nat, at: nat, bs: seq<Byte>)
    requires lo <= at && at + |bs| <= lo + len <= |m|
    ensures Put(m, at, bs)[lo..lo + len] == Put(m[lo..lo + len], at - lo, bs)
  {
  }

  lemma PutOutsideWindow(m: seq<Byte>, lo: nat, len: nat, at: nat, bs: seq<Byte>)
    requires at + |bs| <= |m| && lo + len <= |m|
    requires at + |bs| <= lo || lo + len <= at
    ensures Put(m, at, bs)[lo..lo + len] == m[lo..lo + len]
  {
  }

  function LittleEndian(bs: seq<Byte>): nat {
    if bs == [] then 0 else bs[0] + 256 * LittleEndian(bs[1..])
  }

  lemma {:induction false} LittleEndianConcat(a: seq<Byte>, b: seq<Byte>)
    ensures LittleEndian(a + b) == LittleEndian(a) + Pow2(8 * |a|) * LittleEndian(b)
  {
    if a == [] {
      assert a + b == b;
    } else {
      LittleEndianConcat(a[1..], b);
      assert (a + b)[1..] == a[1..] + b;
      Pow2Add(8, 8 * |a[1..]|);
      assert Pow2(8) == 256;
      assert 256 * (Pow2(8 * |a[1..]|) * LittleEndian(b)) == (256 * Pow2(8 * |a[1..]|)) * LittleEndian(b);
    }
  }

  function Repeat(b: Byte, n: nat): (r: seq<Byte>)
    ensures |r| == n && forall i :: 0 <= i < n ==> r[i] == b
  {
    seq(n, _ => b)
  }

  lemma {:induction false} LittleEndianOfRepeat(n: nat)
    ensures LittleEndian(Repeat(0, n)) == 0
    ensures LittleEndian(Repeat(255, n)) == Pow2(8 * n) - 1
  {
    if n > 0 {
      LittleEndianOfRepeat(n - 1);
      assert Repeat(0, n)[1..] == Repeat(0, n - 1);
      assert Repeat(255, n)[1..] == Repeat(255, n - 1);
      Pow2Add(8, 8 * (n - 1));
      assert Pow2(8) == 256;
    }
  }

  lemma {:induction false} LittleEndianBound(bs: seq<Byte>)
    ensures LittleEndian(bs) < Pow2(8 * |bs|)
  {
    if bs != [] {
      LittleEndianBound(bs[1..]);
      Pow2Add(8, 8 * |bs[1..]|);
      assert Pow2(8) == 256;
    }
  }
}
