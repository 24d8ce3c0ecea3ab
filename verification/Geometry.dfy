/** Cache geometry and the address slicing of src/l1d_cache_legacy.sv:173-196. */
module Geometries {
  import opened Arithmetic

  const ADDRESS_SPACE: nat := 0x1_0000_0000_0000_0000

  type Address = a: nat | a < ADDRESS_SPACE

  datatype Geometry = Geometry(lineBytes: nat, sets: nat, ways: nat, victims: nat, enablePrefetch: bool) {

    /** The elaboration checks of the module (src/l1d_cache_legacy.sv:807-836). */
    ghost predicate Valid() {
      && (ways == 1 || ways == 2)
      && sets >= 2 && IsPow2(sets)
      && victims >= 1 && IsPow2(victims)
      && lineBytes >= 8 && IsPow2(lineBytes)
      && lineBytes * sets < ADDRESS_SPACE
    }

    /** What the rest of the model needs from a positive geometry. */
    predicate Positive() {
      lineBytes > 0 && sets > 0
    }

    function LineAddr(a: nat): (la: nat)
      requires Positive()
      ensures la <= a < la + lineBytes
    {
      a - a % lineBytes
    }

    function Offset(a: nat): (o: nat)
      requires Positive()
      ensures o < lineBytes
    {
      a % lineBytes
    }

    function SetOf(a: nat): (s: nat)
      requires Positive()
      ensures s < sets
    {
      (a / lineBytes) % sets
    }

    function TagOf(a: nat): nat
      requires Positive()
    {
      (a / lineBytes) / sets
    }

    function Compose(tag: nat, si: nat): nat
      requires Positive()
    {
      (tag * sets + si) * lineBytes
    }

    predicate Aligned(la: nat)
      requires Positive()
    {
      la % lineBytes == 0
    }

    /** `next` is the address of the line after the one that holds `a`; the last line is followed by the first. */
    predicate Follows(next: nat, a: nat)
      requires Positive()
    {
      var line := a / lineBytes + 1;
      Aligned(next) && next / lineBytes == if line == ADDRESS_SPACE / lineBytes then 0 else line
    }

    /**
     A tag and a set index name exactly one line, and slicing it gives them back. The set index is
     the low part of the line number, the tag the high part.
     */
    lemma ComposeSlices(a: nat)
      requires Positive()
      ensures Compose(TagOf(a), SetOf(a)) == LineAddr(a)
      ensures a == (TagOf(a) * sets + SetOf(a)) * lineBytes + Offset(a)
    {
      var line := a / lineBytes;
      assert (line / sets) * sets + line % sets == line;
      assert line * lineBytes == a - a % lineBytes;
    }

    lemma SlicesOfComposed(tag: nat, si: nat)
      requires Positive() && si < sets
      ensures var la := Compose(tag, si);
              Aligned(la) && LineAddr(la) == la && TagOf(la) == tag && SetOf(la) == si
    {
      MultipleMod(tag * sets + si, lineBytes);
      DivModUnique(tag * sets + si, sets, tag, si);
    }

    lemma LineAddrIdempotent(a: nat)
      requires Positive()
      ensures Aligned(LineAddr(a)) && LineAddr(LineAddr(a)) == LineAddr(a)
      ensures SetOf(LineAddr(a)) == SetOf(a) && TagOf(LineAddr(a)) == TagOf(a)
    {
      var q := a / lineBytes;
      assert LineAddr(a) == q * lineBytes;
      MultipleMod(q, lineBytes);
    }

    /** Comparing tags inside one set is comparing line addresses. */
    lemma TagMatchIsLineMatch(tag: nat, a: nat)
      requires Positive()
      ensures tag == TagOf(a) <==> Compose(tag, SetOf(a)) == LineAddr(a)
    {
      ComposeSlices(a);
      SlicesOfComposed(tag, SetOf(a));
      SlicesOfComposed(TagOf(a), SetOf(a));
    }

    lemma LineFits(a: Address)
      requires Valid()
      ensures LineAddr(a) + lineBytes <= ADDRESS_SPACE
      ensures ADDRESS_SPACE % lineBytes == 0
    {
      LineDividesSpace();
      LineAddrIdempotent(a);
      MultiplesApart(LineAddr(a), ADDRESS_SPACE, lineBytes);
    }

    lemma NextLineFollows(a: Address)
      requires Valid()
      ensures Follows((LineAddr(a) + lineBytes) % ADDRESS_SPACE, a)
    {
      var line, lines := a / lineBytes, ADDRESS_SPACE / lineBytes;
      LineFits(a);
      ComposeSlices(a);
      assert LineAddr(a) == line * lineBytes && ADDRESS_SPACE == lines * lineBytes;
      assert LineAddr(a) + lineBytes == (line + 1) * lineBytes;
      MultipleMod(line + 1, lineBytes);
      WrapOnce(LineAddr(a) + lineBytes, ADDRESS_SPACE);
      MultipleMod(lines, lineBytes);
      MultipleMod(0, lineBytes);
    }

    /** Addresses of one line have the same successor. */
    lemma FollowsLine(next: nat, a: nat)
      requires Positive()
      ensures Follows(next, LineAddr(a)) <==> Follows(next, a)
    {
      var line := a / lineBytes;
      assert LineAddr(a) == line * lineBytes;
      MultipleMod(line, lineBytes);
    }

    lemma LineDividesSpace()
      requires Valid()
      ensures ADDRESS_SPACE % lineBytes == 0
      ensures lineBytes % 8 == 0
    {
      var k: nat :| lineBytes == Pow2(k);
      SpaceIsPow2();
      assert lineBytes <= lineBytes * sets by { assert lineBytes * (sets - 1) >= 0; }
      Pow2Divides(k, 64);
      assert Pow2(3) == 8;
      Pow2Divides(3, k);
    }

    /** A naturally aligned access of 1, 2, 4 or 8 bytes stays inside its line. */
    lemma AccessInsideLine(a: nat, n: nat)
      requires Valid()
      requires n in {1, 2, 4, 8} && a % n == 0
      ensures Offset(a) + n <= lineBytes
    {
      LineDividesSpace();
      assert lineBytes % n == 0 by { DividesTransitive(lineBytes, 8, n); }
      var off, la := Offset(a), LineAddr(a);
      LineAddrIdempotent(a);
      DividesTransitive(la, lineBytes, n);
      assert a == la + off;
      assert off % n == 0 by {
        var q := la / n;
        assert -la == (-q) * n;
        MultipleMod(-q, n);
        SumMod(a, -la, n);
      }
      MultiplesApart(off, lineBytes, n);
    }
  }

  lemma SpaceIsPow2()
    ensures ADDRESS_SPACE == Pow2(64)
  {
    Pow2Add(8, 8);
    Pow2Add(16, 16);
    Pow2Add(32, 32);
    assert Pow2(8) == 256;
    assert Pow2(16) == 65536;
    assert Pow2(32) == 65536 * 65536;
  }
}
