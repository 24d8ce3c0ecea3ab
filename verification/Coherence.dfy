/**
 Where the valid copies of memory lines are, and what keeps them consistent. The L1 array and
 the victim cache are seen as one map from slots to copies, so that every array update of the
 state machine is an update of one or two slots.
 */
module Coherence {
  import opened Arithmetic
  import opened Wrappers
  import opened Geometries
  import opened Bytes
  import opened LoadStore
  import opened CacheSpec

  datatype Slot = L1(si: nat, way: nat) | VC(index: nat)

  type Copies = map<Slot, Copy>

  ghost function AllSlots(g: Geometry): set<Slot> {
    (set i, w | 0 <= i < g.sets && 0 <= w < g.ways :: L1(i, w)) + (set k | 0 <= k < g.victims :: VC(k))
  }

  ghost function CopyAt(g: Geometry, l1: seq<seq<Entry>>, vc: seq<Copy>, p: Slot): Copy
    requires g.Positive() && SizedL1(g, l1) && SizedVc(g, vc) && p in AllSlots(g)
  {
    match p
    case L1(i, w) =>
      var e := l1[w][i];
      Copy(e.valid, e.dirty, e.prefetched, g.Compose(e.tag, i), e.line)
    case VC(k) => vc[k]
  }

  ghost function CopiesOf(g: Geometry, l1: seq<seq<Entry>>, vc: seq<Copy>): (m: Copies)
    requires g.Positive() && SizedL1(g, l1) && SizedVc(g, vc)
    ensures m.Keys == AllSlots(g)
  {
    map p | p in AllSlots(g) :: CopyAt(g, l1, vc, p)
  }

  ghost function CopyOfEntry(g: Geometry, i: nat, e: Entry): Copy
    requires g.Positive()
  {
    Copy(e.valid, e.dirty, e.prefetched, g.Compose(e.tag, i), e.line)
  }

  lemma EntryUpdate(g: Geometry, l1: seq<seq<Entry>>, vc: seq<Copy>, w: nat, i: nat, e: Entry)
    requires g.Positive() && SizedL1(g, l1) && SizedVc(g, vc)
    requires w < g.ways && i < g.sets && |e.line| == g.lineBytes
    ensures SizedL1(g, l1[w := l1[w][i := e]])
    ensures CopiesOf(g, l1[w := l1[w][i := e]], vc) == CopiesOf(g, l1, vc)[L1(i, w) := CopyOfEntry(g, i, e)]
  {
    var l1' := l1[w := l1[w][i := e]];
    var m, m' := CopiesOf(g, l1, vc), CopiesOf(g, l1', vc);
    assert L1(i, w) in AllSlots(g);
    forall p | p in AllSlots(g)
      ensures m'[p] == m[L1(i, w) := CopyOfEntry(g, i, e)][p]
    {
      if p.L1? {
        assert l1'[p.way][p.si] == if p == L1(i, w) then e else l1[p.way][p.si];
      }
    }
  }

  lemma VictimUpdate(g: Geometry, l1: seq<seq<Entry>>, vc: seq<Copy>, k: nat, c: Copy)
    requires g.Positive() && SizedL1(g, l1) && SizedVc(g, vc)
    requires k < g.victims && |c.line| == g.lineBytes
    ensures SizedVc(g, vc[k := c])
    ensures CopiesOf(g, l1, vc[k := c]) == CopiesOf(g, l1, vc)[VC(k) := c]
  {
    assert VC(k) in AllSlots(g);
  }

  // ------------------------------------------------------------------- the invariant

  ghost predicate InSpace(g: Geometry, la: nat)
    requires g.Positive()
  {
    g.Aligned(la) && la + g.lineBytes <= ADDRESS_SPACE
  }

  ghost function LineAt(g: Geometry, mem: Memory, la: nat): (line: Line)
    requires la + g.lineBytes <= |mem|
    ensures |line| == g.lineBytes
  {
    mem[la..la + g.lineBytes]
  }

  ghost predicate Holds(m: Copies, p: Slot, la: nat) {
    p in m && m[p].valid && m[p].addr == la
  }

  ghost predicate Absent(m: Copies, la: nat) {
    forall p :: p in m ==> !Holds(m, p, la)
  }

  ghost predicate Unique(m: Copies) {
    forall p, q :: p in m && q in m && p != q && m[p].valid && m[q].valid ==> m[p].addr != m[q].addr
  }

  ghost predicate Placed(g: Geometry, m: Copies)
    requires g.Positive()
  {
    forall p :: p in m && m[p].valid ==>
      InSpace(g, m[p].addr) && |m[p].line| == g.lineBytes && (p.L1? ==> g.SetOf(m[p].addr) == p.si)
  }

  /** Every valid copy holds what the flat memory holds. */
  ghost predicate Agrees(g: Geometry, m: Copies, flat: Memory)
    requires g.Positive() && IsMemory(flat) && Placed(g, m)
  {
    forall p :: p in m && m[p].valid ==> m[p].line == LineAt(g, flat, m[p].addr)
  }

  ghost predicate HasDirty(m: Copies, la: nat) {
    exists p :: Holds(m, p, la) && m[p].dirty
  }

  /** Lower memory is current for every line that has no dirty copy. */
  ghost predicate Backed(g: Geometry, m: Copies, lower: Memory, flat: Memory)
    requires g.Positive() && IsMemory(lower) && IsMemory(flat)
  {
    forall la :: InSpace(g, la) && !HasDirty(m, la) ==> LineAt(g, lower, la) == LineAt(g, flat, la)
  }

  ghost predicate Coherent(g: Geometry, m: Copies, lower: Memory, flat: Memory) {
    && g.Positive() && IsMemory(lower) && IsMemory(flat)
    && Unique(m) && Placed(g, m) && Agrees(g, m, flat) && Backed(g, m, lower, flat)
  }

  /** A clean copy equals lower memory: no other copy of its line could be the dirty one. */
  lemma CleanCopyIsMemory(g: Geometry, m: Copies, lower: Memory, flat: Memory, p: Slot)
    requires Coherent(g, m, lower, flat)
    requires p in m && m[p].valid && !m[p].dirty
    ensures InSpace(g, m[p].addr)
    ensures m[p].line == LineAt(g, lower, m[p].addr) == LineAt(g, flat, m[p].addr)
  {
    assert !HasDirty(m, m[p].addr);
  }

  /** `mem'` is `mem` with exactly the line at `la` replaced. */
  ghost predicate LineReplaced(g: Geometry, mem: Memory, mem': Memory, la: nat, line: Line)
    requires g.Positive()
  {
    && IsMemory(mem) && IsMemory(mem') && InSpace(g, la)
    && LineAt(g, mem', la) == line
    && forall other :: InSpace(g, other) && other != la ==> LineAt(g, mem', other) == LineAt(g, mem, other)
  }

  /** Overwriting bytes inside one line changes that line only. */
  lemma PutReplacesLine(g: Geometry, mem: Memory, la: nat, at: nat, bs: seq<Byte>)
    requires g.Positive() && IsMemory(mem) && InSpace(g, la)
    requires la <= at && at + |bs| <= la + g.lineBytes
    ensures LineReplaced(g, mem, Put(mem, at, bs), la, Put(LineAt(g, mem, la), at - la, bs))
  {
    PutInsideWindow(mem, la, g.lineBytes, at, bs);
    forall other: nat | InSpace(g, other) && other != la
      ensures LineAt(g, Put(mem, at, bs), other) == LineAt(g, mem, other)
    {
      MultiplesApart(other, la, g.lineBytes);
      PutOutsideWindow(mem, other, g.lineBytes, at, bs);
    }
  }

  // ----------------------------------------------------- what each array update keeps

  /** Clearing a prefetched bit is not visible to memory. */
  lemma KeepsWhenTouched(g: Geometry, m: Copies, lower: Memory, flat: Memory, p: Slot, c: Copy)
    requires Coherent(g, m, lower, flat) && p in m
    requires c == m[p].(prefetched := false)
    ensures Coherent(g, m[p := c], lower, flat)
  {
    var m' := m[p := c];
    forall la: nat | HasDirty(m, la)
      ensures HasDirty(m', la)
    {
      var d :| Holds(m, d, la) && m[d].dirty;
      assert Holds(m', d, la);
    }
  }

  /** A copy of the requested line is rewritten in place: store hit. */
  lemma KeepsWhenWritten(g: Geometry, m: Copies, lower: Memory, flat: Memory, flat': Memory, p: Slot, c: Copy)
    requires Coherent(g, m, lower, flat) && p in m && m[p].valid
    requires c.valid && c.dirty && c.addr == m[p].addr
    requires LineReplaced(g, flat, flat', c.addr, c.line)
    ensures Coherent(g, m[p := c], lower, flat')
  {
    var m' := m[p := c];
    assert Holds(m', p, c.addr);
    forall la: nat | HasDirty(m, la)
      ensures HasDirty(m', la)
    {
      var d :| Holds(m, d, la) && m[d].dirty;
      assert Holds(m', d, la);
    }
  }

  /** A line without any copy is filled into an invalid slot. */
  lemma KeepsWhenFilled(g: Geometry, m: Copies, lower: Memory, flat: Memory, flat': Memory, p: Slot, c: Copy)
    requires Coherent(g, m, lower, flat) && p in m && !m[p].valid
    requires c.valid && Absent(m, c.addr)
    requires p.L1? ==> g.SetOf(c.addr) == p.si
    requires LineReplaced(g, flat, flat', c.addr, c.line)
    requires !c.dirty ==> LineAt(g, lower, c.addr) == c.line
    ensures Coherent(g, m[p := c], lower, flat')
  {
    var m' := m[p := c];
    forall q | q in m' && m'[q].valid && q != p
      ensures m'[q].addr != c.addr
    {
      assert !Holds(m, q, c.addr);
    }
    forall la: nat | HasDirty(m, la)
      ensures HasDirty(m', la)
    {
      var d :| Holds(m, d, la) && m[d].dirty;
      assert Holds(m', d, la);
    }
    assert c.dirty ==> Holds(m', p, c.addr);
  }

  /** A valid copy moves to another slot whose old content lower memory already holds. */
  lemma KeepsWhenMoved(g: Geometry, m: Copies, lower: Memory, flat: Memory, from: Slot, to: Slot, gone: Copy)
    requires Coherent(g, m, lower, flat) && from in m && to in m && from != to && !to.L1?
    requires m[from].valid && !gone.valid
    requires m[to].valid ==> LineAt(g, lower, m[to].addr) == LineAt(g, flat, m[to].addr)
    ensures Coherent(g, m[to := m[from]][from := gone], lower, flat)
  {
    var m' := m[to := m[from]][from := gone];
    forall la: nat | HasDirty(m, la) && !(m[to].valid && m[to].addr == la)
      ensures HasDirty(m', la)
    {
      var d :| Holds(m, d, la) && m[d].dirty;
      assert Holds(m', if d == from then to else d, la);
    }
  }

  /** The victim-cache copy of the requested line changes places with an L1 copy. */
  lemma KeepsWhenSwapped(g: Geometry, m: Copies, lower: Memory, flat: Memory, flat': Memory,
                         up: Slot, down: Slot, c: Copy)
    requires Coherent(g, m, lower, flat) && up in m && down in m && up.L1? && !down.L1?
    requires m[up].valid && m[down].valid
    requires c.valid && c.addr == m[down].addr && g.SetOf(c.addr) == up.si
    requires LineReplaced(g, flat, flat', c.addr, c.line)
    requires !c.dirty ==> !m[down].dirty && c.line == m[down].line
    ensures Coherent(g, m[up := c][down := m[up]], lower, flat')
  {
    var m' := m[up := c][down := m[up]];
    assert c.dirty ==> Holds(m', up, c.addr);
    forall la: nat | HasDirty(m, la) && la != c.addr
      ensures HasDirty(m', la)
    {
      var d :| Holds(m, d, la) && m[d].dirty;
      assert Holds(m', if d == up then down else d, la);
    }
    if !c.dirty {
      CleanCopyIsMemory(g, m, lower, flat, down);
    }
  }

  /** Writing a copy back to lower memory. */
  lemma KeepsWhenWrittenBack(g: Geometry, m: Copies, lower: Memory, lower': Memory, flat: Memory, p: Slot)
    requires Coherent(g, m, lower, flat) && p in m && m[p].valid
    requires LineReplaced(g, lower, lower', m[p].addr, m[p].line)
    ensures Coherent(g, m, lower', flat)
    ensures LineAt(g, lower', m[p].addr) == LineAt(g, flat, m[p].addr)
  {
  }

  // ------------------------------------------------------------ full sets behind victims

  /** A victim entry of a set means that the set is full (apart from the slot being refilled). */
  ghost predicate FullBehindVictims(g: Geometry, m: Copies, hole: Option<Slot>)
    requires g.Positive()
  {
    forall v, p :: v in m && v.VC? && m[v].valid && p in m && p.L1? && p.si == g.SetOf(m[v].addr)
      ==> m[p].valid || hole == Some(p)
  }

  lemma FullWhenTouched(g: Geometry, m: Copies, hole: Option<Slot>, p: Slot, c: Copy)
    requires g.Positive() && FullBehindVictims(g, m, hole) && p in m
    requires c.valid == m[p].valid && c.addr == m[p].addr
    ensures FullBehindVictims(g, m[p := c], hole)
  {
  }

  lemma FullWhenSwapped(g: Geometry, m: Copies, up: Slot, down: Slot, c: Copy)
    requires g.Positive() && FullBehindVictims(g, m, None) && up in m && down in m && up.L1? && !down.L1?
    requires c.valid && g.SetOf(m[up].addr) == g.SetOf(m[down].addr) && m[down].valid
    ensures FullBehindVictims(g, m[up := c][down := m[up]], None)
  {
  }

  lemma FullWhenMoved(g: Geometry, m: Copies, from: Slot, to: Slot, gone: Copy)
    requires g.Positive() && FullBehindVictims(g, m, None) && from in m && to in m && from.L1? && !to.L1?
    requires forall p :: p in m && p.L1? && p.si == from.si ==> m[p].valid
    requires g.SetOf(m[from].addr) == from.si
    ensures FullBehindVictims(g, m[to := m[from]][from := gone], Some(from))
  {
  }

  lemma FullWhenFilled(g: Geometry, m: Copies, p: Slot, c: Copy)
    requires g.Positive() && FullBehindVictims(g, m, Some(p)) && p in m && p.L1? && c.valid
    ensures FullBehindVictims(g, m[p := c], None)
  {
  }
}
