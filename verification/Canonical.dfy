/**
 Canonical replay of memory events (scripts/qemu_memtrace_canonical.h and the RawEvent half of
 scripts/split_qemu_memtrace_windows.py): the tracer plans which cache lines an access touches,
 the splitter turns the recorded event into replay accesses, and the two agree.
 */
module Canonical {
  import Arithmetic
  import opened Wrappers
  import opened Geometries
  import opened LoadStore

  const LINE: nat := 16

  // ------------------------------------------------------------------ the tracer's planner

  datatype PlanResult = PlanOk | AddressOverflow | TranslationFailed

  type Accesses = n: nat | 1 <= n <= 2 witness 1

  datatype Plan = Plan(vaddrEnd: Address, paddrEnd: Address, misaligned: bool, crossLine: bool, accesses: Accesses)

  /** Address of the last byte of the access, if it is still an address. */
  function LastByte(addr: Address, size: SizeCode): (last: Option<Address>)
    ensures last.Some? ==> last.value == addr + AccessBytes(size) - 1
  {
    var last := addr + AccessBytes(size) - 1;
    if last < ADDRESS_SPACE then Some(last) else None
  }

  /** What the planner is asked for: the physical last byte, and which lines lie between. */
  function PlanOf(vaddr: Address, paddr: Address, size: SizeCode, translate: Address -> Option<Address>)
    : (p: Result<Plan, PlanResult>)
  {
    match LastByte(vaddr, size)
    case None => Err(AddressOverflow)
    case Some(end) =>
      var crossLine := vaddr / LINE != end / LINE;
      var physical := if crossLine then translate(end) else LastByte(paddr, size);
      if physical.None? then Err(if crossLine then TranslationFailed else AddressOverflow)
      else Ok(Plan(end, physical.value, Misaligned(vaddr, size), crossLine, if crossLine then 2 else 1))
  }

  /** The plan structure that the planner fills through a pointer. */
  class TouchPlan {
    var vaddrEnd: Address
    var paddrEnd: Address
    var misaligned: bool
    var crossLine: bool
    var canonicalAccesses: Accesses

    constructor ()
      ensures vaddrEnd == 0 && paddrEnd == 0 && !misaligned && !crossLine
    {
      vaddrEnd, paddrEnd, misaligned, crossLine, canonicalAccesses := 0, 0, false, false, 1;
    }

    function View(): Plan
      reads this
    {
      Plan(vaddrEnd, paddrEnd, misaligned, crossLine, canonicalAccesses)
    }
  }

  method PlanLineTouches(vaddr: Address, paddr: Address, size: SizeCode, translate: Address -> Option<Address>,
                         plan: TouchPlan)
    returns (result: PlanResult)
    modifies plan
    ensures result.PlanOk? ==> PlanOf(vaddr, paddr, size, translate) == Ok(plan.View())
    ensures !result.PlanOk? ==> PlanOf(vaddr, paddr, size, translate) == Err(result)
  {
    var lastOffset: nat := AccessBytes(size) - 1;
    if vaddr > ADDRESS_SPACE - 1 - lastOffset { return AddressOverflow; }
    plan.vaddrEnd := vaddr + lastOffset;
    plan.misaligned := vaddr % (lastOffset + 1) != 0;
    plan.crossLine := vaddr / LINE != plan.vaddrEnd / LINE;
    plan.canonicalAccesses := if plan.crossLine then 2 else 1;
    if plan.crossLine {
      var end := translate(plan.vaddrEnd);
      if end.None? { return TranslationFailed; }
      plan.paddrEnd := end.value;
    } else {
      if paddr > ADDRESS_SPACE - 1 - lastOffset { return AddressOverflow; }
      plan.paddrEnd := paddr + lastOffset;
    }
    return PlanOk;
  }

  // ------------------------------------------------------------------ the splitter's events

  datatype RawEvent = RawEvent(seqId: nat, vcpu: nat, priv: nat, satp: nat, pc: nat, write: bool, size: nat,
                               vaddr: nat, paddr: nat, paddrEnd: nat)
  {
    predicate Misaligned() {
      size > 0 && vaddr % size != 0
    }

    function VaddrEnd(): int {
      vaddr + size - 1
    }

    predicate CrossLine() {
      vaddr / LINE != VaddrEnd() / LINE
    }

    function CanonicalAccesses(): nat {
      if CrossLine() then 2 else 1
    }
  }

  function SizeCodeOf(bytes: nat): (size: SizeCode)
    requires bytes in {1, 2, 4, 8}
    ensures AccessBytes(size) == bytes
  {
    if bytes == 1 then 0 else if bytes == 2 then 1 else if bytes == 4 then 2 else 3
  }

  /** The checks of a single raw row that do not involve its position in the file. */
  predicate WellFormed(e: RawEvent) {
    && e.vcpu == 0 && e.priv == 0
    && e.size in {1, 2, 4, 8}
    && e.vaddr + e.size <= ADDRESS_SPACE
    && (!e.CrossLine() ==> e.paddrEnd == e.paddr + e.size - 1)
  }

  /** One record of a replay trace. */
  datatype Access = Access(write: bool, size: SizeCode, addr: nat)

  function ToReplay(e: RawEvent): seq<Access>
    requires WellFormed(e)
  {
    if !e.Misaligned() then [Access(e.write, SizeCodeOf(e.size), e.paddr)]
    else
      [Access(e.write, 0, e.paddr / LINE * LINE)]
      + if e.CrossLine() then [Access(e.write, 0, e.paddrEnd / LINE * LINE)] else []
  }

  predicate Covers(access: Access, b: nat) {
    access.addr <= b < access.addr + AccessBytes(access.size)
  }

  /** Some byte of some access lies in the line. */
  ghost predicate Touches(replay: seq<Access>, line: nat) {
    exists i: nat, b: nat :: i < |replay| && Covers(replay[i], b) && b / LINE == line
  }

  /** Address translation keeps the position inside a line. */
  predicate Translated(e: RawEvent) {
    && e.paddr % LINE == e.vaddr % LINE
    && (e.CrossLine() ==> e.paddrEnd % LINE == e.VaddrEnd() % LINE)
  }

  lemma CrossLineIsMisaligned(e: RawEvent)
    requires WellFormed(e) && e.CrossLine()
    ensures e.Misaligned()
  {
    if e.vaddr % e.size == 0 {
      AlignedStaysInLine(e.vaddr, e.size);
    }
  }

  lemma LineOffsetAligned(addr: nat, bytes: nat)
    requires bytes in {1, 2, 4, 8}
    ensures (addr % LINE) % bytes == addr % bytes
  {
    var q, r := addr / LINE, addr % LINE;
    var k := if bytes == 1 then 16 * q else if bytes == 2 then 8 * q else if bytes == 4 then 4 * q else 2 * q;
    assert addr == 16 * q + r == k * bytes + r;
    Arithmetic.EuclideanSplit(r, bytes);
    assert (k + r / bytes) * bytes == k * bytes + r / bytes * bytes;
    Arithmetic.DivModUnique(addr, bytes, k + r / bytes, r % bytes);
  }

  /** An aligned access of up to eight bytes never leaves its line. */
  lemma AlignedStaysInLine(addr: nat, bytes: nat)
    requires bytes in {1, 2, 4, 8} && addr % bytes == 0
    ensures forall b :: addr <= b < addr + bytes ==> b / LINE == addr / LINE
  {
    LineOffsetAligned(addr, bytes);
    var q, r := addr / LINE, addr % LINE;
    assert r + bytes <= LINE;
    forall b | addr <= b < addr + bytes
      ensures b / LINE == q
    {
      SameLineOffset(addr, b - addr);
    }
  }

  lemma SameLineOffset(a: nat, k: nat)
    ensures a / LINE == (a + k) / LINE <==> a % LINE + k < LINE
  {
  }

  lemma TouchesOne(access: Access, line: nat)
    requires access.size == 0 || access.addr % AccessBytes(access.size) == 0
    ensures Touches([access], line) <==> line == access.addr / LINE
  {
    AlignedStaysInLine(access.addr, AccessBytes(access.size));
    assert [access][0] == access;
    if line == access.addr / LINE {
      assert Covers([access][0], access.addr);
    }
  }

  lemma TouchesTwo(a: Access, b: Access, line: nat)
    requires a.size == 0 && b.size == 0
    ensures Touches([a, b], line) <==> line == a.addr / LINE || line == b.addr / LINE
  {
    assert [a, b][0] == a && [a, b][1] == b;
    if line == a.addr / LINE {
      assert Covers([a, b][0], a.addr);
    }
    if line == b.addr / LINE {
      assert Covers([a, b][1], b.addr);
    }
  }

  lemma SameLineEnds(e: RawEvent)
    requires WellFormed(e) && Translated(e) && !e.CrossLine()
    ensures e.paddr / LINE == e.paddrEnd / LINE
    ensures !e.Misaligned() ==> e.paddr % e.size == 0
  {
    SameLineOffset(e.vaddr, e.size - 1);
    SameLineOffset(e.paddr, e.size - 1);
    LineOffsetAligned(e.vaddr, e.size);
    LineOffsetAligned(e.paddr, e.size);
  }

  lemma LineStart(a: nat)
    ensures a / LINE * LINE / LINE == a / LINE
  {
  }

  lemma ReplayTouches(e: RawEvent, line: nat)
    requires WellFormed(e) && Translated(e)
    ensures Touches(ToReplay(e), line) <==> line == e.paddr / LINE || line == e.paddrEnd / LINE
  {
    hide Touches, Translated;
    LineStart(e.paddr);
    LineStart(e.paddrEnd);
    var first := Access(e.write, 0, e.paddr / LINE * LINE);
    if e.CrossLine() {
      CrossLineIsMisaligned(e);
      var last := Access(e.write, 0, e.paddrEnd / LINE * LINE);
      assert ToReplay(e) == [first, last];
      TouchesTwo(first, last, line);
    } else {
      SameLineEnds(e);
      var only := if e.Misaligned() then first else Access(e.write, SizeCodeOf(e.size), e.paddr);
      assert ToReplay(e) == [only];
      TouchesOne(only, line);
    }
  }

  /**
   The replay of an event touches exactly the physical lines of its first and its last byte,
   takes one access more than one when it crosses a line, and never holds an access that the
   cache would refuse as misaligned.
   */
  lemma ReplayTouchesBothEnds(e: RawEvent)
    requires WellFormed(e) && Translated(e)
    ensures |ToReplay(e)| == e.CanonicalAccesses()
    ensures forall line: nat :: Touches(ToReplay(e), line) <==> line == e.paddr / LINE || line == e.paddrEnd / LINE
    ensures forall i :: 0 <= i < |ToReplay(e)| ==> !Misaligned(ToReplay(e)[i].addr, ToReplay(e)[i].size)
    ensures forall i :: 0 <= i < |ToReplay(e)| ==> ToReplay(e)[i].write == e.write
  {
    forall line: nat
      ensures Touches(ToReplay(e), line) <==> line == e.paddr / LINE || line == e.paddrEnd / LINE
    {
      ReplayTouches(e, line);
    }
    hide Touches;
    if e.CrossLine() {
      CrossLineIsMisaligned(e);
    } else {
      SameLineEnds(e);
    }
  }

  /** The access reads or writes exactly the bytes from `first` on. */
  ghost predicate CoversExactly(access: Access, first: nat, bytes: nat) {
    forall b: nat :: Covers(access, b) <==> first <= b < first + bytes
  }

  /** The access is to the first byte of the line that holds `addr`, and to no other byte. */
  ghost predicate OpensLine(access: Access, addr: nat) {
    forall b: nat :: Covers(access, b) <==> b % LINE == 0 && b / LINE == addr / LINE
  }

  /**
   The bytes of a replay: an aligned event is replayed whole; a misaligned one is replaced by one
   byte at the start of each line it touches, first the line of its first byte, then that of its last.
   */
  lemma ReplayCoversBytes(e: RawEvent)
    requires WellFormed(e)
    ensures var r := ToReplay(e);
      if !e.Misaligned() then |r| == 1 && CoversExactly(r[0], e.paddr, e.size)
      else
        && |r| == (if e.vaddr / LINE == (e.vaddr + e.size - 1) / LINE then 1 else 2)
        && OpensLine(r[0], e.paddr) && (|r| == 2 ==> OpensLine(r[1], e.paddrEnd))
  {
    if e.Misaligned() {
      FirstByteOpens(e.write, e.paddr);
      FirstByteOpens(e.write, e.paddrEnd);
    }
  }

  lemma FirstByteOpens(write: bool, addr: nat)
    ensures OpensLine(Access(write, 0, addr / LINE * LINE), addr)
  {
    LineStart(addr);
    forall b: nat
      ensures b == addr / LINE * LINE <==> b % LINE == 0 && b / LINE == addr / LINE
    {
      Arithmetic.EuclideanSplit(b, LINE);
    }
  }

  /** The event that the tracer records for an access it could plan. */
  function Recorded(seqId: nat, satp: nat, pc: nat, write: bool, size: SizeCode, vaddr: Address, paddr: Address,
                    plan: Plan): RawEvent
  {
    RawEvent(seqId, 0, 0, satp, pc, write, AccessBytes(size), vaddr, paddr, plan.paddrEnd)
  }

  /** Tracer and splitter agree: a planned access is recorded as a well-formed event with the plan's figures. */
  lemma PlannerAgrees(seqId: nat, satp: nat, pc: nat, write: bool, size: SizeCode, vaddr: Address, paddr: Address,
                      translate: Address -> Option<Address>)
    requires PlanOf(vaddr, paddr, size, translate).Ok?
    ensures var plan := PlanOf(vaddr, paddr, size, translate).value;
            var e := Recorded(seqId, satp, pc, write, size, vaddr, paddr, plan);
            && WellFormed(e)
            && e.Misaligned() == plan.misaligned && e.CrossLine() == plan.crossLine
            && e.VaddrEnd() == plan.vaddrEnd && e.CanonicalAccesses() == plan.accesses == |ToReplay(e)|
            && (plan.crossLine ==> plan.misaligned)
  {
    var plan := PlanOf(vaddr, paddr, size, translate).value;
    var e := Recorded(seqId, satp, pc, write, size, vaddr, paddr, plan);
    AlignedAccess(vaddr, size);
    if e.CrossLine() {
      CrossLineIsMisaligned(e);
    }
  }
}
