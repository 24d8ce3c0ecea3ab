/**
 CPU accesses: sizes, natural alignment, load extension and store merging
 (src/l1d_cache_legacy.sv:198-288), and the flat byte memory that the cache must look like.
 */
module LoadStore {
  import opened Arithmetic
  import opened Geometries
  import opened Bytes

  type SizeCode = n: nat | n < 4

  const RSP_OK: nat := 0
  const RSP_LOAD_MISALIGNED: nat := 1
  const RSP_STORE_MISALIGNED: nat := 2

  datatype Request = Request(addr: Address, write: bool, size: SizeCode, unsigned: bool, wdata: Word)

  datatype Response = Response(data: Word, error: bool, cause: nat)

  function AccessBytes(size: SizeCode): (n: nat)
    ensures n in {1, 2, 4, 8} && n <= 8
  {
    if size == 0 then 1 else if size == 1 then 2 else if size == 2 then 4 else 8
  }

  predicate Misaligned(addr: nat, size: SizeCode) {
    if size == 0 then false
    else if size == 1 then addr % 2 != 0
    else if size == 2 then addr % 4 != 0
    else addr % 8 != 0
  }

  lemma AlignedAccess(addr: Address, size: SizeCode)
    ensures !Misaligned(addr, size) <==> addr % AccessBytes(size) == 0
    ensures !Misaligned(addr, size) ==> addr + AccessBytes(size) <= ADDRESS_SPACE
  {
  }

  // ---------------------------------------------------------------- load data

  /** The accessed bytes, sign- or zero-extended to a 64-bit word. */
  function Extend(bs: seq<Byte>, unsigned: bool): (w: Word)
    requires 1 <= |bs| <= 8
  {
    var negative := !unsigned && bs[|bs| - 1] >= 128;
    bs + Repeat(if negative then 255 else 0, 8 - |bs|)
  }

  /** Two's-complement value of a little-endian byte string. */
  function Signed(bs: seq<Byte>): int {
    if bs != [] && bs[|bs| - 1] >= 128 then LittleEndian(bs) - Pow2(8 * |bs|) else LittleEndian(bs)
  }

  lemma ExtendValue(bs: seq<Byte>, k: nat)
    ensures LittleEndian(bs + Repeat(0, k)) == LittleEndian(bs)
    ensures LittleEndian(bs + Repeat(255, k)) == LittleEndian(bs) + Pow2(8 * |bs| + 8 * k) - Pow2(8 * |bs|)
  {
    hide LittleEndian, Pow2;
    LittleEndianOfRepeat(k);
    LittleEndianConcat(bs, Repeat(0, k));
    LittleEndianConcat(bs, Repeat(255, k));
    Pow2Add(8 * |bs|, 8 * k);
  }

  lemma WrapsOnce(value: nat, n: nat)
    requires value < n <= ADDRESS_SPACE
    ensures (value - n) % ADDRESS_SPACE == value + ADDRESS_SPACE - n
    ensures value % ADDRESS_SPACE == value || value == ADDRESS_SPACE
  {
  }

  lemma NumberOfExtended(bs: seq<Byte>, unsigned: bool)
    requires 1 <= |bs| <= 8
    ensures var n, value := Pow2(8 * |bs|), LittleEndian(bs);
            var negative := !unsigned && bs[|bs| - 1] >= 128;
            && value < n <= ADDRESS_SPACE == Pow2(64)
            && LittleEndian(Extend(bs, unsigned)) == if negative then value + ADDRESS_SPACE - n else value
  {
    hide LittleEndian, Pow2;
    ExtendValue(bs, 8 - |bs|);
    assert 8 * |bs| + 8 * (8 - |bs|) == 64;
    LittleEndianBound(bs);
    Pow2Monotone(8 * |bs|, 64);
    SpaceIsPow2();
  }

  lemma SignOfExtended(bs: seq<Byte>)
    requires 1 <= |bs| <= 8
    ensures var e := Extend(bs, false); |e| == 8 && (e[7] >= 128 <==> bs[|bs| - 1] >= 128)
  {
  }

  /** Unsigned loads zero-extend and signed loads sign-extend, as the ISA defines them. */
  lemma ExtendIsArchitectural(bs: seq<Byte>, unsigned: bool)
    requires 1 <= |bs| <= 8
    ensures unsigned ==> LittleEndian(Extend(bs, unsigned)) == LittleEndian(bs)
    ensures !unsigned ==> LittleEndian(Extend(bs, unsigned)) == Signed(bs) % ADDRESS_SPACE
    ensures !unsigned ==> Signed(Extend(bs, unsigned)) == Signed(bs)
  {
    hide LittleEndian, Pow2, Extend;
    NumberOfExtended(bs, unsigned);
    SignOfExtended(bs);
    WrapsOnce(LittleEndian(bs), Pow2(8 * |bs|));
  }

  /** What a load of `size` at byte `offset` of a line returns. */
  function LoadResult(line: seq<Byte>, offset: nat, size: SizeCode, unsigned: bool): Word
    requires offset + AccessBytes(size) <= |line|
  {
    Extend(line[offset..offset + AccessBytes(size)], unsigned)
  }

  method LineLoadData(line: seq<Byte>, offset: nat, size: SizeCode, unsigned: bool) returns (r: Word)
    requires offset + AccessBytes(size) <= |line|
    ensures r == LoadResult(line, offset, size, unsigned)
  {
    var raw: seq<Byte> := ZERO_WORD;
    var n := AccessBytes(size);
    for byteIndex := 0 to 8
      invariant |raw| == 8
      invariant forall i :: 0 <= i < byteIndex && i < n ==> raw[i] == line[offset + i]
      invariant forall i :: 0 <= i < 8 && (byteIndex <= i || n <= i) ==> raw[i] == 0
    {
      if byteIndex < n {
        raw := raw[byteIndex := line[offset + byteIndex]];
      }
    }
    if n < 8 {
      var fill: Byte := if unsigned || raw[n - 1] < 128 then 0 else 255;
      r := raw[..n] + Repeat(fill, 8 - n);
    } else {
      r := raw;
    }
    assert raw[..n] == line[offset..offset + n];
    assert r == LoadResult(line, offset, size, unsigned);
  }

  // --------------------------------------------------------------- store data

  function MergeResult(line: seq<Byte>, offset: nat, wdata: Word, size: SizeCode): (r: seq<Byte>)
    requires offset + AccessBytes(size) <= |line|
    ensures |r| == |line|
  {
    Put(line, offset, wdata[..AccessBytes(size)])
  }

  method MergeStoreData(line: seq<Byte>, offset: nat, wdata: Word, size: SizeCode) returns (result: seq<Byte>)
    requires offset + AccessBytes(size) <= |line|
    ensures result == MergeResult(line, offset, wdata, size)
  {
    result := line;
    var n := AccessBytes(size);
    for byteIndex := 0 to 8
      invariant |result| == |line|
      invariant forall i :: 0 <= i < |line| ==>
        result[i] == if offset <= i < offset + n && i < offset + byteIndex then wdata[i - offset] else line[i]
    {
      if byteIndex < n {
        result := result[offset + byteIndex := wdata[byteIndex]];
      }
    }
  }

  // ------------------------------------------------- the memory the CPU sees

  type Memory = seq<Byte>

  ghost predicate IsMemory(m: Memory) {
    |m| == ADDRESS_SPACE
  }

  /** Flat memory after one accepted request; a misaligned store changes nothing. */
  ghost function Apply(m: Memory, r: Request): (m': Memory)
    requires IsMemory(m)
    ensures IsMemory(m')
  {
    AlignedAccess(r.addr, r.size);
    if r.write && !Misaligned(r.addr, r.size)
    then Put(m, r.addr, r.wdata[..AccessBytes(r.size)])
    else m
  }

  /** The architectural answer to one request against flat memory. */
  ghost function Answer(m: Memory, r: Request): Response
    requires IsMemory(m)
  {
    AlignedAccess(r.addr, r.size);
    if Misaligned(r.addr, r.size) then
      Response(ZERO_WORD, true, if r.write then RSP_STORE_MISALIGNED else RSP_LOAD_MISALIGNED)
    else
      Response(Extend(Apply(m, r)[r.addr..r.addr + AccessBytes(r.size)], r.unsigned), false, RSP_OK)
  }

  /** Errors: exactly the accesses that are not naturally aligned, told apart as loads (1) and stores (2). */
  lemma AnswerErrors(m: Memory, r: Request)
    requires IsMemory(m)
    ensures var answer, misaligned := Answer(m, r), r.addr % AccessBytes(r.size) != 0;
      && (answer.error <==> misaligned) && (misaligned ==> answer.data == ZERO_WORD && Apply(m, r) == m)
      && answer.cause == (if !misaligned then 0 else if r.write then 2 else 1)
  {
    hide Extend;
    AlignedAccess(r.addr, r.size);
  }

  ghost function ApplyAll(m: Memory, rs: seq<Request>): (m': Memory)
    requires IsMemory(m)
    ensures IsMemory(m')
  {
    if rs == [] then m else Apply(ApplyAll(m, rs[..|rs| - 1]), rs[|rs| - 1])
  }

  ghost function AnswerAll(m: Memory, rs: seq<Request>): (answers: seq<Response>)
    requires IsMemory(m)
    ensures |answers| == |rs|
  {
    if rs == [] then []
    else AnswerAll(m, rs[..|rs| - 1]) + [Answer(ApplyAll(m, rs[..|rs| - 1]), rs[|rs| - 1])]
  }
}
