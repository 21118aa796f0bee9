/** Finding the function of a program counter from the runtime's tables alone: a bucket table gives a
    hint, and a linear search in the function table corrects it. */
module FuncTable {
  import opened Base
  import opened TraceeProcess
  import opened Words
  import TraceModel

  type Memory = map<Addr, Byte>

  const MINFUNC: nat := 16
  const PCBUCKETSIZE: nat := 256 * MINFUNC
  const FUNCTAB_SIZE: nat := 16
  const BUCKET_RECORD: nat := 20
  const SUBBUCKETS_OFFSET: nat := 4
  const SUBBUCKETS: nat := 16
  const FUNC_RECORD: nat := 40

  /** The fields of the runtime's moduledata that the lookup asks for. */
  datatype ModuleData =
    ModuleData(minpc: Addr, maxpc: Addr, findfunctab: Addr, ftab: Addr, ftabLen: int, pclntable: Addr)

  datatype Function = Function(name: seq<Byte>, start: Addr, end: Addr, numParams: nat)

  /** The function table element, all zero when it cannot be read. */
  function Functab(m: Memory, md: ModuleData, index: int): (Addr, Addr) {
    var at := Wrap(md.ftab + index * FUNCTAB_SIZE);
    if Mapped(m, at, FUNCTAB_SIZE) then
      var buff := Bytes(m, at, FUNCTAB_SIZE);
      (Word64(buff[..8]), Word64(buff[8..]))
    else (0, 0)
  }

  function Entry(m: Memory, md: ModuleData, index: int): Addr {
    Functab(m, md, index).0
  }

  // ----- the simple specification

  predicate Covers(m: Memory, md: ModuleData, i: int, pc: Addr) {
    0 <= i < md.ftabLen - 1 && Entry(m, md, i) <= pc < Entry(m, md, i + 1)
  }

  ghost predicate Sorted(m: Memory, md: ModuleData) {
    forall i, j :: 0 <= i < j < md.ftabLen ==> Entry(m, md, i) <= Entry(m, md, j)
  }

  /** The table ends with a sentinel behind all code. Without one the forward search need not end. */
  predicate Closed(m: Memory, md: ModuleData) {
    md.ftabLen >= 2 && md.maxpc <= Entry(m, md, md.ftabLen - 1)
  }

  lemma Unique(m: Memory, md: ModuleData, pc: Addr, i: int, j: int)
    requires Sorted(m, md) && Covers(m, md, i, pc) && Covers(m, md, j, pc)
    ensures i == j
  {
    hide Entry;
    assert i < j ==> Entry(m, md, i + 1) <= Entry(m, md, j) || i + 1 == j;
    assert j < i ==> Entry(m, md, j + 1) <= Entry(m, md, i) || j + 1 == i;
  }

  /** The last of the first n functions that starts at or before pc; the first one when there is none. */
  function Last(m: Memory, md: ModuleData, pc: int, n: nat): (i: nat)
    ensures n > 0 ==> i < n
  {
    if n <= 1 then 0 else if Entry(m, md, n - 1) <= pc then n - 1 else Last(m, md, pc, n - 1)
  }

  function Covering(m: Memory, md: ModuleData, pc: int): nat
    requires md.ftabLen >= 2
  {
    Last(m, md, pc, md.ftabLen - 1)
  }

  lemma {:induction false} LastStarts(m: Memory, md: ModuleData, pc: int, n: nat)
    requires n > 0 && Entry(m, md, 0) <= pc
    ensures Entry(m, md, Last(m, md, pc, n)) <= pc
    ensures Last(m, md, pc, n) + 1 < n ==> pc < Entry(m, md, Last(m, md, pc, n) + 1)
  {
    hide Entry;
    if n > 1 && Entry(m, md, n - 1) > pc {
      LastStarts(m, md, pc, n - 1);
    }
  }

  /** Every address of the code is covered by exactly one function. */
  lemma CoveringCovers(m: Memory, md: ModuleData, pc: Addr, i: int)
    requires Sorted(m, md) && md.ftabLen >= 2
    requires Entry(m, md, 0) <= pc < Entry(m, md, md.ftabLen - 1)
    ensures Covers(m, md, i, pc) <==> i == Covering(m, md, pc)
  {
    hide Entry;
    LastStarts(m, md, pc, md.ftabLen - 1);
    if Covers(m, md, i, pc) {
      Unique(m, md, pc, i, Covering(m, md, pc));
    }
  }

  // ----- the search

  function Clamped(md: ModuleData, hint: nat): int {
    if hint >= md.ftabLen then md.ftabLen - 1 else hint
  }

  /** The backward search runs into the first element. */
  predicate Panics(m: Memory, md: ModuleData, pc: Addr, hint: nat) {
    && pc < Entry(m, md, Clamped(md, hint))
    && forall k :: 0 < k <= Clamped(md, hint) ==> pc < Entry(m, md, k)
  }

  /** For any hint and even in a table out of order, the search ends at an element that covers pc, except
      that it panics, which is the result None, when going back leads to the first element. */
  method AdjustFtabIndex(m: Memory, md: ModuleData, pc: Addr, hint: nat) returns (r: Option<nat>)
    requires md.ftabLen >= 2 && pc < Entry(m, md, md.ftabLen - 1)
    ensures r.None? <==> Panics(m, md, pc, hint)
    ensures r.Some? ==> Covers(m, md, r.value, pc)
  {
    hide Entry;
    var ftabIdx := hint;
    if ftabIdx >= md.ftabLen {
      ftabIdx := md.ftabLen - 1;
    }
    var entry := Entry(m, md, ftabIdx);
    if pc < entry {
      while entry > pc && ftabIdx > 0
        invariant 0 <= ftabIdx <= Clamped(md, hint) && entry == Entry(m, md, ftabIdx)
        invariant forall k :: ftabIdx < k <= Clamped(md, hint) ==> pc < Entry(m, md, k)
        invariant ftabIdx < Clamped(md, hint) || entry > pc
        decreases ftabIdx
      {
        ftabIdx := ftabIdx - 1;
        entry := Entry(m, md, ftabIdx);
      }
      if ftabIdx == 0 {
        return None;
      }
    } else {
      var nextEntry := Entry(m, md, ftabIdx + 1);
      while nextEntry <= pc
        invariant 0 <= ftabIdx < md.ftabLen - 1 && nextEntry == Entry(m, md, ftabIdx + 1)
        invariant Entry(m, md, ftabIdx) <= pc
        decreases md.ftabLen - ftabIdx
      {
        ftabIdx := ftabIdx + 1;
        nextEntry := Entry(m, md, ftabIdx + 1);
      }
    }
    r := Some(ftabIdx);
  }

  /** In a sorted table it panics exactly when the answer is the first function and the hint is not. */
  lemma PanicsExactly(m: Memory, md: ModuleData, pc: Addr, hint: nat, answer: nat)
    requires Sorted(m, md) && Covers(m, md, answer, pc)
    ensures Panics(m, md, pc, hint) <==> answer == 0 && Clamped(md, hint) > 0
  {
    hide Entry;
    if answer > 0 && answer <= Clamped(md, hint) {
      assert Entry(m, md, answer) <= pc;
    } else if answer > 0 {
      assert Entry(m, md, Clamped(md, hint)) <= Entry(m, md, answer);
    } else {
      assert forall k :: 0 < k <= Clamped(md, hint) ==> Entry(m, md, 1) <= Entry(m, md, k) || k == 1;
    }
  }

  function EndAddr(m: Memory, md: ModuleData, ftabIdx: int): Addr {
    if ftabIdx + 1 >= md.ftabLen then 0 else Entry(m, md, ftabIdx + 1)
  }

  // ----- the bucket table

  /** Functions are at least 16 bytes long. */
  ghost predicate Gaps(m: Memory, md: ModuleData) {
    forall i :: 0 <= i < md.ftabLen - 2 ==> Entry(m, md, i) + MINFUNC <= Entry(m, md, i + 1)
  }

  lemma {:induction false} GapSum(m: Memory, md: ModuleData, i: nat, j: nat)
    requires Gaps(m, md) && i <= j < md.ftabLen - 1
    ensures Entry(m, md, i) + MINFUNC * (j - i) <= Entry(m, md, j)
  {
    hide Entry;
    if i < j {
      GapSum(m, md, i, j - 1);
      assert Entry(m, md, j - 1) + MINFUNC <= Entry(m, md, j - 1 + 1);
    }
  }

  /** In a stretch of code there is room for only so many functions. */
  lemma Room(m: Memory, md: ModuleData, s: int, t: int)
    requires Gaps(m, md) && md.ftabLen >= 2 && Entry(m, md, 0) <= s <= t
    ensures var i, j := Covering(m, md, s), Covering(m, md, t);
            i <= j && (i == j || MINFUNC * (j - i - 1) < t - s)
  {
    hide Entry;
    var i, j := Covering(m, md, s), Covering(m, md, t);
    LastStarts(m, md, s, md.ftabLen - 1);
    LastStarts(m, md, t, md.ftabLen - 1);
    if j < i {
      GapSum(m, md, j + 1, i);
    } else if i < j {
      GapSum(m, md, i + 1, j);
    }
  }

  function BucketStart(md: ModuleData, b: nat): int {
    md.minpc + b * PCBUCKETSIZE
  }

  function SubbucketStart(md: ModuleData, b: nat, k: nat): int {
    BucketStart(md, b) + k * (PCBUCKETSIZE / SUBBUCKETS)
  }

  /** How far it is, in the function table, from the start of a bucket to the start of one of its parts. */
  function Distance(m: Memory, md: ModuleData, b: nat, k: nat): int
    requires md.ftabLen >= 2
  {
    Covering(m, md, SubbucketStart(md, b, k)) - Covering(m, md, BucketStart(md, b))
  }

  /** The record of a bucket has one byte for each of these distances, which is enough. */
  lemma DistanceFits(m: Memory, md: ModuleData, b: nat, k: nat)
    requires Gaps(m, md) && md.ftabLen >= 2 && Entry(m, md, 0) <= md.minpc && k < SUBBUCKETS
    ensures 0 <= Distance(m, md, b, k) <= 240
  {
    hide Entry;
    Room(m, md, BucketStart(md, b), SubbucketStart(md, b, k));
  }

  function Subbucket(m: Memory, md: ModuleData, b: nat, k: nat): Byte
    requires md.ftabLen >= 2
  {
    Distance(m, md, b, k) % 256
  }

  /** The record as the linker lays it out: the index of the function at the start of the bucket, and
      for each of its 16 parts the distance of the function at the start of the part. */
  function Bucket(m: Memory, md: ModuleData, b: nat): (record: seq<Byte>)
    requires md.ftabLen >= 2
    ensures |record| == BUCKET_RECORD
  {
    ToBytes(Covering(m, md, BucketStart(md, b)), SUBBUCKETS_OFFSET)
    + seq(SUBBUCKETS, k requires k >= 0 => Subbucket(m, md, b, k))
  }

  /** Memory holds tables as the linker builds them. */
  ghost predicate Linked(m: Memory, md: ModuleData) {
    && Closed(m, md) && Sorted(m, md) && Gaps(m, md) && md.ftabLen <= 0x1_0000_0000
    && Entry(m, md, 0) <= md.minpc
    && forall b: nat :: BucketStart(md, b) < md.maxpc ==> HasBucket(m, md, b)
  }

  predicate HasBucket(m: Memory, md: ModuleData, b: nat)
    requires md.ftabLen >= 2
  {
    var at := Wrap(md.findfunctab + b * BUCKET_RECORD);
    Mapped(m, at, BUCKET_RECORD) && Bytes(m, at, BUCKET_RECORD) == Bucket(m, md, b)
  }

  /** The hint is the function at the start of pc's part of the bucket. */
  method FindFtabIndex(m: Memory, md: ModuleData, pc: Addr) returns (r: Option<nat>)
    requires md.ftabLen >= 2
    ensures Linked(m, md) && md.minpc <= pc < md.maxpc ==>
              && r == Some(Covering(m, md, pc - (pc - md.minpc) % (PCBUCKETSIZE / SUBBUCKETS)))
  {
    hide Entry, Sorted, Gaps, Covering, Bucket, LittleEndian, SubbucketStart, BucketStart;
    var x := Wrap(pc - md.minpc);
    var bucketIndex := x / PCBUCKETSIZE;
    var subbucketIndex := x % PCBUCKETSIZE / (PCBUCKETSIZE / SUBBUCKETS);
    var ptr := Wrap(md.findfunctab + bucketIndex * BUCKET_RECORD);
    if Linked(m, md) && md.minpc <= pc < md.maxpc {
      PartOf(md, pc);
      assert HasBucket(m, md, bucketIndex);
    }
    if !Mapped(m, ptr, BUCKET_RECORD) {
      return None;
    }
    var buff := Bytes(m, ptr, BUCKET_RECORD);
    var ftabIdx: nat := LittleEndian(buff[..SUBBUCKETS_OFFSET]);
    ftabIdx := ftabIdx + buff[SUBBUCKETS_OFFSET + subbucketIndex];
    if Linked(m, md) && md.minpc <= pc < md.maxpc {
      ReadsBucket(m, md, bucketIndex, subbucketIndex);
    }
    r := Some(ftabIdx);
  }

  lemma PartOf(md: ModuleData, pc: Addr)
    requires md.minpc <= pc
    ensures var x := Wrap(pc - md.minpc);
            && SubbucketStart(md, x / PCBUCKETSIZE, x % PCBUCKETSIZE / (PCBUCKETSIZE / SUBBUCKETS))
               == pc - (pc - md.minpc) % (PCBUCKETSIZE / SUBBUCKETS)
            && BucketStart(md, x / PCBUCKETSIZE) <= pc
            && x % PCBUCKETSIZE / (PCBUCKETSIZE / SUBBUCKETS) < SUBBUCKETS
  {
    var x := Wrap(pc - md.minpc);
    assert x == pc - md.minpc;
  }

  lemma ReadsBucket(m: Memory, md: ModuleData, b: nat, k: nat)
    requires Gaps(m, md) && md.ftabLen >= 2 && Entry(m, md, 0) <= md.minpc && md.ftabLen <= 0x1_0000_0000
    requires k < SUBBUCKETS
    ensures var record := Bucket(m, md, b);
            LittleEndian(record[..SUBBUCKETS_OFFSET]) + record[SUBBUCKETS_OFFSET + k]
            == Covering(m, md, SubbucketStart(md, b, k))
  {
    hide Entry;
    var first := Covering(m, md, BucketStart(md, b));
    Widths();
    ReadsBack(first, SUBBUCKETS_OFFSET);
    DistanceFits(m, md, b, k);
    assert Bucket(m, md, b)[..SUBBUCKETS_OFFSET] == ToBytes(first, SUBBUCKETS_OFFSET);
  }

  /** With tables as the linker builds them the search only goes forward, and at most 16 steps. */
  lemma SearchIsShort(m: Memory, md: ModuleData, pc: Addr)
    requires Linked(m, md) && md.minpc <= pc < md.maxpc
    ensures var hint := Covering(m, md, pc - (pc - md.minpc) % (PCBUCKETSIZE / SUBBUCKETS));
            && hint <= Covering(m, md, pc) <= hint + 16
            && !Panics(m, md, pc, hint)
  {
    hide Entry, Sorted, HasBucket;
    var s := pc - (pc - md.minpc) % (PCBUCKETSIZE / SUBBUCKETS);
    Room(m, md, s, pc);
    LastStarts(m, md, s, md.ftabLen - 1);
  }

  // ----- functions

  /** The bytes from ptr up to the first zero byte; nothing when memory ends before it. */
  function CString(m: Memory, ptr: nat): Option<seq<Byte>>
    decreases TWO_TO_THE_64 - ptr
  {
    if ptr >= TWO_TO_THE_64 || ptr !in m then None
    else if m[ptr] == 0 then Some([])
    else
      var rest :- CString(m, ptr + 1);
      Some([m[ptr]] + rest)
  }

  /** A stretch without a zero byte is part of the string that starts there. */
  lemma {:induction false} StringIsLonger(m: Memory, ptr: nat, k: nat)
    requires Mapped(m, ptr, k) && 0 !in Bytes(m, ptr, k)
    ensures CString(m, ptr).Some? ==> |CString(m, ptr).value| >= k
    ensures ptr + k < TWO_TO_THE_64 && ptr + k in m && m[ptr + k] == 0 ==> CString(m, ptr) == Some(Bytes(m, ptr, k))
    decreases k
  {
    var bytes := Bytes(m, ptr, k);
    if k > 0 {
      var rest := Bytes(m, ptr + 1, k - 1);
      assert bytes == [m[ptr]] + rest;
      StringIsLonger(m, ptr + 1, k - 1);
      assert bytes[0] == m[ptr];
    }
  }

  /** Memory is read in pieces of 16 bytes, so the piece with the zero byte must be there as a whole. */
  function NameAt(m: Memory, ptr: nat): Option<seq<Byte>> {
    var name :- CString(m, ptr);
    if Mapped(m, ptr, (|name| / 16 + 1) * 16) then Some(name) else None
  }

  method ResolveNameoff(m: Memory, md: ModuleData, nameoff: int) returns (r: Option<seq<Byte>>)
    ensures r == NameAt(m, Wrap(md.pclntable + nameoff))
  {
    hide CString, Bytes;
    var start := Wrap(md.pclntable + nameoff);
    var ptr: nat := start;
    var raw: seq<Byte> := [];
    while true
      invariant start <= ptr && (ptr - start) % 16 == 0 && Mapped(m, start, ptr - start)
      invariant raw == Bytes(m, start, ptr - start) && 0 !in raw
      decreases TWO_TO_THE_64 - ptr
    {
      StringIsLonger(m, start, ptr - start);
      if !Mapped(m, ptr, 16) {
        return None;
      }
      var buff := Bytes(m, ptr, 16);
      for i := 0 to 16
        invariant 0 !in buff[..i]
      {
        Joined(m, start, ptr, i);
        if buff[i] == 0 {
          StringIsLonger(m, start, ptr - start + i);
          return Some(raw + buff[..i]);
        }
        assert buff[..i + 1] == buff[..i] + [buff[i]];
      }
      Joined(m, start, ptr, 16);
      assert buff[..16] == buff;
      raw := raw + buff;
      ptr := ptr + 16;
    }
  }

  lemma Joined(m: Memory, start: nat, ptr: nat, i: nat)
    requires start <= ptr && Mapped(m, start, ptr - start) && Mapped(m, ptr, 16) && i <= 16
    ensures Mapped(m, start, ptr - start + i)
    ensures Bytes(m, start, ptr - start + i) == Bytes(m, start, ptr - start) + Bytes(m, ptr, 16)[..i]
    ensures i == 16 ==> Mapped(m, start, ptr - start + 16)
  {
  }

  /** The runtime's record of the function of a table element. */
  function Record(m: Memory, md: ModuleData, i: int): Option<seq<Byte>> {
    var at := Wrap(md.pclntable + Functab(m, md, i).1);
    if Mapped(m, at, FUNC_RECORD) then Some(Bytes(m, at, FUNC_RECORD)) else None
  }

  function Field32(record: seq<Byte>, offset: nat): int
    requires offset + 4 <= |record|
  {
    Signed(LittleEndian(record[offset..offset + 4]), 4)
  }

  /** What a record says; a negative size of the arguments is one the assembler was not told. */
  function Described(m: Memory, md: ModuleData, record: seq<Byte>, end: Addr): Option<Function>
    requires |record| == FUNC_RECORD
  {
    var args := Field32(record, 12);
    var name :- NameAt(m, Wrap(md.pclntable + Field32(record, 8)));
    Some(Function(name, Word64(record[..8]), end, (if args < 0 then 0 else args) / 8))
  }

  function FunctionAt(m: Memory, md: ModuleData, i: int): Option<Function> {
    var record :- Record(m, md, i);
    Described(m, md, record, EndAddr(m, md, i))
  }

  predicate InRange(md: ModuleData, pc: Addr) {
    md.minpc <= pc < md.maxpc
  }

  function Home(mds: seq<ModuleData>, pc: Addr): (md: Option<ModuleData>)
    ensures md.Some? ==> md.value in mds && InRange(md.value, pc)
  {
    if mds == [] then None else if InRange(mds[0], pc) then Some(mds[0]) else Home(mds[1..], pc)
  }

  /** The whole lookup in simple terms: of the first module with pc in its range, the function that covers
      pc. */
  function Lookup(m: Memory, mds: seq<ModuleData>, pc: Addr): Option<Function> {
    var md :- Home(mds, pc);
    if md.ftabLen < 2 then None else FunctionAt(m, md, Covering(m, md, pc))
  }

  method FindModuleDataByPC(mds: seq<ModuleData>, pc: Addr) returns (md: Option<ModuleData>)
    ensures md == Home(mds, pc)
  {
    for k := 0 to |mds|
      invariant Home(mds, pc) == Home(mds[k..], pc)
    {
      if mds[k].minpc <= pc && pc < mds[k].maxpc {
        return Some(mds[k]);
      }
      assert mds[k..][1..] == mds[k + 1..];
    }
    return None;
  }

  datatype Outcome<T> = Found(found: T) | NotFound | Panic

  method FindFuncType(m: Memory, md: ModuleData, pc: Addr) returns (r: Outcome<(seq<Byte>, Addr)>)
    requires Closed(m, md) && InRange(md, pc)
    ensures r.Found? ==> |r.found.0| == FUNC_RECORD
    ensures r.Found? ==>
              exists i :: Covers(m, md, i, pc) && Record(m, md, i) == Some(r.found.0) && EndAddr(m, md, i) == r.found.1
    ensures Linked(m, md) ==>
              var i := Covering(m, md, pc);
              r == if Record(m, md, i).None? then NotFound else Found((Record(m, md, i).value, EndAddr(m, md, i)))
  {
    hide Entry, Functab, Record, Sorted, Gaps, Covering;
    var hint := FindFtabIndex(m, md, pc);
    if hint.None? {
      return NotFound;
    }
    var index := AdjustFtabIndex(m, md, pc, hint.value);
    if Linked(m, md) {
      SearchIsShort(m, md, pc);
      FirstEntry(m, md, pc);
    }
    if index.None? {
      return Panic;
    }
    var i := index.value;
    var at := Wrap(md.pclntable + Functab(m, md, i).1);
    RecordIs(m, md, i);
    if !Mapped(m, at, FUNC_RECORD) {
      return NotFound;
    }
    r := Found((Bytes(m, at, FUNC_RECORD), EndAddr(m, md, i)));
  }

  lemma RecordIs(m: Memory, md: ModuleData, i: int)
    ensures var at := Wrap(md.pclntable + Functab(m, md, i).1);
            Record(m, md, i) == if Mapped(m, at, FUNC_RECORD) then Some(Bytes(m, at, FUNC_RECORD)) else None
  {
  }

  lemma FirstEntry(m: Memory, md: ModuleData, pc: Addr)
    requires Linked(m, md) && InRange(md, pc)
    ensures forall i :: Covers(m, md, i, pc) <==> i == Covering(m, md, pc)
  {
    hide Entry, Covers, Covering, HasBucket;
    forall i
      ensures Covers(m, md, i, pc) <==> i == Covering(m, md, pc)
    {
      CoveringCovers(m, md, pc, i);
    }
  }

  /** The function found covers pc, whatever the bucket table says; with tables as the linker builds them
      the lookup is the simple one and never panics. */
  method FindFunctionByModuleData(m: Memory, mds: seq<ModuleData>, pc: Addr) returns (r: Outcome<Function>)
    requires forall md :: md in mds ==> Closed(m, md)
    ensures r.Found? ==>
              exists md, i :: Home(mds, pc) == Some(md) && Covers(m, md, i, pc) && FunctionAt(m, md, i) == Some(r.found)
    ensures (forall md :: md in mds ==> Linked(m, md)) ==>
              r == if Lookup(m, mds, pc).None? then NotFound else Found(Lookup(m, mds, pc).value)
  {
    hide Closed, Linked, Covers, Covering, Record, EndAddr;
    var md := FindModuleDataByPC(mds, pc);
    if md.None? {
      return NotFound;
    }
    var t := FindFuncType(m, md.value, pc);
    if Linked(m, md.value) {
      assert md.value.ftabLen >= 2 by { TwoEntries(m, md.value); }
    }
    match t {
      case NotFound => return NotFound;
      case Panic => return Panic;
      case Found(ft) =>
        var (record, end) := ft;
        var entry := Word64(record[..8]);
        var nameoff := Field32(record, 8);
        var args := Field32(record, 12);
        if args < 0 {
          args := 0;
        }
        var name := ResolveNameoff(m, md.value, nameoff);
        if name.None? {
          return NotFound;
        }
        r := Found(Function(name.value, entry, end, args / 8));
    }
  }

  lemma TwoEntries(m: Memory, md: ModuleData)
    requires Linked(m, md)
    ensures md.ftabLen >= 2
  {
  }

  // ----- what the tables say is what is found

  /** A signed number of 32 bits, as it lies in memory. */
  function Int32Bytes(n: int): (bytes: seq<Byte>)
    requires -0x8000_0000 <= n < 0x8000_0000
    ensures |bytes| == 4
  {
    ToBytes(if n < 0 then n + 0x1_0000_0000 else n, 4)
  }

  lemma Int32Back(n: int)
    requires -0x8000_0000 <= n < 0x8000_0000
    ensures Signed(LittleEndian(Int32Bytes(n)), 4) == n
  {
    Widths();
    ReadsBack(if n < 0 then n + 0x1_0000_0000 else n, 4);
  }

  /** The element of the function table: the entry, and where the record is. */
  predicate ElementLies(m: Memory, md: ModuleData, k: int, entry: Addr, funcoff: Addr) {
    var at := Wrap(md.ftab + k * 16);
    Mapped(m, at, 16) && Bytes(m, at, 16) == ToBytes(entry, 8) + ToBytes(funcoff, 8)
  }

  lemma ReadsElement(m: Memory, md: ModuleData, k: int, entry: Addr, funcoff: Addr)
    requires ElementLies(m, md, k, entry, funcoff)
    ensures Functab(m, md, k) == (entry, funcoff) && Entry(m, md, k) == entry
  {
    hide Mapped, ToBytes, LittleEndian;
    Widths();
    ReadsBack(entry, 8);
    ReadsBack(funcoff, 8);
    var bytes := ToBytes(entry, 8) + ToBytes(funcoff, 8);
    assert bytes[..8] == ToBytes(entry, 8) && bytes[8..] == ToBytes(funcoff, 8);
  }

  /** The runtime's record: the entry, the offset of the name, the size of the arguments, and more. */
  predicate RecordLies(m: Memory, at: Addr, entry: Addr, nameoff: int, args: int, more: seq<Byte>)
    requires -0x8000_0000 <= nameoff < 0x8000_0000 && -0x8000_0000 <= args < 0x8000_0000
  {
    Mapped(m, at, 40) && Bytes(m, at, 40) == ToBytes(entry, 8) + Int32Bytes(nameoff) + Int32Bytes(args) + more
  }

  lemma ReadsRecord(record: seq<Byte>, entry: Addr, nameoff: int, args: int, more: seq<Byte>)
    requires -0x8000_0000 <= nameoff < 0x8000_0000 && -0x8000_0000 <= args < 0x8000_0000 && |record| == 40
    requires record == ToBytes(entry, 8) + Int32Bytes(nameoff) + Int32Bytes(args) + more
    ensures Word64(record[..8]) == entry && Field32(record, 8) == nameoff && Field32(record, 12) == args
  {
    hide ToBytes, LittleEndian, Int32Bytes, Signed;
    Widths();
    ReadsBack(entry, 8);
    Int32Back(nameoff);
    Int32Back(args);
    assert record[..8] == ToBytes(entry, 8);
    assert record[8..12] == Int32Bytes(nameoff) && record[12..16] == Int32Bytes(args);
  }

  /** The name ends with a zero byte, and the piece of 16 bytes with that byte is there. */
  predicate NameLies(m: Memory, at: Addr, name: seq<Byte>) {
    && Mapped(m, at, (|name| / 16 + 1) * 16) && Mapped(m, at, |name| + 1)
    && Bytes(m, at, |name| + 1) == name + [0] && 0 !in name
  }

  lemma ReadsName(m: Memory, at: Addr, name: seq<Byte>)
    requires NameLies(m, at, name)
    ensures NameAt(m, at) == Some(name)
  {
    hide CString;
    var bytes := Bytes(m, at, |name| + 1);
    assert bytes[|name|] == m[at + |name|] == 0;
    assert Bytes(m, at, |name|) == bytes[..|name|] == name;
    StringIsLonger(m, at, |name|);
  }

  lemma {:induction false} FirstHome(mds: seq<ModuleData>, k: nat, pc: Addr)
    requires k < |mds| && InRange(mds[k], pc) && forall j :: 0 <= j < k ==> !InRange(mds[j], pc)
    ensures Home(mds, pc) == Some(mds[k])
  {
    if k > 0 {
      FirstHome(mds[1..], k - 1, pc);
    }
  }

  /** Main result: the function found is the one that the tables of the first module with pc in its range describe:
      its record's entry, the start of the next function, the name, and the size of the arguments in words. */
  lemma LookupReads(m: Memory, mds: seq<ModuleData>, k: nat, pc: Addr, i: int, entry: Addr, next: Addr, funcoff: Addr,
                    other: Addr, start: Addr, nameoff: int, args: int, more: seq<Byte>, name: seq<Byte>)
    requires k < |mds| && InRange(mds[k], pc) && forall j :: 0 <= j < k ==> !InRange(mds[j], pc)
    requires Linked(m, mds[k]) && 0 <= i < mds[k].ftabLen - 1
    requires ElementLies(m, mds[k], i, entry, funcoff) && ElementLies(m, mds[k], i + 1, next, other)
    requires entry <= pc < next
    requires -0x8000_0000 <= nameoff < 0x8000_0000 && -0x8000_0000 <= args < 0x8000_0000
    requires RecordLies(m, Wrap(mds[k].pclntable + funcoff), start, nameoff, args, more)
    requires NameLies(m, Wrap(mds[k].pclntable + nameoff), name)
    ensures Lookup(m, mds, pc) == Some(Function(name, start, next, if args < 0 then 0 else args / 8))
  {
    hide Functab, Linked, Covering, NameAt, ToBytes, Int32Bytes, Field32, Mapped, NameLies, ElementLies;
    var md := mds[k];
    FirstHome(mds, k, pc);
    ReadsElement(m, md, i, entry, funcoff);
    ReadsElement(m, md, i + 1, next, other);
    FirstEntry(m, md, pc);
    assert Covers(m, md, i, pc);
    ReadsRecord(Bytes(m, Wrap(md.pclntable + funcoff), 40), start, nameoff, args, more);
    ReadsName(m, Wrap(md.pclntable + nameoff), name);
    TwoEntries(m, md);
  }

  // ----- a function found is found again

  /** The records repeat the entry of their table element, and modules do not overlap. */
  ghost predicate Consistent(m: Memory, mds: seq<ModuleData>) {
    && (forall md :: md in mds ==> Linked(m, md) && Entry(m, md, 0) == md.minpc)
    && (forall md, i :: md in mds && 0 <= i < md.ftabLen - 1 && Record(m, md, i).Some? ==>
                          Word64(Record(m, md, i).value[..8]) == Entry(m, md, i))
    && (forall md1, md2, pc :: md1 in mds && md2 in mds && InRange(md1, pc) && InRange(md2, pc) ==> md1 == md2)
  }

  lemma {:induction false} OnlyHome(mds: seq<ModuleData>, md: ModuleData, pc: Addr)
    requires md in mds && InRange(md, pc)
    requires forall md2 :: md2 in mds && InRange(md2, pc) ==> md2 == md
    ensures Home(mds, pc) == Some(md)
  {
    if mds[0] != md {
      OnlyHome(mds[1..], md, pc);
    }
  }

  /** The function found contains pc, and looking up its start finds it again. */
  lemma FoundAgain(m: Memory, mds: seq<ModuleData>, pc: Addr)
    requires Consistent(m, mds) && Lookup(m, mds, pc).Some?
    ensures var f := Lookup(m, mds, pc).value;
            f.start <= pc < f.end && Lookup(m, mds, f.start) == Some(f)
  {
    hide Functab, Gaps, HasBucket;
    var md := Home(mds, pc).value;
    var i := Covering(m, md, pc);
    var start := Entry(m, md, i);
    CoveringCovers(m, md, pc, i);
    assert Entry(m, md, 0) <= start;
    assert InRange(md, start);
    OnlyHome(mds, md, start);
    CoveringCovers(m, md, start, i);
  }

  function Text(bytes: seq<Byte>): string {
    seq(|bytes|, k requires 0 <= k < |bytes| => bytes[k] as char)
  }

  function FindIn(m: Memory, mds: seq<ModuleData>, pc: Addr): Option<TraceModel.Func> {
    var f :- Lookup(m, mds, pc);
    Some(TraceModel.Func(Text(f.name), f.start, f.end))
  }

  /** What the tracer's state machine assumes of function lookup holds of this one. */
  lemma LookupIsWellFormed(m: Memory, mds: seq<ModuleData>, p: TraceModel.Program)
    requires Consistent(m, mds) && forall pc: Addr :: p.find(pc) == FindIn(m, mds, pc)
    ensures TraceModel.WellFormed(p)
  {
    hide Lookup, Consistent;
    forall pc: Addr | p.find(pc).Some?
      ensures p.find(p.find(pc).value.start) == p.find(pc)
    {
      FoundAgain(m, mds, pc);
    }
  }
}
