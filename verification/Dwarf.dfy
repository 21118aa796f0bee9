/** Locations of parameters in the debug information: signed LEB128 numbers, location descriptions and
    location lists (sections 7.6, 2.6.1, 2.6.2 and 7.7.3 of DWARF version 4). */
module Dwarf {
  import opened Base
  import opened Words

  const OP_CALL_FRAME_CFA: Byte := 0x9c
  const OP_FBREG: Byte := 0x91

  // ----- arithmetic modulo a power of two

  function Pow2(k: nat): (p: nat)
    ensures p > 0
  {
    if k == 0 then 1 else 2 * Pow2(k - 1)
  }

  lemma {:induction false} Pow2Sum(i: nat, j: nat)
    ensures Pow2(i + j) == Pow2(i) * Pow2(j)
  {
    if i > 0 {
      Pow2Sum(i - 1, j);
    }
  }

  lemma SevenMore(i: nat)
    ensures Pow2(7 * (i + 1)) == 128 * Pow2(7 * i)
  {
    var k := 7 * i;
    assert Pow2(k + 7) == 2 * Pow2(k + 6) && Pow2(k + 6) == 2 * Pow2(k + 5) && Pow2(k + 5) == 2 * Pow2(k + 4);
    assert Pow2(k + 4) == 2 * Pow2(k + 3) && Pow2(k + 3) == 2 * Pow2(k + 2) && Pow2(k + 2) == 2 * Pow2(k + 1);
  }

  lemma RemainderIs(x: int, m: nat, q: int, r: int)
    requires m > 0 && x == m * q + r && 0 <= r < m
    ensures x % m == r
  {
    assert x == m * (x / m) + x % m;
    assert m * (q - x / m) == x % m - r;
    MulBounds(m, q - x / m);
  }

  /** Numbers that differ by a multiple of the modulus have the same remainder. */
  lemma SameRemainder(a: int, b: int, k: int, m: nat)
    requires m > 0 && a == b + m * k
    ensures a % m == b % m
  {
    assert a == m * (b / m + k) + b % m;
    RemainderIs(a, m, b / m + k, b % m);
  }

  lemma SumOfRemainders(a: int, b: int, m: nat)
    requires m > 0
    ensures (a % m + b % m) % m == (a + b) % m
  {
    assert a + b == a % m + b % m + m * (a / m + b / m);
    SameRemainder(a + b, a % m + b % m, a / m + b / m, m);
  }

  /** A uint64 shifted to the left: bits leave at the top, and after 64 places nothing is left. */
  function Shl(x: Addr, k: nat): Addr {
    if k >= 64 then 0 else Wrap(x * Pow2(k))
  }

  lemma {:induction false} ShlIsProduct(x: Addr, k: nat)
    ensures Shl(x, k) == Wrap(x * Pow2(k))
  {
    if k >= 64 {
      Pow2Sum(64, k - 64);
      Pow2Is64();
      assert x * Pow2(k) == 0 + TWO_TO_THE_64 * (x * Pow2(k - 64));
      SameRemainder(x * Pow2(k), 0, x * Pow2(k - 64), TWO_TO_THE_64);
    }
  }

  lemma Pow2Is64()
    ensures Pow2(64) == TWO_TO_THE_64
  {
    assert Pow2(8) == 256;
    Pow2Sum(8, 8);
    assert Pow2(16) == 0x1_0000;
    Pow2Sum(16, 16);
    assert Pow2(32) == 0x1_0000_0000;
    Pow2Sum(32, 32);
  }

  // ----- signed LEB128

  /** The number a terminated encoding stands for: seven bits a byte, the last one with a sign. */
  function Sleb(bytes: seq<Byte>): Option<int> {
    if bytes == [] then None
    else if bytes[0] < 64 then Some(bytes[0])
    else if bytes[0] < 128 then Some(bytes[0] as int - 128)
    else
      var rest :- Sleb(bytes[1..]);
      Some(bytes[0] as int - 128 + 128 * rest)
  }

  function Magnitude(n: int): nat {
    if n < 0 then -(n + 1) else n
  }

  /** The encoding of Appendix C: no more bytes than needed. */
  function EncodeSleb(n: int): (bytes: seq<Byte>)
    decreases Magnitude(n)
  {
    if -64 <= n < 64 then [n % 128] else [128 + n % 128] + EncodeSleb(n / 128)
  }

  lemma {:induction false} SlebInverts(n: int, rest: seq<Byte>)
    ensures Sleb(EncodeSleb(n) + rest) == Some(n)
    decreases Magnitude(n)
  {
    if -64 <= n < 64 {
      assert (EncodeSleb(n) + rest)[0] == n % 128;
    } else {
      SlebInverts(n / 128, rest);
      var all, more := EncodeSleb(n) + rest, EncodeSleb(n / 128) + rest;
      assert all[0] == 128 + n % 128 && all[1..] == more;
      assert n == n % 128 + 128 * (n / 128);
    }
  }

  /** The bitwise or. */
  function Or(a: nat, b: nat): nat {
    if a == 0 then b
    else if b == 0 then a
    else 2 * Or(a / 2, b / 2) + (if a % 2 == 1 || b % 2 == 1 then 1 else 0)
  }

  /** Bits above all bits of a number. */
  lemma {:induction false} OrIsSum(a: nat, c: nat, k: nat)
    requires a < Pow2(k)
    ensures Or(a, c * Pow2(k)) == a + c * Pow2(k)
  {
    if k == 0 {
      assert Pow2(0) == 1;
    } else if a != 0 && c * Pow2(k) != 0 {
      Doubled(c, Pow2(k - 1));
      OrIsSum(a / 2, c, k - 1);
    }
  }

  lemma Doubled(c: nat, p: nat)
    ensures c * (2 * p) == 2 * (c * p)
  {
  }

  /** The bits a shift leaves in the word are above those that came before, so that the or is the sum. */
  lemma OrOfShifted(val: Addr, b: Byte, i: nat)
    requires val < Pow2(7 * i) && b < 128
    ensures Or(val, Shl(b, 7 * i)) == Wrap(val + Shl(b, 7 * i)) < Pow2(7 * (i + 1))
  {
    hide Or, Pow2, Shl, Wrap;
    SevenMore(i);
    if 7 * i >= 64 {
      OrZero(val, b, 7 * i);
    } else {
      OrInWord(val, b, 7 * i);
    }
  }

  lemma OrInWord(val: Addr, b: Byte, k: nat)
    requires val < Pow2(k) && b < 128 && k < 64
    ensures Or(val, Shl(b, k)) == Wrap(val + Shl(b, k)) < 128 * Pow2(k)
  {
    hide Or, Pow2;
    var p, q := Pow2(k), Pow2(64 - k);
    Pow2Sum(k, 64 - k);
    Pow2Is64();
    MultipleRemains(b, p, q);
    OrIsSum(val, b % q, k);
    BelowProduct(val, b % q, p, q);
    BelowProduct(val, b % q, p, 128);
    RemainderIs(val + b % q * p, TWO_TO_THE_64, 0, val + b % q * p);
  }

  lemma OrZero(val: Addr, b: Byte, k: nat)
    requires k >= 64
    ensures Or(val, Shl(b, k)) == Wrap(val + Shl(b, k)) == val
  {
  }

  lemma MultipleRemains(b: nat, p: nat, q: nat)
    requires p > 0 && q > 0 && p * q == TWO_TO_THE_64
    ensures Wrap(b * p) == b % q * p
    ensures b % q <= b
  {
    assert b == q * (b / q) + b % q;
    assert b * p == p * q * (b / q) + b % q * p;
    BelowProduct(0, b % q, p, q);
    RemainderIs(b * p, p * q, b / q, b % q * p);
  }

  lemma BelowProduct(a: nat, c: nat, p: nat, q: nat)
    requires a < p && c < q
    ensures a + c * p < p * q
  {
    assert p * q == p * (q - 1 - c) + p + c * p;
  }

  function Int64(x: int): int {
    Signed(Wrap(x), 8)
  }

  /** Any terminated encoding, however long, yields the number it stands for as an int64. Without a last
      byte the result is None: an index out of range. */
  method DecodeSignedLEB128(input: seq<Byte>) returns (r: Option<int>)
    ensures r == if Sleb(input).None? then None else Some(Int64(Sleb(input).value))
  {
    hide Sleb, Pow2, Shl, Wrap, Signed, Or;
    var val: Addr := 0;
    ghost var sum := 0;
    var i := 0;
    Start(input);
    while i < |input| && input[i] >= 128
      invariant 0 <= i <= |input|
      invariant val == Wrap(sum) && val < Pow2(7 * i)
      invariant Sleb(input) == From(input, i, sum)
    {
      AddByte(sum, input[i] % 128, i);
      OrOfShifted(val, input[i] % 128, i);
      ByteStep(input, i, sum);
      val := Or(val, Shl(input[i] % 128, 7 * i));
      sum := sum + input[i] % 128 * Pow2(7 * i);
      i := i + 1;
    }
    Ends(input, i, sum);
    if i == |input| {
      return None;
    }
    AddByte(sum, input[i] % 128, i);
    OrOfShifted(val, input[i] % 128, i);
    LastByte(sum, input[i], Pow2(7 * i), i);
    val := Or(val, Shl(input[i] % 128, 7 * i));
    if input[i] / 64 % 2 == 1 {
      return Some(Signed(Wrap(Shl(TWO_TO_THE_64 - 1, (i + 1) * 7) + val), 8));
    }
    r := Some(Signed(val, 8));
  }

  /** The number of the whole encoding, when the bytes before the i-th add up to sum. */
  function From(input: seq<Byte>, i: nat, sum: int): Option<int>
    requires i <= |input|
  {
    var rest :- Sleb(input[i..]);
    Some(sum + Pow2(7 * i) * rest)
  }

  lemma Start(input: seq<Byte>)
    ensures Sleb(input) == From(input, 0, 0) && Wrap(0) == 0
  {
    assert input[0..] == input;
  }

  lemma Ends(input: seq<Byte>, i: nat, sum: int)
    requires i <= |input| && (i < |input| ==> input[i] < 128)
    ensures From(input, i, sum)
            == if i == |input| then None
               else
                 Some(sum + Pow2(7 * i) * (if input[i] / 64 % 2 == 1 then input[i] as int - 128 else input[i] as int))
  {
  }

  lemma AddByte(sum: int, b: Byte, i: nat)
    requires b < 128
    ensures Wrap(Wrap(sum) + Shl(b, 7 * i)) == Wrap(sum + b * Pow2(7 * i))
  {
    ShlIsProduct(b, 7 * i);
    SumOfRemainders(sum, b * Pow2(7 * i), TWO_TO_THE_64);
  }

  lemma ByteStep(input: seq<Byte>, i: nat, sum: int)
    requires i < |input| && input[i] >= 128
    ensures From(input, i, sum) == From(input, i + 1, sum + input[i] % 128 * Pow2(7 * i))
  {
    assert input[i..][1..] == input[i + 1..];
    SevenMore(i);
    if Sleb(input[i + 1..]).Some? {
      Distribute(Pow2(7 * i), input[i] as int - 128, Sleb(input[i + 1..]).value);
    }
  }

  lemma Distribute(p: int, b: int, v: int)
    ensures p * (b + 128 * v) == b * p + 128 * p * v
  {
  }

  /** The sign of the last byte, also when its place is beyond the word. */
  lemma LastByte(sum: int, b: Byte, p: nat, i: nat)
    requires b < 128 && p == Pow2(7 * i)
    ensures Wrap(Shl(TWO_TO_THE_64 - 1, (i + 1) * 7) + Wrap(sum + b % 128 * p)) == Wrap(sum + p * (b as int - 128))
    ensures sum + b % 128 * p == sum + p * (b as int)
  {
    var total := sum + b % 128 * p;
    SevenMore(i);
    ShlIsProduct(TWO_TO_THE_64 - 1, (i + 1) * 7);
    SumOfRemainders((TWO_TO_THE_64 - 1) * (128 * p), total, TWO_TO_THE_64);
    Distribute(p, b as int, -1);
    SameRemainder((TWO_TO_THE_64 - 1) * (128 * p) + total, sum + p * (b as int - 128), 128 * p, TWO_TO_THE_64);
  }

  lemma Int64Of(n: int)
    requires -0x8000_0000_0000_0000 <= n < 0x8000_0000_0000_0000
    ensures Int64(n) == n
  {
    Widths();
    if n < 0 {
      RemainderIs(n, TWO_TO_THE_64, -1, n + TWO_TO_THE_64);
    }
  }

  /** Every int64 comes back from its encoding, whatever follows it. */
  lemma EveryInt64ComesBack(n: int, rest: seq<Byte>)
    requires -0x8000_0000_0000_0000 <= n < 0x8000_0000_0000_0000
    ensures Sleb(EncodeSleb(n) + rest).Some? && Int64(Sleb(EncodeSleb(n) + rest).value) == n
  {
    SlebInverts(n, rest);
    Int64Of(n);
  }

  // ----- what the number is, digit by digit

  /** Every byte but the last says that there is another one. */
  predicate Terminated(bytes: seq<Byte>) {
    && bytes != [] && bytes[|bytes| - 1] < 128
    && forall i :: 0 <= i < |bytes| - 1 ==> bytes[i] >= 128
  }

  /** The k-th byte holds the k-th digit to base 128. */
  lemma {:induction false} SlebDigit(bytes: seq<Byte>, rest: seq<Byte>, k: nat)
    requires Terminated(bytes) && k < |bytes|
    ensures Sleb(bytes + rest).Some? && Sleb(bytes + rest).value / Pow2(7 * k) % 128 == bytes[k] % 128
  {
    hide Pow2, Sleb;
    assert (bytes + rest)[0] == bytes[0];
    NoPower();
    if |bytes| == 1 {
      SlebLast(bytes + rest);
    } else {
      assert (bytes + rest)[1..] == bytes[1..] + rest;
      SlebDigit(bytes[1..], rest, if k == 0 then 0 else k - 1);
      SlebFirst(bytes + rest);
      if k > 0 {
        SevenMore(k - 1);
        DivideTwice(Sleb(bytes + rest).value, 128, Pow2(7 * (k - 1)));
      }
    }
  }

  /** The number fits into the bits that are there. This and its digits determine it. */
  lemma {:induction false} SlebFits(bytes: seq<Byte>, rest: seq<Byte>)
    requires Terminated(bytes)
    ensures Sleb(bytes + rest).Some?
    ensures 0 - Pow2(7 * |bytes|) <= 2 * Sleb(bytes + rest).value < Pow2(7 * |bytes|)
  {
    hide Pow2, Sleb;
    assert (bytes + rest)[0] == bytes[0];
    NoPower();
    SevenMore(|bytes| - 1);
    if |bytes| == 1 {
      SlebLast(bytes + rest);
    } else {
      assert (bytes + rest)[1..] == bytes[1..] + rest;
      SlebFits(bytes[1..], rest);
      SlebFirst(bytes + rest);
      SevenMore(|bytes| - 2);
    }
  }

  lemma NoPower()
    ensures Pow2(7 * 0) == 1
  {
  }

  lemma SlebLast(bytes: seq<Byte>)
    requires bytes != [] && bytes[0] < 128
    ensures Sleb(bytes).Some? && -64 <= Sleb(bytes).value < 64 && Sleb(bytes).value % 128 == bytes[0] % 128
  {
  }

  lemma SlebFirst(bytes: seq<Byte>)
    requires bytes != [] && bytes[0] >= 128 && Sleb(bytes[1..]).Some?
    ensures Sleb(bytes).Some? && Sleb(bytes).value == 128 * Sleb(bytes[1..]).value + bytes[0] % 128
    ensures Sleb(bytes).value / 128 == Sleb(bytes[1..]).value
    ensures Sleb(bytes).value % 128 == bytes[0] % 128
  {
    QuotientIs(Sleb(bytes).value, 128, Sleb(bytes[1..]).value, bytes[0] % 128);
  }

  /** Without a last byte there is no number. */
  lemma {:induction false} SlebNeedsAnEnd(bytes: seq<Byte>)
    ensures Sleb(bytes).None? <==> forall i :: 0 <= i < |bytes| ==> bytes[i] >= 128
  {
    if bytes != [] {
      SlebNeedsAnEnd(bytes[1..]);
      assert forall i :: 0 < i < |bytes| ==> bytes[i] == bytes[1..][i - 1];
      assert forall i :: 0 <= i < |bytes[1..]| ==> bytes[1..][i] == bytes[i + 1];
    }
  }

  // ----- location descriptions

  datatype Location = Offset(offset: int) | Empty | Unknown(operation: Byte) | Truncated

  /** The frame base is always the CFA, so an offset from one is an offset from the other. */
  method ParseLocationDesc(loc: seq<Byte>) returns (r: Location)
    ensures loc == [] ==> r == Empty
    ensures loc != [] && loc[0] == OP_CALL_FRAME_CFA ==> r == Offset(0)
    ensures loc != [] && loc[0] == OP_FBREG ==>
              r == if Sleb(loc[1..]).None? then Truncated else Offset(Int64(Sleb(loc[1..]).value))
    ensures loc != [] && loc[0] != OP_CALL_FRAME_CFA && loc[0] != OP_FBREG ==> r == Unknown(loc[0])
  {
    if |loc| == 0 {
      return Empty;
    }
    match loc[0] {
      case 0x9c => r := Offset(0);
      case 0x91 =>
        var offset := DecodeSignedLEB128(loc[1..]);
        r := if offset.None? then Truncated else Offset(offset.value);
      case _ => r := Unknown(loc[0]);
    }
  }

  // ----- location lists

  datatype Entry = Entry(beginOffset: int, endOffset: int, locationDesc: seq<Byte>)

  datatype LocationList = LocationList(baseAddress: Addr, entries: seq<Entry>)

  function WordAt(data: seq<Byte>, offset: nat): Addr
    requires offset + 8 <= |data|
  {
    Word64(data[offset..offset + 8])
  }

  const NO_OFFSET: Addr := TWO_TO_THE_64 - 1

  /** What is read from offset on, after the part of the list in `read`; None is a slice out of range. */
  function Build(data: seq<Byte>, offset: nat, read: LocationList): Option<LocationList>
    decreases |data| - offset
  {
    if offset + 16 > |data| then None
    else
      var begin, end := WordAt(data, offset), WordAt(data, offset + 8);
      if begin == 0 && end == 0 then Some(read)
      else if begin == NO_OFFSET then Build(data, offset + 16, read.(baseAddress := end))
      else if offset + 18 > |data| then None
      else
        var len := LittleEndian(data[offset + 16..offset + 18]);
        if offset + 18 + len > |data| then None
        else
          var entry := Entry(Signed(begin, 8), Signed(end, 8), data[offset + 18..offset + 18 + len]);
          Build(data, offset + 18 + len, read.(entries := read.entries + [entry]))
  }

  method BuildLocationList(data: seq<Byte>, start: nat) returns (r: Option<LocationList>)
    ensures r == Build(data, start, LocationList(0, []))
  {
    hide WordAt, LittleEndian, Signed;
    var offset := start;
    var locList := LocationList(0, []);
    while true
      invariant Build(data, offset, locList) == Build(data, start, LocationList(0, []))
      decreases |data| - offset
    {
      if offset + 16 > |data| {
        return None;
      }
      var beginOffset := WordAt(data, offset);
      var endOffset := WordAt(data, offset + 8);
      if beginOffset == 0 && endOffset == 0 {
        return Some(locList);
      } else if beginOffset == NO_OFFSET {
        locList := locList.(baseAddress := endOffset);
        offset := offset + 16;
      } else {
        if offset + 18 > |data| {
          return None;
        }
        var locationDescLen := LittleEndian(data[offset + 16..offset + 18]);
        if offset + 18 + locationDescLen > |data| {
          return None;
        }
        var locationDesc := data[offset + 18..offset + 18 + locationDescLen];
        var entry := Entry(Signed(beginOffset, 8), Signed(endOffset, 8), locationDesc);
        locList := locList.(entries := locList.entries + [entry]);
        offset := offset + 18 + locationDescLen;
      }
    }
  }

  /** An item of a list as it stands in the section: a base address selection or a location. */
  datatype Item = Base(address: Addr) | Location(entry: Entry)

  /** What can stand in a list: offsets that are int64 and not both zero, the first of them not the one of all
      ones that selects a base address, and a description shorter than 2^16 bytes. */
  predicate ItemOk(item: Item) {
    item.Location? ==>
      && InRange(item.entry.beginOffset, 8) && InRange(item.entry.endOffset, 8)
      && item.entry.beginOffset != -1 && (item.entry.beginOffset != 0 || item.entry.endOffset != 0)
      && |item.entry.locationDesc| < 0x1_0000
  }

  function Serialize(item: Item): (bytes: seq<Byte>)
    requires ItemOk(item)
  {
    match item
    case Base(address) => ToBytes(NO_OFFSET, 8) + ToBytes(address, 8)
    case Location(e) =>
      SignedBytes(e.beginOffset, 8) + SignedBytes(e.endOffset, 8) + ToBytes(|e.locationDesc|, 2) + e.locationDesc
  }

  function SerializeList(items: seq<Item>): seq<Byte>
    requires forall i :: 0 <= i < |items| ==> ItemOk(items[i])
  {
    if items == [] then ToBytes(0, 8) + ToBytes(0, 8) else Serialize(items[0]) + SerializeList(items[1..])
  }

  /** What the items say: the last base address that was selected, and all locations in order. */
  function Meaning(items: seq<Item>, read: LocationList): LocationList {
    if items == [] then read
    else match items[0]
      case Base(address) => Meaning(items[1..], read.(baseAddress := address))
      case Location(e) => Meaning(items[1..], read.(entries := read.entries + [e]))
  }

  lemma WordReadsBack(data: seq<Byte>, offset: nat, n: Addr)
    requires offset + 8 <= |data| && data[offset..offset + 8] == ToBytes(n, 8)
    ensures WordAt(data, offset) == n
  {
    Widths();
    ReadsBack(n, 8);
  }

  /** A piece of the section. */
  predicate Lies(data: seq<Byte>, offset: nat, bytes: seq<Byte>) {
    offset + |bytes| <= |data| && data[offset..offset + |bytes|] == bytes
  }

  lemma LiesSplit(data: seq<Byte>, offset: nat, a: seq<Byte>, b: seq<Byte>)
    requires Lies(data, offset, a + b)
    ensures Lies(data, offset, a) && Lies(data, offset + |a|, b)
  {
    assert (a + b)[..|a|] == a && (a + b)[|a|..] == b;
    assert data[offset..offset + |a|] == data[offset..offset + |a + b|][..|a|];
    assert data[offset + |a|..offset + |a| + |b|] == data[offset..offset + |a + b|][|a|..];
  }

  lemma BuildEnd(data: seq<Byte>, offset: nat, read: LocationList)
    requires Lies(data, offset, ToBytes(0, 8) + ToBytes(0, 8))
    ensures Build(data, offset, read) == Some(read)
  {
    hide ToBytes, WordAt;
    LiesSplit(data, offset, ToBytes(0, 8), ToBytes(0, 8));
    WordReadsBack(data, offset, 0);
    WordReadsBack(data, offset + 8, 0);
  }

  lemma BuildItem(data: seq<Byte>, offset: nat, item: Item, read: LocationList)
    requires ItemOk(item) && Lies(data, offset, Serialize(item))
    ensures Build(data, offset, read)
            == Build(data, offset + |Serialize(item)|,
                     if item.Base? then read.(baseAddress := item.address)
                     else read.(entries := read.entries + [item.entry]))
  {
    hide ToBytes, WordAt, LittleEndian, Lies, Meaning, SignedBytes, Signed, InRange;
    match item {
      case Base(address) =>
        LiesSplit(data, offset, ToBytes(NO_OFFSET, 8), ToBytes(address, 8));
        LiesWord(data, offset, NO_OFFSET);
        LiesWord(data, offset + 8, address);
      case Location(e) =>
        var len := |e.locationDesc|;
        var b1, b2, b3 := SignedBytes(e.beginOffset, 8), SignedBytes(e.endOffset, 8), ToBytes(len, 2);
        LiesSplit(data, offset, b1 + b2 + b3, e.locationDesc);
        LiesSplit(data, offset, b1 + b2, b3);
        LiesSplit(data, offset, b1, b2);
        LiesSigned(data, offset, e.beginOffset);
        LiesSigned(data, offset + 8, e.endOffset);
        LiesDesc(data, offset + 16, e.locationDesc);
        assert Entry(e.beginOffset, e.endOffset, e.locationDesc) == e;
    }
  }

  lemma LiesWord(data: seq<Byte>, offset: nat, n: Addr)
    requires Lies(data, offset, ToBytes(n, 8))
    ensures offset + 8 <= |data| && WordAt(data, offset) == n
  {
    WordReadsBack(data, offset, n);
  }

  lemma LiesSigned(data: seq<Byte>, offset: nat, n: int)
    requires InRange(n, 8) && Lies(data, offset, SignedBytes(n, 8))
    ensures offset + 8 <= |data| && Signed(WordAt(data, offset), 8) == n
    ensures WordAt(data, offset) == 0 <==> n == 0
    ensures WordAt(data, offset) == NO_OFFSET <==> n == -1
  {
    Widths();
    SignedBack(n, 8);
  }

  lemma LiesDesc(data: seq<Byte>, offset: nat, desc: seq<Byte>)
    requires |desc| < 0x1_0000 && Lies(data, offset, ToBytes(|desc|, 2)) && Lies(data, offset + 2, desc)
    ensures offset + 2 + |desc| <= |data|
    ensures LittleEndian(data[offset..offset + 2]) == |desc| && data[offset + 2..offset + 2 + |desc|] == desc
  {
    Widths();
    ReadsBack(|desc|, 2);
  }

  /** Main result: a list that lies anywhere in the section is read back as it was written. */
  lemma {:induction false} ListReadsBack(data: seq<Byte>, offset: nat, items: seq<Item>, read: LocationList)
    requires forall i :: 0 <= i < |items| ==> ItemOk(items[i])
    requires Lies(data, offset, SerializeList(items))
    ensures Build(data, offset, read) == Some(Meaning(items, read))
    decreases |items|
  {
    hide Build, Serialize, Lies;
    if items == [] {
      BuildEnd(data, offset, read);
    } else {
      var s := Serialize(items[0]);
      LiesSplit(data, offset, s, SerializeList(items[1..]));
      BuildItem(data, offset, items[0], read);
      ListReadsBack(data, offset + |s|, items[1..],
                    if items[0].Base? then read.(baseAddress := items[0].address)
                    else read.(entries := read.entries + [items[0].entry]));
    }
  }

  /** The item at a place where the list neither ends nor leads out of the section. */
  function ItemAt(data: seq<Byte>, offset: nat): Option<Item> {
    if offset + 16 > |data| then None
    else if WordAt(data, offset) == NO_OFFSET then Some(Base(WordAt(data, offset + 8)))
    else if offset + 18 > |data| then None
    else
      var end := offset + 18 + LittleEndian(data[offset + 16..offset + 18]);
      if end > |data| then None
      else
        Some(Location(Entry(Signed(WordAt(data, offset), 8), Signed(WordAt(data, offset + 8), 8),
                            data[offset + 18..end])))
  }

  lemma WordLies(data: seq<Byte>, offset: nat)
    requires offset + 8 <= |data|
    ensures Lies(data, offset, ToBytes(WordAt(data, offset), 8))
    ensures var n := Signed(WordAt(data, offset), 8);
            && InRange(n, 8) && Lies(data, offset, SignedBytes(n, 8))
            && (n == 0 <==> WordAt(data, offset) == 0) && (n == -1 <==> WordAt(data, offset) == NO_OFFSET)
  {
    BytesBack(data[offset..offset + 8]);
    SignedBytesBack(data[offset..offset + 8]);
    Widths();
  }

  lemma LiesJoin(data: seq<Byte>, offset: nat, a: seq<Byte>, b: seq<Byte>)
    requires Lies(data, offset, a) && Lies(data, offset + |a|, b)
    ensures Lies(data, offset, a + b)
  {
    assert data[offset..offset + |a + b|] == data[offset..offset + |a|] + data[offset + |a|..offset + |a| + |b|];
  }

  lemma ItemLies(data: seq<Byte>, offset: nat)
    requires ItemAt(data, offset).Some? && (WordAt(data, offset) != 0 || WordAt(data, offset + 8) != 0)
    ensures var item := ItemAt(data, offset).value; ItemOk(item) && Lies(data, offset, Serialize(item))
  {
    hide ToBytes, WordAt, LittleEndian, Lies, SignedBytes, Signed, InRange;
    WordLies(data, offset);
    WordLies(data, offset + 8);
    if WordAt(data, offset) == NO_OFFSET {
      LiesJoin(data, offset, ToBytes(NO_OFFSET, 8), ToBytes(WordAt(data, offset + 8), 8));
    } else {
      var e := ItemAt(data, offset).value.entry;
      var b1, b2, b3 := SignedBytes(e.beginOffset, 8), SignedBytes(e.endOffset, 8), ToBytes(|e.locationDesc|, 2);
      DescLies(data, offset + 16);
      LiesJoin(data, offset, b1, b2);
      LiesJoin(data, offset, b1 + b2, b3);
      LiesJoin(data, offset, b1 + b2 + b3, e.locationDesc);
    }
  }

  lemma DescLies(data: seq<Byte>, offset: nat)
    requires offset + 2 <= |data| && offset + 2 + LittleEndian(data[offset..offset + 2]) <= |data|
    ensures var len := LittleEndian(data[offset..offset + 2]);
            && len < 0x1_0000 && Lies(data, offset, ToBytes(len, 2))
            && Lies(data, offset + 2, data[offset + 2..offset + 2 + len])
  {
    Widths();
    BytesBack(data[offset..offset + 2]);
  }

  /** Whatever is read without running out of the section is a list that lies there. */
  lemma {:induction false} ListLies(data: seq<Byte>, offset: nat, read: LocationList) returns (items: seq<Item>)
    requires Build(data, offset, read).Some?
    ensures forall i :: 0 <= i < |items| ==> ItemOk(items[i])
    ensures Lies(data, offset, SerializeList(items))
    decreases |data| - offset
  {
    hide Lies, ItemOk, Serialize, WordAt, Signed, LittleEndian, ToBytes;
    WordLies(data, offset);
    WordLies(data, offset + 8);
    items := [];
    if WordAt(data, offset) == 0 && WordAt(data, offset + 8) == 0 {
      LiesJoin(data, offset, ToBytes(0, 8), ToBytes(0, 8));
    } else {
      ItemLies(data, offset);
      var item := ItemAt(data, offset).value;
      BuildItem(data, offset, item, read);
      SerializedLength(data, offset);
      var more := ListLies(data, offset + |Serialize(item)|,
                           if item.Base? then read.(baseAddress := item.address)
                           else read.(entries := read.entries + [item.entry]));
      items := [item] + more;
      assert items[1..] == more;
      LiesJoin(data, offset, Serialize(item), SerializeList(more));
    }
  }

  lemma SerializedLength(data: seq<Byte>, offset: nat)
    requires ItemAt(data, offset).Some? && ItemOk(ItemAt(data, offset).value)
    ensures |Serialize(ItemAt(data, offset).value)| >= 16
  {
    hide ToBytes, SignedBytes, WordAt, Signed;
  }

  /** Main result: reading fails if and only if no list lies there, and otherwise yields what the list says. */
  lemma ListReadExactly(data: seq<Byte>, offset: nat, read: LocationList)
    ensures Build(data, offset, read).None? <==> !exists items :: ListAt(data, offset, items)
    ensures forall items :: ListAt(data, offset, items) ==> Build(data, offset, read) == Some(Meaning(items, read))
  {
    hide Build, Meaning, Lies, ItemOk, SerializeList;
    forall items | ListAt(data, offset, items)
      ensures Build(data, offset, read) == Some(Meaning(items, read))
    {
      ListReadsBack(data, offset, items, read);
    }
    if Build(data, offset, read).Some? {
      var items := ListLies(data, offset, read);
      assert ListAt(data, offset, items);
    }
  }

  /** The items of a list, and its end, lie one after the other. */
  predicate ListAt(data: seq<Byte>, offset: nat, items: seq<Item>) {
    (forall i :: 0 <= i < |items| ==> ItemOk(items[i])) && Lies(data, offset, SerializeList(items))
  }

  /** The order and number of the locations, and which base address stays. */
  lemma {:induction false} MeaningIs(items: seq<Item>, read: LocationList)
    ensures Meaning(items, read).entries == read.entries + Entries(items)
    ensures Meaning(items, read).baseAddress == LastBase(items, read.baseAddress)
  {
    if items != [] {
      match items[0] {
        case Base(address) => MeaningIs(items[1..], read.(baseAddress := address));
        case Location(e) => MeaningIs(items[1..], read.(entries := read.entries + [e]));
      }
      assert items == [items[0]] + items[1..];
      LastBaseStep(items, read.baseAddress);
    }
  }

  function Entries(items: seq<Item>): seq<Entry> {
    if items == [] then [] else (if items[0].Location? then [items[0].entry] else []) + Entries(items[1..])
  }

  function LastBase(items: seq<Item>, unset: Addr): Addr {
    if items == [] then unset
    else
      var last := items[|items| - 1];
      if last.Base? then last.address else LastBase(items[..|items| - 1], unset)
  }

  lemma {:induction false} LastBaseStep(items: seq<Item>, unset: Addr)
    requires items != []
    ensures LastBase(items, unset) == LastBase(items[1..], if items[0].Base? then items[0].address else unset)
    decreases |items|
  {
    var init := items[..|items| - 1];
    if |items| > 1 {
      assert items[1..][..|items| - 2] == init[1..];
      LastBaseStep(init, unset);
    }
  }
}
