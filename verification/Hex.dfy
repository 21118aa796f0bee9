/** Numbers as hexadecimal text, in either byte order. */
module Hex {
  import opened Base
  import opened Words

  const DIGITS := "0123456789abcdef"

  function Digit(d: nat): char
    requires d < 16
  {
    DIGITS[d]
  }

  /** Upper case is understood as well. */
  function DigitValue(c: char): Option<nat> {
    if '0' <= c <= '9' then Some((c - '0') as nat)
    else if 'a' <= c <= 'f' then Some((c - 'a') as nat + 10)
    else if 'A' <= c <= 'F' then Some((c - 'A') as nat + 10)
    else None
  }

  lemma DigitBack(d: nat)
    requires d < 16
    ensures DigitValue(Digit(d)) == Some(d)
  {
  }

  /** Which characters are digits, and which digits they are. */
  lemma DigitIs(c: char, d: nat)
    ensures d < 16 ==> Digit(d) == if d < 10 then '0' + d as char else 'a' + (d - 10) as char
    ensures DigitValue(c) == Some(d) <==>
              || ('0' <= c <= '9' && d == (c - '0') as nat)
              || ('a' <= c <= 'f' && d == (c - 'a') as nat + 10)
              || ('A' <= c <= 'F' && d == (c - 'A') as nat + 10)
  {
  }

  function Pow16(k: nat): (p: nat)
    ensures p > 0
  {
    if k == 0 then 1 else 16 * Pow16(k - 1)
  }

  /** The last k digits, with leading zeros. */
  function Digits(n: nat, k: nat): (s: string)
    ensures |s| == k
  {
    if k == 0 then "" else Digits(n / 16, k - 1) + [Digit(n % 16)]
  }

  /** The number the digits stand for; None if one of them is none. */
  function Number(s: string): (n: Option<nat>)
    ensures n.Some? ==> n.value < Pow16(|s|)
  {
    if s == "" then Some(0)
    else
      var high :- Number(s[..|s| - 1]);
      var low :- DigitValue(s[|s| - 1]);
      Some(16 * high + low)
  }

  /** The k-th digit from the end has the k-th power of 16 as its weight. */
  lemma {:induction false} DigitAt(s: string, k: nat)
    requires Number(s).Some? && k < |s|
    ensures DigitValue(s[|s| - 1 - k]).Some?
    ensures Number(s).value / Pow16(k) % 16 == DigitValue(s[|s| - 1 - k]).value < 16
  {
    hide DigitValue;
    var init := s[..|s| - 1];
    DigitBelow(s[|s| - 1]);
    if k == 0 {
      assert Pow16(0) == 1;
    } else {
      DigitAt(init, k - 1);
      assert Number(s).value / 16 == Number(init).value;
      DivideTwice(Number(s).value, 16, Pow16(k - 1));
    }
  }

  lemma DigitBelow(c: char)
    ensures DigitValue(c).Some? ==> DigitValue(c).value < 16
  {
  }

  /** A text has a number exactly when all its characters are digits. */
  lemma {:induction false} NumberIf(s: string)
    ensures Number(s).Some? <==> forall i :: 0 <= i < |s| ==> DigitValue(s[i]).Some?
  {
    hide DigitValue;
    if s != "" {
      NumberIf(s[..|s| - 1]);
      assert forall i :: 0 <= i < |s| - 1 ==> s[..|s| - 1][i] == s[i];
    }
  }

  /** Parsing as the library does: no empty text, and nothing that does not fit. */
  function ParseUint(s: string, limit: nat): Option<nat> {
    if s == "" || Number(s).None? || Number(s).value >= limit then None else Number(s)
  }

  predicate Lowercase(s: string) {
    forall i :: 0 <= i < |s| ==> '0' <= s[i] <= '9' || 'a' <= s[i] <= 'f'
  }

  lemma {:induction false} NumberBack(n: nat, k: nat)
    requires n < Pow16(k)
    ensures Number(Digits(n, k)) == Some(n)
  {
    if k > 0 {
      var s := Digits(n, k);
      assert s[..k - 1] == Digits(n / 16, k - 1);
      NumberBack(n / 16, k - 1);
      DigitBack(n % 16);
    }
  }

  lemma LowercaseDigit(c: char)
    requires '0' <= c <= '9' || 'a' <= c <= 'f'
    ensures DigitValue(c).Some? && DigitValue(c).value < 16 && Digit(DigitValue(c).value) == c
  {
  }

  lemma {:induction false} DigitsBack(s: string)
    requires Lowercase(s)
    ensures Number(s).Some? && Digits(Number(s).value, |s|) == s
  {
    hide DigitValue, Digit;
    if s != "" {
      var high, last := s[..|s| - 1], s[|s| - 1];
      DigitsBack(high);
      LowercaseDigit(last);
      var n := 16 * Number(high).value + DigitValue(last).value;
      assert n / 16 == Number(high).value && n % 16 == DigitValue(last).value;
      assert s == high + [last];
    }
  }

  // ----- byte order

  /** The pairs of characters in reverse order; of an odd number the first is lost. */
  function Swapped(s: string): string {
    if |s| < 2 then "" else s[|s| - 2..] + Swapped(s[..|s| - 2])
  }

  lemma {:induction false} SwappedConcat(s: string, t: string)
    requires |s| % 2 == 0 && |t| % 2 == 0
    ensures Swapped(s + t) == Swapped(t) + Swapped(s)
    decreases |t|
  {
    if t == "" {
      assert s + t == s;
    } else {
      var u := t[..|t| - 2];
      SwappedConcat(s, u);
      assert (s + t)[..|s + t| - 2] == s + u;
      assert (s + t)[|s + t| - 2..] == t[|t| - 2..];
      assert t[|t| - 2..] + (Swapped(u) + Swapped(s)) == t[|t| - 2..] + Swapped(u) + Swapped(s);
    }
  }

  lemma SwappedPair(last: string)
    requires |last| == 2
    ensures Swapped(last) == last
  {
    assert last[0..] == last && Swapped(last[..0]) == "";
  }

  lemma {:induction false} SwappedTwice(s: string)
    requires |s| % 2 == 0
    ensures Swapped(Swapped(s)) == s && |Swapped(s)| == |s|
  {
    if s != "" {
      var u, last := s[..|s| - 2], s[|s| - 2..];
      SwappedTwice(u);
      SwappedConcat(last, Swapped(u));
      SwappedPair(last);
      assert s == u + last;
    }
  }

  lemma {:induction false} SwappedLowercase(s: string)
    requires Lowercase(s)
    ensures Lowercase(Swapped(s))
  {
    if |s| >= 2 {
      SwappedLowercase(s[..|s| - 2]);
    }
  }

  method SwapPairs(hex: string) returns (reversed: string)
    ensures reversed == Swapped(hex)
  {
    reversed := "";
    var i := |hex| - 2;
    assert hex[..i + 2] == hex && "" + Swapped(hex) == Swapped(hex);
    while i >= 0
      invariant -2 <= i <= |hex| - 2
      invariant Swapped(hex) == reversed + Swapped(hex[..i + 2])
    {
      assert hex[..i + 2][i..] == hex[i..i + 2] && hex[..i + 2][..i] == hex[..i];
      reversed := reversed + hex[i..i + 2];
      i := i - 2;
    }
  }

  function HexWord(hex: string, littleEndian: bool): Option<Addr> {
    var n :- ParseUint(if littleEndian then Swapped(hex) else hex, TWO_TO_THE_64);
    if n < TWO_TO_THE_64 then Some(n) else None
  }

  function WordHex(n: Addr, littleEndian: bool): string {
    if littleEndian then Swapped(Digits(n, 16)) else Digits(n, 16)
  }

  /** The characters of the text of a word: the most significant digit comes first, or the two digits of the least
      significant byte. */
  lemma WordHexAt(n: Addr, m: nat)
    requires m < 8
    ensures |WordHex(n, false)| == |WordHex(n, true)| == 16
    ensures WordHex(n, false)[15 - 2 * m] == Digit(n / Pow16(2 * m) % 16)
    ensures WordHex(n, false)[14 - 2 * m] == Digit(n / Pow16(2 * m + 1) % 16)
    ensures WordHex(n, true)[2 * m + 1] == Digit(n / Pow16(2 * m) % 16)
    ensures WordHex(n, true)[2 * m] == Digit(n / Pow16(2 * m + 1) % 16)
  {
    hide Digit, Swapped, Digits, Pow16;
    var s := Digits(n, 16);
    DigitsAt(n, 16, 2 * m);
    DigitsAt(n, 16, 2 * m + 1);
    SwappedLength(s);
    SwappedAt(s, 8, m);
  }

  lemma {:induction false} DigitsAt(n: nat, m: nat, k: nat)
    requires k < m
    ensures Digits(n, m)[m - 1 - k] == Digit(n / Pow16(k) % 16)
  {
    hide Digit;
    if k == 0 {
      assert Pow16(0) == 1;
    } else {
      DigitsAt(n / 16, m - 1, k - 1);
      DivideTwice(n, 16, Pow16(k - 1));
    }
  }

  lemma {:induction false} SwappedLength(s: string)
    requires |s| % 2 == 0
    ensures |Swapped(s)| == |s|
  {
    if s != "" {
      SwappedLength(s[..|s| - 2]);
    }
  }

  lemma SwappedStep(s: string)
    requires |s| >= 2
    ensures Swapped(s) == s[|s| - 2..] + Swapped(s[..|s| - 2])
  {
  }

  /** The last pair of characters comes first. */
  lemma {:induction false} SwappedAt(s: string, n: nat, m: nat)
    requires |s| == 2 * n && m < n
    ensures |Swapped(s)| == |s|
    ensures Swapped(s)[2 * m] == s[|s| - 2 - 2 * m] && Swapped(s)[2 * m + 1] == s[|s| - 1 - 2 * m]
  {
    hide Swapped;
    var init := s[..|s| - 2];
    SwappedLength(s);
    SwappedStep(s);
    if m > 0 {
      SwappedAt(init, n - 1, m - 1);
    }
  }

  method HexToUint64(hex: string, littleEndian: bool) returns (r: Option<Addr>)
    ensures r == HexWord(hex, littleEndian)
  {
    var text := hex;
    if littleEndian {
      text := SwapPairs(hex);
    }
    var n := ParseUint(text, TWO_TO_THE_64);
    r := if n.None? then None else Some(n.value);
  }

  method Uint64ToHex(input: Addr, littleEndian: bool) returns (hex: string)
    ensures hex == WordHex(input, littleEndian)
  {
    hex := Digits(input, 16);
    if littleEndian {
      hex := SwapPairs(hex);
    }
  }

  lemma SixteenDigits()
    ensures Pow16(16) == TWO_TO_THE_64
  {
    assert Pow16(4) == 0x1_0000 by { assert Pow16(2) == 256; }
    assert Pow16(8) == 0x1_0000_0000 by { assert Pow16(6) == 256 * Pow16(4); }
    assert Pow16(12) == 0x1_0000 * Pow16(8) by { assert Pow16(10) == 256 * Pow16(8); }
    assert Pow16(16) == 0x1_0000 * Pow16(12) by { assert Pow16(14) == 256 * Pow16(12); }
  }

  /** Writing a word and reading it. */
  lemma WordBack(n: Addr, littleEndian: bool)
    ensures |WordHex(n, littleEndian)| == 16 && HexWord(WordHex(n, littleEndian), littleEndian) == Some(n)
  {
    SixteenDigits();
    NumberBack(n, 16);
    SwappedTwice(Digits(n, 16));
  }

  /** Reading sixteen lower-case digits and writing them. */
  lemma HexBack(s: string, littleEndian: bool)
    requires |s| == 16 && Lowercase(s)
    ensures HexWord(s, littleEndian).Some? && WordHex(HexWord(s, littleEndian).value, littleEndian) == s
  {
    hide Swapped, Number, Digits, Lowercase, Pow16;
    SixteenDigits();
    SwappedTwice(s);
    SwappedLowercase(s);
    DigitsBack(s);
    DigitsBack(Swapped(s));
  }

  /** Two digits a byte. A digit left over is an index out of range, which is None here, like a character
      that is no digit. */
  function ByteArray(hex: string): Option<seq<Byte>> {
    if hex == "" then Some([])
    else if |hex| == 1 then None
    else
      var rest :- ByteArray(hex[2..]);
      var b :- ParseUint(hex[..2], 256);
      if b < 256 then Some([b] + rest) else None
  }

  function ByteText(bytes: seq<Byte>): string {
    if bytes == [] then "" else Digits(bytes[0], 2) + ByteText(bytes[1..])
  }

  /** The two characters of byte `i`. */
  function PairAt(hex: string, i: nat): string
    requires i < |hex| / 2
  {
    hex[2 * i..2 * i + 2]
  }

  lemma PairOfRest(hex: string, i: nat)
    requires 0 < i < |hex| / 2
    ensures PairAt(hex, i) == PairAt(hex[2..], i - 1)
  {
  }

  /** There is a byte for every two characters, in order, and nothing at all where two are not digits or one is left. */
  lemma {:induction false} ByteArrayIs(hex: string)
    ensures ByteArray(hex).Some? <==>
              |hex| % 2 == 0 && forall i :: 0 <= i < |hex| / 2 ==> ParseUint(PairAt(hex, i), 256).Some?
    ensures ByteArray(hex).Some? ==>
              && 2 * |ByteArray(hex).value| == |hex|
              && forall i :: 0 <= i < |ByteArray(hex).value| ==>
                               Some(ByteArray(hex).value[i] as nat) == ParseUint(PairAt(hex, i), 256)
  {
    hide Number;
    if |hex| >= 2 {
      var rest := hex[2..];
      ByteArrayIs(rest);
      assert hex[..2] == PairAt(hex, 0);
      forall i | 0 < i < |hex| / 2
        ensures PairAt(hex, i) == PairAt(rest, i - 1)
      {
        PairOfRest(hex, i);
      }
      forall i | 0 <= i < |rest| / 2
        ensures PairAt(rest, i) == PairAt(hex, i + 1)
      {
        PairOfRest(hex, i + 1);
      }
      if ParseUint(PairAt(hex, 0), 256).Some? && ByteArray(rest).Some? {
        assert ByteArray(hex).value == [ParseUint(PairAt(hex, 0), 256).value] + ByteArray(rest).value;
      }
    } else if |hex| == 1 {
      assert ByteArray(hex).None?;
    }
  }

  lemma NextByte(hex: string, i: nat)
    requires i < |hex|
    ensures var all := ByteArray(hex[i..]);
            if i + 2 > |hex| || ParseUint(hex[i..i + 2], 256).None? then all.None?
            else
              var tail := ByteArray(hex[i + 2..]);
              all == if tail.None? then None else Some([ParseUint(hex[i..i + 2], 256).value] + tail.value)
  {
    if i + 2 <= |hex| {
      assert hex[i..][..2] == hex[i..i + 2] && hex[i..][2..] == hex[i + 2..];
    }
  }

  method HexToByteArray(hex: string) returns (r: Option<seq<Byte>>)
    ensures r == ByteArray(hex)
  {
    hide ByteArray, Continues;
    var out: seq<Byte> := [];
    var i := 0;
    assert hex[0..] == hex;
    ghost var all := ByteArray(hex);
    ContinuesStart(all, out);
    while i < |hex|
      invariant 0 <= i <= |hex|
      invariant Continues(all, out, ByteArray(hex[i..]))
    {
      NextByte(hex, i);
      ContinuesStart(all, out);
      if i + 2 > |hex| {
        return None;
      }
      var value := ParseUint(hex[i..i + 2], 256);
      if value.None? {
        return None;
      }
      var b: Byte := value.value;
      ContinuesStep(all, out, b, ByteArray(hex[i..]), ByteArray(hex[i + 2..]));
      out := out + [b];
      i := i + 2;
    }
    NoBytes(hex[i..]);
    ContinuesStart(all, out);
    r := Some(out);
  }

  lemma NoBytes(hex: string)
    ensures hex == "" ==> ByteArray(hex) == Some([])
  {
  }

  lemma {:induction false} BytesBack(bytes: seq<Byte>)
    ensures ByteArray(ByteText(bytes)) == Some(bytes)
  {
    if bytes != [] {
      var s := ByteText(bytes);
      BytesBack(bytes[1..]);
      assert Pow16(2) == 256;
      NumberBack(bytes[0], 2);
      assert s[..2] == Digits(bytes[0], 2) && s[2..] == ByteText(bytes[1..]);
      assert ParseUint(s[..2], 256) == Some(bytes[0]);
      assert [bytes[0]] + bytes[1..] == bytes;
    }
  }
}
