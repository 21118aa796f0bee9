/** Little-endian words in memory. */
module Words {
  import opened Base

  function Pow256(k: nat): (p: nat)
    ensures p > 0
  {
    if k == 0 then 1 else 256 * Pow256(k - 1)
  }

  function LittleEndian(bytes: seq<Byte>): (n: nat)
    ensures n < Pow256(|bytes|)
  {
    if bytes == [] then 0 else bytes[0] + 256 * LittleEndian(bytes[1..])
  }

  function ToBytes(n: nat, k: nat): (bytes: seq<Byte>)
    ensures |bytes| == k
  {
    if k == 0 then [] else [n % 256] + ToBytes(n / 256, k - 1)
  }

  /** Writing a number and reading it back. */
  lemma {:induction false} ReadsBack(n: nat, k: nat)
    requires n < Pow256(k)
    ensures LittleEndian(ToBytes(n, k)) == n
  {
    if k > 0 {
      ReadsBack(n / 256, k - 1);
      assert ToBytes(n, k)[1..] == ToBytes(n / 256, k - 1);
    }
  }

  /** Reading bytes and writing them again. */
  lemma {:induction false} BytesBack(bytes: seq<Byte>)
    ensures ToBytes(LittleEndian(bytes), |bytes|) == bytes
  {
    if bytes != [] {
      BytesBack(bytes[1..]);
      assert bytes == [bytes[0]] + bytes[1..];
    }
  }

  /** The k-th byte has the k-th power of 256 as its weight. */
  lemma {:induction false} ByteAt(bytes: seq<Byte>, k: nat)
    requires k < |bytes|
    ensures LittleEndian(bytes) / Pow256(k) % 256 == bytes[k]
  {
    var rest := LittleEndian(bytes[1..]);
    if k == 0 {
      assert Pow256(0) == 1;
    } else {
      ByteAt(bytes[1..], k - 1);
      assert LittleEndian(bytes) / 256 == rest;
      DivideTwice(LittleEndian(bytes), 256, Pow256(k - 1));
    }
  }

  lemma DivideTwice(n: int, p: nat, q: nat)
    requires p > 0 && q > 0
    ensures p * q > 0 && n / (p * q) == n / p / q
  {
    var a := n / p;
    var b, c := a / q, a % q;
    Monotone(p, c, q - 1);
    Spread(p, q, b, c);
    Monotone(p, 1, q);
    QuotientIs(n, p * q, b, p * c + n % p);
  }

  lemma Spread(p: nat, q: nat, b: int, c: int)
    ensures p * (q * b + c) == p * q * b + p * c
    ensures p * (q - 1) == p * q - p
  {
  }

  lemma Monotone(p: nat, a: nat, b: nat)
    requires a <= b
    ensures p * a <= p * b
  {
  }

  lemma MulBounds(m: nat, d: int)
    ensures d >= 1 ==> m * d >= m
    ensures d <= -1 ==> m * d + m <= 0
  {
    if d >= 1 {
      assert m * d == m * (d - 1) + m;
    }
    if d <= -1 {
      assert m * d + m == m * (d + 1);
    }
  }

  lemma QuotientIs(n: int, m: nat, q: int, r: nat)
    requires m > 0 && n == m * q + r && r < m
    ensures n / m == q
  {
    var d := n / m - q;
    assert n == m * (n / m) + n % m;
    assert m * d == r - n % m;
    MulBounds(m, d);
  }

  lemma Widths()
    ensures Pow256(1) == 0x100 && Pow256(2) == 0x1_0000 && Pow256(4) == 0x1_0000_0000 && Pow256(8) == TWO_TO_THE_64
  {
    assert Pow256(3) == 256 * Pow256(2) && Pow256(5) == 256 * Pow256(4);
    assert Pow256(6) == 256 * Pow256(5) && Pow256(7) == 256 * Pow256(6);
  }

  /** A number of 8 * k bits as a two's complement integer. */
  function Signed(n: nat, k: nat): int {
    if 2 * n < Pow256(k) then n else n - Pow256(k)
  }

  /** It is in the range of such integers and differs by nothing or by the power of two. */
  lemma SignedIs(n: nat, k: nat)
    requires n < Pow256(k)
    ensures 0 - Pow256(k) <= 2 * Signed(n, k) < Pow256(k)
    ensures Signed(n, k) == n || Signed(n, k) == n - Pow256(k)
  {
    if k > 0 {
      assert Pow256(k) == 256 * Pow256(k - 1);
    }
  }

  predicate InRange(n: int, k: nat) {
    0 <= 2 * n + Pow256(k) && 2 * n < Pow256(k)
  }

  /** A number in two's complement. */
  function SignedBytes(n: int, k: nat): (bytes: seq<Byte>)
    requires InRange(n, k)
    ensures |bytes| == k
  {
    ToBytes(if n < 0 then n + Pow256(k) else n, k)
  }

  lemma SignedBack(n: int, k: nat)
    requires InRange(n, k)
    ensures Signed(LittleEndian(SignedBytes(n, k)), k) == n
  {
    ReadsBack(if n < 0 then n + Pow256(k) else n, k);
  }

  /** Bytes as a number in two's complement. */
  lemma SignedBytesBack(bytes: seq<Byte>)
    requires bytes != []
    ensures var n := Signed(LittleEndian(bytes), |bytes|); InRange(n, |bytes|) && SignedBytes(n, |bytes|) == bytes
  {
    BytesBack(bytes);
    SignedIs(LittleEndian(bytes), |bytes|);
    assert Pow256(|bytes|) == 256 * Pow256(|bytes| - 1);
  }

  function Word64(bytes: seq<Byte>): Addr
    requires |bytes| == 8
  {
    Widths();
    LittleEndian(bytes)
  }
}
