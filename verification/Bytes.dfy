/** Bytes and big-endian integers, as htonl, htons and htobe64 lay them out. */
module Bytes {

  type byte = bv8

  // Conversions between a byte and its value, one hexadecimal digit at a time.

  function Nibble(n: nat): (b: byte)
    requires n < 16
    ensures b < 16
  {
    match n
    case 0 => 0
    case 1 => 1
    case 2 => 2
    case 3 => 3
    case 4 => 4
    case 5 => 5
    case 6 => 6
    case 7 => 7
    case 8 => 8
    case 9 => 9
    case 10 => 10
    case 11 => 11
    case 12 => 12
    case 13 => 13
    case 14 => 14
    case _ => 15
  }

  function NibbleValue(b: byte): (n: nat)
    requires b < 16
    ensures n < 16
  {
    match b
    case 0 => 0
    case 1 => 1
    case 2 => 2
    case 3 => 3
    case 4 => 4
    case 5 => 5
    case 6 => 6
    case 7 => 7
    case 8 => 8
    case 9 => 9
    case 10 => 10
    case 11 => 11
    case 12 => 12
    case 13 => 13
    case 14 => 14
    case _ => 15
  }

  lemma NibbleRoundTrip(n: nat, b: byte)
    ensures n < 16 ==> NibbleValue(Nibble(n)) == n
    ensures b < 16 ==> Nibble(NibbleValue(b)) == b
  {
  }

  function Pair(high: byte, low: byte): byte { (high << 4) | low }
  function High(b: byte): (h: byte) ensures h < 16 { b >> 4 }
  function Low(b: byte): (l: byte) ensures l < 16 { b & 15 }

  lemma PairParts(high: byte, low: byte, b: byte)
    ensures high < 16 && low < 16 ==> High(Pair(high, low)) == high && Low(Pair(high, low)) == low
    ensures Pair(High(b), Low(b)) == b
  {
  }

  function ToByte(n: nat): byte
    requires n < 256
  {
    Pair(Nibble(n / 16), Nibble(n % 16))
  }

  function Value(b: byte): (n: nat)
    ensures n < 256
  {
    NibbleValue(High(b)) * 16 + NibbleValue(Low(b))
  }

  lemma ByteRoundTrip(n: nat)
    requires n < 256
    ensures Value(ToByte(n)) == n
  {
    hide Nibble, NibbleValue, Pair, High, Low;
    NibbleRoundTrip(n / 16, 0);
    NibbleRoundTrip(n % 16, 0);
    PairParts(Nibble(n / 16), Nibble(n % 16), 0);
  }

  lemma ValueInjective(a: byte, b: byte)
    requires Value(a) == Value(b)
    ensures a == b
  {
    hide Nibble, NibbleValue, Pair, High, Low;
    NibbleRoundTrip(0, High(a));
    NibbleRoundTrip(0, High(b));
    NibbleRoundTrip(0, Low(a));
    NibbleRoundTrip(0, Low(b));
    PairParts(0, 0, a);
    PairParts(0, 0, b);
  }

  function Pow256(k: nat): (p: nat)
    ensures p > 0
  {
    if k == 0 then 1 else 256 * Pow256(k - 1)
  }

  /** The k low-order base-256 digits of n, most significant first. */
  function ToBigEndian(n: nat, k: nat): (s: seq<byte>)
    ensures |s| == k
  {
    if k == 0 then [] else ToBigEndian(n / 256, k - 1) + [ToByte(n % 256)]
  }

  function FromBigEndian(s: seq<byte>): (n: nat)
  {
    if s == [] then 0 else FromBigEndian(s[..|s| - 1]) * 256 + Value(s[|s| - 1])
  }

  lemma {:induction false} BigEndianRoundTrip(n: nat, k: nat)
    requires n < Pow256(k)
    ensures FromBigEndian(ToBigEndian(n, k)) == n
  {
    hide ToByte, Value;
    if k > 0 {
      BigEndianRoundTrip(n / 256, k - 1);
      ByteRoundTrip(n % 256);
      var s := ToBigEndian(n, k);
      assert s[..|s| - 1] == ToBigEndian(n / 256, k - 1);
    }
  }

  lemma DivideOn(n: nat, p: nat)
    requires p > 0
    ensures n / 256 / p == n / (256 * p)
  {
    var q := n / 256 / p;
    var r := n - 256 * (p * q);
    assert n == 256 * (n / 256) + n % 256 && n / 256 == p * q + n / 256 % p;
    assert 256 * (p * q) == (256 * p) * q;
    assert r == 256 * (n / 256 % p) + n % 256;
    assert 0 <= r < 256 * p;
    Quotient(n, 256 * p, q, r);
  }

  lemma Quotient(n: nat, d: nat, q: nat, r: nat)
    requires d > 0 && n == d * q + r && r < d
    ensures n / d == q
  {
    var x := n / d;
    assert n == d * x + n % d;
    assert x < q ==> d * (x + 1) <= d * q;
    assert x > q ==> d * (q + 1) <= d * x;
  }

  /** Byte i of k is the digit of weight 256^(k-1-i): the most significant comes first. */
  lemma {:induction false} BigEndianDigit(n: nat, k: nat, i: nat)
    requires i < k
    ensures Value(ToBigEndian(n, k)[i]) == n / Pow256(k - 1 - i) % 256
  {
    hide ToByte, Value;
    if i == k - 1 {
      ByteRoundTrip(n % 256);
    } else {
      BigEndianDigit(n / 256, k - 1, i);
      DivideOn(n, Pow256(k - 2 - i));
    }
  }

  lemma {:induction false} FromBigEndianBound(s: seq<byte>)
    ensures FromBigEndian(s) < Pow256(|s|)
  {
    hide Value;
    if s != [] { FromBigEndianBound(s[..|s| - 1]); }
  }

  /** Decoding loses nothing: byte strings of equal length with the same value are equal. */
  lemma {:induction false} BigEndianInjective(s: seq<byte>, t: seq<byte>)
    requires |s| == |t|
    requires FromBigEndian(s) == FromBigEndian(t)
    ensures s == t
  {
    hide Value;
    if s != [] {
      var a, b := s[|s| - 1], t[|t| - 1];
      var x, y := FromBigEndian(s[..|s| - 1]), FromBigEndian(t[..|t| - 1]);
      assert x * 256 + Value(a) == y * 256 + Value(b);
      assert x == y && Value(a) == Value(b);
      BigEndianInjective(s[..|s| - 1], t[..|t| - 1]);
      ValueInjective(a, b);
      assert s == s[..|s| - 1] + [a];
      assert t == t[..|t| - 1] + [b];
    }
  }

  /** A 32-bit word in network byte order. */
  function FromWord(w: bv32): (s: seq<byte>)
    ensures |s| == 4
  {
    [(w >> 24) as byte, ((w >> 16) & 0xFF) as byte, ((w >> 8) & 0xFF) as byte, (w & 0xFF) as byte]
  }

  function ToWord(s: seq<byte>): bv32
    requires |s| == 4
  {
    ((s[0] as bv32) << 24) | ((s[1] as bv32) << 16) | ((s[2] as bv32) << 8) | (s[3] as bv32)
  }

  lemma WordRoundTrip(w: bv32)
    ensures ToWord(FromWord(w)) == w
  {
  }

  lemma WordInjective(s: seq<byte>, t: seq<byte>)
    requires |s| == 4 == |t| && ToWord(s) == ToWord(t)
    ensures s == t
  {
  }
}
