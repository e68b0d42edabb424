/** Bytes, their exclusive or, and block ciphers as inverse pairs. */
module Bytes {
  import opened Binary

  type byte = bv8

  function Xor(a: seq<byte>, b: seq<byte>): (r: seq<byte>)
    requires |a| == |b|
    ensures |r| == |a|
  {
    seq(|a|, i requires 0 <= i < |a| => a[i] ^ b[i])
  }

  lemma XorTwice(a: seq<byte>, b: seq<byte>)
    requires |a| == |b|
    ensures Xor(Xor(a, b), b) == a
  {
    forall i | 0 <= i < |a| ensures Xor(Xor(a, b), b)[i] == a[i] {
      assert (a[i] ^ b[i]) ^ b[i] == a[i];
    }
  }

  lemma XorBits(x: byte, y: byte)
    ensures x ^ y == (x | y) & !(x & y)
  {}

  /** A bit of the exclusive or is set exactly if it is set in one of the two and not in both. */
  lemma XorMeans(a: seq<byte>, b: seq<byte>, i: nat)
    requires |a| == |b| && i < |a|
    ensures Xor(a, b)[i] == (a[i] | b[i]) & !(a[i] & b[i])
  {
    XorBits(a[i], b[i]);
  }

  // ----- bytes as digits

  /** `n` binary digits of `v`, the least significant first. */
  function Digits2(v: nat, n: nat): (r: seq<bool>)
    ensures |r| == n
  {
    if n == 0 then [] else [v % 2 == 1] + Digits2(v / 2, n - 1)
  }

  function Total(bits: seq<bool>): nat {
    if bits == [] then 0 else (if bits[0] then 1 else 0) + 2 * Total(bits[1..])
  }

  function Mask(on: bool, m: byte): byte { if on then m else 0 }

  /** The byte with these bits. */
  function Packed(bits: seq<bool>): byte
    requires |bits| == 8
  {
    Pack(bits[0], bits[1], bits[2], bits[3], bits[4], bits[5], bits[6], bits[7])
  }

  function Pack(a: bool, b: bool, c: bool, d: bool, e: bool, f: bool, g: bool, h: bool): byte {
    Mask(a, 0x01) | Mask(b, 0x02) | Mask(c, 0x04) | Mask(d, 0x08) |
    Mask(e, 0x10) | Mask(f, 0x20) | Mask(g, 0x40) | Mask(h, 0x80)
  }

  predicate Has(x: byte, m: byte) { x & m != 0 }

  function Unpacked(b: byte): (r: seq<bool>)
    ensures |r| == 8
  {
    [Has(b, 0x01), Has(b, 0x02), Has(b, 0x04), Has(b, 0x08), Has(b, 0x10), Has(b, 0x20), Has(b, 0x40), Has(b, 0x80)]
  }

  /** The number a byte stands for. */
  function Value(b: byte): nat { Total(Unpacked(b)) }

  /** The last of the base-256 digits of `v`. */
  function Low(v: nat): byte { Packed(Digits2(v % 256, 8)) }

  lemma EachBit(a: bool, b: bool, c: bool, d: bool, e: bool, f: bool, g: bool, h: bool)
    ensures var x := Pack(a, b, c, d, e, f, g, h);
      && a == Has(x, 0x01) && b == Has(x, 0x02) && c == Has(x, 0x04) && d == Has(x, 0x08)
      && e == Has(x, 0x10) && f == Has(x, 0x20) && g == Has(x, 0x40) && h == Has(x, 0x80)
  {}

  lemma PackedBack(bits: seq<bool>)
    requires |bits| == 8
    ensures Unpacked(Packed(bits)) == bits
  {
    hide Pack, Has;
    EachBit(bits[0], bits[1], bits[2], bits[3], bits[4], bits[5], bits[6], bits[7]);
  }

  lemma LowValue(v: nat)
    ensures Value(Low(v)) == v % 256
  {
    hide Packed, Unpacked, Digits2, Total;
    PackedBack(Digits2(v % 256, 8));
    TotalDigits(v % 256, 8);
    Powers();
  }

  lemma {:induction false} TotalDigits(v: nat, n: nat)
    ensures Total(Digits2(v, n)) == v % Pow2(n)
    decreases n
  {
    if n > 0 {
      TotalDigits(v / 2, n - 1);
      Half(v, Pow2(n - 1));
      assert Digits2(v, n)[1..] == Digits2(v / 2, n - 1);
    }
  }

  lemma Half(v: nat, m: nat)
    requires m > 0
    ensures v % (2 * m) == v % 2 + 2 * (v / 2 % m)
  {
    var q, r := v / 2 / m, v / 2 % m;
    assert v / 2 == m * q + r;
    assert v == (2 * m) * q + (v % 2 + 2 * r);
    Remainder(v, 2 * m, q, v % 2 + 2 * r);
  }

  lemma Remainder(v: nat, d: nat, q: nat, r: nat)
    requires d > 0 && v == d * q + r && r < d
    ensures v % d == r
  {
    var k: int := q - v / d;
    assert d * k == v % d - r;
    assert k >= 1 ==> d * k >= d;
    assert k <= -1 ==> d * k + d <= 0;
  }

  /** The number a sequence of bytes stands for, most significant byte first. */
  function BigEndian(s: seq<byte>): nat {
    if s == [] then 0 else BigEndian(s[..|s| - 1]) * 256 + Value(s[|s| - 1])
  }

  /** One more digit of `w` after the digits of the rest of it. */
  lemma Digit(s: seq<byte>, w: nat)
    requires BigEndian(s) == w / 256
    ensures BigEndian(s + [Low(w)]) == w
  {
    hide Value, Low;
    assert (s + [Low(w)])[..|s|] == s;
    LowValue(w);
  }

  /** A keyed block cipher; `enc` and `dec` are only applied to whole blocks. */
  datatype Cipher = Cipher(size: nat, enc: seq<byte> -> seq<byte>, dec: seq<byte> -> seq<byte>)

  predicate Block(c: Cipher, b: seq<byte>) { |b| == c.size }

  ghost predicate Proper(c: Cipher) {
    && c.size > 0
    && (forall b {:trigger c.enc(b)} :: Block(c, b) ==> Block(c, c.enc(b)) && c.dec(c.enc(b)) == b)
    && (forall b {:trigger c.dec(b)} :: Block(c, b) ==> Block(c, c.dec(b)) && c.enc(c.dec(b)) == b)
  }

  // ----- 32-bit words, most significant byte first

  function Load32(s: seq<byte>): bv32 {
    if |s| != 4 then 0
    else (s[3] as bv32) | ((s[2] as bv32) << 8) | ((s[1] as bv32) << 16) | ((s[0] as bv32) << 24)
  }

  function Store32(w: bv32): (r: seq<byte>)
    ensures |r| == 4
  {
    [((w >> 24) & 0xff) as byte, ((w >> 16) & 0xff) as byte, ((w >> 8) & 0xff) as byte, (w & 0xff) as byte]
  }

  lemma Stored32(w: bv32)
    ensures Load32(Store32(w)) == w
  {}

  lemma Loaded32(s: seq<byte>)
    requires |s| == 4
    ensures Store32(Load32(s)) == s
  {
    Unpack(s[0], s[1], s[2], s[3]);
  }

  lemma Unpack(a: byte, b: byte, c: byte, d: byte)
    ensures var w := (d as bv32) | ((c as bv32) << 8) | ((b as bv32) << 16) | ((a as bv32) << 24);
      ((w >> 24) & 0xff) as byte == a && ((w >> 16) & 0xff) as byte == b && ((w >> 8) & 0xff) as byte == c &&
        (w & 0xff) as byte == d
  {}

  /** The first byte is the most significant one. */
  lemma Load32Order(s: seq<byte>)
    requires |s| == 4
    ensures Load32(s) >> 24 == s[0] as bv32 && (Load32(s) >> 16) & 0xff == s[1] as bv32
    ensures (Load32(s) >> 8) & 0xff == s[2] as bv32 && Load32(s) & 0xff == s[3] as bv32
  {
    Order(s[0], s[1], s[2], s[3]);
  }

  lemma Order(a: byte, b: byte, c: byte, d: byte)
    ensures var w := (d as bv32) | ((c as bv32) << 8) | ((b as bv32) << 16) | ((a as bv32) << 24);
      w >> 24 == a as bv32 && (w >> 16) & 0xff == b as bv32 && (w >> 8) & 0xff == c as bv32 && w & 0xff == d as bv32
  {}

  // ----- pairs of 32-bit words, for ciphers that work on two halves

  type Word = bv32

  datatype Pair = Pair(l: Word, r: Word)

  function Swap(p: Pair): Pair { Pair(p.r, p.l) }

  function Mix(a: Word, b: Word): Word { a ^ b }

  function Add(a: Word, b: Word): Word { a + b }

  lemma MixBack(a: Word, b: Word)
    ensures Mix(Mix(a, b), b) == a
  {
    assert (a ^ b) ^ b == a;
  }

  lemma MixMeans(a: Word, b: Word)
    ensures Mix(a, b) == (a | b) & !(a & b)
  {}

  /** Sums are modulo 2^32, in either order. */
  lemma AddIs(a: Word, b: Word)
    ensures Add(a, b) == b + a
  {}

  lemma MixTwo(a: Word, b: Word, c: Word)
    ensures Mix(a, Mix(b, c)) == Mix(Mix(a, b), c)
  {
    assert a ^ (b ^ c) == (a ^ b) ^ c;
  }
}
