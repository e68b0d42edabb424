/**
 The SHA-2 hash functions as FIPS 180-4 defines them, for words of any kind: padding (section 5.1),
 message schedule and rounds (sections 6.2.2 and 6.4.2).
 */
module Sha2Spec {
  import opened Bytes

  /** What SHA-256, SHA-384 and SHA-512 differ in. */
  datatype Family<!W> = Family(
    size: nat,                    // bytes in a word
    rounds: nat,
    lengthBytes: nat,             // bytes of the length field
    load: seq<byte> -> W,         // from big-endian bytes
    store: W -> seq<byte>,        // to big-endian bytes
    peek: seq<byte> -> W,         // from bytes in host order
    poke: W -> seq<byte>,         // to bytes in host order
    add: (W, W) -> W,
    sum0: W -> W, sum1: W -> W,
    sigma0: W -> W, sigma1: W -> W,
    ch: (W, W, W) -> W, maj: (W, W, W) -> W,
    k: nat -> W,
    initial: seq<W>,
    out: nat)                     // words in the digest

  ghost predicate Lawful<W(!new)>(F: Family<W>) {
    && (F.size == 4 || F.size == 8) && F.rounds >= 16 && F.lengthBytes == 2 * F.size && |F.initial| == 8 && F.out <= 8
    && (forall w: W :: |F.poke(w)| == F.size && F.peek(F.poke(w)) == w)
    && (forall x: W, y: W :: F.add(x, y) == F.add(y, x))
  }

  function BlockSize<W>(F: Family<W>): nat { 16 * F.size }

  // ----- padding

  function Digits(n: nat, len: nat): (r: seq<byte>)
    ensures |r| == len
  {
    if len == 0 then [] else Digits(n / 256, len - 1) + [Low(n)]
  }

  function Zeros(n: nat): seq<byte> { seq(n, _ => 0) }

  /** The fewest zero bytes that fill the last block. */
  function Gap<W>(F: Family<W>, len: nat): nat
    requires F.size > 0
  {
    (BlockSize(F) - (len + 1 + F.lengthBytes) % BlockSize(F)) % BlockSize(F)
  }

  function Padded<W>(F: Family<W>, msg: seq<byte>): seq<byte>
    requires F.size > 0
  {
    msg + [0x80] + Zeros(Gap(F, |msg|)) + Digits(8 * |msg|, F.lengthBytes)
  }

  // ----- compression

  datatype Regs<W> = Regs(a: W, b: W, c: W, d: W, e: W, f: W, g: W, h: W)

  /** The message schedule, its four terms in the order of the standard. */
  function Schedule<W>(F: Family<W>, block: seq<byte>, t: nat): W
    requires F.size > 0 && |block| == BlockSize(F)
  {
    if t < 16 then F.load(block[F.size * t..F.size * (t + 1)])
    else F.add(F.add(F.add(F.sigma1(Schedule(F, block, t - 2)), Schedule(F, block, t - 7)),
                     F.sigma0(Schedule(F, block, t - 15))),
               Schedule(F, block, t - 16))
  }

  function Round<W>(F: Family<W>, r: Regs<W>, k: W, w: W): Regs<W> {
    var t1 := F.add(F.add(F.add(F.add(r.h, F.sum1(r.e)), F.ch(r.e, r.f, r.g)), k), w);
    var t2 := F.add(F.sum0(r.a), F.maj(r.a, r.b, r.c));
    Regs(F.add(t1, t2), r.a, r.b, r.c, F.add(r.d, t1), r.e, r.f, r.g)
  }

  function Rounds<W>(F: Family<W>, block: seq<byte>, r: Regs<W>, n: nat): Regs<W>
    requires F.size > 0 && |block| == BlockSize(F)
  {
    if n == 0 then r else Round(F, Rounds(F, block, r, n - 1), F.k(n - 1), Schedule(F, block, n - 1))
  }

  function Compress<W>(F: Family<W>, h: seq<W>, block: seq<byte>): (r: seq<W>)
    requires F.size > 0 && |block| == BlockSize(F) && |h| == 8
    ensures |r| == 8
  {
    var r := Rounds(F, block, Regs(h[0], h[1], h[2], h[3], h[4], h[5], h[6], h[7]), F.rounds);
    [F.add(h[0], r.a), F.add(h[1], r.b), F.add(h[2], r.c), F.add(h[3], r.d),
     F.add(h[4], r.e), F.add(h[5], r.f), F.add(h[6], r.g), F.add(h[7], r.h)]
  }

  /** The chaining value after all whole blocks of `m`; a partial block at the end is not counted. */
  function Chain<W>(F: Family<W>, m: seq<byte>): (r: seq<W>)
    requires F.size > 0 && |F.initial| == 8
    ensures |r| == 8
    decreases |m|
  {
    var b := BlockSize(F);
    if |m| < b then F.initial
    else if |m| % b != 0 then Chain(F, m[..|m| - |m| % b])
    else Compress(F, Chain(F, m[..|m| - b]), m[|m| - b..])
  }

  function Flat<W>(F: Family<W>, ws: seq<W>): seq<byte> {
    if ws == [] then [] else F.store(ws[0]) + Flat(F, ws[1..])
  }

  function Digest<W>(F: Family<W>, msg: seq<byte>): seq<byte>
    requires F.size > 0 && |F.initial| == 8 && F.out <= 8
  {
    Flat(F, Chain(F, Padded(F, msg))[..F.out])
  }

  lemma ChainBlock<W>(F: Family<W>, m: seq<byte>, block: seq<byte>)
    requires (F.size == 4 || F.size == 8) && |F.initial| == 8 && |m| % BlockSize(F) == 0 && |block| == BlockSize(F)
    ensures |m + block| % BlockSize(F) == 0
    ensures Chain(F, m + block) == Compress(F, Chain(F, m), block)
  {
    hide Compress;
    var q := m + block;
    assert q[..|q| - BlockSize(F)] == m && q[|q| - BlockSize(F)..] == block;
    Remainder(|m|, 0, F.size);
  }

  lemma ChainPart<W>(F: Family<W>, m: seq<byte>, x: seq<byte>)
    requires (F.size == 4 || F.size == 8) && |F.initial| == 8 && |m| % BlockSize(F) == 0 && |x| < BlockSize(F)
    ensures |m + x| % BlockSize(F) == |x|
    ensures Chain(F, m + x) == Chain(F, m)
  {
    hide Compress;
    var q := m + x;
    Remainder(|m|, |x|, F.size);
    assert q[..|q| - |q| % BlockSize(F)] == m;
    if x == [] {
      assert q == m;
    }
  }

  lemma Remainder(n: nat, x: nat, size: nat)
    requires size == 4 || size == 8
    requires n % (16 * size) == 0 && x < 16 * size
    ensures (n + x) % (16 * size) == x && (n + 16 * size) % (16 * size) == 0
    ensures n > 0 ==> n >= 16 * size
  {
    if size == 4 {
      Remainder64(n, x);
    } else {
      Remainder128(n, x);
    }
  }

  lemma Remainder64(n: nat, x: nat)
    requires n % 64 == 0 && x < 64
    ensures (n + x) % 64 == x && (n + 64) % 64 == 0
  {}

  lemma Remainder128(n: nat, x: nat)
    requires n % 128 == 0 && x < 128
    ensures (n + x) % 128 == x && (n + 128) % 128 == 0
  {}

  // ----- the length field

  function Pow256(n: nat): nat { if n == 0 then 1 else 256 * Pow256(n - 1) }

  /** A length that fits its field is read back, most significant byte first. */
  lemma {:induction false} DigitsValue(n: nat, len: nat)
    requires n < Pow256(len)
    ensures BigEndian(Digits(n, len)) == n
    decreases len
  {
    hide Low;
    if len > 0 {
      DigitsValue(n / 256, len - 1);
      Digit(Digits(n / 256, len - 1), n);
    }
  }

  function Shifted(n: nat, k: nat): nat { if k == 0 then n else Shifted(n / 256, k - 1) }

  lemma {:induction false} DigitsSplit(n: nat, a: nat, b: nat)
    ensures Digits(n, a + b) == Digits(Shifted(n, b), a) + Digits(n, b)
    decreases b
  {
    if b > 0 {
      DigitsSplit(n / 256, a, b - 1);
    }
  }

  /** Only the remainder modulo 256^len shows. */
  lemma {:induction false} DigitsSame(n: nat, m: nat, k: nat, len: nat)
    requires n == m + k * Pow256(len)
    ensures Digits(n, len) == Digits(m, len)
    decreases len
  {
    hide Low;
    if len > 0 {
      var d := k * Pow256(len - 1);
      assert k * Pow256(len) == 256 * d;
      Same256(n, m, d);
      DigitsSame(n / 256, m / 256, k, len - 1);
    }
  }

  lemma Same256(n: nat, m: nat, d: nat)
    requires n == m + 256 * d
    ensures n / 256 == m / 256 + d && Low(n) == Low(m)
  {}

  lemma Shifts(n: nat)
    ensures Shifted(n, 2) == n / 0x1_0000
    ensures Shifted(n, 4) == Shifted(n, 2) / 0x1_0000
  {
    assert Shifted(n, 2) == Shifted(n / 256, 1) == n / 256 / 256;
    assert Shifted(n, 4) == Shifted(n / 256, 3) == Shifted(n / 256 / 256, 2) == Shifted(n / 256 / 256 / 256, 1);
  }

  lemma {:induction false} ShiftedTwice(n: nat, a: nat, b: nat)
    ensures Shifted(n, a + b) == Shifted(Shifted(n, a), b)
    decreases a
  {
    if a > 0 {
      ShiftedTwice(n / 256, a - 1, b);
    }
  }

  lemma EightDigits(n: nat)
    ensures Digits(n, 8) == Digits(n % 0x1_0000_0000_0000_0000, 8)
    ensures Shifted(n, 8) == n / 0x1_0000_0000_0000_0000
  {
    hide Digits, Shifted;
    assert Pow256(8) == 0x1_0000_0000_0000_0000 by {
      assert Pow256(2) == 0x1_0000;
      assert Pow256(4) == 0x1_0000_0000;
      assert Pow256(6) == 0x1_0000_0000_0000;
    }
    DigitsSame(n, n % 0x1_0000_0000_0000_0000, n / 0x1_0000_0000_0000_0000, 8);
    ShiftedTwice(n, 4, 4);
    Shifts(n);
    Shifts(Shifted(n, 4));
  }

  /** A 128-bit length is its two halves. */
  lemma SixteenDigits(n: nat)
    ensures Digits(n, 16) == Digits(n / 0x1_0000_0000_0000_0000 % 0x1_0000_0000_0000_0000, 8)
                           + Digits(n % 0x1_0000_0000_0000_0000, 8)
  {
    hide Digits;
    DigitsSplit(n, 8, 8);
    EightDigits(n);
    EightDigits(n / 0x1_0000_0000_0000_0000);
  }

  // ----- the last one or two blocks

  lemma GapIs(n: nat, size: nat)
    requires size == 4 || size == 8
    ensures var b := 16 * size; var used := n % b; var gap := (b - (n + 1 + 2 * size) % b) % b;
      gap == if used + 1 + 2 * size <= b then b - 1 - 2 * size - used else 2 * b - 1 - 2 * size - used
  {
    if size == 4 {
      Gap64(n, n % 64);
    } else {
      Gap128(n, n % 128);
    }
  }

  lemma Gap64(n: nat, u: nat)
    requires u == n % 64
    ensures (64 - (n + 9) % 64) % 64 == if u + 9 <= 64 then 55 - u else 119 - u
  {
    assert (n + 9) % 64 == if u + 9 < 64 then u + 9 else u + 9 - 64;
  }

  lemma Gap128(n: nat, u: nat)
    requires u == n % 128
    ensures (128 - (n + 17) % 128) % 128 == if u + 17 <= 128 then 111 - u else 239 - u
  {
    assert (n + 17) % 128 == if u + 17 < 128 then u + 17 else u + 17 - 128;
  }

  /** The part of `m` that does not fill a block. */
  function Rest<W>(F: Family<W>, m: seq<byte>): (r: seq<byte>)
    requires F.size == 4 || F.size == 8
    ensures |r| == |m| % BlockSize(F) < BlockSize(F)
  {
    Whole(|m|, F.size);
    m[|m| - |m| % BlockSize(F)..]
  }

  /** The whole blocks of `m`. */
  function Head<W>(F: Family<W>, m: seq<byte>): (r: seq<byte>)
    requires F.size == 4 || F.size == 8
    ensures |r| % BlockSize(F) == 0 && r + Rest(F, m) == m
  {
    Whole(|m|, F.size);
    m[..|m| - |m| % BlockSize(F)]
  }

  lemma RestOf<W>(F: Family<W>, head: seq<byte>, tail: seq<byte>)
    requires (F.size == 4 || F.size == 8) && |head| % BlockSize(F) == 0 && |tail| < BlockSize(F)
    ensures Rest(F, head + tail) == tail
  {
    Remainder(|head|, |tail|, F.size);
  }

  lemma HeadChain<W>(F: Family<W>, m: seq<byte>)
    requires (F.size == 4 || F.size == 8) && |F.initial| == 8
    ensures Chain(F, Head(F, m)) == Chain(F, m)
  {
    hide Chain, Head, Rest;
    ChainPart(F, Head(F, m), Rest(F, m));
  }

  lemma GapOf<W>(F: Family<W>, m: seq<byte>)
    requires (F.size == 4 || F.size == 8) && F.lengthBytes == 2 * F.size
    ensures var r := |Rest(F, m)|;
      Gap(F, |m|) == if r + 1 <= 14 * F.size then 14 * F.size - r - 1 else 30 * F.size - r - 1
  {
    GapIs(|m|, F.size);
  }

  lemma PadShort<W>(F: Family<W>, m: seq<byte>)
    requires (F.size == 4 || F.size == 8) && F.lengthBytes == 2 * F.size && |F.initial| == 8
    requires |Rest(F, m)| + 1 <= 14 * F.size
    ensures Chain(F, Padded(F, m)) == Compress(F, Chain(F, m),
      Rest(F, m) + [0x80] + Zeros(14 * F.size - |Rest(F, m)| - 1) + Digits(8 * |m|, F.lengthBytes))
  {
    hide Chain, Compress, Digits, Head, Rest, Gap;
    var rest, head := Rest(F, m), Head(F, m);
    GapOf(F, m);
    var last := rest + [0x80] + Zeros(14 * F.size - |rest| - 1) + Digits(8 * |m|, F.lengthBytes);
    assert Padded(F, m) == head + last;
    ChainBlock(F, head, last);
    HeadChain(F, m);
  }

  lemma PadLong<W>(F: Family<W>, m: seq<byte>)
    requires (F.size == 4 || F.size == 8) && F.lengthBytes == 2 * F.size && |F.initial| == 8
    requires |Rest(F, m)| + 1 > 14 * F.size
    ensures Chain(F, Padded(F, m)) == Compress(F,
      Compress(F, Chain(F, m), Rest(F, m) + [0x80] + Zeros(BlockSize(F) - |Rest(F, m)| - 1)),
      Zeros(14 * F.size) + Digits(8 * |m|, F.lengthBytes))
  {
    hide Chain, Compress, Digits, Head, Rest, Gap;
    var rest, head := Rest(F, m), Head(F, m);
    GapOf(F, m);
    var one := rest + [0x80] + Zeros(BlockSize(F) - |rest| - 1);
    var two := Zeros(14 * F.size) + Digits(8 * |m|, F.lengthBytes);
    assert Zeros(Gap(F, |m|)) == Zeros(BlockSize(F) - |rest| - 1) + Zeros(14 * F.size);
    assert Padded(F, m) == (head + one) + two;
    ChainBlock(F, head, one);
    ChainBlock(F, head + one, two);
    HeadChain(F, m);
  }

  lemma Whole(n: nat, size: nat)
    requires size == 4 || size == 8
    ensures 0 <= n % (16 * size) < 16 * size && n % (16 * size) <= n
    ensures (n - n % (16 * size)) % (16 * size) == 0
  {
    if size == 4 {
      assert (n - n % 64) % 64 == 0;
    } else {
      assert (n - n % 128) % 128 == 0;
    }
  }
}
