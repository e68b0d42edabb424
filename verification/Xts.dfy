/**
 AES in XTS mode (sys/crypto/xform.c) for any pair of block ciphers: the tweak that is raised from
 block to block, against section 5 of IEEE 1619-2007.
 */
module Xts {
  import opened Binary
  import opened Field
  import opened Blocks

  /** The element a tweak stands for: bit `k` of byte `j` is coefficient `8 * j + k`. */
  function TweakBits(b: Block): (r: Element)
    requires |b| == 16
    ensures Good(r)
  {
    seq(WIDTH, i requires 0 <= i < WIDTH => Bit(b[i / 8], i % 8))
  }

  /** The byte whose top bit is carried into byte `i`. */
  function Carry(b: Block, i: nat): nat
    requires i < |b|
  {
    if i > 0 then b[i - 1] else 0
  }

  /** The byte-carry loop's result. */
  function Raised(b: Block): (r: Block)
    requires |b| == 16
    ensures |r| == 16
  {
    var s := seq(16, i requires 0 <= i < 16 => Shl(b[i], Carry(b, i)));
    if b[15] >= 128 then s[0 := Binary.Xor(s[0], 0x87, 8)] else s
  }

  lemma RaisedByte(b: Block, j: nat)
    requires |b| == 16 && j < 16
    ensures var s := Shl(b[j], Carry(b, j));
      Raised(b)[j] == if j == 0 && b[15] >= 128 then Binary.Xor(s, 0x87, 8) else s
  {
    hide Binary.Xor, Shl;
  }

  lemma RaisedBytes(b: Block)
    requires Bytes16(b)
    ensures Bytes16(Raised(b))
  {
    hide Binary.Xor, Pow2, Raised;
    Powers();
    forall j | 0 <= j < 16 ensures Raised(b)[j] < 256 {
      RaisedByte(b, j);
      XorBound(Shl(b[0], 0), 0x87, 8, 8);
    }
  }

  lemma RaisedBit(b: Block, i: nat)
    requires Bytes16(b) && i < WIDTH
    ensures TweakBits(Raised(b))[i] == Times2(TweakBits(b))[i]
  {
    hide Bit, Binary.Xor, Pow2, Shl, Raised;
    var j, k := i / 8, i % 8;
    var c := Carry(b, j);
    RaisedByte(b, j);
    ShiftBit(b[j], c, k);
    SmallBit(0, 0, 7);
    TopBit(b[15]);
    XorBit(Shl(b[j], c), 0x87, 8, k);
    FoldedBits(k);
    PreviousBit(i, j);
  }

  lemma PreviousBit(i: nat, j: nat)
    requires i < WIDTH && j == i / 8
    ensures i > 0 ==> (i - 1) / 8 == (if i % 8 == 0 then j - 1 else j)
    ensures i > 0 ==> (i - 1) % 8 == if i % 8 == 0 then 7 else i % 8 - 1
    ensures Reduction(i) <==> j == 0 && i % 8 in {0, 1, 2, 7}
  {}

  /** The byte-carry loop multiplies by the primitive element. */
  lemma RaisedIsTimesAlpha(b: Block)
    requires Bytes16(b)
    ensures Bytes16(Raised(b)) && TweakBits(Raised(b)) == Times2(TweakBits(b))
  {
    hide Raised, TweakBits, Times2;
    RaisedBytes(b);
    forall i | 0 <= i < WIDTH ensures TweakBits(Raised(b))[i] == Times2(TweakBits(b))[i] {
      RaisedBit(b, i);
    }
  }

  /** The tweak before block `j`. */
  function TweakAt(t: Block, j: nat): (r: Block)
    requires |t| == 16
    ensures |r| == 16
  {
    if j == 0 then t else Raised(TweakAt(t, j - 1))
  }

  /** The primitive element to the power `j`. */
  function AlphaTo(j: nat): (r: Element)
    ensures Good(r)
  {
    if j == 0 then One() else Times(AlphaTo(j - 1), Times2(One()))
  }

  lemma {:induction false} AlphaToIs(j: nat)
    ensures AlphaTo(j) == Times2s(One(), j)
  {
    hide Times, One, Times2;
    if j > 0 {
      AlphaToIs(j - 1);
      var p := Times2s(One(), j - 1);
      TimesTimes2s(p, One(), 1);
      TimesOne(p);
      assert Times2s(One(), 1) == Times2(Times2s(One(), 0));
      assert Times2s(p, 1) == Times2(Times2s(p, 0));
    }
  }

  lemma {:induction false} TweakIsPower(t: Block, j: nat)
    requires Bytes16(t)
    ensures Bytes16(TweakAt(t, j))
    ensures TweakBits(TweakAt(t, j)) == Times(TweakBits(t), AlphaTo(j))
  {
    hide Times, One, Times2, Raised, TweakBits;
    TweakDoubles(t, j);
    AlphaToIs(j);
    TimesTimes2s(TweakBits(t), One(), j);
    TimesOne(TweakBits(t));
  }

  lemma {:induction false} TweakDoubles(t: Block, j: nat)
    requires Bytes16(t)
    ensures Bytes16(TweakAt(t, j)) && TweakBits(TweakAt(t, j)) == Times2s(TweakBits(t), j)
  {
    hide Times2, Raised, TweakBits;
    if j > 0 {
      TweakDoubles(t, j - 1);
      RaisedIsTimesAlpha(TweakAt(t, j - 1));
    }
  }

  // ----- blocks under a tweak

  /** A cipher under one key and its inverse. */
  ghost predicate Inverse(enc: Block -> Block, dec: Block -> Block) {
    forall b {:trigger enc(b)} :: Bytes16(b) ==> Bytes16(enc(b)) && dec(enc(b)) == b
  }

  function Tweaked(f: Block -> Block, t: Block, b: Block): Block
    requires OnBlocks(f) && |t| == 16 && |b| == 16
  {
    XorBlock(Apply(f, XorBlock(b, t)), t)
  }

  /** `n` blocks, each under its own tweak. */
  function Ciphered(f: Block -> Block, t: Block, data: seq<nat>, n: nat): (r: seq<nat>)
    requires OnBlocks(f) && |t| == 16 && |data| == 16 * n
    ensures |r| == 16 * n
  {
    if n == 0 then []
    else Ciphered(f, t, data[..16 * n - 16], n - 1) + Tweaked(f, TweakAt(t, n - 1), data[16 * n - 16..])
  }

  /** Block `j` is ciphered under the first tweak times the primitive element to the power `j`. */
  lemma {:induction false} CipheredBlock(f: Block -> Block, t: Block, data: seq<nat>, n: nat, j: nat)
    requires OnBlocks(f) && Bytes16(t) && |data| == 16 * n && j < n
    ensures var T := TweakAt(t, j);
      && TweakBits(T) == Times(TweakBits(t), AlphaTo(j))
      && BlockOf(Ciphered(f, t, data, n), j) == XorBlock(f(XorBlock(BlockOf(data, j), T)), T)
  {
    hide XorBlock, TweakAt, TweakBits, Times, OnBlocks;
    TweakIsPower(t, j);
    var a, b := data[..16 * n - 16], data[16 * n - 16..];
    if j < n - 1 {
      CipheredBlock(f, t, a, n - 1, j);
      assert BlockOf(a, j) == BlockOf(data, j);
      assert BlockOf(Ciphered(f, t, data, n), j) == BlockOf(Ciphered(f, t, a, n - 1), j);
    } else {
      assert b == BlockOf(data, j);
      assert BlockOf(Ciphered(f, t, data, n), j) == Tweaked(f, TweakAt(t, j), b);
    }
  }

  lemma XorBlockTwice(a: Block, t: Block)
    requires Bytes16(a) && Bytes16(t)
    ensures Bytes16(XorBlock(a, t)) && XorBlock(XorBlock(a, t), t) == a
  {
    hide Binary.Xor, Pow2, BlockBits;
    Powers();
    XorBlocks(a, t, XorBlock(a, t));
    forall i | 0 <= i < 16 ensures Binary.Xor(Binary.Xor(a[i], t[i], 8), t[i], 8) == a[i] {
      XorTwice(a[i], t[i], 8);
    }
  }

  lemma TweakedUndone(enc: Block -> Block, dec: Block -> Block, t: Block, b: Block)
    requires OnBlocks(enc) && OnBlocks(dec) && Inverse(enc, dec) && Bytes16(t) && Bytes16(b)
    ensures Tweaked(dec, t, Tweaked(enc, t, b)) == b
  {
    hide XorBlock;
    XorBlockTwice(b, t);
    XorBlockTwice(enc(XorBlock(b, t)), t);
  }

  /** Deciphering the blocks in the same order, from the same first tweak, gives the data back. */
  lemma {:induction false} CipheredUndone(enc: Block -> Block, dec: Block -> Block, t: Block, data: seq<nat>, n: nat)
    requires OnBlocks(enc) && OnBlocks(dec) && Inverse(enc, dec) && Bytes16(t)
    requires |data| == 16 * n && forall i :: 0 <= i < |data| ==> data[i] < 256
    ensures Ciphered(dec, t, Ciphered(enc, t, data, n), n) == data
  {
    hide Tweaked, TweakAt, Inverse, OnBlocks;
    if n > 0 {
      var a, b := data[..16 * n - 16], data[16 * n - 16..];
      CipheredUndone(enc, dec, t, a, n - 1);
      TweakDoubles(t, n - 1);
      TweakedUndone(enc, dec, TweakAt(t, n - 1), b);
      var c := Ciphered(enc, t, data, n);
      assert c[..16 * n - 16] == Ciphered(enc, t, a, n - 1);
      assert c[16 * n - 16..] == Tweaked(enc, TweakAt(t, n - 1), b);
      assert a + b == data;
    }
  }

  // ----- the code

  /** A 64-bit block number in little-endian bytes, and eight zero bytes. */
  function Number(n: nat): (r: Block)
    ensures |r| == 16
  {
    LowBytes(n, 8) + seq(8, _ => 0)
  }

  function LowBytes(n: nat, k: nat): (r: seq<nat>)
    ensures |r| == k
  {
    if k == 0 then [] else [n % 256] + LowBytes(n / 256, k - 1)
  }

  lemma LowBytesNext(before: seq<nat>, n: nat, k: nat)
    requires k > 0
    ensures before + LowBytes(n, k) == (before + [n % 256]) + LowBytes(n / 256, k - 1)
  {
    assert before + ([n % 256] + LowBytes(n / 256, k - 1)) == (before + [n % 256]) + LowBytes(n / 256, k - 1);
  }

  /** The number that bytes stand for, least significant first. */
  function LittleEndian(s: seq<nat>): nat {
    if s == [] then 0 else s[0] + 256 * LittleEndian(s[1..])
  }

  function Pow256(k: nat): nat { if k == 0 then 1 else 256 * Pow256(k - 1) }

  lemma {:induction false} LowBytesValue(n: nat, k: nat)
    requires n < Pow256(k)
    ensures LittleEndian(LowBytes(n, k) + seq(8, _ => 0)) == n
    decreases k
  {
    var r := LowBytes(n, k) + seq(8, _ => 0);
    if k == 0 {
      AllZero(8);
      assert r == seq(8, _ => 0);
    } else {
      LowBytesValue(n / 256, k - 1);
      assert r[1..] == LowBytes(n / 256, k - 1) + seq(8, _ => 0);
    }
  }

  lemma {:induction false} AllZero(k: nat)
    ensures LittleEndian(seq(k, _ => 0)) == 0
  {
    if k > 0 {
      assert seq<nat>(k, _ => 0)[1..] == seq(k - 1, _ => 0);
      AllZero(k - 1);
    }
  }

  /** The first tweak is the encryption of the block number as sixteen little-endian bytes. */
  lemma NumberValue(n: nat)
    requires n < 0x1_0000_0000_0000_0000
    ensures LittleEndian(Number(n)) == n
  {
    assert Pow256(8) == 0x1_0000_0000_0000_0000 by {
      assert Pow256(2) == 0x1_0000;
      assert Pow256(4) == 0x1_0000_0000;
      assert Pow256(6) == 0x1_0000_0000_0000;
    }
    LowBytesValue(n, 8);
  }

  class Context {
    const enc1: Block -> Block
    const dec1: Block -> Block
    const enc2: Block -> Block
    const tweak: array<nat>

    ghost predicate Valid() {
      OnBlocks(enc1) && OnBlocks(dec1) && OnBlocks(enc2) && tweak.Length == 16
    }

    constructor (e1: Block -> Block, d1: Block -> Block, e2: Block -> Block)
      requires OnBlocks(e1) && OnBlocks(d1) && OnBlocks(e2)
      ensures Valid() && fresh(tweak) && enc1 == e1 && dec1 == d1 && enc2 == e2
    {
      enc1, dec1, enc2 := e1, d1, e2;
      tweak := new nat[16](_ => 0);
    }

    /** aes_xts_reinit. */
    method Reinit(number: nat)
      requires Valid()
      modifies tweak
      ensures tweak[..] == enc2(Number(number))
    {
      hide LowBytes;
      var i: nat, n := 0, number;
      while i < 8
        invariant i <= 8
        invariant tweak[..i] + LowBytes(n, 8 - i) == LowBytes(number, 8)
      {
        ghost var before := tweak[..i];
        LowBytesNext(before, n, 8 - i);
        tweak[i] := n % 256;
        assert tweak[..i + 1] == before + [n % 256];
        n := n / 256;
        i := i + 1;
      }
      forall k | 8 <= k < 16 { tweak[k] := 0; }
      assert tweak[..] == Number(number);
      var t := enc2(tweak[..]);
      forall k | 0 <= k < 16 { tweak[k] := t[k]; }
      assert tweak[..] == t;
    }

    /** The tweak's step to the next block. */
    method Raise()
      requires Valid()
      modifies tweak
      ensures tweak[..] == Raised(old(tweak[..]))
    {
      hide Binary.Xor, Raised;
      ghost var was := tweak[..];
      var carryIn: nat := 0;
      var i: nat := 0;
      while i < 16
        invariant i <= 16 && carryIn == if i > 0 then was[i - 1] / 128 else 0
        invariant forall k :: 0 <= k < i ==> tweak[k] == Shl(was[k], Carry(was, k))
        invariant forall k :: i <= k < 16 ==> tweak[k] == was[k]
      {
        var carryOut := tweak[i] / 128;
        assert 2 * was[i] % 256 + carryIn == Shl(was[i], Carry(was, i));
        tweak[i] := 2 * tweak[i] % 256 + carryIn;
        carryIn := carryOut;
        i := i + 1;
      }
      ghost var s := tweak[..];
      if carryIn > 0 {
        tweak[0] := Binary.Xor(tweak[0], 0x87, 8);
        assert tweak[0] == Binary.Xor(s[0], 0x87, 8) && forall k :: 1 <= k < 16 ==> tweak[k] == s[k];
      } else {
        assert was[15] < 128 && forall k :: 0 <= k < 16 ==> tweak[k] == s[k];
      }
      forall j | 0 <= j < 16 ensures tweak[j] == Raised(was)[j] {
        assert s[j] == Shl(was[j], Carry(was, j));
        RaisedByte(was, j);
      }
    }

    /** The tweak over sixteen bytes, into `out`. */
    method Cover(data: array<nat>, at: nat, out: array<nat>, to: nat)
      requires Valid() && at + 16 <= data.Length && to + 16 <= out.Length && out != tweak && (out == data ==> at == to)
      modifies out
      ensures out[to..to + 16] == XorBlock(old(data[at..at + 16]), tweak[..])
      ensures out[..to] == old(out[..to]) && out[to + 16..] == old(out[to + 16..])
    {
      hide Binary.Xor;
      ghost var d, t := data[at..at + 16], tweak[..];
      var i: nat := 0;
      while i < 16
        invariant i <= 16 && tweak[..] == t
        invariant forall k :: 0 <= k < i ==> out[to + k] == Binary.Xor(d[k], t[k], 8)
        invariant forall k :: i <= k < 16 ==> data[at + k] == d[k]
        invariant out[..to] == old(out[..to]) && out[to + 16..] == old(out[to + 16..])
      {
        out[to + i] := Binary.Xor(data[at + i], tweak[i], 8);
        i := i + 1;
      }
    }

    /** aes_xts_crypt on the block at `at`. */
    method Crypt(data: array<nat>, at: nat, encrypt: bool)
      requires Valid() && at + 16 <= data.Length && data != tweak
      modifies data, tweak
      ensures data[at..at + 16] == Tweaked(if encrypt then enc1 else dec1, old(tweak[..]), old(data[at..at + 16]))
      ensures data[..at] == old(data[..at]) && data[at + 16..] == old(data[at + 16..])
      ensures tweak[..] == Raised(old(tweak[..]))
    {
      hide Raised, XorBlock;
      var block := new nat[16];
      Cover(data, at, block, 0);
      ghost var x := XorBlock(old(data[at..at + 16]), old(tweak[..]));
      assert block[..] == block[0..16] == x;
      var f := if encrypt then enc1 else dec1;
      var c := Apply(f, block[..]);
      forall k | 0 <= k < 16 { data[at + k] := c[k]; }
      assert data[at..at + 16] == c && tweak[..] == old(tweak[..]);
      Cover(data, at, data, at);
      assert tweak[..] == old(tweak[..]);
      Raise();
    }

    /** A run of blocks after one Reinit. */
    method Run(data: array<nat>, n: nat, encrypt: bool)
      requires Valid() && data.Length == 16 * n && data != tweak
      modifies data, tweak
      ensures data[..] == Ciphered(if encrypt then enc1 else dec1, old(tweak[..]), old(data[..]), n)
    {
      hide Tweaked, Raised;
      ghost var f, t, d := if encrypt then enc1 else dec1, tweak[..], data[..];
      var i: nat := 0;
      assert d[..0] == [];
      while i < n
        invariant i <= n && tweak[..] == TweakAt(t, i)
        invariant data[..16 * i] == Ciphered(f, t, d[..16 * i], i)
        invariant data[16 * i..] == d[16 * i..]
      {
        assert data[16 * i..16 * i + 16] == d[16 * i..16 * i + 16];
        ghost var e := d[..16 * i + 16];
        assert e[..16 * i] == d[..16 * i] && e[16 * i..] == d[16 * i..16 * i + 16];
        Crypt(data, 16 * i, encrypt);
        assert data[..16 * i + 16] == data[..16 * i] + data[16 * i..16 * i + 16];
        assert data[16 * i + 16..] == d[16 * i + 16..];
        i := i + 1;
      }
      assert data[..16 * n] == data[..] && d[..16 * n] == d;
    }
  }
}
