/**
 The cipher-based authentication code of sys/crypto/cmac.c over a message that arrives in pieces,
 against section 6.2 of NIST SP 800-38B.
 */
module Cmac {
  import opened Binary
  import opened Field
  import opened Blocks

  // ----- the definition

  /** A block shifted one bit to the left, with 0x87 folded in when a one falls out. */
  function Doubled(b: Block): (r: Block)
    requires |b| == 16
    ensures |r| == 16
  {
    var s := seq(16, i requires 0 <= i < 16 => Shl(b[i], if i < 15 then b[i + 1] else 0));
    if b[0] >= 128 then s[15 := Binary.Xor(s[15], 0x87, 8)] else s
  }

  /** The same, on bits. */
  function DoubledBits(a: Element): (r: Element)
    requires Good(a)
    ensures Good(r)
  {
    seq(WIDTH, i requires 0 <= i < WIDTH => (i < 127 && a[i + 1]) != (a[0] && i in {120, 125, 126, 127}))
  }

  function Blank(): (r: Block)
    ensures |r| == 16
  {
    seq(16, _ => 0)
  }

  /** The chaining value after `n` blocks. */
  function Chain(enc: Block -> Block, data: seq<nat>, n: nat): (r: Block)
    requires OnBlocks(enc) && 16 * n <= |data|
    ensures |r| == 16
  {
    if n == 0 then Blank()
    else
      assert |XorBlock(BlockOf(data, n - 1), Chain(enc, data, n - 1))| == 16;
      enc(XorBlock(BlockOf(data, n - 1), Chain(enc, data, n - 1)))
  }

  /** The blocks before the last one; the last one is short only if it has to be. */
  function Lead(len: nat): nat { if len == 0 then 0 else (len - 1) / 16 }

  function Marked(m: seq<nat>): (r: Block)
    requires |m| < 16
    ensures |r| == 16
  {
    m + [0x80] + seq(15 - |m|, _ => 0)
  }

  function Subkey1(enc: Block -> Block): (r: Block)
    requires OnBlocks(enc)
    ensures |r| == 16
  {
    Doubled(enc(Blank()))
  }

  function LastBlock(enc: Block -> Block, m: seq<nat>): (r: Block)
    requires OnBlocks(enc) && |m| <= 16
    ensures |r| == 16
  {
    if |m| == 16 then XorBlock(Subkey1(enc), m) else XorBlock(Doubled(Subkey1(enc)), Marked(m))
  }

  function Mac(enc: Block -> Block, m: seq<nat>): Block
    requires OnBlocks(enc)
  {
    var k := Lead(|m|);
    enc(XorBlock(LastBlock(enc, m[16 * k..]), Chain(enc, m, k)))
  }

  // ----- the shift

  lemma DoubledBytes(b: Block)
    requires Bytes16(b)
    ensures Bytes16(Doubled(b))
  {
    hide Binary.Xor, Pow2, Doubled;
    Powers();
    forall j | 0 <= j < 16 ensures Doubled(b)[j] < 256 {
      DoubledByte(b, j);
      XorBound(Shl(b[15], 0), 0x87, 8, 8);
    }
  }

  /** The byte-wise shift is the shift of the whole block. */
  lemma DoubledIsShift(b: Block)
    requires Bytes16(b)
    ensures Bytes16(Doubled(b)) && BlockBits(Doubled(b)) == DoubledBits(BlockBits(b))
  {
    hide Doubled, DoubledBits, BlockBits;
    DoubledBytes(b);
    forall i | 0 <= i < WIDTH ensures BlockBits(Doubled(b))[i] == DoubledBits(BlockBits(b))[i] {
      DoubledBit(b, i);
    }
  }

  lemma DoubledBit(b: Block, i: nat)
    requires Bytes16(b) && i < WIDTH
    ensures BlockBits(Doubled(b))[i] == DoubledBits(BlockBits(b))[i]
  {
    hide Bit, Binary.Xor, Pow2, Shl, Doubled;
    var j, k := i / 8, 7 - i % 8;
    var c := if j < 15 then b[j + 1] else 0;
    DoubledByte(b, j);
    ShiftBit(b[j], c, k);
    SmallBit(0, 0, 7);
    TopBit(b[0]);
    XorBit(Shl(b[j], c), 0x87, 8, k);
    FoldedBits(k);
    NextBit(i, j);
  }

  lemma NextBit(i: nat, j: nat)
    requires i < WIDTH && j == i / 8
    ensures i + 1 < WIDTH ==> (i + 1) / 8 == (if i % 8 == 7 then j + 1 else j)
    ensures i + 1 < WIDTH ==> (i + 1) % 8 == if i % 8 == 7 then 0 else i % 8 + 1
    ensures i in {120, 125, 126, 127} <==> j == 15 && 7 - i % 8 in {0, 1, 2, 7}
  {}

  lemma DoubledByte(b: Block, j: nat)
    requires |b| == 16 && j < 16
    ensures var s := Shl(b[j], if j < 15 then b[j + 1] else 0);
      Doubled(b)[j] == if j == 15 && b[0] >= 128 then Binary.Xor(s, 0x87, 8) else s
  {
    hide Binary.Xor, Shl;
  }

  // ----- the code

  /** XOR(v, r). */
  method XorInto(v: array<nat>, at: nat, r: array<nat>)
    requires at + 16 <= v.Length && r.Length == 16 && v != r
    modifies r
    ensures r[..] == XorBlock(v[at..at + 16], old(r[..]))
  {
    var i: nat := 0;
    while i < 16
      invariant i <= 16
      invariant forall k :: 0 <= k < i ==> r[k] == Binary.Xor(v[at + k], old(r[k]), 8)
      invariant forall k :: i <= k < 16 ==> r[k] == old(r[k])
    {
      r[i] := Binary.Xor(v[at + i], r[i], 8);
      i := i + 1;
    }
  }

  /** LSHIFT and the reduction, in place. */
  method Double(K: array<nat>)
    requires K.Length == 16
    modifies K
    ensures K[..] == Doubled(old(K[..]))
  {
    hide Shl, Binary.Xor;
    var top := K[0] >= 128;
    var i: nat := 0;
    while i < 15
      invariant i <= 15
      invariant forall k :: 0 <= k < i ==> K[k] == Shl(old(K[k]), old(K[k + 1]))
      invariant forall k :: i <= k < 16 ==> K[k] == old(K[k])
    {
      K[i] := Shl(K[i], K[i + 1]);
      i := i + 1;
    }
    K[15] := Shl(K[15], 0);
    if top {
      K[15] := Binary.Xor(K[15], 0x87, 8);
    }
  }

  lemma {:induction false} ChainPrefix(enc: Block -> Block, a: seq<nat>, b: seq<nat>, n: nat)
    requires OnBlocks(enc) && 16 * n <= |a|
    ensures Chain(enc, a + b, n) == Chain(enc, a, n)
  {
    hide OnBlocks, XorBlock;
    if n > 0 {
      ChainPrefix(enc, a, b, n - 1);
      assert BlockOf(a + b, n - 1) == BlockOf(a, n - 1);
    }
  }

  lemma LeadIs(len: nat, k: nat, rest: nat)
    requires len == 16 * k + rest && rest <= 16 && (rest == 0 ==> k == 0)
    ensures Lead(len) == k
  {}

  lemma Assemble(a: seq<nat>, d: seq<nat>, at: nat)
    requires at <= |d|
    ensures (a + d[..at]) + d[at..] == a + d && a + d[..0] == a
  {}

  class Context {
    const enc: Block -> Block
    const X: array<nat>
    const last: array<nat>
    var n: nat
    /** Everything fed so far. */
    ghost var fed: seq<nat>

    ghost predicate Shaped()
      reads this`n
    {
      OnBlocks(enc) && X.Length == last.Length == 16 && X != last && n <= 16
    }

    /** The first `k` blocks of `m` are in X and the rest is held back. */
    ghost predicate Holds(m: seq<nat>, k: nat)
      reads this`n, X, last
    {
      Shaped() && |m| == 16 * k + n && X[..] == Chain(enc, m, k) && last[..n] == m[16 * k..]
    }

    ghost predicate Valid()
      reads this, X, last
    {
      && Holds(fed, Lead(|fed|))
      && (n == 0 <==> fed == [])
    }

    /** AES_CMAC_Init. */
    constructor (cipher: Block -> Block)
      requires OnBlocks(cipher)
      ensures Valid() && enc == cipher && fed == [] && fresh(X) && fresh(last)
    {
      enc := cipher;
      X := new nat[16](_ => 0);
      last := new nat[16](_ => 0);
      n := 0;
      fed := [];
      new;
      assert X[..] == Blank();
    }

    /** One block goes into X. */
    method Absorb(v: array<nat>, at: nat, ghost m: seq<nat>, ghost k: nat)
      requires Shaped() && at + 16 <= v.Length && v != X && 16 * k + 16 <= |m|
      requires X[..] == Chain(enc, m, k) && v[at..at + 16] == BlockOf(m, k)
      modifies X
      ensures X[..] == Chain(enc, m, k + 1)
    {
      hide XorBlock;
      XorInto(v, at, X);
      var x := enc(X[..]);
      forall i | 0 <= i < 16 { X[i] := x[i]; }
      assert X[..] == x;
    }

    /** Bytes are put after those held back. */
    method Hold(data: array<nat>, at: nat, len: nat, ghost m: seq<nat>, ghost k: nat)
      requires Holds(m, k) && data != X && data != last && at + len <= data.Length && n + len <= 16
      modifies this`n, last
      ensures n == old(n) + len && Holds(m + data[at..at + len], k)
    {
      hide Chain, OnBlocks;
      ghost var d := data[at..at + len];
      forall i | 0 <= i < len { last[n + i] := data[at + i]; }
      ChainPrefix(enc, m, d, k);
      assert (m + d)[16 * k..] == m[16 * k..] + d;
      assert last[..n + len] == old(last[..n]) + d;
      n := n + len;
      assert X[..] == old(X[..]) && data[at..at + len] == d;
    }

    /** AES_CMAC_Update. */
    method Update(data: array<nat>)
      requires Valid() && data != X && data != last
      modifies this`n, this`fed, X, last
      ensures Valid() && fed == old(fed) + data[..]
    {
      hide Chain, OnBlocks, Lead, Holds;
      ghost var d := data[..];
      if n == 0 {
        NothingHeld();
        Finish(data, 0, [], 0);
        assert data[0..] == d && [] + d == d;
      } else {
        var at, m, k := TopUp(data);
        if at < data.Length {
          Finish(data, at, m, k);
          assert data[at..] == d[at..];
          Assemble(old(fed), d, at);
        }
      }
    }

    /** Nothing has been fed. */
    lemma NothingHeld()
      requires Valid() && n == 0
      ensures Shaped() && X[..] == Chain(enc, [], 0) && fed == []
    {
    }

    /** The block held back is filled up; when more is to come it goes into X. */
    method TopUp(data: array<nat>) returns (at: nat, ghost m: seq<nat>, ghost k: nat)
      requires Valid() && n > 0 && data != X && data != last
      modifies this`n, this`fed, X, last
      ensures at <= data.Length && m == old(fed) + data[..][..at]
      ensures at < data.Length ==> Shaped() && |m| == 16 * k && X[..] == Chain(enc, m, k)
      ensures at == data.Length ==> Valid() && fed == old(fed) + data[..]
    {
      hide Chain, OnBlocks;
      m, k := fed, Lead(|fed|);
      at := if 16 - n < data.Length then 16 - n else data.Length;
      Hold(data, 0, at, m, k);
      assert data[0..at] == data[..][..at];
      m := m + data[0..at];
      if at == data.Length {
        assert data[..][..at] == data[..];
        LeadIs(|m|, k, n);
        fed := m;
        return;
      }
      FullBlock(m, k);
      Absorb(last, 0, m, k);
      k := k + 1;
      assert data[0..at] == data[..][..at];
    }

    /** The block held back is full. */
    lemma FullBlock(m: seq<nat>, k: nat)
      requires Holds(m, k) && n == 16
      ensures 16 * k + 16 <= |m| && last[0..16] == BlockOf(m, k)
    {
      hide Chain, OnBlocks;
      assert last[..16] == last[0..16];
    }

    /** What is left of the data: all but the last block go into X. */
    method Finish(data: array<nat>, from: nat, ghost m: seq<nat>, ghost k: nat)
      requires Shaped() && data != X && data != last && from <= data.Length
      requires |m| == 16 * k && X[..] == Chain(enc, m, k) && (m == [] || from < data.Length)
      modifies this`n, this`fed, X, last
      ensures Valid() && fed == m + data[from..]
    {
      hide Chain, OnBlocks, Lead;
      var at, j := Middle(data, from, m, k);
      ghost var q := m + data[from..at];
      n := 0;
      Hold(data, at, data.Length - at, q, j);
      fed := q + data[at..data.Length];
      LeadIs(|fed|, j, n);
      assert fed == m + data[from..];
    }

    /** The loop over blocks that are certainly not the last. */
    method Middle(data: array<nat>, from: nat, ghost m0: seq<nat>, ghost k0: nat) returns (at: nat, ghost k: nat)
      requires Shaped() && data != X && data != last && from <= data.Length
      requires |m0| == 16 * k0 && X[..] == Chain(enc, m0, k0)
      modifies X
      ensures from <= at <= data.Length <= at + 16 && |m0| + at - from == 16 * k
      ensures from < data.Length ==> at < data.Length
      ensures X[..] == Chain(enc, m0 + data[from..at], k)
    {
      hide Chain, OnBlocks;
      at := from;
      k := k0;
      assert m0 + data[from..from] == m0;
      while data.Length - at > 16
        invariant from <= at <= data.Length && at - from == 16 * (k - k0) && k0 <= k
        invariant from < data.Length ==> at < data.Length
        invariant X[..] == Chain(enc, m0 + data[from..at], k)
      {
        ghost var m := m0 + data[from..at + 16];
        assert m == (m0 + data[from..at]) + data[at..at + 16];
        ChainPrefix(enc, m0 + data[from..at], data[at..at + 16], k);
        assert data[at..at + 16] == BlockOf(m, k);
        Absorb(data, at, m, k);
        at := at + 16;
        k := k + 1;
      }
    }

    /** The last block is made ready: marked if it is short, and masked by its subkey. */
    method Mask()
      requires Valid()
      modifies this`n, last
      ensures last[..] == LastBlock(enc, fed[16 * Lead(|fed|)..])
    {
      hide Chain, Lead, Doubled, XorBlock;
      ghost var m := fed[16 * Lead(|fed|)..];
      var l := enc(Blank());
      var K := new nat[16](i requires 0 <= i < 16 => l[i]);
      assert K[..] == l && last[..n] == m;
      Double(K);
      if n == 16 {
        assert last[..] == m;
        assert K[0..16] == K[..];
        XorInto(K, 0, last);
      } else {
        Double(K);
        last[n] := 0x80;
        ghost var used := n;
        n := n + 1;
        while n < 16
          invariant used < n <= 16 && K[..] == Doubled(Subkey1(enc))
          invariant last[..used] == m && last[used] == 0x80 && forall i :: used < i < n ==> last[i] == 0
        {
          last[n] := 0;
          n := n + 1;
        }
        assert last[..] == Marked(m);
        assert K[0..16] == K[..];
        XorInto(K, 0, last);
      }
    }

    /** AES_CMAC_Final. */
    method Final() returns (digest: Block)
      requires Valid()
      modifies this`n, X, last
      ensures digest == Mac(enc, fed)
    {
      hide Chain, Lead, LastBlock, XorBlock;
      Mask();
      assert last[0..16] == last[..];
      assert X[..] == Chain(enc, fed, Lead(|fed|));
      XorInto(last, 0, X);
      digest := enc(X[..]);
    }
  }
}
