/**
 GHASH and the hashing half of GMAC (sys/crypto/gmac.c).  Blocks are sixteen bytes; the code works
 on four 32-bit words.
 */
module Ghash {
  import opened Binary
  import opened Blocks
  import opened Field

  datatype Words = Words(w0: nat, w1: nat, w2: nat, w3: nat)

  predicate Bounded(v: Words) {
    v.w0 < 0x1_0000_0000 && v.w1 < 0x1_0000_0000 && v.w2 < 0x1_0000_0000 && v.w3 < 0x1_0000_0000
  }

  function Select(v: Words, k: nat): nat
    requires k < 4
  {
    if k == 0 then v.w0 else if k == 1 then v.w1 else if k == 2 then v.w2 else v.w3
  }

  function WordBits(v: Words): (r: Element)
    ensures Good(r)
  {
    seq(WIDTH, i requires 0 <= i < WIDTH => Bit(Select(v, i / 32), 31 - i % 32))
  }

  // ----- from bytes to words and back

  function FromBytes(a: nat, b: nat, c: nat, d: nat): nat { ((a * 0x100 + b) * 0x100 + c) * 0x100 + d }

  lemma FromBytesBit(a: nat, b: nat, c: nat, d: nat, k: nat)
    requires a < 256 && b < 256 && c < 256 && d < 256 && k < 32
    ensures FromBytes(a, b, c, d) < 0x1_0000_0000
    ensures Bit(FromBytes(a, b, c, d), k) ==
      if k < 8 then Bit(d, k) else if k < 16 then Bit(c, k - 8) else if k < 24 then Bit(b, k - 16) else Bit(a, k - 24)
  {
    Powers();
    var x := a * 0x100 + b;
    var y := x * 0x100 + c;
    JoinedBit(y, d, 8, k);
    if k >= 8 {
      JoinedBit(x, c, 8, k - 8);
      if k >= 16 {
        JoinedBit(a, b, 8, k - 16);
      }
    }
  }

  function ToWords(b: Block): Words
    requires |b| == 16
  {
    Words(FromBytes(b[0], b[1], b[2], b[3]), FromBytes(b[4], b[5], b[6], b[7]),
          FromBytes(b[8], b[9], b[10], b[11]), FromBytes(b[12], b[13], b[14], b[15]))
  }

  lemma ToWordsBits(b: Block)
    requires Bytes16(b)
    ensures Bounded(ToWords(b)) && WordBits(ToWords(b)) == BlockBits(b)
  {
    hide FromBytes, Bit;
    forall i | 0 <= i < WIDTH ensures WordBits(ToWords(b))[i] == BlockBits(b)[i] {
      var w, j := i / 32, i % 32;
      FromBytesBit(b[4 * w], b[4 * w + 1], b[4 * w + 2], b[4 * w + 3], 31 - j);
      assert Select(ToWords(b), w) == FromBytes(b[4 * w], b[4 * w + 1], b[4 * w + 2], b[4 * w + 3]);
      ByteIndex(i, w, j);
    }
    FromBytesBit(b[0], b[1], b[2], b[3], 0);
    FromBytesBit(b[4], b[5], b[6], b[7], 0);
    FromBytesBit(b[8], b[9], b[10], b[11], 0);
    FromBytesBit(b[12], b[13], b[14], b[15], 0);
  }

  lemma ByteIndex(i: nat, w: nat, j: nat)
    requires i < WIDTH && w == i / 32 && j == i % 32
    ensures i / 8 == 4 * w + j / 8 && i % 8 == j % 8
    ensures 31 - j == 8 * (3 - j / 8) + (7 - j % 8)
  {}

  function ToBytes(w: nat): (r: Block)
    ensures |r| == 4
  {
    [w / 0x100_0000 % 0x100, w / 0x1_0000 % 0x100, w / 0x100 % 0x100, w % 0x100]
  }

  function FromWords(v: Words): (r: Block)
    ensures |r| == 16
  {
    ToBytes(v.w0) + ToBytes(v.w1) + ToBytes(v.w2) + ToBytes(v.w3)
  }

  lemma BytesBack(w: nat)
    requires w < 0x1_0000_0000
    ensures var r := ToBytes(w);
            r[0] < 256 && r[1] < 256 && r[2] < 256 && r[3] < 256 && FromBytes(r[0], r[1], r[2], r[3]) == w
  {
    var x := w / 0x100;
    var y := x / 0x100;
    assert w == 0x100 * x + w % 0x100 && x == 0x100 * y + x % 0x100;
    assert y == w / 0x1_0000 && y / 0x100 == w / 0x100_0000;
  }

  lemma FromWordsBits(v: Words)
    requires Bounded(v)
    ensures Bytes16(FromWords(v)) && BlockBits(FromWords(v)) == WordBits(v)
  {
    hide FromBytes, ToBytes, BlockBits, WordBits;
    BytesBack(v.w0);
    BytesBack(v.w1);
    BytesBack(v.w2);
    BytesBack(v.w3);
    assert ToWords(FromWords(v)) == v;
    ToWordsBits(FromWords(v));
  }

  // ----- one step of the multiplication

  /** A word moved one place to the right, taking in the last bit of the word before it. */
  function Shifted(before: nat, w: nat): nat { before % 2 * 0x8000_0000 + w / 2 }

  function Step(v: Words): Words {
    Words(Binary.Xor(v.w0 / 2, 0xe100_0000 * (v.w3 % 2), 32), Shifted(v.w0, v.w1), Shifted(v.w1, v.w2),
      Shifted(v.w2, v.w3))
  }

  lemma ShiftedBit(before: nat, w: nat, k: nat)
    requires w < 0x1_0000_0000 && k < 32
    ensures Shifted(before, w) < 0x1_0000_0000
    ensures Bit(Shifted(before, w), k) == if k == 31 then Bit(before, 0) else Bit(w, k + 1)
  {
    Powers();
    JoinedBit(before % 2, w / 2, 31, k);
  }

  lemma ReductionBit(k: nat)
    requires k < 32
    ensures Bit(0xe100_0000, k) == Reduction(31 - k)
  {
    assert Pow2(24) == 0x100_0000 by {
      assert Pow2(8) == 0x100;
      assert Pow2(16) == 0x1_0000;
    }
    JoinedBit(0xe1, 0, 24, k);
    if k < 24 {
      SmallBit(0, 0, k);
    } else {
      assert Bit(0xe1, 0) && !Bit(0xe1, 1) && !Bit(0xe1, 2) && !Bit(0xe1, 3);
      assert Bit(0xe1, 4) == Bit(0xe, 0) && Bit(0xe1, 5) == Bit(0xe, 1) && Bit(0xe1, 6) == Bit(0xe, 2) &&
             Bit(0xe1, 7) == Bit(0xe, 3);
    }
  }

  lemma FirstBit(v: Words, k: nat)
    requires Bounded(v) && k < 32
    ensures Step(v).w0 < 0x1_0000_0000
    ensures Bit(Step(v).w0, k) == ((k < 31 && Bit(v.w0, k + 1)) != (Bit(v.w3, 0) && Reduction(31 - k)))
  {
    var c := 0xe100_0000 * (v.w3 % 2);
    XorBit(v.w0 / 2, c, 32, k);
    XorBound(v.w0 / 2, c, 32, 32);
    Powers();
    if k == 31 {
      SmallBit(v.w0 / 2, 31, 31);
    }
    if v.w3 % 2 == 1 {
      ReductionBit(k);
    } else {
      SmallBit(0, 0, k);
    }
  }

  lemma StepBits(v: Words)
    requires Bounded(v)
    ensures Bounded(Step(v)) && WordBits(Step(v)) == Times2(WordBits(v))
  {
    hide Bit, Shifted, Binary.Xor;
    FirstBit(v, 0);
    ShiftedBit(v.w0, v.w1, 0);
    ShiftedBit(v.w1, v.w2, 0);
    ShiftedBit(v.w2, v.w3, 0);
    forall i | 0 <= i < WIDTH ensures WordBits(Step(v))[i] == Times2(WordBits(v))[i] {
      StepBit(v, i);
    }
  }

  lemma StepBit(v: Words, i: nat)
    requires Bounded(v) && i < WIDTH
    ensures WordBits(Step(v))[i] == Times2(WordBits(v))[i]
  {
    hide Bit, Shifted, Binary.Xor;
    var w, k := i / 32, 31 - i % 32;
    if w == 0 {
      FirstBit(v, k);
    } else {
      ShiftedBit(Select(v, w - 1), Select(v, w), k);
      assert !Reduction(i);
    }
  }

  lemma XorWords(z: Words, v: Words)
    requires Bounded(z) && Bounded(v)
    ensures var r := Words(Binary.Xor(z.w0, v.w0, 32), Binary.Xor(z.w1, v.w1, 32),
                           Binary.Xor(z.w2, v.w2, 32), Binary.Xor(z.w3, v.w3, 32));
      Bounded(r) && WordBits(r) == Plus(WordBits(z), WordBits(v))
  {
    hide Bit, Binary.Xor, Pow2;
    Powers();
    XorBound(z.w0, v.w0, 32, 32);
    XorBound(z.w1, v.w1, 32, 32);
    XorBound(z.w2, v.w2, 32, 32);
    XorBound(z.w3, v.w3, 32, 32);
    forall i | 0 <= i < WIDTH ensures Bit(Binary.Xor(Select(z, i / 32), Select(v, i / 32), 32), 31 - i % 32)
      == (Bit(Select(z, i / 32), 31 - i % 32) != Bit(Select(v, i / 32), 31 - i % 32)) {
      XorBit(Select(z, i / 32), Select(v, i / 32), 32, 31 - i % 32);
    }
  }

  /** ghash_gfmul, also with the product written over a factor. */
  method Gfmul(X: array<nat>, Y: array<nat>, product: array<nat>)
    requires X.Length == Y.Length == product.Length == 16 && Bytes16(X[..]) && Bytes16(Y[..])
    modifies product
    ensures Bytes16(product[..])
    ensures BlockBits(product[..]) == Times(old(BlockBits(X[..])), old(BlockBits(Y[..])))
  {
    hide BlockBits, WordBits, Times2, Plus, ToWords, FromWords, Bytes16, Binary.Xor, Bit, Bounded, Times2s, Zero;
    ghost var x, y := BlockBits(X[..]), BlockBits(Y[..]);
    var v := ToWords(Y[..]);
    ToWordsBits(Y[..]);
    var z := Words(0, 0, 0, 0);
    ZeroWords();
    Times2sNone(y);
    var i: nat := 0;
    while i < 128
      modifies {}
      invariant i <= 128 && Bounded(v) && Bounded(z)
      invariant WordBits(v) == Times2s(y, i) && WordBits(z) == Sum(x, y, i)
    {
      assert X[..] == old(X[..]);
      BlockBit(X[..], i);
      PlusNothing(Sum(x, y, i));
      if Bit(X[i / 8], 7 - i % 8) {
        XorWords(z, v);
        z := Words(Binary.Xor(z.w0, v.w0, 32), Binary.Xor(z.w1, v.w1, 32),
                   Binary.Xor(z.w2, v.w2, 32), Binary.Xor(z.w3, v.w3, 32));
      }
      StepBits(v);
      Times2sNext(y, i);
      v := Step(v);
      i := i + 1;
    }
    FromWordsBits(z);
    var b := FromWords(z);
    forall k | 0 <= k < 16 { product[k] := b[k]; }
    assert product[..] == b;
  }

  lemma ZeroWords()
    ensures Bounded(Words(0, 0, 0, 0)) && WordBits(Words(0, 0, 0, 0)) == Zero()
  {
    hide Bit;
    forall k: nat ensures !Bit(0, k) {
      SmallBit(0, 0, k);
    }
  }

  lemma Times2sNone(y: Element)
    requires Good(y)
    ensures Times2s(y, 0) == y
  {}

  lemma Times2sNext(y: Element, n: nat)
    requires Good(y)
    ensures Times2s(y, n + 1) == Times2(Times2s(y, n))
  {}

  lemma PlusNothing(a: Element)
    requires Good(a)
    ensures Plus(a, Zero()) == a
  {}

  // ----- hashing blocks

  /** The state after `n` blocks, from the state `z`, one block at a time. */
  function Fold(h: Element, z: Element, data: seq<nat>, n: nat): (r: Element)
    requires Good(h) && Good(z) && 16 * n <= |data|
    ensures Good(r)
  {
    if n == 0 then z else Times(Plus(Fold(h, z, data, n - 1), BlockBits(BlockOf(data, n - 1))), h)
  }

  function Power(h: Element, n: nat): (r: Element)
    requires Good(h)
    ensures Good(r)
  {
    if n == 0 then One() else Times(Power(h, n - 1), h)
  }

  /** The first `n` terms of X1 * H^m + X2 * H^(m-1) + ... + Xm * H. */
  function Polynomial(h: Element, data: seq<nat>, n: nat, m: nat): (r: Element)
    requires Good(h) && n <= m && 16 * n <= |data|
    ensures Good(r)
  {
    if n == 0 then Zero()
    else Plus(Polynomial(h, data, n - 1, m), Times(BlockBits(BlockOf(data, n - 1)), Power(h, m - n + 1)))
  }

  lemma {:induction false} PolynomialTimes(h: Element, data: seq<nat>, n: nat, m: nat)
    requires Good(h) && n <= m && 16 * n <= |data|
    ensures Polynomial(h, data, n, m + 1) == Times(Polynomial(h, data, n, m), h)
  {
    hide Times, Plus, Zero, BlockBits;
    if n == 0 {
      TimesZero(h);
      TimesCommutes(Zero(), h);
    } else {
      PolynomialTimes(h, data, n - 1, m);
      var x, p := BlockBits(BlockOf(data, n - 1)), Power(h, m - n + 1);
      TimesAssociates(x, p, h);
      TimesIsAdditive(Polynomial(h, data, n - 1, m), Times(x, p), h);
    }
  }

  /** Hashing block by block evaluates the polynomial of section 6.4 of NIST SP 800-38D. */
  lemma {:induction false} FoldIsPolynomial(h: Element, z: Element, data: seq<nat>, n: nat)
    requires Good(h) && Good(z) && 16 * n <= |data|
    ensures Fold(h, z, data, n) == Plus(Times(z, Power(h, n)), Polynomial(h, data, n, n))
  {
    hide Times, Plus, Zero, One, BlockBits;
    if n == 0 {
      TimesOne(z);
      PlusNothing(z);
    } else {
      FoldIsPolynomial(h, z, data, n - 1);
      var x := BlockBits(BlockOf(data, n - 1));
      var q, p := Times(z, Power(h, n - 1)), Polynomial(h, data, n - 1, n - 1);
      PlusLaws(q, p, x);
      TimesIsAdditive(q, Plus(p, x), h);
      TimesIsAdditive(p, x, h);
      TimesAssociates(z, Power(h, n - 1), h);
      PolynomialTimes(h, data, n - 1, n - 1);
      TimesOne(h);
      TimesCommutes(One(), h);
      assert Power(h, 0) == One();
      assert Power(h, 1) == h;
      assert Polynomial(h, data, n, n) == Plus(Polynomial(h, data, n - 1, n), Times(x, h));
      PlusLaws(Times(q, h), Times(p, h), Times(x, h));
    }
  }

  lemma {:induction false} FoldConcat(h: Element, z: Element, a: seq<nat>, b: seq<nat>, m: nat, n: nat)
    requires Good(h) && Good(z) && 16 * m == |a| && 16 * n <= |b|
    ensures Fold(h, z, a + b, m + n) == Fold(h, Fold(h, z, a, m), b, n)
    decreases n
  {
    hide Times, Plus, BlockBits;
    if n == 0 {
      FoldPrefix(h, z, a, b, m);
    } else {
      FoldConcat(h, z, a, b, m, n - 1);
      assert BlockOf(a + b, m + n - 1) == BlockOf(b, n - 1);
    }
  }

  lemma {:induction false} FoldPrefix(h: Element, z: Element, a: seq<nat>, b: seq<nat>, m: nat)
    requires Good(h) && Good(z) && 16 * m <= |a|
    ensures Fold(h, z, a + b, m) == Fold(h, z, a, m)
  {
    hide Times, Plus, BlockBits;
    if m > 0 {
      FoldPrefix(h, z, a, b, m - 1);
      assert BlockOf(a + b, m - 1) == BlockOf(a, m - 1);
    }
  }

  class Context {
    const H: array<nat>
    const S: array<nat>
    const Z: array<nat>

    ghost predicate Valid()
      reads H, S, Z
    {
      && H.Length == S.Length == Z.Length == 16
      && H != S && H != Z && S != Z
      && Bytes16(H[..]) && Bytes16(S[..]) && S[..] == Z[..]
    }

    ghost function Key(): Element
      requires H.Length == 16
      reads H
    {
      BlockBits(H[..])
    }

    ghost function State(): Element
      requires S.Length == 16
      reads S
    {
      BlockBits(S[..])
    }

    constructor ()
      ensures Valid() && State() == Zero() && fresh(H) && fresh(S) && fresh(Z)
    {
      H := new nat[16](_ => 0);
      S := new nat[16](_ => 0);
      Z := new nat[16](_ => 0);
      new;
      ZeroBlock(S[..]);
      assert S[..] == Z[..];
    }

    /** One block: S becomes (y + x) * H. */
    method Absorb(y: array<nat>, x: array<nat>, at: nat)
      requires H.Length == S.Length == y.Length == 16 && H != S && H != y && at + 16 <= x.Length && x != S
      requires Bytes16(H[..]) && Bytes16(y[..]) && Bytes16(x[at..at + 16])
      modifies S
      ensures Bytes16(S[..]) && State() == Times(Plus(old(BlockBits(y[..])), BlockBits(x[at..at + 16])), Key())
    {
      hide BlockBits, Times, Plus;
      ghost var a, b := y[..], x[at..at + 16];
      forall k | 0 <= k < 16 { S[k] := Binary.Xor(y[k], x[at + k], 8); }
      XorBlocks(a, b, S[..]);
      Gfmul(S, H, S);
      assert H[..] == old(H[..]) && x[at..at + 16] == b;
    }

    /** ghash_update. */
    method Update(x: array<nat>, len: nat)
      requires Valid() && len <= x.Length && x != S && x != Z && forall i :: 0 <= i < len ==> x[i] < 256
      modifies S, Z
      ensures Valid() && State() == Fold(Key(), old(State()), x[..], len / 16)
    {
      hide BlockBits, Times, Plus;
      var y := Z;
      var i: nat := 0;
      while i < len / 16
        invariant i <= len / 16 && y in {S, Z} && Z[..] == old(Z[..]) && Bytes16(S[..])
        invariant i == 0 ==> y == Z && S[..] == old(S[..])
        invariant i > 0 ==> y == S
        invariant BlockBits(y[..]) == Fold(Key(), old(State()), x[..], i)
      {
        assert x[16 * i..16 * i + 16] == BlockOf(x[..], i);
        assert Bytes16(x[16 * i..16 * i + 16]);
        ghost var before := y[..];
        Absorb(y, x, 16 * i);
        assert H[..] == old(H[..]) && x[..] == old(x[..]) && Z[..] == old(Z[..]);
        y := S;
        i := i + 1;
      }
      ghost var s := S[..];
      forall k | 0 <= k < 16 { Z[k] := S[k]; }
      assert H[..] == old(H[..]) && x[..] == old(x[..]) && S[..] == s == Z[..];
    }

    /** AES_GMAC_Update. */
    method Feed(data: array<nat>)
      requires Valid() && data != S && data != Z && forall i :: 0 <= i < data.Length ==> data[i] < 256
      modifies S, Z
      ensures Valid() && State() == Fold(Key(), old(State()), Filled(data[..]), (data.Length + 15) / 16)
    {
      hide BlockBits, Fold;
      var len := data.Length;
      ghost var h, z, d := Key(), State(), data[..];
      FoldNone(h, z, d);
      if len > 0 {
        var plen: nat := len % 16;
        if len >= 16 {
          Update(data, len - plen);
          assert data[..] == d && H[..] == old(H[..]);
        }
        if plen != 0 {
          FoldFilled(h, z, d, len / 16, plen);
          ghost var s := S[..];
          var blk := new nat[16](_ => 0);
          forall k | 0 <= k < plen { blk[k] := data[len - plen + k]; }
          ghost var b := d[16 * (len / 16)..] + Nulls(16 - plen);
          assert blk[..] == b;
          assert S[..] == s == Z[..] && H[..] == old(H[..]);
          Update(blk, 16);
          assert blk[..] == b && data[..] == d && H[..] == old(H[..]);
        }
      }
    }
  }

  lemma FoldNone(h: Element, z: Element, d: seq<nat>)
    requires Good(h) && Good(z)
    ensures Fold(h, z, d, 0) == z
  {}

  function Nulls(n: nat): seq<nat> { seq(n, _ => 0) }

  /** The data followed by zero bytes up to a whole block. */
  function Filled(d: seq<nat>): (r: seq<nat>)
    ensures |r| == 16 * ((|d| + 15) / 16)
  {
    if |d| % 16 == 0 then d else d + Nulls(16 - |d| % 16)
  }

  /** Whole blocks first, then the rest in a block of its own: the same as hashing the filled data. */
  lemma FoldFilled(h: Element, z: Element, d: seq<nat>, n: nat, rest: nat)
    requires Good(h) && Good(z) && |d| == 16 * n + rest && 0 < rest < 16
    ensures |d[16 * n..] + Nulls(16 - rest)| == 16 && 16 * n + 16 <= |Filled(d)|
    ensures Fold(h, z, Filled(d), n + 1) == Fold(h, Fold(h, z, d, n), d[16 * n..] + Nulls(16 - rest), 1)
  {
    hide Fold;
    var a, b := d[..16 * n], d[16 * n..] + Nulls(16 - rest);
    assert d == a + d[16 * n..];
    assert Filled(d) == a + b;
    FoldConcat(h, z, a, b, n, 1);
    FoldPrefix(h, z, a, d[16 * n..], n);
  }
}
