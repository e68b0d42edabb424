/** Sixteen-byte blocks, as bytes and as rows of bits. */
module Blocks {
  import opened Binary
  import opened Field

  type Block = seq<nat>

  predicate Bytes16(b: Block) { |b| == 16 && forall i :: 0 <= i < 16 ==> b[i] < 256 }

  /** The element a block stands for, leftmost bit first. */
  function BlockBits(b: Block): (r: Element)
    requires |b| == 16
    ensures Good(r)
  {
    seq(WIDTH, i requires 0 <= i < WIDTH => Bit(b[i / 8], 7 - i % 8))
  }

  lemma BlockBit(b: Block, i: nat)
    requires |b| == 16 && i < WIDTH
    ensures BlockBits(b)[i] == Bit(b[i / 8], 7 - i % 8)
  {}

  function BlockOf(data: seq<nat>, i: nat): (r: Block)
    requires 16 * i + 16 <= |data|
    ensures |r| == 16
  {
    data[16 * i..16 * i + 16]
  }

  function XorBlock(a: Block, b: Block): (r: Block)
    requires |a| == 16 && |b| == 16
    ensures |r| == 16
  {
    seq(16, i requires 0 <= i < 16 => Binary.Xor(a[i], b[i], 8))
  }

  /** A cipher under one key, on blocks. */
  ghost predicate OnBlocks(enc: Block -> Block) {
    forall b {:trigger enc(b)} :: |b| == 16 ==> |enc(b)| == 16
  }

  function Apply(f: Block -> Block, b: Block): (r: Block)
    requires OnBlocks(f) && |b| == 16
    ensures |r| == 16
  {
    f(b)
  }

  lemma XorBlocks(a: Block, b: Block, c: Block)
    requires Bytes16(a) && Bytes16(b) && |c| == 16
    requires forall i :: 0 <= i < 16 ==> c[i] == Binary.Xor(a[i], b[i], 8)
    ensures Bytes16(c) && BlockBits(c) == Plus(BlockBits(a), BlockBits(b))
  {
    hide Bit, Binary.Xor, Pow2;
    Powers();
    forall i | 0 <= i < 16 ensures c[i] < 256 {
      XorBound(a[i], b[i], 8, 8);
    }
    forall i | 0 <= i < WIDTH ensures BlockBits(c)[i] == Plus(BlockBits(a), BlockBits(b))[i] {
      XorBit(a[i / 8], b[i / 8], 8, 7 - i % 8);
    }
  }

  lemma ZeroBlock(b: Block)
    requires |b| == 16 && forall i :: 0 <= i < 16 ==> b[i] == 0
    ensures Bytes16(b) && BlockBits(b) == Zero()
  {
    hide Bit;
    forall k: nat ensures !Bit(0, k) {
      SmallBit(0, 0, k);
    }
  }

  // ----- shifts by one bit

  /** A byte shifted left, taking in the top bit of the byte after it. */
  function Shl(b: nat, c: nat): nat { 2 * b % 256 + c / 128 }

  lemma Halves(b: nat)
    requires b < 256
    ensures b == b / 128 * Pow2(7) + b % 128 && b % 128 < Pow2(7)
  {
    assert Pow2(7) == 128;
  }

  lemma ShlIs(b: nat, c: nat)
    requires b < 256 && c < 256
    ensures Shl(b, c) / 2 == b % 128 && Shl(b, c) % 2 == c / 128
  {}

  lemma ShiftBit(b: nat, c: nat, k: nat)
    requires b < 256 && c < 256 && k < 8
    ensures Bit(Shl(b, c), k) == if k == 0 then Bit(c, 7) else Bit(b, k - 1)
  {
    hide Shl, Pow2;
    ShlIs(b, c);
    if k == 0 {
      Halves(c);
      JoinedBit(c / 128, c % 128, 7, 7);
    } else {
      Halves(b);
      JoinedBit(b / 128, b % 128, 7, k - 1);
    }
  }

  lemma TopBit(b: nat)
    requires b < 256
    ensures Bit(b, 7) <==> b >= 128
  {
    assert Pow2(7) == 128;
    JoinedBit(b / 128, b % 128, 7, 7);
    assert b == b / 128 * 128 + b % 128;
  }

  lemma FoldedBits(k: nat)
    requires k < 8
    ensures Bit(0x87, k) <==> k in {0, 1, 2, 7}
  {
    assert Bit(0x87, 0) && Bit(0x87, 1) && Bit(0x87, 2) && !Bit(0x87, 3);
    assert Bit(0x87, 4) == Bit(8, 0) && Bit(0x87, 5) == Bit(8, 1) && Bit(0x87, 6) == Bit(8, 2) &&
           Bit(0x87, 7) == Bit(8, 3);
  }
}
