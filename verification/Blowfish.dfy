/**
 Blowfish (sys/crypto/blf.c) for arbitrary subkeys and substitution boxes, and its chaining mode,
 which encrypts in place from the front and decrypts in place from the back.
 */
module Blowfish {
  import opened Bytes
  import Cbc

  datatype Key = Key(P: seq<Word>, S: seq<Word>)

  predicate Sized(c: Key) { |c.P| == 18 && |c.S| == 1024 }

  function LastByte(x: Word): (i: nat)
    ensures i < 256
  {
    (x & 0xff) as nat
  }

  /** The round function. */
  function F(c: Key, x: Word): Word
    requires Sized(c)
  {
    Add(Mix(Add(c.S[LastByte(x >> 24)], c.S[0x100 + LastByte(x >> 16)]), c.S[0x200 + LastByte(x >> 8)]),
        c.S[0x300 + LastByte(x)])
  }

  /** BLFRND: what a half becomes. */
  function Rnd(c: Key, i: Word, j: Word, n: nat): Word
    requires Sized(c) && n < 18
  {
    Mix(i, Mix(F(c, j), c.P[n]))
  }

  lemma RndBack(c: Key, i: Word, j: Word, n: nat)
    requires Sized(c) && n < 18
    ensures Rnd(c, Rnd(c, i, j, n), j, n) == i
  {
    hide Mix, F;
    MixBack(i, Mix(F(c, j), c.P[n]));
  }

  /** Two rounds going up, the second with subkey `2 * k`. */
  function Up(c: Key, h: Pair, k: nat): Pair
    requires Sized(c) && 1 <= k <= 8
  {
    var r := Rnd(c, h.r, h.l, 2 * k - 1);
    Pair(Rnd(c, h.l, r, 2 * k), r)
  }

  /** Two rounds going down, the first with subkey `2 * k`. */
  function Down(c: Key, h: Pair, k: nat): Pair
    requires Sized(c) && 1 <= k <= 8
  {
    var r := Rnd(c, h.r, h.l, 2 * k);
    Pair(Rnd(c, h.l, r, 2 * k - 1), r)
  }

  function Ups(c: Key, h: Pair, k: nat): Pair
    requires Sized(c) && k <= 8
  {
    if k == 0 then h else Up(c, Ups(c, h, k - 1), k)
  }

  /** The rounds with subkeys 16 down to `2 * k + 1`. */
  function Downs(c: Key, h: Pair, k: nat): Pair
    requires Sized(c) && k <= 8
    decreases 8 - k
  {
    if k == 8 then h else Down(c, Downs(c, h, k + 1), k + 1)
  }

  function Enciphered(c: Key, x: Pair): Pair
    requires Sized(c)
  {
    var h := Ups(c, Pair(Mix(x.l, c.P[0]), x.r), 8);
    Pair(Mix(h.r, c.P[17]), h.l)
  }

  function Deciphered(c: Key, x: Pair): Pair
    requires Sized(c)
  {
    var h := Downs(c, Pair(Mix(x.l, c.P[17]), x.r), 0);
    Pair(Mix(h.r, c.P[0]), h.l)
  }

  lemma UpDown(c: Key, h: Pair, k: nat)
    requires Sized(c) && 1 <= k <= 8
    ensures Down(c, Swap(Up(c, h, k)), k) == Swap(h)
    ensures Up(c, Swap(Down(c, h, k)), k) == Swap(h)
  {
    hide Rnd;
    var r := Rnd(c, h.r, h.l, 2 * k - 1);
    RndBack(c, h.r, h.l, 2 * k - 1);
    RndBack(c, h.l, r, 2 * k);
    var q := Rnd(c, h.r, h.l, 2 * k);
    RndBack(c, h.r, h.l, 2 * k);
    RndBack(c, h.l, q, 2 * k - 1);
  }

  lemma {:induction false} UpsThenDowns(c: Key, h: Pair, k: nat)
    requires Sized(c) && k <= 8
    ensures Downs(c, Swap(Ups(c, h, 8)), k) == Swap(Ups(c, h, k))
    decreases 8 - k
  {
    hide Up, Down;
    if k < 8 {
      UpsThenDowns(c, h, k + 1);
      UpDown(c, Ups(c, h, k), k + 1);
    }
  }

  lemma {:induction false} DownsThenUps(c: Key, h: Pair, k: nat)
    requires Sized(c) && k <= 8
    ensures Ups(c, Swap(Downs(c, h, 0)), k) == Swap(Downs(c, h, k))
  {
    hide Up, Down;
    if k > 0 {
      DownsThenUps(c, h, k - 1);
      UpDown(c, Downs(c, h, k), k);
    }
  }

  lemma EncipherUndone(c: Key, x: Pair)
    requires Sized(c)
    ensures Deciphered(c, Enciphered(c, x)) == x
    ensures Enciphered(c, Deciphered(c, x)) == x
  {
    hide Mix, Ups, Downs;
    var h := Pair(Mix(x.l, c.P[0]), x.r);
    var u := Ups(c, h, 8);
    MixBack(u.r, c.P[17]);
    UpsThenDowns(c, h, 0);
    MixBack(x.l, c.P[0]);
    UpsNone(c, h);
    var g := Pair(Mix(x.l, c.P[17]), x.r);
    var d := Downs(c, g, 0);
    MixBack(d.r, c.P[0]);
    DownsThenUps(c, g, 8);
    MixBack(x.l, c.P[17]);
    DownsNone(c, g);
  }

  lemma UpsNone(c: Key, h: Pair)
    requires Sized(c)
    ensures Ups(c, h, 0) == h
  {}

  lemma DownsNone(c: Key, h: Pair)
    requires Sized(c)
    ensures Downs(c, h, 8) == h
  {}

  // ----- the cipher as it was published

  lemma BytesInTurn(x: Word)
    ensures LastByte(x >> 24) == LastByte(x.RotateLeft(8))
    ensures LastByte(x >> 16) == LastByte(x.RotateLeft(16))
    ensures LastByte(x >> 8) == LastByte(x.RotateLeft(24))
  {}

  /** The four bytes of a word, from the most significant on, choose from the four boxes. */
  lemma FMeans(c: Key, x: Word)
    requires Sized(c)
    ensures var first := Add(c.S[LastByte(x.RotateLeft(8))], c.S[0x100 + LastByte(x.RotateLeft(16))]);
      F(c, x) == Add(Mix(first, c.S[0x200 + LastByte(x.RotateLeft(24))]), c.S[0x300 + LastByte(x)])
  {
    hide LastByte, Add, Mix;
    BytesInTurn(x);
  }

  /** One round: the left half takes a subkey and masks the right half; the halves change places. */
  function Round(c: Key, x: Pair, i: nat): Pair
    requires Sized(c) && i < 16
  {
    var a := Mix(x.l, c.P[i]);
    Pair(Mix(x.r, F(c, a)), a)
  }

  function FirstRounds(c: Key, x: Pair, n: nat): Pair
    requires Sized(c) && n <= 16
  {
    if n == 0 then x else Round(c, FirstRounds(c, x, n - 1), n - 1)
  }

  /** Sixteen rounds, the last exchange taken back, and two subkeys at the end. */
  function Published(c: Key, x: Pair): Pair
    requires Sized(c)
  {
    var h := Swap(FirstRounds(c, x, 16));
    Pair(Mix(h.l, c.P[17]), Mix(h.r, c.P[16]))
  }

  /** The code takes each subkey one round early, and never exchanges the halves. */
  lemma {:induction false} UpsAreRounds(c: Key, x: Pair, k: nat)
    requires Sized(c) && k <= 8
    ensures var t := FirstRounds(c, x, 2 * k);
      Ups(c, Pair(Mix(x.l, c.P[0]), x.r), k) == Pair(Mix(t.l, c.P[2 * k]), t.r)
  {
    hide Mix, F;
    if k > 0 {
      UpsAreRounds(c, x, k - 1);
      var t := FirstRounds(c, x, 2 * k - 2);
      TwoRounds(c, t, k);
      assert FirstRounds(c, x, 2 * k - 1) == Round(c, t, 2 * k - 2);
      assert FirstRounds(c, x, 2 * k) == Round(c, Round(c, t, 2 * k - 2), 2 * k - 1);
    }
  }

  lemma TwoRounds(c: Key, t: Pair, k: nat)
    requires Sized(c) && 1 <= k <= 8
    ensures var q := Round(c, Round(c, t, 2 * k - 2), 2 * k - 1);
      Up(c, Pair(Mix(t.l, c.P[2 * k - 2]), t.r), k) == Pair(Mix(q.l, c.P[2 * k]), q.r)
  {
    hide Mix, F;
    var l := Mix(t.l, c.P[2 * k - 2]);
    MixTwo(t.r, F(c, l), c.P[2 * k - 1]);
    var r := Mix(Mix(t.r, F(c, l)), c.P[2 * k - 1]);
    MixTwo(l, F(c, r), c.P[2 * k]);
  }

  lemma EncipheredIsPublished(c: Key, x: Pair)
    requires Sized(c)
    ensures Enciphered(c, x) == Published(c, x)
  {
    hide Mix, Ups, FirstRounds;
    UpsAreRounds(c, x, 8);
  }

  // ----- blocks of bytes

  function FromBytes(b: seq<byte>): Pair
    requires |b| == 8
  {
    Pair(Load32(b[..4]), Load32(b[4..]))
  }

  function ToBytes(x: Pair): (r: seq<byte>)
    ensures |r| == 8
  {
    Store32(x.l) + Store32(x.r)
  }

  lemma BytesBack(x: Pair, b: seq<byte>)
    requires |b| == 8
    ensures FromBytes(ToBytes(x)) == x && ToBytes(FromBytes(b)) == b
  {
    hide Load32, Store32;
    Stored32(x.l);
    Stored32(x.r);
    var t := ToBytes(x);
    assert t[..4] == Store32(x.l) && t[4..] == Store32(x.r);
    Loaded32(b[..4]);
    Loaded32(b[4..]);
    assert b[..4] + b[4..] == b;
  }

  /** The first byte of each four is the most significant. */
  lemma BytesOrder(b: seq<byte>)
    requires |b| == 8
    ensures var x := FromBytes(b);
      && x.l >> 24 == b[0] as bv32 && (x.l >> 16) & 0xff == b[1] as bv32
      && (x.l >> 8) & 0xff == b[2] as bv32 && x.l & 0xff == b[3] as bv32
      && x.r >> 24 == b[4] as bv32 && (x.r >> 16) & 0xff == b[5] as bv32
      && (x.r >> 8) & 0xff == b[6] as bv32 && x.r & 0xff == b[7] as bv32
  {
    hide Load32;
    Load32Order(b[..4]);
    Load32Order(b[4..]);
  }

  function EncBlock(c: Key, b: seq<byte>): seq<byte>
    requires Sized(c)
  {
    if |b| == 8 then ToBytes(Enciphered(c, FromBytes(b))) else b
  }

  function DecBlock(c: Key, b: seq<byte>): seq<byte>
    requires Sized(c)
  {
    if |b| == 8 then ToBytes(Deciphered(c, FromBytes(b))) else b
  }

  /** Blowfish under one key, as a block cipher. */
  function AsCipher(c: Key): Cipher
    requires Sized(c)
  {
    Cipher(8, b => EncBlock(c, b), b => DecBlock(c, b))
  }

  lemma AsCipherIsProper(c: Key)
    requires Sized(c)
    ensures Proper(AsCipher(c))
  {
    hide FromBytes, ToBytes, Enciphered, Deciphered;
    forall b: seq<byte> | |b| == 8 ensures DecBlock(c, EncBlock(c, b)) == b && EncBlock(c, DecBlock(c, b)) == b {
      var x := FromBytes(b);
      BytesBack(Enciphered(c, x), b);
      BytesBack(Deciphered(c, x), b);
      EncipherUndone(c, x);
    }
  }

  // ----- the code

  lemma UpsNext(c: Key, h: Pair, k: nat)
    requires Sized(c) && k < 8
    ensures Ups(c, h, k + 1) == Up(c, Ups(c, h, k), k + 1)
  {}

  lemma DownsNext(c: Key, h: Pair, k: nat)
    requires Sized(c) && k < 8
    ensures Downs(c, h, k) == Down(c, Downs(c, h, k + 1), k + 1)
  {}

  /** Blowfish_encipher. */
  method Encipher(c: Key, x: array<Word>)
    requires Sized(c) && x.Length == 2
    modifies x
    ensures Pair(x[0], x[1]) == Enciphered(c, old(Pair(x[0], x[1])))
  {
    hide Rnd, Mix, Ups;
    var l, r := Mix(x[0], c.P[0]), x[1];
    ghost var h := Pair(l, r);
    UpsNone(c, h);
    r := Rnd(c, r, l, 1); l := Rnd(c, l, r, 2);
    UpsNext(c, h, 0);
    assert Pair(l, r) == Ups(c, h, 1);
    r := Rnd(c, r, l, 3); l := Rnd(c, l, r, 4);
    UpsNext(c, h, 1);
    assert Pair(l, r) == Ups(c, h, 2);
    r := Rnd(c, r, l, 5); l := Rnd(c, l, r, 6);
    UpsNext(c, h, 2);
    assert Pair(l, r) == Ups(c, h, 3);
    r := Rnd(c, r, l, 7); l := Rnd(c, l, r, 8);
    UpsNext(c, h, 3);
    assert Pair(l, r) == Ups(c, h, 4);
    r := Rnd(c, r, l, 9); l := Rnd(c, l, r, 10);
    UpsNext(c, h, 4);
    assert Pair(l, r) == Ups(c, h, 5);
    r := Rnd(c, r, l, 11); l := Rnd(c, l, r, 12);
    UpsNext(c, h, 5);
    assert Pair(l, r) == Ups(c, h, 6);
    r := Rnd(c, r, l, 13); l := Rnd(c, l, r, 14);
    UpsNext(c, h, 6);
    assert Pair(l, r) == Ups(c, h, 7);
    r := Rnd(c, r, l, 15); l := Rnd(c, l, r, 16);
    UpsNext(c, h, 7);
    assert Pair(l, r) == Ups(c, h, 8);
    x[0], x[1] := Mix(r, c.P[17]), l;
  }

  /** Blowfish_decipher. */
  method Decipher(c: Key, x: array<Word>)
    requires Sized(c) && x.Length == 2
    modifies x
    ensures Pair(x[0], x[1]) == Deciphered(c, old(Pair(x[0], x[1])))
  {
    hide Rnd, Mix, Downs;
    var l, r := Mix(x[0], c.P[17]), x[1];
    ghost var h := Pair(l, r);
    DownsNone(c, h);
    r := Rnd(c, r, l, 16); l := Rnd(c, l, r, 15);
    DownsNext(c, h, 7);
    assert Pair(l, r) == Downs(c, h, 7);
    r := Rnd(c, r, l, 14); l := Rnd(c, l, r, 13);
    DownsNext(c, h, 6);
    assert Pair(l, r) == Downs(c, h, 6);
    r := Rnd(c, r, l, 12); l := Rnd(c, l, r, 11);
    DownsNext(c, h, 5);
    assert Pair(l, r) == Downs(c, h, 5);
    r := Rnd(c, r, l, 10); l := Rnd(c, l, r, 9);
    DownsNext(c, h, 4);
    assert Pair(l, r) == Downs(c, h, 4);
    r := Rnd(c, r, l, 8); l := Rnd(c, l, r, 7);
    DownsNext(c, h, 3);
    assert Pair(l, r) == Downs(c, h, 3);
    r := Rnd(c, r, l, 6); l := Rnd(c, l, r, 5);
    DownsNext(c, h, 2);
    assert Pair(l, r) == Downs(c, h, 2);
    r := Rnd(c, r, l, 4); l := Rnd(c, l, r, 3);
    DownsNext(c, h, 1);
    assert Pair(l, r) == Downs(c, h, 1);
    r := Rnd(c, r, l, 2); l := Rnd(c, l, r, 1);
    DownsNext(c, h, 0);
    assert Pair(l, r) == Downs(c, h, 0);
    x[0], x[1] := Mix(r, c.P[0]), l;
  }

  /** Eight bytes are replaced by what the cipher makes of them. */
  method CryptBlock(c: Key, data: array<byte>, at: nat, encrypt: bool)
    requires Sized(c) && at + 8 <= data.Length
    modifies data
    ensures data[at..at + 8] ==
              if encrypt then EncBlock(c, old(data[at..at + 8])) else DecBlock(c, old(data[at..at + 8]))
    ensures data[..at] == old(data[..at]) && data[at + 8..] == old(data[at + 8..])
  {
    hide Load32, Enciphered, Deciphered, ToBytes;
    var d := new Word[2];
    ghost var was := data[at..at + 8];
    assert was[..4] == data[at..at + 4] && was[4..] == data[at + 4..at + 8];
    d[0], d[1] := Load32(data[at..at + 4]), Load32(data[at + 4..at + 8]);
    assert Pair(d[0], d[1]) == FromBytes(was);
    if encrypt {
      Encipher(c, d);
    } else {
      Decipher(c, d);
    }
    var b := ToBytes(Pair(d[0], d[1]));
    assert b == if encrypt then EncBlock(c, was) else DecBlock(c, was);
    assert data[..] == old(data[..]);
    Put(data, at, b);
  }

  method Put(data: array<byte>, at: nat, b: seq<byte>)
    requires |b| == 8 && at + 8 <= data.Length
    modifies data
    ensures data[at..at + 8] == b && data[..at] == old(data[..at]) && data[at + 8..] == old(data[at + 8..])
  {
    forall k | 0 <= k < 8 { data[at + k] := b[k]; }
  }

  /** One of the loops over `j`: eight bytes at `at` take in eight bytes at `from`. */
  method XorInto(data: array<byte>, at: nat, iv: array<byte>, from: nat)
    requires at + 8 <= data.Length && from + 8 <= iv.Length && (iv == data ==> from + 8 <= at)
    modifies data
    ensures data[at..at + 8] == Xor(old(data[at..at + 8]), old(iv[from..from + 8]))
    ensures data[..at] == old(data[..at]) && data[at + 8..] == old(data[at + 8..])
  {
    ghost var x, y := data[at..at + 8], iv[from..from + 8];
    var j: nat := 0;
    while j < 8
      invariant j <= 8
      invariant forall k :: 0 <= k < j ==> data[at + k] == x[k] ^ y[k]
      invariant forall k :: j <= k < 8 ==> data[at + k] == x[k]
      invariant data[..at] == old(data[..at]) && data[at + 8..] == old(data[at + 8..])
      invariant iv[from..from + 8] == y
    {
      assert iv[from + j] == iv[from..from + 8][j];
      data[at + j] := data[at + j] ^ iv[from + j];
      j := j + 1;
    }
  }

  /** `n` is a whole number of blocks. */
  lemma Eights(n: nat)
    ensures Cbc.Whole(n, 8) <==> n % 8 == 0
  {
    Cbc.WholeIsMultiple(n, 8);
  }

  /** One block forward: masked by the block before it, or by the initial value, and enciphered. */
  method Advance(c: Key, iv: array<byte>, data: array<byte>, at: nat, ghost p: seq<byte>)
    requires Sized(c) && Proper(AsCipher(c)) && iv.Length == 8 && iv != data && at + 8 <= data.Length == |p| &&
             at % 8 == 0
    requires Cbc.Whole(at, 8) && data[..at] == Cbc.Crypt(AsCipher(c), true, iv[..], p[..at]) && data[at..] == p[at..]
    modifies data
    ensures Cbc.Whole(at + 8, 8) && data[..at + 8] == Cbc.Crypt(AsCipher(c), true, iv[..], p[..at + 8])
    ensures data[at + 8..] == p[at + 8..]
  {
    hide Cbc.Crypt, Cbc.Chain, EncBlock, Proper, Xor;
    ghost var ci, v, b := AsCipher(c), iv[..], p[at..at + 8];
    assert p[..at + 8] == p[..at] + b && data[at..at + 8] == b;
    Cbc.CryptSnoc(ci, true, v, p[..at], b);
    ghost var ch := Cbc.Chain(ci, true, v, p[..at]);
    ghost var before := data[..at];
    if at == 0 {
      ChainStart(ci, v);
      assert p[..0] == [];
      XorInto(data, at, iv, 0);
      assert iv[0..8] == iv[..] == v;
    } else {
      Cbc.ChainIsLast(ci, v, p[..at]);
      assert data[at - 8..at] == before[at - 8..];
      XorInto(data, at, data, at - 8);
    }
    assert data[at..at + 8] == Xor(b, ch);
    CryptBlock(c, data, at, true);
    assert data[..at + 8] == data[..at] + data[at..at + 8];
    assert data[at + 8..] == p[at + 8..];
    BlockOutIs(c, ch, b);
  }

  lemma ChainStart(ci: Cipher, v: seq<byte>)
    requires Proper(ci) && Block(ci, v)
    ensures Cbc.Chain(ci, true, v, []) == v
  {}

  lemma BlockOutIs(c: Key, ch: seq<byte>, b: seq<byte>)
    requires Sized(c) && Proper(AsCipher(c)) && |ch| == 8 && |b| == 8
    ensures Cbc.BlockOut(AsCipher(c), true, ch, b) == EncBlock(c, Xor(b, ch))
    ensures Cbc.BlockOut(AsCipher(c), false, ch, b) == Xor(DecBlock(c, b), ch)
  {
    hide EncBlock, DecBlock, Xor;
  }

  /** blf_cbc_encrypt. */
  method CbcEncrypt(c: Key, iv: array<byte>, data: array<byte>)
    requires Sized(c) && iv.Length == 8 && iv != data && data.Length % 8 == 0
    modifies data
    ensures Proper(AsCipher(c)) && Cbc.Whole(|old(data[..])|, 8)
    ensures data[..] == Cbc.Crypt(AsCipher(c), true, iv[..], old(data[..]))
  {
    hide EncBlock, DecBlock, Proper;
    AsCipherIsProper(c);
    Eights(data.Length);
    ghost var p := data[..];
    var i: nat := 0;
    assert p[..0] == [];
    while i < data.Length
      invariant i <= data.Length && i % 8 == 0 && Cbc.Whole(i, 8) && iv[..] == old(iv[..])
      invariant data[..i] == Cbc.Crypt(AsCipher(c), true, iv[..], p[..i]) && data[i..] == p[i..]
    {
      Advance(c, iv, data, i, p);
      i := i + 8;
    }
    assert data[..i] == data[..] && p[..i] == p;
  }

  /** One block backward: deciphered, then masked by the ciphertext block before it, still in place. */
  method Retreat(c: Key, data: array<byte>, at: nat, ghost t: seq<byte>)
    requires Sized(c) && Proper(AsCipher(c)) && 8 <= at && at + 8 <= data.Length == |t|
    requires Cbc.Whole(|t| - at - 8, 8) && data[..at + 8] == t[..at + 8]
    requires data[at + 8..] == Cbc.Crypt(AsCipher(c), false, t[at..at + 8], t[at + 8..])
    modifies data
    ensures Cbc.Whole(|t| - at, 8) && data[..at] == t[..at]
    ensures data[at..] == Cbc.Crypt(AsCipher(c), false, t[at - 8..at], t[at..])
  {
    hide DecBlock, Proper, Xor;
    ghost var ci, v, b := AsCipher(c), t[at - 8..at], t[at..at + 8];
    assert data[at..at + 8] == data[..at + 8][at..] == b;
    assert data[at - 8..at] == data[..at + 8][at - 8..at] == v;
    CryptHead(ci, v, t[at..]);
    assert t[at..][..8] == b && t[at..][8..] == t[at + 8..];
    CryptBlock(c, data, at, false);
    assert data[at - 8..at] == data[..at][at - 8..];
    XorInto(data, at, data, at - 8);
    assert data[at..] == data[at..at + 8] + data[at + 8..];
    BlockOutIs(c, v, b);
  }

  lemma CryptHead(ci: Cipher, v: seq<byte>, t: seq<byte>)
    requires Proper(ci) && Block(ci, v) && |t| >= ci.size && Cbc.Whole(|t| - ci.size, ci.size)
    ensures Cbc.Whole(|t|, ci.size)
    ensures Cbc.Crypt(ci, false, v, t)
         == Cbc.BlockOut(ci, false, v, t[..ci.size]) + Cbc.Crypt(ci, false, t[..ci.size], t[ci.size..])
  {
    hide Proper, Cbc.BlockOut;
  }

  /** blf_cbc_decrypt. */
  method CbcDecrypt(c: Key, iv: array<byte>, data: array<byte>)
    requires Sized(c) && iv.Length == 8 && iv != data && data.Length % 8 == 0 && data.Length > 0
    modifies data
    ensures Proper(AsCipher(c)) && Cbc.Whole(|old(data[..])|, 8)
    ensures data[..] == Cbc.Crypt(AsCipher(c), false, iv[..], old(data[..]))
  {
    hide DecBlock, EncBlock, Proper, Cbc.Crypt, Xor;
    AsCipherIsProper(c);
    Eights(data.Length);
    Eights(0);
    ghost var ci, t, v := AsCipher(c), data[..], iv[..];
    var i: nat := data.Length - 8;
    CryptNothing(ci, t[i..i + 8]);
    assert t[i + 8..] == [];
    while i >= 8
      invariant i + 8 <= data.Length && i % 8 == 0 && Cbc.Whole(|t| - i - 8, 8)
      invariant data[..i + 8] == t[..i + 8]
      invariant data[i + 8..] == Cbc.Crypt(ci, false, t[i..i + 8], t[i + 8..])
    {
      Retreat(c, data, i, t);
      i := i - 8;
    }
    assert t[0..8] == t[..8];
    FirstBlock(c, iv, data, t);
  }

  /** The first block, last of all, with the initial value. */
  method FirstBlock(c: Key, iv: array<byte>, data: array<byte>, ghost t: seq<byte>)
    requires Sized(c) && iv.Length == 8 && iv != data && data.Length == |t| >= 8 && |t| % 8 == 0
    requires Proper(AsCipher(c)) && Cbc.Whole(|t|, 8) && Cbc.Whole(|t| - 8, 8)
    requires data[..8] == t[..8] && data[8..] == Cbc.Crypt(AsCipher(c), false, t[..8], t[8..])
    modifies data
    ensures data[..] == Cbc.Crypt(AsCipher(c), false, iv[..], t)
  {
    hide DecBlock, EncBlock, Proper, Cbc.Crypt, Cbc.Whole, Xor;
    ghost var v := iv[..];
    CryptHead(AsCipher(c), v, t);
    assert data[0..8] == t[..8];
    CryptBlock(c, data, 0, false);
    XorInto(data, 0, iv, 0);
    assert iv[0..8] == iv[..] == v;
    assert data[..] == data[0..8] + data[8..];
    BlockOutIs(c, v, t[..8]);
  }

  lemma CryptNothing(ci: Cipher, v: seq<byte>)
    requires Proper(ci) && Block(ci, v)
    ensures Cbc.Crypt(ci, false, v, []) == []
  {}

  /** The two in-place passes undo each other. */
  lemma CbcRestores(c: Key, v: seq<byte>, p: seq<byte>)
    requires Sized(c) && |v| == 8 && |p| % 8 == 0
    ensures Proper(AsCipher(c)) && Cbc.Whole(|p|, 8)
    ensures Cbc.Crypt(AsCipher(c), false, v, Cbc.Crypt(AsCipher(c), true, v, p)) == p
  {
    hide Cbc.Crypt, Proper;
    AsCipherIsProper(c);
    Eights(|p|);
    Cbc.CbcRoundTrip(AsCipher(c), v, p);
  }
}
