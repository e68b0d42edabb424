/**
 DES and triple DES (sys/crypto/ecb_enc.c, ecb3_enc.c, des_locl.h) for arbitrary key schedules and
 substitution tables.
 */
module Des {
  import opened Bytes

  /** The sixteen pairs of subkeys, and the eight tables of 64 entries. */
  type Schedule = seq<Word>
  type Tables = seq<seq<Word>>

  predicate Sized(sp: Tables) { |sp| == 8 && forall i :: 0 <= i < 8 ==> |sp[i]| == 64 }

  // ----- PERM_OP, for each shift and mask that is used

  function Op1(p: Pair): Pair {
    var t := ((p.r >> 1) ^ p.l) & 0x5555_5555;
    Pair(p.l ^ t, p.r ^ (t << 1))
  }

  function Op2(p: Pair): Pair {
    var t := ((p.r >> 2) ^ p.l) & 0x3333_3333;
    Pair(p.l ^ t, p.r ^ (t << 2))
  }

  function Op4(p: Pair): Pair {
    var t := ((p.r >> 4) ^ p.l) & 0x0f0f_0f0f;
    Pair(p.l ^ t, p.r ^ (t << 4))
  }

  function Op8(p: Pair): Pair {
    var t := ((p.l >> 8) ^ p.r) & 0x00ff_00ff;
    Pair(p.l ^ (t << 8), p.r ^ t)
  }

  function Op16(p: Pair): Pair {
    var t := ((p.l >> 16) ^ p.r) & 0x0000_ffff;
    Pair(p.l ^ (t << 16), p.r ^ t)
  }

  lemma Op1Twice(p: Pair)
    ensures Op1(Op1(p)) == p
  {}

  lemma Op2Twice(p: Pair)
    ensures Op2(Op2(p)) == p
  {}

  lemma Op4Twice(p: Pair)
    ensures Op4(Op4(p)) == p
  {}

  lemma Op8Twice(p: Pair)
    ensures Op8(Op8(p)) == p
  {}

  lemma Op16Twice(p: Pair)
    ensures Op16(Op16(p)) == p
  {}

  /** IP(l, r). */
  function Initial(p: Pair): Pair { Op1(Op8(Op2(Op16(Op4(p))))) }

  /** FP(r, l). */
  function Final(p: Pair): Pair { Op4(Op16(Op2(Op8(Op1(p))))) }

  lemma PermutationsCancel(p: Pair)
    ensures Final(Initial(p)) == p && Initial(Final(p)) == p
  {
    hide Op1, Op2, Op4, Op8, Op16;
    Op4Twice(p);
    Op16Twice(Op4(p));
    Op2Twice(Op16(Op4(p)));
    Op8Twice(Op2(Op16(Op4(p))));
    Op1Twice(Op8(Op2(Op16(Op4(p)))));
    Op1Twice(p);
    Op8Twice(Op1(p));
    Op2Twice(Op8(Op1(p)));
    Op16Twice(Op2(Op8(Op1(p))));
    Op4Twice(Op16(Op2(Op8(Op1(p)))));
  }

  function BitAt(w: Word, n: Word): Word
    requires n < 32
  {
    (w >> n) & 1
  }

  /** Of eight bytes, written as the rows of a square, column `c` counted from the right, read upwards. */
  function Column(p: Pair, c: Word): Word
    requires c < 8
  {
    BitAt(p.r, 24 + c) | (BitAt(p.r, 16 + c) << 1) | (BitAt(p.r, 8 + c) << 2) | (BitAt(p.r, c) << 3) |
    (BitAt(p.l, 24 + c) << 4) | (BitAt(p.l, 16 + c) << 5) | (BitAt(p.l, 8 + c) << 6) | (BitAt(p.l, c) << 7)
  }

  /**
   The exchanges add up to the initial permutation of FIPS 46-3: the columns of the square become
   rows, the even ones (the standard's left half) in `r` and the odd ones in `l`.
   */
  lemma InitialIsStandard(p: Pair)
    ensures Initial(p).r == Column(p, 6) | (Column(p, 4) << 8) | (Column(p, 2) << 16) | (Column(p, 0) << 24)
    ensures Initial(p).l == Column(p, 7) | (Column(p, 5) << 8) | (Column(p, 3) << 16) | (Column(p, 1) << 24)
  {}

  // ----- the rounds

  function RotL(x: Word): Word { (x << 1) | (x >> 31) }

  function RotR(x: Word): Word { (x >> 1) | (x << 31) }

  lemma RotationsCancel(x: Word)
    ensures RotR(RotL(x)) == x && RotL(RotR(x)) == x
  {}

  lemma RotationsRotate(x: Word)
    ensures RotL(x) == x.RotateLeft(1) && RotR(x) == x.RotateRight(1)
  {}

  function Index(x: Word): (i: nat)
    ensures i < 64
  {
    (x & 0x3f) as nat
  }

  /** Six bits of a word, from the start of byte `k` on, counted from the least significant. */
  function Six(x: Word, k: nat): (i: nat)
    requires k < 4
    ensures i < 64
  {
    Index(if k == 0 then x else if k == 1 then x >> 8 else if k == 2 then x >> 16 else x >> 24)
  }

  function Or(a: Word, b: Word): Word { a | b }

  function Turn(v: Word): Word { (v >> 4) + (v << 28) }

  /** What D_ENCRYPT folds into the other half. */
  function Cross(sp: Tables, s: Schedule, r: Word, k: nat): Word
    requires Sized(sp) && |s| == 32 && k + 1 < 32
  {
    var u := Mix(r, s[k]);
    var t := Turn(Mix(r, s[k + 1]));
    Or(Or(Or(Or(Or(Or(Or(sp[1][Six(t, 0)], sp[3][Six(t, 1)]), sp[5][Six(t, 2)]), sp[7][Six(t, 3)]),
                   sp[0][Six(u, 0)]), sp[2][Six(u, 1)]), sp[4][Six(u, 2)]), sp[6][Six(u, 3)])
  }

  function Rot4(x: Word): Word { x.RotateRight(4) }

  /** The six bits from bit `4 * j` on, around the end of the word. */
  function Group(x: Word, j: nat): (i: nat)
    requires j < 8
    ensures i < 64
    decreases j
  {
    if j == 0 then Six(x, 0) else Group(Rot4(x), j - 1)
  }

  /** The tables from `j` on, each entered with its own six bits of the half and of its subkey. */
  function Substituted(sp: Tables, u: Word, v: Word, j: nat): Word
    requires Sized(sp) && j <= 8
    decreases 8 - j
  {
    if j == 8 then 0 else Or(sp[j][Group(if j % 2 == 0 then u else v, j)], Substituted(sp, u, v, j + 1))
  }

  lemma TurnIs(x: Word)
    ensures Turn(x) == Rot4(x)
  {}

  lemma Even(x: Word)
    ensures Six(Rot4(Rot4(x)), 0) == Six(x, 1)
    ensures Six(Rot4(Rot4(Rot4(Rot4(x)))), 0) == Six(x, 2)
    ensures Six(Rot4(Rot4(Rot4(Rot4(Rot4(Rot4(x)))))), 0) == Six(x, 3)
  {}

  lemma Groups(x: Word)
    ensures Group(x, 0) == Six(x, 0) && Group(x, 2) == Six(x, 1)
    ensures Group(x, 4) == Six(x, 2) && Group(x, 6) == Six(x, 3)
  {
    hide Six, Rot4;
    Even(x);
    assert Group(x, 2) == Group(Rot4(Rot4(x)), 0);
    assert Group(x, 4) == Group(Rot4(Rot4(x)), 2) == Group(Rot4(Rot4(Rot4(Rot4(x)))), 0);
    assert Group(x, 6) == Group(Rot4(Rot4(x)), 4);
    assert Group(Rot4(Rot4(x)), 4) == Group(Rot4(Rot4(Rot4(Rot4(x)))), 2);
    assert Group(Rot4(Rot4(Rot4(Rot4(x)))), 2) == Group(Rot4(Rot4(Rot4(Rot4(Rot4(Rot4(x)))))), 0);
  }

  lemma OddGroups(x: Word)
    ensures var t := Turn(x);
      && Group(x, 1) == Six(t, 0) && Group(x, 3) == Six(t, 1)
      && Group(x, 5) == Six(t, 2) && Group(x, 7) == Six(t, 3)
  {
    hide Six, Rot4, Turn;
    TurnIs(x);
    Groups(Rot4(x));
    assert Group(x, 3) == Group(Rot4(x), 2) && Group(x, 5) == Group(Rot4(x), 4) && Group(x, 7) == Group(Rot4(x), 6);
  }

  lemma OrLaws(a: Word, b: Word, c: Word)
    ensures Or(a, b) == Or(b, a) && Or(a, Or(b, c)) == Or(Or(a, b), c)
  {}

  lemma OrMeans(a: Word, b: Word)
    ensures !Or(a, b) == !a & !b
  {}

  /** Moving one term of the first list in front of the second. */
  lemma Move(first: Word, b: Word, rest: Word)
    ensures Or(Or(first, b), rest) == Or(first, Or(b, rest)) && Or(first, Or(b, rest)) == Or(b, Or(first, rest))
  {
    hide Or;
    OrLaws(first, b, rest);
    OrLaws(b, first, rest);
  }

  lemma AnyOrder(a: Word, b: Word, c: Word, d: Word, e: Word, f: Word, g: Word, h: Word)
    ensures Or(Or(Or(Or(Or(Or(Or(b, d), f), h), a), c), e), g) ==
            Or(a, Or(b, Or(c, Or(d, Or(e, Or(f, Or(g, Or(h, 0))))))))
  {
    hide Or;
    var odd := Or(Or(Or(b, d), f), h);
    calc {
      Or(a, Or(b, Or(c, Or(d, Or(e, Or(f, Or(g, Or(h, 0))))))));
      { None(h); OrLaws(g, h, 0); OrLaws(f, h, g); }
      Or(a, Or(b, Or(c, Or(d, Or(e, Or(Or(f, h), g))))));
      { Move(Or(f, h), e, g); }
      Or(a, Or(b, Or(c, Or(d, Or(Or(f, h), Or(e, g))))));
      { Move(d, Or(f, h), Or(e, g)); }
      Or(a, Or(b, Or(c, Or(Or(d, Or(f, h)), Or(e, g)))));
      { Move(Or(d, Or(f, h)), c, Or(e, g)); }
      Or(a, Or(b, Or(Or(d, Or(f, h)), Or(c, Or(e, g)))));
      { Move(b, Or(d, Or(f, h)), Or(c, Or(e, g))); }
      Or(a, Or(Or(b, Or(d, Or(f, h))), Or(c, Or(e, g))));
      { OrLaws(d, f, h); OrLaws(b, Or(d, f), h); OrLaws(b, d, f); }
      Or(a, Or(odd, Or(c, Or(e, g))));
      { Move(a, odd, Or(c, Or(e, g))); }
      Or(odd, Or(a, Or(c, Or(e, g))));
      { Move(odd, a, Or(c, Or(e, g))); Move(Or(odd, a), c, Or(e, g)); Move(Or(Or(odd, a), c), e, g); }
      Or(Or(Or(Or(odd, a), c), e), g);
    }
  }

  lemma None(h: Word)
    ensures Or(h, 0) == h
  {}

  lemma AllTables(sp: Tables, u: Word, v: Word)
    requires Sized(sp)
    ensures Substituted(sp, u, v, 0) ==
            Or(sp[0][Group(u, 0)], Or(sp[1][Group(v, 1)], Or(sp[2][Group(u, 2)], Or(sp[3][Group(v, 3)],
            Or(sp[4][Group(u, 4)], Or(sp[5][Group(v, 5)], Or(sp[6][Group(u, 6)], Or(sp[7][Group(v, 7)], 0))))))))
  {
    hide Group, Or;
    assert Substituted(sp, u, v, 8) == 0;
    assert Substituted(sp, u, v, 7) == Or(sp[7][Group(v, 7)], 0);
    assert Substituted(sp, u, v, 6) == Or(sp[6][Group(u, 6)], Substituted(sp, u, v, 7));
    assert Substituted(sp, u, v, 5) == Or(sp[5][Group(v, 5)], Substituted(sp, u, v, 6));
    assert Substituted(sp, u, v, 4) == Or(sp[4][Group(u, 4)], Substituted(sp, u, v, 5));
    assert Substituted(sp, u, v, 3) == Or(sp[3][Group(v, 3)], Substituted(sp, u, v, 4));
    assert Substituted(sp, u, v, 2) == Or(sp[2][Group(u, 2)], Substituted(sp, u, v, 3));
    assert Substituted(sp, u, v, 1) == Or(sp[1][Group(v, 1)], Substituted(sp, u, v, 2));
  }

  /** D_ENCRYPT enters each of the eight tables once, with the six bits that are its own. */
  lemma CrossMeans(sp: Tables, s: Schedule, r: Word, k: nat)
    requires Sized(sp) && |s| == 32 && k + 1 < 32
    ensures Cross(sp, s, r, k) == Substituted(sp, Mix(r, s[k]), Mix(r, s[k + 1]), 0)
  {
    hide Group, Six, Substituted, Or, Mix, Turn;
    var u, v := Mix(r, s[k]), Mix(r, s[k + 1]);
    Groups(u);
    OddGroups(v);
    AllTables(sp, u, v);
    var t := Turn(v);
    AnyOrder(sp[0][Six(u, 0)], sp[1][Six(t, 0)], sp[2][Six(u, 1)], sp[3][Six(t, 1)],
             sp[4][Six(u, 2)], sp[5][Six(t, 2)], sp[6][Six(u, 3)], sp[7][Six(t, 3)]);
  }

  /** Two rounds: the left half with subkeys `j`, then the right half with subkeys `k`. */
  function Two(sp: Tables, s: Schedule, p: Pair, j: nat, k: nat): Pair
    requires Sized(sp) && |s| == 32 && j + 1 < 32 && k + 1 < 32
  {
    var l := Mix(p.l, Cross(sp, s, p.r, j));
    Pair(l, Mix(p.r, Cross(sp, s, l, k)))
  }

  /** The first `2 * n` rounds of encryption. */
  function Up(sp: Tables, s: Schedule, p: Pair, n: nat): Pair
    requires Sized(sp) && |s| == 32 && n <= 8
  {
    if n == 0 then p else Two(sp, s, Up(sp, s, p, n - 1), 4 * n - 4, 4 * n - 2)
  }

  /** The first `16 - 2 * n` rounds of decryption. */
  function Down(sp: Tables, s: Schedule, p: Pair, n: nat): Pair
    requires Sized(sp) && |s| == 32 && n <= 8
    decreases 8 - n
  {
    if n == 8 then p else Two(sp, s, Down(sp, s, p, n + 1), 4 * n + 2, 4 * n)
  }

  lemma TwoUndone(sp: Tables, s: Schedule, p: Pair, j: nat, k: nat)
    requires Sized(sp) && |s| == 32 && j + 1 < 32 && k + 1 < 32
    ensures Two(sp, s, Swap(Two(sp, s, p, j, k)), k, j) == Swap(p)
  {
    hide Mix, Cross;
    var l := Mix(p.l, Cross(sp, s, p.r, j));
    MixBack(p.r, Cross(sp, s, l, k));
    MixBack(p.l, Cross(sp, s, p.r, j));
  }

  lemma {:induction false} UpThenDown(sp: Tables, s: Schedule, p: Pair, n: nat)
    requires Sized(sp) && |s| == 32 && n <= 8
    ensures Down(sp, s, Swap(Up(sp, s, p, 8)), n) == Swap(Up(sp, s, p, n))
    decreases 8 - n
  {
    hide Two;
    if n < 8 {
      UpThenDown(sp, s, p, n + 1);
      TwoUndone(sp, s, Up(sp, s, p, n), 4 * n, 4 * n + 2);
    }
  }

  lemma {:induction false} DownThenUp(sp: Tables, s: Schedule, p: Pair, n: nat)
    requires Sized(sp) && |s| == 32 && n <= 8
    ensures Up(sp, s, Swap(Down(sp, s, p, 0)), n) == Swap(Down(sp, s, p, n))
  {
    hide Two;
    if n > 0 {
      DownThenUp(sp, s, p, n - 1);
      TwoUndone(sp, s, Down(sp, s, p, n), 4 * n - 2, 4 * n - 4);
    }
  }

  function Rounds(sp: Tables, s: Schedule, p: Pair, encrypt: bool): Pair
    requires Sized(sp) && |s| == 32
  {
    if encrypt then Up(sp, s, p, 8) else Down(sp, s, p, 0)
  }

  lemma RoundsUndone(sp: Tables, s: Schedule, p: Pair, e: bool)
    requires Sized(sp) && |s| == 32
    ensures Rounds(sp, s, Swap(Rounds(sp, s, p, e)), !e) == Swap(p)
  {
    if e {
      UpThenDown(sp, s, p, 0);
    } else {
      DownThenUp(sp, s, p, 8);
    }
  }

  /** `n` rounds as the standard has them: the right half masks the left, and the halves change places. */
  function Feistel(sp: Tables, s: Schedule, p: Pair, n: nat, encrypt: bool): Pair
    requires Sized(sp) && |s| == 32 && n <= 16
  {
    if n == 0 then p
    else
      var q := Feistel(sp, s, p, n - 1, encrypt);
      Pair(q.r, Mix(q.l, Cross(sp, s, q.r, if encrypt then 2 * n - 2 else 32 - 2 * n)))
  }

  lemma {:induction false} UpIsFeistel(sp: Tables, s: Schedule, p: Pair, n: nat)
    requires Sized(sp) && |s| == 32 && n <= 8
    ensures Up(sp, s, p, n) == Feistel(sp, s, p, 2 * n, true)
  {
    hide Mix, Cross;
    if n > 0 {
      UpIsFeistel(sp, s, p, n - 1);
      var h, q := Feistel(sp, s, p, 2 * n - 2, true), Feistel(sp, s, p, 2 * n - 1, true);
      assert q == Pair(h.r, Mix(h.l, Cross(sp, s, h.r, 4 * n - 4)));
      assert Feistel(sp, s, p, 2 * n, true) == Pair(q.r, Mix(q.l, Cross(sp, s, q.r, 4 * n - 2)));
    }
  }

  lemma {:induction false} DownIsFeistel(sp: Tables, s: Schedule, p: Pair, n: nat)
    requires Sized(sp) && |s| == 32 && n <= 8
    ensures Down(sp, s, p, n) == Feistel(sp, s, p, 16 - 2 * n, false)
    decreases 8 - n
  {
    hide Mix, Cross;
    if n < 8 {
      DownIsFeistel(sp, s, p, n + 1);
      var h, q := Feistel(sp, s, p, 14 - 2 * n, false), Feistel(sp, s, p, 15 - 2 * n, false);
      assert q == Pair(h.r, Mix(h.l, Cross(sp, s, h.r, 4 * n + 2)));
      assert Feistel(sp, s, p, 16 - 2 * n, false) == Pair(q.r, Mix(q.l, Cross(sp, s, q.r, 4 * n)));
    }
  }

  /** The loops do two rounds at a time and exchange nothing; they are the sixteen rounds of the standard. */
  lemma RoundsAreFeistel(sp: Tables, s: Schedule, p: Pair, encrypt: bool)
    requires Sized(sp) && |s| == 32
    ensures Rounds(sp, s, p, encrypt) == Feistel(sp, s, p, 16, encrypt)
  {
    UpIsFeistel(sp, s, p, 8);
    DownIsFeistel(sp, s, p, 0);
  }

  /** des_encrypt2: no outer permutations. */
  function Core(sp: Tables, s: Schedule, x: Pair, encrypt: bool): Pair
    requires Sized(sp) && |s| == 32
  {
    var p := Rounds(sp, s, Pair(RotL(x.r), RotL(x.l)), encrypt);
    Pair(RotR(p.l), RotR(p.r))
  }

  /** The half that starts out on the left is `r`; at the end the halves are exchanged once more. */
  lemma CoreMeans(sp: Tables, s: Schedule, left: Word, right: Word, encrypt: bool)
    requires Sized(sp) && |s| == 32
    ensures var q := Feistel(sp, s, Pair(left.RotateLeft(1), right.RotateLeft(1)), 16, encrypt);
      Core(sp, s, Pair(right, left), encrypt) == Pair(q.l.RotateRight(1), q.r.RotateRight(1))
  {
    hide RotL, RotR, Rounds, Feistel;
    RotationsRotate(left);
    RotationsRotate(right);
    var h := Pair(left.RotateLeft(1), right.RotateLeft(1));
    RoundsAreFeistel(sp, s, h, encrypt);
    var q := Feistel(sp, s, h, 16, encrypt);
    RotationsRotate(q.l);
    RotationsRotate(q.r);
  }

  /** des_encrypt. */
  function Single(sp: Tables, s: Schedule, x: Pair, encrypt: bool): Pair
    requires Sized(sp) && |s| == 32
  {
    Final(Core(sp, s, Initial(x), encrypt))
  }

  /** des_ecb3_encrypt. */
  function Triple(sp: Tables, s1: Schedule, s2: Schedule, s3: Schedule, x: Pair, encrypt: bool): Pair
    requires Sized(sp) && |s1| == |s2| == |s3| == 32
  {
    Final(Core(sp, s3, Core(sp, s2, Core(sp, s1, Initial(x), encrypt), !encrypt), encrypt))
  }

  lemma CoreUndone(sp: Tables, s: Schedule, x: Pair, e: bool)
    requires Sized(sp) && |s| == 32
    ensures Core(sp, s, Core(sp, s, x, e), !e) == x
  {
    hide Rounds, RotL, RotR;
    var h := Pair(RotL(x.r), RotL(x.l));
    var p := Rounds(sp, s, h, e);
    RotationsCancel(p.l);
    RotationsCancel(p.r);
    RotationsCancel(x.l);
    RotationsCancel(x.r);
    RoundsUndone(sp, s, h, e);
    assert Pair(RotL(RotR(p.r)), RotL(RotR(p.l))) == Swap(p);
  }

  /** One flag undoes the other, in both directions. */
  lemma SingleUndone(sp: Tables, s: Schedule, x: Pair, e: bool)
    requires Sized(sp) && |s| == 32
    ensures Single(sp, s, Single(sp, s, x, e), !e) == x
  {
    hide Core, Initial, Final;
    PermutationsCancel(Core(sp, s, Initial(x), e));
    CoreUndone(sp, s, Initial(x), e);
    PermutationsCancel(x);
  }

  /** With the schedules in the opposite order, one flag undoes the other. */
  lemma TripleUndone(sp: Tables, s1: Schedule, s2: Schedule, s3: Schedule, x: Pair, e: bool)
    requires Sized(sp) && |s1| == |s2| == |s3| == 32
    ensures Triple(sp, s3, s2, s1, Triple(sp, s1, s2, s3, x, e), !e) == x
  {
    hide Core, Initial, Final;
    var a := Core(sp, s1, Initial(x), e);
    var b := Core(sp, s2, a, !e);
    PermutationsCancel(Core(sp, s3, b, e));
    CoreUndone(sp, s3, b, e);
    CoreUndone(sp, s2, a, !e);
    CoreUndone(sp, s1, Initial(x), e);
    PermutationsCancel(x);
  }

  /** Leaving out the permutations in the middle changes nothing: this is three single passes. */
  lemma TripleIsThreeSingles(sp: Tables, s1: Schedule, s2: Schedule, s3: Schedule, x: Pair, e: bool)
    requires Sized(sp) && |s1| == |s2| == |s3| == 32
    ensures Triple(sp, s1, s2, s3, x, e) == Single(sp, s3, Single(sp, s2, Single(sp, s1, x, e), !e), e)
  {
    hide Core, Initial, Final;
    var a := Core(sp, s1, Initial(x), e);
    PermutationsCancel(a);
    PermutationsCancel(Core(sp, s2, a, !e));
  }

  // ----- the code

  /** The two round loops. */
  method RoundLoops(sp: Tables, s: Schedule, l0: Word, r0: Word, encrypt: bool) returns (l: Word, r: Word)
    requires Sized(sp) && |s| == 32
    ensures Pair(l, r) == Rounds(sp, s, Pair(l0, r0), encrypt)
  {
    hide Mix, Cross;
    l, r := l0, r0;
    ghost var p := Pair(l0, r0);
    if encrypt {
      var i := 0;
      ghost var n: nat := 0;
      while i < 32
        invariant n <= 8 && i == 4 * n && Pair(l, r) == Up(sp, s, p, n)
      {
        l := Mix(l, Cross(sp, s, r, i));
        r := Mix(r, Cross(sp, s, l, i + 2));
        i := i + 4;
        n := n + 1;
      }
    } else {
      var i := 30;
      ghost var n: nat := 8;
      while i > 0
        invariant n <= 8 && i == 4 * n - 2 && Pair(l, r) == Down(sp, s, p, n)
      {
        l := Mix(l, Cross(sp, s, r, i));
        r := Mix(r, Cross(sp, s, l, i - 2));
        i := i - 4;
        n := n - 1;
      }
    }
  }

  /** des_encrypt2. */
  method Encrypt2(sp: Tables, data: array<Word>, s: Schedule, encrypt: bool)
    requires Sized(sp) && |s| == 32 && data.Length == 2
    modifies data
    ensures Pair(data[0], data[1]) == Core(sp, s, old(Pair(data[0], data[1])), encrypt)
  {
    hide RotL, RotR, Rounds;
    var u, v := data[0], data[1];
    var l, r := RoundLoops(sp, s, RotL(v), RotL(u), encrypt);
    data[0], data[1] := RotR(l), RotR(r);
  }

  /** des_encrypt. */
  method Encrypt(sp: Tables, data: array<Word>, s: Schedule, encrypt: bool)
    requires Sized(sp) && |s| == 32 && data.Length == 2
    modifies data
    ensures Pair(data[0], data[1]) == Single(sp, s, old(Pair(data[0], data[1])), encrypt)
  {
    hide RotL, RotR, Rounds, Initial, Final;
    var p := Initial(Pair(data[0], data[1]));
    var l, r := RoundLoops(sp, s, RotL(p.r), RotL(p.l), encrypt);
    var q := Final(Pair(RotR(l), RotR(r)));
    data[0], data[1] := q.l, q.r;
  }

  /** Eight bytes as two little-endian words (c2l). */
  function FromBytes(b: seq<byte>): Pair
    requires |b| == 8
  {
    Pair(Load32([b[3], b[2], b[1], b[0]]), Load32([b[7], b[6], b[5], b[4]]))
  }

  /** Two words as eight little-endian bytes (l2c). */
  function ToBytes(p: Pair): (r: seq<byte>)
    ensures |r| == 8
  {
    var x, y := Store32(p.l), Store32(p.r);
    [x[3], x[2], x[1], x[0], y[3], y[2], y[1], y[0]]
  }

  lemma BytesBack(p: Pair, b: seq<byte>)
    requires |b| == 8
    ensures FromBytes(ToBytes(p)) == p && ToBytes(FromBytes(b)) == b
  {
    hide Load32, Store32;
    var x, y := Store32(p.l), Store32(p.r);
    Stored32(p.l);
    Stored32(p.r);
    assert [x[0], x[1], x[2], x[3]] == x && [y[0], y[1], y[2], y[3]] == y;
    Loaded32([b[3], b[2], b[1], b[0]]);
    Loaded32([b[7], b[6], b[5], b[4]]);
    assert b == [b[0], b[1], b[2], b[3], b[4], b[5], b[6], b[7]];
  }

  /** The first byte of each four is the least significant. */
  lemma BytesOrder(b: seq<byte>)
    requires |b| == 8
    ensures var p := FromBytes(b);
      && p.l & 0xff == b[0] as bv32 && (p.l >> 8) & 0xff == b[1] as bv32
      && (p.l >> 16) & 0xff == b[2] as bv32 && p.l >> 24 == b[3] as bv32
      && p.r & 0xff == b[4] as bv32 && (p.r >> 8) & 0xff == b[5] as bv32
      && (p.r >> 16) & 0xff == b[6] as bv32 && p.r >> 24 == b[7] as bv32
  {
    hide Load32;
    Load32Order([b[3], b[2], b[1], b[0]]);
    Load32Order([b[7], b[6], b[5], b[4]]);
  }

  /** des_ecb3_encrypt; the output may be the input. */
  method Ecb3(sp: Tables, input: array<byte>, output: array<byte>, s1: Schedule, s2: Schedule, s3: Schedule,
              encrypt: bool)
    requires Sized(sp) && |s1| == |s2| == |s3| == 32 && input.Length == output.Length == 8
    modifies output
    ensures output[..] == ToBytes(Triple(sp, s1, s2, s3, FromBytes(old(input[..])), encrypt))
  {
    hide Core, Initial, Final, Load32, ToBytes;
    var p := Initial(FromBytes(input[..]));
    var ll := new Word[2];
    ll[0], ll[1] := p.l, p.r;
    Encrypt2(sp, ll, s1, encrypt);
    Encrypt2(sp, ll, s2, !encrypt);
    Encrypt2(sp, ll, s3, encrypt);
    var b := ToBytes(Final(Pair(ll[0], ll[1])));
    forall k | 0 <= k < 8 { output[k] := b[k]; }
    assert output[..] == b;
  }

  /** des3_encrypt and then des3_decrypt, in place. */
  lemma Des3Restores(sp: Tables, s1: Schedule, s2: Schedule, s3: Schedule, b: seq<byte>)
    requires Sized(sp) && |s1| == |s2| == |s3| == 32 && |b| == 8
    ensures var x := ToBytes(Triple(sp, s1, s2, s3, FromBytes(b), true));
      ToBytes(Triple(sp, s3, s2, s1, FromBytes(x), false)) == b
  {
    hide Triple, FromBytes, ToBytes;
    BytesBack(Triple(sp, s1, s2, s3, FromBytes(b), true), b);
    TripleUndone(sp, s1, s2, s3, FromBytes(b), true);
  }
}
