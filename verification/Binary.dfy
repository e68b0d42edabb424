/** Binary digits of numbers: machine words are numbers with a bound. */
module Binary {
  function Pow2(n: nat): (p: nat)
    ensures p > 0
  {
    if n == 0 then 1 else 2 * Pow2(n - 1)
  }

  predicate Bit(v: nat, k: nat) {
    if k == 0 then v % 2 == 1 else Bit(v / 2, k - 1)
  }

  /** Exclusive or of the lowest `n` digits. */
  function Xor(a: nat, b: nat, n: nat): nat {
    if n == 0 then 0 else 2 * Xor(a / 2, b / 2, n - 1) + (a + b) % 2
  }

  lemma {:induction false} XorCommutes(a: nat, b: nat, n: nat)
    ensures Xor(a, b, n) == Xor(b, a, n)
  {
    if n > 0 {
      XorCommutes(a / 2, b / 2, n - 1);
    }
  }

  lemma Digit(a: nat, b: nat, x: nat)
    ensures (2 * x + (a + b) % 2) / 2 == x && (2 * x + (a + b) % 2 + b) % 2 == a % 2
  {}

  lemma {:induction false} XorTwice(a: nat, b: nat, n: nat)
    requires a < Pow2(n)
    ensures Xor(Xor(a, b, n), b, n) == a
  {
    if n > 0 {
      XorTwice(a / 2, b / 2, n - 1);
      Digit(a, b, Xor(a / 2, b / 2, n - 1));
    }
  }

  lemma {:induction false} XorBound(a: nat, b: nat, n: nat, m: nat)
    requires m <= n && (m < n ==> a < Pow2(m) && b < Pow2(m))
    ensures Xor(a, b, n) < Pow2(m)
  {
    if m > 0 {
      XorBound(a / 2, b / 2, n - 1, m - 1);
    } else if n > 0 {
      XorBound(0, 0, n - 1, 0);
    }
  }

  lemma {:induction false} XorBit(a: nat, b: nat, n: nat, k: nat)
    requires k < n
    ensures Bit(Xor(a, b, n), k) == (Bit(a, k) != Bit(b, k))
  {
    Digits(a, b, Xor(a / 2, b / 2, n - 1));
    if k > 0 {
      XorBit(a / 2, b / 2, n - 1, k - 1);
    }
  }

  lemma Digits(a: nat, b: nat, x: nat)
    ensures (2 * x + (a + b) % 2) / 2 == x
    ensures ((2 * x + (a + b) % 2) % 2 == 1) == ((a % 2 == 1) != (b % 2 == 1))
  {}

  /** Digits of two numbers side by side. */
  lemma {:induction false} JoinedBit(hi: nat, lo: nat, n: nat, k: nat)
    requires lo < Pow2(n)
    ensures Bit(hi * Pow2(n) + lo, k) == if k < n then Bit(lo, k) else Bit(hi, k - n)
    decreases n
  {
    if n > 0 {
      var p := Pow2(n - 1);
      assert hi * Pow2(n) == 2 * (hi * p);
      assert (2 * (hi * p) + lo) / 2 == hi * p + lo / 2 && (2 * (hi * p) + lo) % 2 == lo % 2;
      if k > 0 {
        JoinedBit(hi, lo / 2, n - 1, k - 1);
      }
    }
  }

  lemma {:induction false} SmallBit(v: nat, n: nat, k: nat)
    requires v < Pow2(n) && n <= k
    ensures !Bit(v, k)
    decreases k
  {
    if k > 0 {
      SmallBit(v / 2, if n == 0 then 0 else n - 1, k - 1);
    }
  }

  /** Numbers with the same digits are the same. */
  lemma {:induction false} SameBits(a: nat, b: nat, n: nat)
    requires a < Pow2(n) && b < Pow2(n)
    requires forall k :: 0 <= k < n ==> Bit(a, k) == Bit(b, k)
    ensures a == b
    decreases n
  {
    if n > 0 {
      assert Bit(a, 0) == Bit(b, 0);
      forall k | 0 <= k < n - 1 ensures Bit(a / 2, k) == Bit(b / 2, k) {
        assert Bit(a, k + 1) == Bit(b, k + 1);
      }
      SameBits(a / 2, b / 2, n - 1);
    }
  }

  lemma Powers()
    ensures Pow2(8) == 0x100 && Pow2(15) == 0x8000 && Pow2(16) == 0x1_0000
    ensures Pow2(31) == 0x8000_0000 && Pow2(32) == 0x1_0000_0000
  {
    assert Pow2(4) == 16;
    assert Pow2(8) == 16 * Pow2(4);
    assert Pow2(12) == 16 * Pow2(8);
    assert Pow2(16) == 16 * Pow2(12);
    assert Pow2(20) == 16 * Pow2(16);
    assert Pow2(24) == 16 * Pow2(20);
    assert Pow2(28) == 16 * Pow2(24);
    assert Pow2(32) == 16 * Pow2(28);
  }
}
