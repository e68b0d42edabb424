/**
 The field of 128-bit blocks of section 6.3 of NIST SP 800-38D: sums are exclusive or, and the
 product is the sum of the multiples of one factor selected by the bits of the other.
 */
module Field {
  /** Bit 0 is the leftmost. */
  type Element = seq<bool>

  const WIDTH := 128

  predicate Good(a: Element) { |a| == WIDTH }

  function Zero(): (r: Element)
    ensures Good(r)
  {
    seq(WIDTH, _ => false)
  }

  function One(): (r: Element)
    ensures Good(r)
  {
    seq(WIDTH, i => i == 0)
  }

  function Plus(a: Element, b: Element): (r: Element)
    requires Good(a) && Good(b)
    ensures Good(r)
  {
    seq(WIDTH, i requires 0 <= i < WIDTH => a[i] != b[i])
  }

  /** The bits folded in when a one is shifted out: 11100001 and zeros. */
  predicate Reduction(i: nat) { i in {0, 1, 2, 7} }

  /** One step to the right. */
  function Times2(a: Element): (r: Element)
    requires Good(a)
    ensures Good(r)
  {
    seq(WIDTH, i requires 0 <= i < WIDTH => (i > 0 && a[i - 1]) != (a[WIDTH - 1] && Reduction(i)))
  }

  function Times2s(a: Element, n: nat): (r: Element)
    requires Good(a)
    ensures Good(r)
  {
    if n == 0 then a else Times2(Times2s(a, n - 1))
  }

  function Pick(b: bool, a: Element): (r: Element)
    requires Good(a)
    ensures Good(r)
  {
    if b then a else Zero()
  }

  /** The part of the product that the first `n` bits of `x` give. */
  function Sum(x: Element, y: Element, n: nat): (r: Element)
    requires Good(x) && Good(y) && n <= WIDTH
    ensures Good(r)
  {
    if n == 0 then Zero() else Plus(Sum(x, y, n - 1), Pick(x[n - 1], Times2s(y, n - 1)))
  }

  function Times(x: Element, y: Element): (r: Element)
    requires Good(x) && Good(y)
    ensures Good(r)
  {
    Sum(x, y, WIDTH)
  }

  // ----- sums

  lemma PlusLaws(a: Element, b: Element, c: Element)
    requires Good(a) && Good(b) && Good(c)
    ensures Plus(a, b) == Plus(b, a)
    ensures Plus(Plus(a, b), c) == Plus(a, Plus(b, c))
    ensures Plus(a, Zero()) == a && Plus(a, a) == Zero()
  {}

  /** (a + b) + (c + d) == (a + c) + (b + d). */
  lemma PlusSwap(a: Element, b: Element, c: Element, d: Element)
    requires Good(a) && Good(b) && Good(c) && Good(d)
    ensures Plus(Plus(a, b), Plus(c, d)) == Plus(Plus(a, c), Plus(b, d))
  {}

  lemma Times2Plus(a: Element, b: Element)
    requires Good(a) && Good(b)
    ensures Times2(Plus(a, b)) == Plus(Times2(a), Times2(b))
    ensures Times2(Zero()) == Zero()
  {}

  lemma {:induction false} Times2sPlus(a: Element, b: Element, n: nat)
    requires Good(a) && Good(b)
    ensures Times2s(Plus(a, b), n) == Plus(Times2s(a, n), Times2s(b, n))
    ensures Times2s(Zero(), n) == Zero()
  {
    hide Plus, Times2, Zero;
    if n > 0 {
      Times2sPlus(a, b, n - 1);
      Times2Plus(Times2s(a, n - 1), Times2s(b, n - 1));
    }
  }

  lemma PickPlus(b: bool, x: Element, y: Element)
    requires Good(x) && Good(y)
    ensures Pick(b, Plus(x, y)) == Plus(Pick(b, x), Pick(b, y))
  {
    hide Plus, Zero;
    PlusLaws(Zero(), Zero(), Zero());
  }

  lemma PickEither(b: bool, c: bool, x: Element)
    requires Good(x)
    ensures Pick(b != c, x) == Plus(Pick(b, x), Pick(c, x))
  {
    hide Plus, Zero;
    PlusLaws(x, Zero(), Zero());
    PlusLaws(Zero(), x, x);
    PlusLaws(Zero(), Zero(), Zero());
    PlusLaws(x, x, x);
  }

  // ----- the product is additive in each factor

  lemma {:induction false} SumRight(x: Element, y: Element, z: Element, n: nat)
    requires Good(x) && Good(y) && Good(z) && n <= WIDTH
    ensures Sum(x, Plus(y, z), n) == Plus(Sum(x, y, n), Sum(x, z, n))
  {
    hide Plus, Zero, Times2s, Pick;
    if n == 0 {
      PlusLaws(Zero(), Zero(), Zero());
    } else {
      SumRight(x, y, z, n - 1);
      var b := x[n - 1];
      var u, v := Times2s(y, n - 1), Times2s(z, n - 1);
      Times2sPlus(y, z, n - 1);
      PickPlus(b, u, v);
      PlusSwap(Sum(x, y, n - 1), Sum(x, z, n - 1), Pick(b, u), Pick(b, v));
    }
  }

  lemma {:induction false} SumLeft(x: Element, w: Element, y: Element, n: nat)
    requires Good(x) && Good(w) && Good(y) && n <= WIDTH
    ensures Sum(Plus(x, w), y, n) == Plus(Sum(x, y, n), Sum(w, y, n))
  {
    hide Zero, Times2s, Pick;
    if n == 0 {
      PlusLaws(Zero(), Zero(), Zero());
    } else {
      SumLeft(x, w, y, n - 1);
      var u := Times2s(y, n - 1);
      PickEither(x[n - 1], w[n - 1], u);
      PlusSwap(Sum(x, y, n - 1), Sum(w, y, n - 1), Pick(x[n - 1], u), Pick(w[n - 1], u));
    }
  }

  lemma TimesIsAdditive(x: Element, y: Element, z: Element)
    requires Good(x) && Good(y) && Good(z)
    ensures Times(x, Plus(y, z)) == Plus(Times(x, y), Times(x, z))
    ensures Times(Plus(x, y), z) == Plus(Times(x, z), Times(y, z))
  {
    hide Sum, Plus;
    SumRight(x, y, z, WIDTH);
    SumLeft(x, y, z, WIDTH);
  }

  // ----- multiplying by x and by y commute

  lemma {:induction false} SumTimes2(x: Element, y: Element, n: nat)
    requires Good(x) && Good(y) && n <= WIDTH
    ensures Sum(x, Times2(y), n) == Times2(Sum(x, y, n))
  {
    hide Plus, Zero, Times2, Times2s;
    if n == 0 {
      Times2Plus(Zero(), Zero());
    } else {
      SumTimes2(x, y, n - 1);
      Times2sInside(y, n - 1);
      var u := Pick(x[n - 1], Times2s(y, n - 1));
      Times2Plus(Sum(x, y, n - 1), u);
    }
  }

  lemma {:induction false} Times2sInside(y: Element, n: nat)
    requires Good(y)
    ensures Times2s(Times2(y), n) == Times2(Times2s(y, n))
  {
    hide Times2;
    if n > 0 {
      Times2sInside(y, n - 1);
    }
  }

  lemma {:induction false} SumTimes2s(x: Element, y: Element, n: nat, k: nat)
    requires Good(x) && Good(y) && n <= WIDTH
    ensures Sum(x, Times2s(y, k), n) == Times2s(Sum(x, y, n), k)
  {
    hide Sum, Times2;
    if k > 0 {
      SumTimes2s(x, y, n, k - 1);
      SumTimes2(x, Times2s(y, k - 1), n);
    }
  }

  lemma {:induction false} SumZero(x: Element, n: nat)
    requires Good(x) && n <= WIDTH
    ensures Sum(x, Zero(), n) == Zero()
  {
    hide Plus, Zero, Times2s;
    if n > 0 {
      SumZero(x, n - 1);
      Times2sPlus(Zero(), Zero(), n - 1);
      PlusLaws(Zero(), Zero(), Zero());
    }
  }

  lemma {:induction false} SumsCommute(x: Element, y: Element, w: Element, n: nat)
    requires Good(x) && Good(y) && Good(w) && n <= WIDTH
    ensures Times(x, Sum(y, w, n)) == Sum(y, Times(x, w), n)
  {
    hide Times, Plus, Zero, Times2s;
    if n == 0 {
      TimesZero(x);
    } else {
      SumsCommute(x, y, w, n - 1);
      var u := Times2s(w, n - 1);
      TimesIsAdditive(x, Sum(y, w, n - 1), Pick(y[n - 1], u));
      TimesTimes2s(x, w, n - 1);
      TimesZero(x);
    }
  }

  lemma TimesZero(x: Element)
    requires Good(x)
    ensures Times(x, Zero()) == Zero()
  {
    hide Sum, Zero;
    SumZero(x, WIDTH);
  }

  lemma TimesTimes2s(x: Element, y: Element, k: nat)
    requires Good(x) && Good(y)
    ensures Times(x, Times2s(y, k)) == Times2s(Times(x, y), k)
  {
    hide Sum, Times2s;
    SumTimes2s(x, y, WIDTH, k);
  }

  // ----- one

  lemma {:induction false} Times2sOne(n: nat)
    requires n < WIDTH
    ensures Times2s(One(), n) == seq(WIDTH, i => i == n)
  {
    if n > 0 {
      Times2sOne(n - 1);
    }
  }

  /** The first `n` bits of an element. */
  function First(x: Element, n: nat): (r: Element)
    requires Good(x)
    ensures Good(r)
  {
    seq(WIDTH, i requires 0 <= i < WIDTH => i < n && x[i])
  }

  lemma {:induction false} SumOne(x: Element, n: nat)
    requires Good(x) && n <= WIDTH
    ensures Sum(x, One(), n) == First(x, n)
  {
    hide One, Times2s;
    if n > 0 {
      SumOne(x, n - 1);
      Times2sOne(n - 1);
    }
  }

  lemma TimesOne(x: Element)
    requires Good(x)
    ensures Times(x, One()) == x
  {
    hide Sum, One;
    SumOne(x, WIDTH);
  }

  /** The product does not depend on which factor is shifted. */
  lemma TimesCommutes(x: Element, y: Element)
    requires Good(x) && Good(y)
    ensures Times(x, y) == Times(y, x)
  {
    hide Times, One, Sum;
    TimesOne(x);
    TimesOne(y);
    TimesSwap(x, y, One());
  }

  lemma TimesSwap(x: Element, y: Element, z: Element)
    requires Good(x) && Good(y) && Good(z)
    ensures Times(x, Times(y, z)) == Times(y, Times(x, z))
  {
    hide Sum;
    SumsCommute(x, y, z, WIDTH);
  }

  lemma TimesAssociates(x: Element, y: Element, z: Element)
    requires Good(x) && Good(y) && Good(z)
    ensures Times(Times(x, y), z) == Times(x, Times(y, z))
  {
    hide Times;
    TimesCommutes(Times(x, y), z);
    TimesSwap(z, x, y);
    TimesCommutes(z, y);
  }
}
