/**
 The id generator of sys/crypto/idgen.c: a counter pushed through a keyed permutation of the
 31-bit numbers, with a top bit that flips whenever the key changes.

 Machine words are numbers here, and exclusive or is defined on their binary digits.
 */
module IdGen {
  import opened Binary

  type Key = seq<nat>

  const KEYLEN := 32
  const REKEY_LIMIT := 0x6000_0000
  const REKEY_TIME := 600
  const TOP := 0x8000_0000

  // ----- the permutation, for any round function

  type Round = (nat, nat) -> nat

  datatype Halves = Halves(l: nat, r: nat)

  predicate Proper(h: Halves) { h.l < 0x8000 && h.r < 0x1_0000 }

  function Split(x: nat): Halves { Halves(x / 0x1_0000 % 0x8000, x % 0x1_0000) }

  function Join(h: Halves): nat { h.l * 0x1_0000 + h.r }

  function Double(g: Round, h: Halves, k: nat): Halves {
    var r := Xor(h.r, g(k, h.l), 16);
    Halves(Xor(h.l, g(k + 1, r) % 0x8000, 16), r)
  }

  function Undouble(g: Round, h: Halves, k: nat): Halves {
    var l := Xor(h.l, g(k + 1, h.r) % 0x8000, 16);
    Halves(l, Xor(h.r, g(k, l), 16))
  }

  function Odd(g: Round, h: Halves, k: nat): Halves { Halves(h.l, Xor(h.r, g(k, h.l), 16)) }

  function Doubles(g: Round, h: Halves, n: nat): Halves {
    if n == 0 then h else Double(g, Doubles(g, h, n - 1), 2 * n - 2)
  }

  function Undoubles(g: Round, h: Halves, n: nat): Halves
    decreases n
  {
    if n == 0 then h else Undoubles(g, Undouble(g, h, 2 * n - 2), n - 1)
  }

  function Permuted(g: Round, x: nat): nat { Join(Odd(g, Doubles(g, Split(x), 15), 30)) }

  function Unpermuted(g: Round, y: nat): nat { Join(Undoubles(g, Odd(g, Split(y), 30), 15)) }

  lemma RightXor(r: nat, w: nat)
    requires r < 0x1_0000
    ensures Xor(r, w, 16) < 0x1_0000 && Xor(Xor(r, w, 16), w, 16) == r
  {
    hide Xor, Pow2;
    Powers();
    XorBound(r, w, 16, 16);
    XorTwice(r, w, 16);
  }

  lemma LeftXor(l: nat, w: nat)
    requires l < 0x8000
    ensures Xor(l, w % 0x8000, 16) < 0x8000 && Xor(Xor(l, w % 0x8000, 16), w % 0x8000, 16) == l
  {
    hide Xor, Pow2;
    Powers();
    XorBound(l, w % 0x8000, 16, 15);
    XorTwice(l, w % 0x8000, 16);
  }

  lemma DoubleUndone(g: Round, h: Halves, k: nat)
    requires Proper(h)
    ensures Proper(Double(g, h, k)) && Undouble(g, Double(g, h, k), k) == h
    ensures Proper(Undouble(g, h, k)) && Double(g, Undouble(g, h, k), k) == h
  {
    hide Xor;
    RightXor(h.r, g(k, h.l));
    LeftXor(h.l, g(k + 1, Double(g, h, k).r));
    LeftXor(h.l, g(k + 1, h.r));
    RightXor(h.r, g(k, Undouble(g, h, k).l));
  }

  lemma {:induction false} DoublesUndone(g: Round, h: Halves, n: nat)
    requires Proper(h)
    ensures Proper(Doubles(g, h, n)) && Undoubles(g, Doubles(g, h, n), n) == h
  {
    hide Double, Undouble;
    if n > 0 {
      DoublesUndone(g, h, n - 1);
      DoubleUndone(g, Doubles(g, h, n - 1), 2 * n - 2);
    }
  }

  lemma {:induction false} UndoublesUndone(g: Round, h: Halves, n: nat)
    requires Proper(h)
    ensures Proper(Undoubles(g, h, n)) && Doubles(g, Undoubles(g, h, n), n) == h
    decreases n
  {
    hide Double, Undouble;
    if n > 0 {
      DoubleUndone(g, h, 2 * n - 2);
      UndoublesUndone(g, Undouble(g, h, 2 * n - 2), n - 1);
    }
  }

  lemma OddTwice(g: Round, h: Halves, k: nat)
    requires Proper(h)
    ensures Proper(Odd(g, h, k)) && Odd(g, Odd(g, h, k), k) == h
  {
    hide Xor;
    RightXor(h.r, g(k, h.l));
  }

  lemma SplitJoin(h: Halves)
    requires Proper(h)
    ensures Split(Join(h)) == h && Join(h) < TOP
  {}

  lemma JoinSplit(x: nat)
    ensures Proper(Split(x)) && (x < TOP ==> Join(Split(x)) == x)
  {}

  /** The permutation is a bijection of the 31-bit numbers, whatever the round function. */
  lemma PermutedIsBijection(g: Round, x: nat)
    requires x < TOP
    ensures Permuted(g, x) < TOP && Unpermuted(g, Permuted(g, x)) == x
    ensures Unpermuted(g, x) < TOP && Permuted(g, Unpermuted(g, x)) == x
  {
    hide Doubles, Undoubles, Split, Join, Odd;
    JoinSplit(x);
    DoublesUndone(g, Split(x), 15);
    var d := Doubles(g, Split(x), 15);
    OddTwice(g, d, 30);
    SplitJoin(Odd(g, d, 30));
    OddTwice(g, Split(x), 30);
    var o := Odd(g, Split(x), 30);
    UndoublesUndone(g, o, 15);
    SplitJoin(Undoubles(g, o, 15));
  }

  /** idgen32_permute. */
  method Permute(g: Round, x: nat) returns (y: nat)
    ensures y == Permuted(g, x)
  {
    hide Xor;
    var h := Split(x);
    var wl, wr := h.l, h.r;
    var i: nat, r: nat := 0, 0;
    while i < 15
      invariant i <= 15 && r == 2 * i
      invariant Halves(wl, wr) == Doubles(g, h, i)
    {
      wr := Xor(wr, g(r, wl), 16);
      r := r + 1;
      wl := Xor(wl, g(r, wr) % 0x8000, 16);
      r := r + 1;
      i := i + 1;
    }
    wr := Xor(wr, g(r, wl), 16);
    y := Join(Halves(wl, wr));
  }

  /** `n` single rounds, masking the right half and the left one in turn. */
  function Rounds(g: Round, h: Halves, n: nat): Halves {
    if n == 0 then h
    else
      var q, k := Rounds(g, h, n - 1), n - 1;
      if k % 2 == 0 then Halves(q.l, Xor(q.r, g(k, q.l), 16)) else Halves(Xor(q.l, g(k, q.r) % 0x8000, 16), q.r)
  }

  lemma {:induction false} DoublesAreRounds(g: Round, h: Halves, n: nat)
    ensures Doubles(g, h, n) == Rounds(g, h, 2 * n)
  {
    hide Xor;
    if n > 0 {
      DoublesAreRounds(g, h, n - 1);
      var q := Rounds(g, h, 2 * n - 2);
      assert Rounds(g, h, 2 * n - 1) == Halves(q.l, Xor(q.r, g(2 * n - 2, q.l), 16));
    }
  }

  /** The doubled-up rounds and the odd one at the end are 31 rounds of one Feistel network. */
  lemma PermutedIsFeistel(g: Round, x: nat)
    ensures Permuted(g, x) == Join(Rounds(g, Split(x), 31))
  {
    hide Xor, Split, Join;
    DoublesAreRounds(g, Split(x), 15);
    var q := Rounds(g, Split(x), 30);
    assert Rounds(g, Split(x), 31) == Halves(q.l, Xor(q.r, g(30, q.l), 16));
  }

  // ----- the round function

  /** The substitution table. */
  type Table = nat -> nat

  /** idgen32_g, with the round number folded in as its caller does. */
  function Mix(f: Table, key: Key, k: nat, w: nat): nat
    requires |key| == KEYLEN
  {
    var g1, g2 := w / 0x100 % 0x100, w % 0x100;
    var g3 := Xor(f(Xor(g2, key[4 * k % KEYLEN], 8)), g1, 8);
    var g4 := Xor(f(Xor(g3, key[(4 * k + 1) % KEYLEN], 8)), g2, 8);
    var g5 := Xor(f(Xor(g4, key[(4 * k + 2) % KEYLEN], 8)), g3, 8);
    var g6 := Xor(f(Xor(g5, key[(4 * k + 3) % KEYLEN], 8)), g4, 8);
    Xor(g5 * 0x100 + g6, k, 16)
  }

  /** Two neighbouring bytes of g1, g2, and so on. */
  datatype Two = Two(a: nat, b: nat)

  /** One of the four rounds of g: the second byte, changed by the key and the table, masks the first. */
  function Quarter(f: Table, key: Key, g: Two, o: nat): Two
    requires |key| == KEYLEN
  {
    Two(g.b, Xor(g.a, f(Xor(g.b, key[o % KEYLEN], 8)), 8))
  }

  function Quarters(f: Table, key: Key, k: nat, w: nat, n: nat): Two
    requires |key| == KEYLEN
  {
    if n == 0 then Two(w / 0x100 % 0x100, w % 0x100) else Quarter(f, key, Quarters(f, key, k, w, n - 1), 4 * k + n - 1)
  }

  /** g is the function G of Skipjack: four rounds on the two bytes of a word. */
  lemma MixIsSkipjack(f: Table, key: Key, k: nat, w: nat)
    requires |key| == KEYLEN
    ensures var q := Quarters(f, key, k, w, 4);
      Mix(f, key, k, w) == Xor(q.a * 0x100 + q.b, k, 16)
  {
    hide Xor;
    var q0 := Quarters(f, key, k, w, 0);
    var q1, q2 := Quarters(f, key, k, w, 1), Quarters(f, key, k, w, 2);
    var q3, q4 := Quarters(f, key, k, w, 3), Quarters(f, key, k, w, 4);
    assert q1 == Quarter(f, key, q0, 4 * k) && q2 == Quarter(f, key, q1, 4 * k + 1);
    assert q3 == Quarter(f, key, q2, 4 * k + 2) && q4 == Quarter(f, key, q3, 4 * k + 3);
    XorCommutes(f(Xor(q0.b, key[4 * k % KEYLEN], 8)), q0.a, 8);
    XorCommutes(f(Xor(q1.b, key[(4 * k + 1) % KEYLEN], 8)), q1.a, 8);
    XorCommutes(f(Xor(q2.b, key[(4 * k + 2) % KEYLEN], 8)), q2.a, 8);
    XorCommutes(f(Xor(q3.b, key[(4 * k + 3) % KEYLEN], 8)), q3.a, 8);
  }

  function RoundOf(f: Table, key: Key): Round
    requires |key| == KEYLEN
  {
    (k: nat, w: nat) => Mix(f, key, k, w)
  }

  // ----- the generator

  /** What the clock and the random source give at one try. */
  datatype Outside = Outside(now: int, offset: nat, key: Key)

  datatype Context = Context(counter: nat, offset: nat, hibit: nat, key: Key, rekeyTime: int)

  predicate Sane(c: Context) { |c.key| == KEYLEN && (c.hibit == 0 || c.hibit == TOP) }

  predicate Sensible(e: Outside) { |e.key| == KEYLEN }

  /** The id made of counter value `at` under the context's key. */
  function Output(f: Table, c: Context, at: nat): nat
    requires Sane(c)
  {
    c.hibit + Permuted(RoundOf(f, c.key), (c.offset + at) % TOP)
  }

  /** idgen32_rekey. */
  function Rekeyed(c: Context, e: Outside): Context
    requires Sane(c)
  {
    Context(0, e.offset, TOP - c.hibit, e.key, e.now + REKEY_TIME)
  }

  function Prepared(c: Context, e: Outside): (p: Context)
    requires Sane(c) && Sensible(e)
    ensures Sane(p) && p.counter <= REKEY_LIMIT
  {
    if c.counter > REKEY_LIMIT || c.rekeyTime < e.now then Rekeyed(c, e) else c
  }

  /** One try of idgen32: the context it leaves and the id it draws. */
  function Tried(f: Table, c: Context, e: Outside): (r: (Context, nat))
    requires Sane(c) && Sensible(e)
    ensures Sane(r.0)
  {
    var p := Prepared(c, e);
    (p.(counter := p.counter + 1), Output(f, p, p.counter))
  }

  /** A key serves exactly as long as ten minutes have not passed and 0x60000001 ids have not been drawn. */
  lemma KeyLasts(c: Context, e: Outside, drawn: nat, later: Outside)
    requires Sane(c) && Sensible(e) && Sensible(later)
    ensures var d := Rekeyed(c, e).(counter := drawn);
      var p := Prepared(d, later);
      if drawn < 0x6000_0001 && later.now <= e.now + 600 then p == d
      else p.counter == 0 && p.hibit != d.hibit && p.key == later.key && p.offset == later.offset
  {}

  /** Within one period two counter values make two ids. */
  lemma OutputsDiffer(f: Table, c: Context, a: nat, b: nat)
    requires Sane(c) && a <= REKEY_LIMIT && b <= REKEY_LIMIT && a != b
    ensures Output(f, c, a) != Output(f, c, b)
  {
    hide Permuted, Unpermuted, Mix;
    var g := RoundOf(f, c.key);
    PermutedIsBijection(g, (c.offset + a) % TOP);
    PermutedIsBijection(g, (c.offset + b) % TOP);
  }

  /** All ids of a period are on the same side of 2^31. */
  lemma OutputSide(f: Table, c: Context, a: nat)
    requires Sane(c)
    ensures Output(f, c, a) >= TOP <==> c.hibit == TOP
  {
    hide Permuted, Unpermuted, Mix;
    PermutedIsBijection(RoundOf(f, c.key), (c.offset + a) % TOP);
  }

  lemma SameOutput(f: Table, c: Context, d: Context, at: nat)
    requires Sane(c) && d == c.(counter := d.counter)
    ensures Output(f, c, at) == Output(f, d, at)
  {
    hide Permuted, Mix;
  }

  /** The first try may draw zero; the one after it cannot, with or without a new key. */
  lemma SecondTryIsNotZero(f: Table, c: Context, e1: Outside, e2: Outside)
    requires Sane(c) && Sensible(e1) && Sensible(e2)
    ensures Tried(f, c, e1).1 == 0 ==> Tried(f, Tried(f, c, e1).0, e2).1 != 0
  {
    hide Output;
    var p := Prepared(c, e1);
    var q := p.(counter := p.counter + 1);
    var r := Prepared(q, e2);
    OutputSide(f, p, p.counter);
    OutputSide(f, r, r.counter);
    if r == q {
      OutputsDiffer(f, p, p.counter, q.counter);
      SameOutput(f, p, q, q.counter);
    }
  }

  // ----- what has been issued

  /** An id, the key period it came from and the counter value it was made of. */
  datatype Issue = Issue(period: nat, at: nat, id: nat)

  /** An id issued earlier, seen from the present period. */
  ghost predicate Past(f: Table, c: Context, period: nat, i: Issue)
    requires Sane(c)
  {
    && i.period <= period
    && (i.id >= TOP <==> ((period - i.period) % 2 == 0) == (c.hibit == TOP))
    && (i.period == period ==> i.at < c.counter && i.at <= REKEY_LIMIT && i.id == Output(f, c, i.at))
  }

  predicate Apart(i: Issue, j: Issue) {
    i.period - j.period in {-1, 0, 1} ==> i.id != j.id
  }

  ghost predicate Log(f: Table, c: Context, period: nat, log: seq<Issue>)
    requires Sane(c)
  {
    && (forall i :: 0 <= i < |log| ==> Past(f, c, period, log[i]))
    && (forall i, j :: 0 <= i < j < |log| ==> Apart(log[i], log[j]))
  }

  lemma LogRekeyed(f: Table, c: Context, e: Outside, period: nat, log: seq<Issue>)
    requires Sane(c) && Sensible(e) && Log(f, c, period, log)
    ensures Log(f, Rekeyed(c, e), period + 1, log)
  {
    hide Output, Apart;
  }

  lemma LogDrawn(f: Table, c: Context, period: nat, log: seq<Issue>)
    requires Sane(c) && c.counter <= REKEY_LIMIT && Log(f, c, period, log)
    ensures Log(f, c.(counter := c.counter + 1), period, log)
    ensures Log(f, c.(counter := c.counter + 1), period, log + [Issue(period, c.counter, Output(f, c, c.counter))])
  {
    hide Output;
    var d := c.(counter := c.counter + 1);
    var id := Output(f, c, c.counter);
    var last := Issue(period, c.counter, id);
    OutputSide(f, c, c.counter);
    SameOutput(f, c, d, c.counter);
    forall i | 0 <= i < |log| ensures Past(f, d, period, log[i]) && Apart(log[i], last) {
      assert Past(f, c, period, log[i]);
      SameOutput(f, c, d, log[i].at);
      if log[i].period == period {
        OutputsDiffer(f, c, log[i].at, c.counter);
      }
    }
  }

  class Generator {
    const table: Table
    var counter: nat
    var offset: nat
    var hibit: nat
    var key: Key
    var rekeyTime: int
    ghost var period: nat
    ghost var issued: seq<Issue>

    function Value(): Context
      reads this
    {
      Context(counter, offset, hibit, key, rekeyTime)
    }

    ghost predicate Valid()
      reads this
    {
      Sane(Value()) && Log(table, Value(), period, issued)
    }

    /** idgen32_rekey. */
    method Rekey(e: Outside)
      requires Valid() && Sensible(e)
      modifies this
      ensures Valid() && Value() == Rekeyed(old(Value()), e) && period == old(period) + 1 && issued == old(issued)
    {
      LogRekeyed(table, Value(), e, period, issued);
      counter := 0;
      hibit := TOP - hibit;
      offset := e.offset;
      key := e.key;
      rekeyTime := e.now + REKEY_TIME;
      period := period + 1;
    }

    /** idgen32_init. */
    constructor (f: Table, high: bool, e: Outside)
      requires Sensible(e)
      ensures Valid() && issued == [] && table == f
      ensures Value() == Context(0, e.offset, if high then 0 else TOP, e.key, e.now + 600)
    {
      table := f;
      counter, offset, rekeyTime := 0, 0, 0;
      hibit := if high then TOP else 0;
      key := seq(KEYLEN, _ => 0);
      period, issued := 0, [];
      new;
      Rekey(e);
    }

    /** One pass of idgen32's loop. */
    method Try(e: Outside) returns (id: nat)
      requires Valid() && Sensible(e)
      modifies this
      ensures Valid() && issued == old(issued) && old(period) <= period
      ensures Value() == Tried(table, old(Value()), e).0 && id == Tried(table, old(Value()), e).1
      ensures counter > 0 && Log(table, Value(), period, issued + [Issue(period, counter - 1, id)])
    {
      hide Output, Log, Permuted, Mix;
      if counter > REKEY_LIMIT || rekeyTime < e.now {
        Rekey(e);
      }
      LogDrawn(table, Value(), period, issued);
      var y := Permute(RoundOf(table, key), (offset + counter) % TOP);
      id := hibit + y;
      OutputIs(table, Value(), counter);
      counter := counter + 1;
    }

    /** idgen32.  The environment of try number `i` is `env(i)`. */
    method Next(env: nat -> Outside) returns (id: nat, tries: nat)
      requires Valid() && forall i :: Sensible(env(i))
      modifies this
      ensures Valid() && id != 0 && 1 <= tries <= 2
      ensures exists at :: issued == old(issued) + [Issue(period, at, id)]
      ensures old(period) <= period
      ensures forall i :: 0 <= i < |old(issued)| && period - old(issued)[i].period <= 1 ==> old(issued)[i].id != id
    {
      hide Output, Log, Tried;
      ghost var start := Value();
      id := Try(env(0));
      tries := 1;
      while id == 0
        invariant Valid() && issued == old(issued) && old(period) <= period && counter > 0
        invariant Log(table, Value(), period, issued + [Issue(period, counter - 1, id)])
        invariant tries == 1 ==> Value() == Tried(table, start, env(0)).0 && id == Tried(table, start, env(0)).1
        invariant tries == 1 || (tries == 2 && id != 0)
        decreases 2 - tries
      {
        SecondTryIsNotZero(table, start, env(0), env(tries));
        id := Try(env(tries));
        tries := tries + 1;
      }
      ghost var last := Issue(period, counter - 1, id);
      issued := issued + [last];
      LogApart(table, Value(), period, old(issued), last);
    }
  }

  lemma LogApart(f: Table, c: Context, period: nat, log: seq<Issue>, last: Issue)
    requires Sane(c) && Log(f, c, period, log + [last]) && last.period == period
    ensures forall i :: 0 <= i < |log| && period - log[i].period <= 1 ==> log[i].id != last.id
  {
    hide Output;
    var all := log + [last];
    forall i | 0 <= i < |log| && period - log[i].period <= 1 ensures log[i].id != last.id {
      assert all[i] == log[i] && all[|log|] == last;
      assert Past(f, c, period, all[i]) && Apart(all[i], all[|log|]);
    }
  }

  lemma OutputIs(f: Table, c: Context, at: nat)
    requires Sane(c)
    ensures Output(f, c, at) == c.hibit + Permuted(RoundOf(f, c.key), (c.offset + at) % TOP)
  {
    hide Permuted, Mix;
  }
}
