/**
 AES key wrap (sys/crypto/key_wrap.c) over an arbitrary 16-byte block cipher, in place in a
 memory where plaintext and ciphertext may overlap.

 The reference is the shift-register description of section 2.2 of RFC 3394; the code uses the
 indexed description of the same section.
 */
module KeyWrap {
  import opened Bytes
  import opened Slices

  /** The register A and the 64-bit registers R, one after the other. */
  datatype State = State(a: seq<byte>, r: seq<byte>)

  predicate Shaped(s: State, n: nat) { |s.a| == 8 && |s.r| == 8 * n }

  ghost predicate Aes(c: Cipher) { Proper(c) && c.size == 16 }

  function Fixed(): (r: seq<byte>)
    ensures |r| == 8
  {
    seq(8, _ => 0xa6)
  }

  /** The table of the code. */
  const IV: seq<byte> := [0xa6, 0xa6, 0xa6, 0xa6, 0xa6, 0xa6, 0xa6, 0xa6]

  lemma IvIsFixed()
    ensures IV == Fixed()
  {}

  /** The 64-bit big-endian form of a step number. */
  function Be64(t: nat): (r: seq<byte>)
    ensures |r| == 8
  {
    [Low(t / 0x1_0000_0000_0000_00), Low(t / 0x1_0000_0000_0000), Low(t / 0x1_0000_0000_00), Low(t / 0x1_0000_0000),
     Low(t / 0x1_0000_00), Low(t / 0x1_0000), Low(t / 0x1_00), Low(t)]
  }

  /** Read most significant byte first, the step number comes back. */
  lemma Be64Value(t: nat)
    requires t < 0x1_0000_0000_0000_0000
    ensures BigEndian(Be64(t)) == t
  {
    hide Low, BigEndian;
    var r := Be64(t);
    var b7, b6, b5, b4 := t / 0x1_00, t / 0x1_0000, t / 0x1_0000_00, t / 0x1_0000_0000;
    var b3, b2, b1 := t / 0x1_0000_0000_00, t / 0x1_0000_0000_0000, t / 0x1_0000_0000_0000_00;
    Quotients(t);
    assert b1 / 256 == 0;
    Empty(r);
    Leading(r, 0, 0, b1);
    Leading(r, 1, b1, b2);
    Leading(r, 2, b2, b3);
    Leading(r, 3, b3, b4);
    Leading(r, 4, b4, b5);
    Leading(r, 5, b5, b6);
    Leading(r, 6, b6, b7);
    Leading(r, 7, b7, t);
    assert r[..8] == r;
  }

  lemma Empty(r: seq<byte>)
    ensures BigEndian(r[..0]) == 0
  {}

  lemma Quotients(t: nat)
    ensures t / 0x1_00 / 256 == t / 0x1_0000
    ensures t / 0x1_0000 / 256 == t / 0x1_0000_00
    ensures t / 0x1_0000_00 / 256 == t / 0x1_0000_0000
    ensures t / 0x1_0000_0000 / 256 == t / 0x1_0000_0000_00
    ensures t / 0x1_0000_0000_00 / 256 == t / 0x1_0000_0000_0000
    ensures t / 0x1_0000_0000_0000 / 256 == t / 0x1_0000_0000_0000_00
  {}

  lemma Leading(r: seq<byte>, k: nat, v: nat, w: nat)
    requires k < |r| && BigEndian(r[..k]) == v == w / 256 && r[k] == Low(w)
    ensures BigEndian(r[..k + 1]) == w
  {
    hide Low;
    Digit(r[..k], w);
    assert r[..k + 1] == r[..k] + [r[k]];
  }

  // ----- the shift-register description

  function Step(c: Cipher, s: State, t: nat): (q: State)
    requires Aes(c) && |s.a| == 8 && |s.r| >= 8
    ensures |q.a| == 8 && |q.r| == |s.r|
  {
    assert Block(c, s.a + s.r[..8]);
    var b := c.enc(s.a + s.r[..8]);
    State(Xor(b[..8], Be64(t)), s.r[8..] + b[8..])
  }

  function Unstep(c: Cipher, s: State, t: nat): (q: State)
    requires Aes(c) && |s.a| == 8 && |s.r| >= 8
    ensures |q.a| == 8 && |q.r| == |s.r|
  {
    assert Block(c, Xor(s.a, Be64(t)) + s.r[|s.r| - 8..]);
    var b := c.dec(Xor(s.a, Be64(t)) + s.r[|s.r| - 8..]);
    State(b[..8], b[8..] + s.r[..|s.r| - 8])
  }

  function Forward(c: Cipher, s: State, t: nat): (q: State)
    requires Aes(c) && |s.a| == 8 && (t > 0 ==> |s.r| >= 8)
    ensures |q.a| == 8 && |q.r| == |s.r|
  {
    if t == 0 then s else Step(c, Forward(c, s, t - 1), t)
  }

  function Back(c: Cipher, s: State, t: nat): (q: State)
    requires Aes(c) && |s.a| == 8 && (t > 0 ==> |s.r| >= 8)
    ensures |q.a| == 8 && |q.r| == |s.r|
    decreases t
  {
    if t == 0 then s else Back(c, Unstep(c, s, t), t - 1)
  }

  lemma StepUndone(c: Cipher, s: State, t: nat)
    requires Aes(c) && |s.a| == 8 && |s.r| >= 8
    ensures Unstep(c, Step(c, s, t), t) == s
  {
    var x := s.a + s.r[..8];
    assert Block(c, x);
    var b := c.enc(x);
    var q := Step(c, s, t);
    XorTwice(b[..8], Be64(t));
    assert q.r[|q.r| - 8..] == b[8..];
    assert b[..8] + b[8..] == b;
    assert c.dec(b) == x && x[..8] == s.a && x[8..] == s.r[..8];
    assert q.r[..|q.r| - 8] == s.r[8..];
    assert s.r[..8] + s.r[8..] == s.r;
  }

  lemma UnstepUndone(c: Cipher, s: State, t: nat)
    requires Aes(c) && |s.a| == 8 && |s.r| >= 8
    ensures Step(c, Unstep(c, s, t), t) == s
  {
    var x := Xor(s.a, Be64(t)) + s.r[|s.r| - 8..];
    assert Block(c, x);
    var b := c.dec(x);
    var q := Unstep(c, s, t);
    assert q.r[..8] == b[8..];
    assert b[..8] + b[8..] == b;
    assert c.enc(b) == x && x[..8] == Xor(s.a, Be64(t)) && x[8..] == s.r[|s.r| - 8..];
    XorTwice(s.a, Be64(t));
    assert q.r[8..] == s.r[..|s.r| - 8];
    assert s.r[..|s.r| - 8] + s.r[|s.r| - 8..] == s.r;
  }

  lemma {:induction false} ForwardThenBack(c: Cipher, s: State, t: nat)
    requires Aes(c) && |s.a| == 8 && (t > 0 ==> |s.r| >= 8)
    ensures Back(c, Forward(c, s, t), t) == s
  {
    hide Step, Unstep, Aes;
    if t > 0 {
      StepUndone(c, Forward(c, s, t - 1), t);
      ForwardThenBack(c, s, t - 1);
    }
  }

  lemma {:induction false} BackThenForward(c: Cipher, s: State, t: nat)
    requires Aes(c) && |s.a| == 8 && (t > 0 ==> |s.r| >= 8)
    ensures Forward(c, Back(c, s, t), t) == s
    decreases t
  {
    hide Step, Unstep, Aes;
    if t > 0 {
      BackThenForward(c, Unstep(c, s, t), t - 1);
      UnstepUndone(c, s, t);
    }
  }

  /** The wrapped form of `n` 64-bit words. */
  function Wrapped(c: Cipher, p: seq<byte>, n: nat): (r: seq<byte>)
    requires Aes(c) && |p| == 8 * n
    ensures |r| == 8 * n + 8
  {
    var s := Forward(c, State(Fixed(), p), 6 * n);
    s.a + s.r
  }

  /** The state that unwrapping ends in. */
  function Unwound(c: Cipher, w: seq<byte>, n: nat): (s: State)
    requires Aes(c) && |w| == 8 * n + 8
    ensures Shaped(s, n)
  {
    Back(c, State(w[..8], w[8..]), 6 * n)
  }

  lemma UnwrapWrap(c: Cipher, p: seq<byte>, n: nat)
    requires Aes(c) && |p| == 8 * n
    ensures Unwound(c, Wrapped(c, p, n), n) == State(Fixed(), p)
  {
    var s := Forward(c, State(Fixed(), p), 6 * n);
    var w := s.a + s.r;
    assert w[..8] == s.a && w[8..] == s.r;
    ForwardThenBack(c, State(Fixed(), p), 6 * n);
  }

  lemma WrapUnwrap(c: Cipher, w: seq<byte>, n: nat)
    requires Aes(c) && |w| == 8 * n + 8
    ensures Unwound(c, w, n).a == Fixed() ==> w == Wrapped(c, Unwound(c, w, n).r, n)
  {
    hide Forward, Back, Fixed;
    BackThenForward(c, State(w[..8], w[8..]), 6 * n);
    assert w[..8] + w[8..] == w;
  }

  /** Unwrapping accepts exactly the wrapped forms, and gives back what was wrapped. */
  lemma AcceptsOnlyWrapped(c: Cipher, w: seq<byte>, n: nat)
    requires Aes(c) && |w| == 8 * n + 8
    ensures Unwound(c, w, n).a == Fixed() <==> exists p: seq<byte> :: |p| == 8 * n && w == Wrapped(c, p, n)
    ensures Unwound(c, w, n).a == Fixed() ==> w == Wrapped(c, Unwound(c, w, n).r, n)
  {
    hide Unwound, Wrapped, Fixed;
    WrapUnwrap(c, w, n);
    if p: seq<byte> :| |p| == 8 * n && w == Wrapped(c, p, n) {
      UnwrapWrap(c, p, n);
    }
  }

  // ----- the code

  /** memmove within one memory. */
  method Move(mem: array<byte>, dst: nat, src: nat, len: nat)
    requires dst + len <= mem.Length && src + len <= mem.Length
    modifies mem
    ensures mem[..] == Splice(old(mem[..]), dst, old(mem[src..src + len]))
  {
    forall k | 0 <= k < len { mem[dst + k] := mem[src + k]; }
  }

  method Store(mem: array<byte>, at: nat, data: seq<byte>)
    requires at + |data| <= mem.Length
    modifies mem
    ensures mem[..] == Splice(old(mem[..]), at, data)
  {
    forall k | 0 <= k < |data| { mem[at + k] := data[k]; }
  }

  lemma AreaOf(mem: array<byte>, at: nat, n: nat)
    requires at + 8 + 8 * n <= mem.Length
    ensures var q := mem[..];
      && mem[..at] == q[..at] && mem[at..at + 8] == q[at..at + 8]
      && mem[at + 8..at + 8 + 8 * n] == q[at + 8..at + 8 + 8 * n] && mem[at + 8 + 8 * n..] == q[at + 8 + 8 * n..]
  {}

  /** R, turned so that register `i` comes first. */
  function Turned(r: seq<byte>, i: nat): (q: seq<byte>)
    requires 8 * i <= |r|
    ensures |q| == |r|
  {
    r[8 * i..] + r[..8 * i]
  }

  /** One inner step of aes_key_wrap on register `i` is one step of the shift register. */
  method WrapStep(mem: array<byte>, at: nat, n: nat, i: nat, t: nat, c: Cipher)
    requires Aes(c) && i < n && at + 8 + 8 * n <= mem.Length
    modifies mem
    ensures mem[..at] == old(mem[..at]) && mem[at + 8 + 8 * n..] == old(mem[at + 8 + 8 * n..])
    ensures State(mem[at..at + 8], Turned(mem[at + 8..at + 8 + 8 * n], i + 1))
         == Step(c, old(State(mem[at..at + 8], Turned(mem[at + 8..at + 8 + 8 * n], i))), t)
  {
    hide Turned, Xor, Be64;
    var reg := at + 8 + 8 * i;
    ghost var m := mem[..];
    assert mem[at..at + 8] == m[at..at + 8] && mem[reg..reg + 8] == m[reg..reg + 8];
    assert Block(c, mem[at..at + 8] + mem[reg..reg + 8]);
    var b := c.enc(mem[at..at + 8] + mem[reg..reg + 8]);
    var a := Xor(b[..8], Be64(t));
    Store(mem, at, a);
    Store(mem, reg, b[8..]);
    ghost var q := mem[..];
    Written(m, at, n, i, a, b[8..], q);
    AreaOf(mem, at, n);
    TurnStep(m[at + 8..at + 8 + 8 * n], q[at + 8..at + 8 + 8 * n], i, b[8..]);
  }

  lemma Written(m: seq<byte>, at: nat, n: nat, i: nat, a: seq<byte>, w: seq<byte>, q: seq<byte>)
    requires i < n && at + 8 + 8 * n <= |m| && |a| == |w| == 8
    requires q == Splice(Splice(m, at, a), at + 8 + 8 * i, w)
    ensures |q| == |m| && q[..at] == m[..at] && q[at..at + 8] == a && q[at + 8 + 8 * n..] == m[at + 8 + 8 * n..]
    ensures q[at + 8..at + 8 + 8 * n] == Splice(m[at + 8..at + 8 + 8 * n], 8 * i, w)
    ensures m[at + 8..at + 8 + 8 * n][8 * i..8 * i + 8] == m[at + 8 + 8 * i..at + 16 + 8 * i]
  {
    hide Splice;
    var x := Splice(m, at, a);
    SpliceHas(m, at, a);
    SpliceFront(m, at, a, at);
    SpliceKeeps(m, at, a, at + 8, at + 8 + 8 * n);
    SpliceBack(m, at, a, at + 8 + 8 * n);
    SpliceFront(x, at + 8 + 8 * i, w, at);
    SpliceKeeps(x, at + 8 + 8 * i, w, at, at + 8);
    SpliceBack(x, at + 8 + 8 * i, w, at + 8 + 8 * n);
    SpliceInside(x, at + 8 + 8 * i, w, at + 8, at + 8 + 8 * n);
    Sub(m, at + 8, at + 8 + 8 * n, 8 * i, 8 * i + 8);
  }

  lemma TurnStep(r: seq<byte>, q: seq<byte>, i: nat, w: seq<byte>)
    requires |w| == 8 && 8 * i + 8 <= |r|
    requires q == Splice(r, 8 * i, w)
    ensures Turned(r, i)[..8] == r[8 * i..8 * i + 8]
    ensures Turned(q, i + 1) == Turned(r, i)[8..] + w
  {}

  lemma Unturned(r: seq<byte>, i: nat)
    requires 8 * i <= |r| && (i == 0 || 8 * i == |r|)
    ensures Turned(r, i) == r
  {}

  /** The bytes before and after the area of `8 * n + 8` bytes at `at`. */
  ghost function Around(mem: array<byte>, at: nat, n: nat): (seq<byte>, seq<byte>)
    requires at + 8 + 8 * n <= mem.Length
    reads mem
  {
    (mem[..at], mem[at + 8 + 8 * n..])
  }

  /** The registers as laid out in memory, with `i` of them dealt with in this pass. */
  ghost function Area(mem: array<byte>, at: nat, n: nat, i: nat): (s: State)
    requires i <= n && at + 8 + 8 * n <= mem.Length
    reads mem
    ensures Shaped(s, n)
  {
    State(mem[at..at + 8], Turned(mem[at + 8..at + 8 + 8 * n], i))
  }

  /** One pass of aes_key_wrap's outer loop. */
  method WrapPass(mem: array<byte>, at: nat, n: nat, t0: nat, c: Cipher, ghost s: State)
    requires Aes(c) && at + 8 + 8 * n <= mem.Length && Shaped(s, n) && (n == 0 ==> t0 == 0)
    requires Forward(c, s, t0) == Area(mem, at, n, 0)
    modifies mem
    ensures Around(mem, at, n) == old(Around(mem, at, n))
    ensures Forward(c, s, t0 + n) == Area(mem, at, n, 0)
  {
    hide Step, Aes, Turned;
    var i: nat := 0;
    while i < n
      invariant i <= n
      invariant Around(mem, at, n) == old(Around(mem, at, n))
      invariant Forward(c, s, t0 + i) == Area(mem, at, n, i)
    {
      WrapStep(mem, at, n, i, t0 + i + 1, c);
      i := i + 1;
    }
    Unturned(mem[at + 8..at + 8 + 8 * n], 0);
    Unturned(mem[at + 8..at + 8 + 8 * n], n);
  }

  lemma Placed(m: seq<byte>, at: nat, n: nat, x: seq<byte>, a: seq<byte>, q: seq<byte>)
    requires at + 8 + 8 * n <= |m| && |x| == 8 * n && |a| == 8
    requires q == Splice(Splice(m, at + 8, x), at, a)
    ensures |q| == |m| && q[..at] == m[..at] && q[at + 8 + 8 * n..] == m[at + 8 + 8 * n..]
    ensures q[at..at + 8] == a && q[at + 8..at + 8 + 8 * n] == x
  {
    hide Splice;
    var y := Splice(m, at + 8, x);
    SpliceHas(m, at + 8, x);
    SpliceFront(m, at + 8, x, at);
    SpliceBack(m, at + 8, x, at + 8 + 8 * n);
    SpliceHas(y, at, a);
    SpliceFront(y, at, a, at);
    SpliceKeeps(y, at, a, at + 8, at + 8 + 8 * n);
    SpliceBack(y, at, a, at + 8 + 8 * n);
  }

  /** The area and what is around it, as parts of the whole memory. */
  lemma AreaIs(mem: array<byte>, at: nat, n: nat, q: seq<byte>)
    requires at + 8 + 8 * n <= mem.Length && q == mem[..]
    ensures Area(mem, at, n, 0) == State(q[at..at + 8], q[at + 8..at + 8 + 8 * n])
    ensures Around(mem, at, n) == (q[..at], q[at + 8 + 8 * n..])
  {
    AreaOf(mem, at, n);
    Unturned(mem[at + 8..at + 8 + 8 * n], 0);
  }

  /** The start of aes_key_wrap: the words in place and the fixed value before them. */
  method Lay(mem: array<byte>, p: nat, n: nat, at: nat)
    requires p + 8 * n <= mem.Length && at + 8 + 8 * n <= mem.Length
    modifies mem
    ensures Area(mem, at, n, 0) == State(Fixed(), old(mem[p..p + 8 * n]))
    ensures Around(mem, at, n) == old(Around(mem, at, n))
  {
    hide Fixed, Area, Around, Splice;
    ghost var m := mem[..];
    AreaIs(mem, at, n, m);
    Move(mem, at + 8, p, 8 * n);
    IvIsFixed();
    Store(mem, at, IV);
    ghost var q := mem[..];
    Placed(m, at, n, old(mem[p..p + 8 * n]), Fixed(), q);
    AreaIs(mem, at, n, q);
  }

  /** aes_key_wrap: `n` words from `p` on are wrapped to `at` on; the two areas may overlap. */
  method Wrap(mem: array<byte>, p: nat, n: nat, at: nat, c: Cipher)
    requires Aes(c) && p + 8 * n <= mem.Length && at + 8 + 8 * n <= mem.Length
    modifies mem
    ensures mem[at..at + 8 + 8 * n] == Wrapped(c, old(mem[p..p + 8 * n]), n)
    ensures Around(mem, at, n) == old(Around(mem, at, n))
  {
    hide Step, Forward, Aes, Fixed, Turned;
    Lay(mem, p, n, at);
    ghost var s := State(Fixed(), old(mem[p..p + 8 * n]));
    ForwardNone(c, s);
    var j: nat, t: nat := 0, 0;
    while j <= 5
      invariant j <= 6 && t == j * n && (n == 0 ==> t == 0)
      invariant Forward(c, s, t) == Area(mem, at, n, 0)
      invariant Around(mem, at, n) == old(Around(mem, at, n))
    {
      WrapPass(mem, at, n, t, c, s);
      j, t := j + 1, t + n;
    }
    Unturned(mem[at + 8..at + 8 + 8 * n], 0);
    ArrayJoin(mem, at, at + 8, at + 8 + 8 * n);
  }

  lemma ForwardNone(c: Cipher, s: State)
    requires Aes(c) && |s.a| == 8
    ensures Forward(c, s, 0) == s
  {}

  // ----- unwrapping

  lemma TurnBack(r: seq<byte>, q: seq<byte>, i: nat, w: seq<byte>)
    requires |w| == 8 && 8 * i + 8 <= |r|
    requires q == Splice(r, 8 * i, w)
    ensures Turned(r, i + 1)[|r| - 8..] == r[8 * i..8 * i + 8]
    ensures Turned(q, i) == w + Turned(r, i + 1)[..|r| - 8]
  {}

  lemma Replaced(m: seq<byte>, p: nat, n: nat, i: nat, w: seq<byte>, q: seq<byte>)
    requires i < n && p + 8 * n <= |m| && |w| == 8
    requires q == Splice(m, p + 8 * i, w)
    ensures |q| == |m| && q[..p] == m[..p] && q[p + 8 * n..] == m[p + 8 * n..]
    ensures q[p..p + 8 * n] == Splice(m[p..p + 8 * n], 8 * i, w)
    ensures m[p..p + 8 * n][8 * i..8 * i + 8] == m[p + 8 * i..p + 8 * i + 8]
  {
    hide Splice;
    SpliceFront(m, p + 8 * i, w, p);
    SpliceBack(m, p + 8 * i, w, p + 8 * n);
    SpliceInside(m, p + 8 * i, w, p, p + 8 * n);
    Sub(m, p, p + 8 * n, 8 * i, 8 * i + 8);
  }

  /** One inner step of aes_key_unwrap, on register `i + 1`, takes back one step of the shift register. */
  method UnwrapStep(mem: array<byte>, p: nat, n: nat, a: seq<byte>, i: nat, t: nat, c: Cipher) returns (a': seq<byte>)
    requires Aes(c) && i < n && p + 8 * n <= mem.Length && |a| == 8
    modifies mem
    ensures mem[..p] == old(mem[..p]) && mem[p + 8 * n..] == old(mem[p + 8 * n..])
    ensures State(a', Turned(mem[p..p + 8 * n], i)) == Unstep(c, State(a, old(Turned(mem[p..p + 8 * n], i + 1))), t)
  {
    hide Turned, Xor, Be64;
    var reg := p + 8 * i;
    ghost var m := mem[..];
    var x := Xor(a, Be64(t)) + mem[reg..reg + 8];
    assert mem[reg..reg + 8] == m[reg..reg + 8];
    assert Block(c, x);
    var b := c.dec(x);
    a' := b[..8];
    Store(mem, reg, b[8..]);
    ghost var q := mem[..];
    Replaced(m, p, n, i, b[8..], q);
    assert mem[..p] == q[..p] && mem[p..p + 8 * n] == q[p..p + 8 * n] && mem[p + 8 * n..] == q[p + 8 * n..];
    TurnBack(m[p..p + 8 * n], q[p..p + 8 * n], i, b[8..]);
  }

  /** One pass of aes_key_unwrap's outer loop. */
  method UnwrapPass(mem: array<byte>, p: nat, n: nat, a: seq<byte>, t0: nat, c: Cipher) returns (a': seq<byte>)
    requires Aes(c) && p + 8 * n <= mem.Length && |a| == 8 && (n == 0 ==> t0 == 0)
    modifies mem
    ensures mem[..p] == old(mem[..p]) && mem[p + 8 * n..] == old(mem[p + 8 * n..])
    ensures |a'| == 8
    ensures Back(c, State(a', mem[p..p + 8 * n]), t0) == Back(c, State(a, old(mem[p..p + 8 * n])), t0 + n)
  {
    hide Unstep, Aes, Turned;
    var i: nat := n;
    a' := a;
    Unturned(mem[p..p + 8 * n], n);
    ghost var goal := Back(c, State(a, old(mem[p..p + 8 * n])), t0 + n);
    while i >= 1
      invariant i <= n && |a'| == 8
      invariant mem[..p] == old(mem[..p]) && mem[p + 8 * n..] == old(mem[p + 8 * n..])
      invariant Back(c, State(a', Turned(mem[p..p + 8 * n], i)), t0 + i) == goal
    {
      a' := UnwrapStep(mem, p, n, a', i - 1, t0 + i, c);
      i := i - 1;
    }
    Unturned(mem[p..p + 8 * n], 0);
  }

  /** The start of aes_key_unwrap: A and the words are taken from the wrapped form. */
  method Fetch(mem: array<byte>, at: nat, p: nat, n: nat) returns (a: seq<byte>)
    requires p + 8 * n <= mem.Length && at + 8 + 8 * n <= mem.Length
    modifies mem
    ensures |a| == 8 && a == old(mem[at..at + 8 + 8 * n])[..8]
    ensures mem[p..p + 8 * n] == old(mem[at..at + 8 + 8 * n])[8..]
    ensures mem[..p] == old(mem[..p]) && mem[p + 8 * n..] == old(mem[p + 8 * n..])
  {
    hide Splice;
    a := mem[at..at + 8];
    ghost var w := mem[at..at + 8 + 8 * n];
    ArraySub(mem, at, at + 8 + 8 * n, 0, 8);
    ArraySub(mem, at, at + 8 + 8 * n, 8, 8 + 8 * n);
    ghost var m, x := mem[..], mem[at + 8..at + 8 + 8 * n];
    assert w[0..8] == w[..8] && w[8..8 + 8 * n] == w[8..];
    Move(mem, p, at + 8, 8 * n);
    SpliceHas(m, p, x);
    SpliceFront(m, p, x, p);
    SpliceBack(m, p, x, p + 8 * n);
    assert mem[p..p + 8 * n] == mem[..][p..p + 8 * n];
    assert mem[..p] == mem[..][..p] && mem[p + 8 * n..] == mem[..][p + 8 * n..];
  }

  /** aes_key_unwrap: `n` words are unwrapped from `at` to `p`; the two areas may overlap. */
  method Unwrap(mem: array<byte>, at: nat, p: nat, n: nat, c: Cipher) returns (bad: bool)
    requires Aes(c) && p + 8 * n <= mem.Length && at + 8 + 8 * n <= mem.Length
    modifies mem
    ensures mem[p..p + 8 * n] == Unwound(c, old(mem[at..at + 8 + 8 * n]), n).r
    ensures bad <==> Unwound(c, old(mem[at..at + 8 + 8 * n]), n).a != Fixed()
    ensures mem[..p] == old(mem[..p]) && mem[p + 8 * n..] == old(mem[p + 8 * n..])
  {
    hide Unstep, Back, Aes, Fixed;
    ghost var w := mem[at..at + 8 + 8 * n];
    var a := Fetch(mem, at, p, n);
    var j: nat, t: nat := 6, 6 * n;
    while j > 0
      invariant j <= 6 && t == j * n && (n == 0 ==> t == 0) && |a| == 8
      invariant mem[..p] == old(mem[..p]) && mem[p + 8 * n..] == old(mem[p + 8 * n..])
      invariant Back(c, State(a, mem[p..p + 8 * n]), t) == Unwound(c, w, n)
    {
      OneLess(j, n);
      j, t := j - 1, t - n;
      a := UnwrapPass(mem, p, n, a, t, c);
    }
    BackNone(c, State(a, mem[p..p + 8 * n]));
    IvIsFixed();
    bad := a != IV;
  }

  lemma OneLess(j: nat, n: nat)
    requires j > 0
    ensures 0 <= (j - 1) * n == j * n - n
  {}

  lemma BackNone(c: Cipher, s: State)
    requires Aes(c) && |s.a| == 8
    ensures Back(c, s, 0) == s
  {}
}
