/** Cipher block chaining, section 6.2 of NIST SP 800-38A. */
module Cbc {
  import opened Bytes

  // ----- whole numbers of blocks

  /** `n` bytes are a whole number of blocks. */
  predicate Whole(n: nat, size: nat)
    requires size > 0
  {
    n == 0 || (n >= size && Whole(n - size, size))
  }

  lemma MulFar(size: nat, d: int)
    requires size > 0
    ensures d >= 1 ==> size * d >= size
    ensures d <= -1 ==> size * d + size <= 0
  {
  }

  lemma ModUnique(n: nat, size: nat, q: int, r: nat)
    requires 0 < size && n == size * q + r && r < size
    ensures n % size == r
  {
    var q' := n / size;
    assert size * (q - q') == n % size - r;
    MulFar(size, q - q');
  }

  lemma {:induction false} WholeIsMultiple(n: nat, size: nat)
    requires size > 0
    ensures Whole(n, size) <==> n % size == 0
  {
    if n < size {
      ModUnique(n, size, 0, n);
    } else {
      WholeIsMultiple(n - size, size);
      var q, r := (n - size) / size, (n - size) % size;
      assert n == size * (q + 1) + r;
      ModUnique(n, size, q + 1, r);
    }
  }

  lemma {:induction false} WholeSum(m: nat, n: nat, size: nat)
    requires size > 0 && Whole(m, size)
    ensures Whole(m + n, size) <==> Whole(n, size)
  {
    if m != 0 {
      WholeSum(m - size, n, size);
    }
  }

  // ----- the mode

  /** The result of one block, given the previous ciphertext block. */
  ghost function BlockOut(c: Cipher, e: bool, chain: seq<byte>, b: seq<byte>): (r: seq<byte>)
    requires Proper(c) && Block(c, chain) && Block(c, b)
    ensures Block(c, r)
  {
    if e then c.enc(Xor(b, chain)) else Xor(c.dec(b), chain)
  }

  /** The ciphertext block the next one is chained to. */
  ghost function ChainOut(c: Cipher, e: bool, chain: seq<byte>, b: seq<byte>): (r: seq<byte>)
    requires Proper(c) && Block(c, chain) && Block(c, b)
    ensures Block(c, r)
  {
    if e then c.enc(Xor(b, chain)) else b
  }

  /** Encryption (`e`) or decryption of whole blocks. */
  ghost function Crypt(c: Cipher, e: bool, iv: seq<byte>, p: seq<byte>): (r: seq<byte>)
    requires Proper(c) && Block(c, iv) && Whole(|p|, c.size)
    ensures |r| == |p|
    decreases |p|
  {
    if p == [] then []
    else BlockOut(c, e, iv, p[..c.size]) + Crypt(c, e, ChainOut(c, e, iv, p[..c.size]), p[c.size..])
  }

  /** The last ciphertext block of `p`, or the initial value. */
  ghost function Chain(c: Cipher, e: bool, iv: seq<byte>, p: seq<byte>): (r: seq<byte>)
    requires Proper(c) && Block(c, iv) && Whole(|p|, c.size)
    ensures Block(c, r)
    decreases |p|
  {
    if p == [] then iv else Chain(c, e, ChainOut(c, e, iv, p[..c.size]), p[c.size..])
  }

  /** One more block at the end. */
  lemma {:induction false} CryptSnoc(c: Cipher, e: bool, iv: seq<byte>, p: seq<byte>, b: seq<byte>)
    requires Proper(c) && Block(c, iv) && Whole(|p|, c.size) && Block(c, b)
    ensures Whole(|p + b|, c.size)
    ensures Crypt(c, e, iv, p + b) == Crypt(c, e, iv, p) + BlockOut(c, e, Chain(c, e, iv, p), b)
    ensures Chain(c, e, iv, p + b) == ChainOut(c, e, Chain(c, e, iv, p), b)
    decreases |p|
  {
    hide BlockOut, ChainOut;
    WholeSum(|p|, c.size, c.size);
    if p == [] {
      assert p + b == b;
      assert b[..c.size] == b && b[c.size..] == [];
    } else {
      assert (p + b)[..c.size] == p[..c.size];
      assert (p + b)[c.size..] == p[c.size..] + b;
      CryptSnoc(c, e, ChainOut(c, e, iv, p[..c.size]), p[c.size..], b);
    }
  }

  /** When encrypting, what the next block is chained to is the end of the output. */
  lemma {:induction false} ChainIsLast(c: Cipher, iv: seq<byte>, p: seq<byte>)
    requires Proper(c) && Block(c, iv) && Whole(|p|, c.size) && p != []
    ensures Crypt(c, true, iv, p)[|p| - c.size..] == Chain(c, true, iv, p)
    decreases |p|
  {
    var b := p[..c.size];
    var ch := ChainOut(c, true, iv, b);
    if p[c.size..] == [] {
      assert p == b;
      assert Crypt(c, true, iv, p) == ch;
    } else {
      ChainIsLast(c, ch, p[c.size..]);
    }
  }

  /** Decryption under the same key and initial value undoes encryption. */
  lemma {:induction false} CbcRoundTrip(c: Cipher, iv: seq<byte>, p: seq<byte>)
    requires Proper(c) && Block(c, iv) && Whole(|p|, c.size)
    ensures Crypt(c, false, iv, Crypt(c, true, iv, p)) == p
    decreases |p|
  {
    if p != [] {
      var b := p[..c.size];
      var x := BlockOut(c, true, iv, b);
      var y := Crypt(c, true, iv, p);
      assert y[..c.size] == x && y[c.size..] == Crypt(c, true, x, p[c.size..]);
      XorTwice(b, iv);
      CbcRoundTrip(c, x, p[c.size..]);
    }
  }

  // ----- the standard's definition

  /** Block number `j` of `s`, counting from 0. */
  function BlockAt(s: seq<byte>, size: nat, j: nat): seq<byte>
    requires (j + 1) * size <= |s|
  {
    s[j * size..j * size + size]
  }

  /** Ciphertext block `j` is the encryption of plaintext block `j` xored with the block before. */
  ghost predicate CbcAt(c: Cipher, iv: seq<byte>, plain: seq<byte>, text: seq<byte>, j: nat)
    requires Proper(c) && Block(c, iv) && |plain| == |text| && (j + 1) * c.size <= |text|
  {
    BlockAt(text, c.size, j) ==
    c.enc(Xor(BlockAt(plain, c.size, j), if j == 0 then iv else BlockAt(text, c.size, j - 1)))
  }

  ghost predicate IsCbc(c: Cipher, iv: seq<byte>, plain: seq<byte>, text: seq<byte>)
    requires Proper(c) && Block(c, iv)
  {
    && |plain| == |text|
    && forall j: nat {:trigger CbcAt(c, iv, plain, text, j)} ::
         (j + 1) * c.size <= |text| ==> CbcAt(c, iv, plain, text, j)
  }

  lemma BlockShift(s: seq<byte>, size: nat, j: nat)
    requires j > 0 && size <= |s| && (j + 1) * size <= |s|
    ensures j * size <= |s[size..]| && (j - 1) * size + size == j * size
    ensures BlockAt(s, size, j) == BlockAt(s[size..], size, j - 1)
  {
    assert j * size == (j - 1) * size + size;
    assert (j + 1) * size == j * size + size;
  }

  /** The recursive form meets the standard's. */
  lemma {:induction false} CryptIsCbc(c: Cipher, iv: seq<byte>, p: seq<byte>)
    requires Proper(c) && Block(c, iv) && Whole(|p|, c.size)
    ensures IsCbc(c, iv, p, Crypt(c, true, iv, p))
    decreases |p|
  {
    var text := Crypt(c, true, iv, p);
    if p != [] {
      var x := ChainOut(c, true, iv, p[..c.size]);
      var p', text' := p[c.size..], text[c.size..];
      assert text' == Crypt(c, true, x, p');
      CryptIsCbc(c, x, p');
      forall j: nat | (j + 1) * c.size <= |text|
        ensures CbcAt(c, iv, p, text, j)
      {
        if j == 0 {
          assert BlockAt(p, c.size, 0) == p[..c.size] && BlockAt(text, c.size, 0) == x;
        } else {
          BlockShift(p, c.size, j);
          BlockShift(text, c.size, j);
          assert CbcAt(c, x, p', text', j - 1);
          if j == 1 {
            assert BlockAt(text, c.size, 0) == x;
          } else {
            BlockShift(text, c.size, j - 1);
          }
        }
      }
    }
  }

  lemma {:induction false} CbcRoundTripBack(c: Cipher, iv: seq<byte>, x: seq<byte>)
    requires Proper(c) && Block(c, iv) && Whole(|x|, c.size)
    ensures Crypt(c, true, iv, Crypt(c, false, iv, x)) == x
    decreases |x|
  {
    if x != [] {
      var b := x[..c.size];
      var p := Crypt(c, false, iv, x);
      assert p[..c.size] == Xor(c.dec(b), iv) && p[c.size..] == Crypt(c, false, b, x[c.size..]);
      XorTwice(c.dec(b), iv);
      CbcRoundTripBack(c, b, x[c.size..]);
    }
  }
}
