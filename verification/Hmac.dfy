/**
 Keyed hashes of sys/crypto/cryptosoft.c: the session set-up of swcr_newsession, and
 swcr_authcompute over a buffer scattered over an iovec array (cuio_apply).

 A hash context is the bytes it has absorbed.  The Update functions take their length as a
 16-bit number, so that is what reaches the hash of a fragment.
 */
module Hmac {
  import opened Bytes
  import opened Slices
  import opened Iovec

  /** The fixed facts of a hash: its function, block size and tag size. */
  datatype Hash = Hash(digest: seq<byte> -> seq<byte>, blockSize: nat, authSize: nat)

  const IPAD: byte := 0x36
  const OPAD: byte := 0x5C
  const LIMIT := 65536

  function Fill(b: byte, n: nat): seq<byte> { seq(n, _ => b) }

  /** axf->Update, with the length it is given cut to 16 bits. */
  function Update(ctx: seq<byte>, data: seq<byte>): seq<byte> { ctx + data[..|data| % LIMIT] }

  function UpdateAll(ctx: seq<byte>, frags: seq<seq<byte>>): seq<byte>
    decreases |frags|
  {
    if frags == [] then ctx else UpdateAll(Update(ctx, frags[0]), frags[1..])
  }

  // ----- what cuio_apply hands to the hash

  /** The pieces of `v` that cover `len` bytes from `off` on, empty ones included. */
  function Fragments(v: seq<seq<byte>>, off: nat, len: nat): seq<seq<byte>> {
    if len == 0 || v == [] then []
    else if off > 0 && off >= |v[0]| then Fragments(v[1..], off - |v[0]|, len)
    else if |v[0]| - off < len then [v[0][off..]] + Fragments(v[1..], 0, len - (|v[0]| - off))
    else [v[0][off..off + len]]
  }

  /** Together they are the range. */
  lemma {:induction false} FragmentsCover(v: seq<seq<byte>>, off: nat, len: nat)
    requires off + len <= |Flatten(v)|
    ensures Flatten(Fragments(v, off, len)) == Flatten(v)[off..off + len]
  {
    hide Flatten;
    FlatCases(v);
    if len == 0 || v == [] {
      FlatCases<byte>([]);
      assert Flatten(v)[off..off + len] == [];
    } else {
      var rest := Flatten(v[1..]);
      if off > 0 && off >= |v[0]| {
        FragmentsCover(v[1..], off - |v[0]|, len);
        Later(v[0], rest, off, len);
      } else if |v[0]| - off < len {
        var more := len - (|v[0]| - off);
        FragmentsCover(v[1..], 0, more);
        FlattenConcat([v[0][off..]], Fragments(v[1..], 0, more));
        FlattenOne(v[0][off..]);
        Straddles(v[0], rest, off, more);
      } else {
        FlattenOne(v[0][off..off + len]);
        Earlier(v[0], rest, off, len);
      }
    }
  }

  lemma FlatCases<T>(v: seq<seq<T>>)
    ensures Flatten(v) == if v == [] then [] else v[0] + Flatten(v[1..])
  {}

  lemma Later(x: seq<byte>, y: seq<byte>, off: nat, len: nat)
    requires |x| <= off && off + len <= |x| + |y|
    ensures (x + y)[off..off + len] == y[off - |x|..off - |x| + len]
  {}

  lemma Earlier(x: seq<byte>, y: seq<byte>, off: nat, len: nat)
    requires off + len <= |x|
    ensures (x + y)[off..off + len] == x[off..off + len]
  {}

  lemma Straddles(x: seq<byte>, y: seq<byte>, off: nat, more: nat)
    requires off <= |x| && more <= |y|
    ensures (x + y)[off..|x| + more] == x[off..] + y[0..more]
  {}

  /** cuio_apply: the fragments the function is called with, or a panic. */
  method Apply(uio: Uio, off0: nat, len0: nat) returns (ok: bool, frags: seq<seq<byte>>)
    ensures ok <==> off0 + len0 <= |Flatten(uio.iov)|
    ensures ok ==> frags == Fragments(uio.iov, off0, len0)
  {
    hide Flatten, Fragments;
    var v := uio.iov;
    var ind: nat, off: nat, len: nat := 0, off0, len0;
    frags := [];
    assert v[0..] == v;
    while off > 0
      invariant ind <= |v| && Fragments(v[ind..], off, len) == Fragments(v, off0, len0)
      invariant off0 + len0 <= |Flatten(v)| <==> off + len <= |Flatten(v[ind..])|
      decreases |v| - ind
    {
      FlatStep(v, ind);
      if ind >= |v| { return false, []; }
      if off < |v[ind]| { break; }
      FragmentsSkip(v, ind, off, len);
      off := off - |v[ind]|;
      ind := ind + 1;
    }
    while len > 0
      invariant ind <= |v| && (off > 0 ==> ind < |v| && off < |v[ind]|)
      invariant frags + Fragments(v[ind..], off, len) == Fragments(v, off0, len0)
      invariant off0 + len0 <= |Flatten(v)| <==> off + len <= |Flatten(v[ind..])|
      decreases |v| - ind
    {
      FlatStep(v, ind);
      if ind >= |v| { return false, []; }
      var count: nat := if |v[ind]| - off < len then |v[ind]| - off else len;
      FragmentsStep(v, ind, off, len, count);
      var piece := [v[ind][off..off + count]];
      assert frags + (piece + Fragments(v[ind + 1..], 0, len - count)) ==
             (frags + piece) + Fragments(v[ind + 1..], 0, len - count);
      frags := frags + piece;
      len := len - count;
      off := 0;
      ind := ind + 1;
    }
    FlatStep(v, ind);
    FragmentsNone(v[ind..], off);
    ok := true;
  }

  lemma FragmentsSkip(v: seq<seq<byte>>, i: nat, off: nat, len: nat)
    requires i < |v| && off > 0 && off >= |v[i]|
    ensures Fragments(v[i..], off, len) == Fragments(v[i + 1..], off - |v[i]|, len)
  {
    assert v[i..][0] == v[i] && v[i..][1..] == v[i + 1..];
  }

  lemma FragmentsNone(v: seq<seq<byte>>, off: nat)
    ensures Fragments(v, off, 0) == []
  {}

  lemma FragmentsStep(v: seq<seq<byte>>, i: nat, off: nat, len: nat, n: nat)
    requires i < |v| && len > 0 && (off > 0 ==> off < |v[i]|)
    requires n == if |v[i]| - off < len then |v[i]| - off else len
    ensures Fragments(v[i..], off, len) == [v[i][off..off + n]] + Fragments(v[i + 1..], 0, len - n)
  {
    assert v[i..][0] == v[i] && v[i..][1..] == v[i + 1..];
    if |v[i]| - off < len {
      assert v[i][off..] == v[i][off..off + n];
    } else {
      assert Fragments(v[i + 1..], 0, len - n) == [];
    }
  }

  lemma FlatStep(v: seq<seq<byte>>, i: nat)
    requires i <= |v|
    ensures i < |v| ==> Flatten(v[i..]) == v[i] + Flatten(v[i + 1..]) && v[i..][0] == v[i] && v[i..][1..] == v[i + 1..]
    ensures i == |v| ==> Flatten(v[i..]) == []
  {
    if i < |v| {
      assert v[i..][1..] == v[i + 1..];
    }
  }

  // ----- the keyed hash

  /** Fragments too long for the 16-bit length lose bytes. */
  predicate AllShort(frags: seq<seq<byte>>) { forall i :: 0 <= i < |frags| ==> |frags[i]| < LIMIT }

  /** The hash sees the fragments' bytes, in order, exactly when none of them is too long. */
  lemma {:induction false} UpdateAllExact(ctx: seq<byte>, frags: seq<seq<byte>>)
    ensures UpdateAll(ctx, frags) == ctx + Flatten(frags) <==> AllShort(frags)
    ensures |UpdateAll(ctx, frags)| <= |ctx| + |Flatten(frags)|
    decreases |frags|
  {
    if frags == [] {
      assert ctx + Flatten(frags) == ctx;
    } else {
      var f := frags[0];
      UpdateAllExact(Update(ctx, f), frags[1..]);
      assert AllShort(frags) <==> |f| < LIMIT && AllShort(frags[1..]);
      if |f| < LIMIT {
        assert f[..|f| % LIMIT] == f;
        assert Update(ctx, f) + Flatten(frags[1..]) == ctx + Flatten(frags);
      } else {
        assert |Update(ctx, f)| < |ctx| + |f|;
        assert |Flatten(frags)| == |f| + |Flatten(frags[1..])|;
      }
    }
  }

  /** The key, padded with zeros to a block, with one value folded into every byte. */
  function Folded(h: Hash, key: seq<byte>, pad: byte): seq<byte>
    requires |key| <= h.blockSize
  {
    seq(h.blockSize, i requires 0 <= i < h.blockSize => (if i < |key| then key[i] else 0) ^ pad)
  }

  /** The keyed hash of RFC 2104, section 2. */
  function Reference(h: Hash, key: seq<byte>, text: seq<byte>): seq<byte>
    requires |key| <= h.blockSize
  {
    h.digest(Folded(h, key, 0x5C) + h.digest(Folded(h, key, 0x36) + text))
  }

  /** What is computed from the fragments, however long they are. */
  function Tag(h: Hash, key: seq<byte>, frags: seq<seq<byte>>): seq<byte>
    requires |key| <= h.blockSize
    requires forall s :: h.authSize <= |h.digest(s)|
  {
    h.digest(Folded(h, key, OPAD) + h.digest(UpdateAll(Folded(h, key, IPAD), frags)))[..h.authSize]
  }

  /** A fragment of 65536 bytes is lost whole: the tag is that of the empty text. */
  lemma LongFragmentIsLost(h: Hash, key: seq<byte>, text: seq<byte>)
    requires |key| <= h.blockSize && |text| == LIMIT
    requires forall s :: h.authSize <= |h.digest(s)|
    ensures Tag(h, key, Fragments([text], 0, LIMIT)) == Reference(h, key, [])[..h.authSize]
  {
    var frags := Fragments([text], 0, LIMIT);
    assert text[0..LIMIT] == text;
    assert frags == [text] && frags[1..] == [];
    var ctx := Folded(h, key, IPAD);
    assert Update(ctx, text) == ctx && ctx + [] == ctx;
    assert UpdateAll(ctx, frags) == UpdateAll(ctx, frags[1..]);
  }

  /** One of the key loops: fold a value into every byte, in place. */
  method Fold(key: array<byte>, pad: byte)
    modifies key
    ensures key[..] == Xor(old(key[..]), Fill(pad, key.Length))
  {
    hide Front;
    ghost var was := key[..];
    FrontAll(was, pad);
    var k: nat := 0;
    while k < key.Length
      invariant k <= key.Length && key[..] == Front(was, pad, k)
    {
      FrontNext(was, pad, k);
      key[k] := key[k] ^ pad;
      k := k + 1;
    }
    FrontAll(was, pad);
  }

  /** A value folded into the first `k` bytes. */
  ghost function Front(s: seq<byte>, pad: byte, k: nat): (r: seq<byte>)
    ensures |r| == |s|
  {
    seq(|s|, i requires 0 <= i < |s| => if i < k then s[i] ^ pad else s[i])
  }

  lemma FrontNext(s: seq<byte>, pad: byte, k: nat)
    requires k < |s|
    ensures Front(s, pad, k)[k] == s[k] && Front(s, pad, k)[k := s[k] ^ pad] == Front(s, pad, k + 1)
  {}

  lemma FrontAll(s: seq<byte>, pad: byte)
    ensures Front(s, pad, 0) == s && Front(s, pad, |s|) == Xor(s, Fill(pad, |s|))
  {}

  /** Folding in IPAD, then IPAD ^ OPAD, leaves OPAD folded in; folding that in again gives the key back. */
  lemma FoldsCancel(key: seq<byte>)
    ensures Xor(Xor(key, Fill(IPAD, |key|)), Fill(IPAD ^ OPAD, |key|)) == Xor(key, Fill(OPAD, |key|))
    ensures Xor(Xor(key, Fill(OPAD, |key|)), Fill(OPAD, |key|)) == key
  {
    XorTwice(key, Fill(OPAD, |key|));
    forall i | 0 <= i < |key|
      ensures Xor(Xor(key, Fill(IPAD, |key|)), Fill(IPAD ^ OPAD, |key|))[i] == key[i] ^ OPAD
    {
      assert (key[i] ^ IPAD) ^ (IPAD ^ OPAD) == key[i] ^ OPAD;
    }
  }

  lemma Short(ctx: seq<byte>, data: seq<byte>)
    requires |data| < LIMIT
    ensures Update(ctx, data) == ctx + data && [] + data == data
  {
    assert data[..|data|] == data;
  }

  lemma NoKey(pad: byte)
    ensures (0 as byte) ^ pad == pad
  {}

  lemma PadBytes(h: Hash, key: seq<byte>, pad: byte)
    requires |key| <= h.blockSize
    ensures Xor(key, Fill(pad, |key|)) + Fill(pad, h.blockSize - |key|) == Folded(h, key, pad)
  {
    NoKey(pad);
    var x, y := Xor(key, Fill(pad, |key|)), Fill(pad, h.blockSize - |key|);
    var r, f := x + y, Folded(h, key, pad);
    forall i | 0 <= i < h.blockSize ensures r[i] == f[i] {
      if i < |key| {
        assert r[i] == x[i];
      } else {
        assert r[i] == y[i - |key|];
      }
    }
  }

  lemma PaddedKey(h: Hash, key: seq<byte>, pad: byte)
    requires |key| <= h.blockSize < LIMIT
    ensures Update(Update([], Xor(key, Fill(pad, |key|))), Fill(pad, h.blockSize - |key|)) == Folded(h, key, pad)
  {
    hide Update, Folded;
    var a, b := Xor(key, Fill(pad, |key|)), Fill(pad, h.blockSize - |key|);
    Short([], a);
    Short(a, b);
    PadBytes(h, key, pad);
  }

  class Session {
    const hash: Hash
    var ictx: seq<byte>
    var octx: seq<byte>

    /** Ready for `key`: both contexts have absorbed their padded keys. */
    ghost predicate Keyed(key: seq<byte>)
      reads this
    {
      && |key| <= hash.blockSize
      && ictx == Folded(hash, key, IPAD)
      && octx == Folded(hash, key, OPAD)
    }

    /** The HMAC part of swcr_newsession.  The caller's key is used as scratch and is given back. */
    constructor (h: Hash, key: array<byte>)
      requires key.Length <= h.blockSize < LIMIT
      modifies key
      ensures hash == h && Keyed(old(key[..]))
      ensures key[..] == old(key[..])
    {
      hash := h;
      ictx := [];
      octx := [];
      new;
      FoldsCancel(old(key[..]));
      PaddedKey(h, old(key[..]), IPAD);
      PaddedKey(h, old(key[..]), OPAD);
      Fold(key, IPAD);
      ictx := Update(Update([], key[..]), Fill(IPAD, hash.blockSize - key.Length));
      Fold(key, IPAD ^ OPAD);
      octx := Update(Update([], key[..]), Fill(OPAD, hash.blockSize - key.Length));
      Fold(key, OPAD);
    }

    /** swcr_authcompute: the tag, or a panic when the buffer is too short. */
    method AuthCompute(uio: Uio, skip: nat, len: nat, ghost key: seq<byte>) returns (ok: bool, mac: seq<byte>)
      requires Keyed(key)
      requires forall s :: hash.authSize <= |hash.digest(s)| < LIMIT
      ensures ok <==> skip + len <= |Flatten(uio.iov)|
      ensures ok ==> mac == Tag(hash, key, Fragments(uio.iov, skip, len))
      ensures ok && AllShort(Fragments(uio.iov, skip, len)) ==>
        mac == Reference(hash, key, Flatten(uio.iov)[skip..skip + len])[..hash.authSize]
    {
      var frags;
      ok, frags := Apply(uio, skip, len);
      if !ok { return false, []; }
      var i: nat, ctx := 0, ictx;
      while i < |frags|
        invariant i <= |frags|
        invariant UpdateAll(ctx, frags[i..]) == UpdateAll(ictx, frags)
      {
        assert frags[i..][1..] == frags[i + 1..];
        ctx := Update(ctx, frags[i]);
        i := i + 1;
      }
      UpdateAllExact(ictx, frags);
      FragmentsCover(uio.iov, skip, len);
      var aalg := hash.digest(ctx);
      assert aalg[..|aalg|] == aalg;
      ctx := Update(octx, aalg);
      aalg := hash.digest(ctx);
      mac := aalg[..hash.authSize];
    }
  }
}
