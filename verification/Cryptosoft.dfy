/**
 swcr_encdec of sys/crypto/cryptosoft.c on a buffer scattered over an iovec array, for a cipher
 that the routine itself runs in CBC mode.
 */
module Cryptosoft {
  import opened Bytes
  import opened Slices
  import opened Iovec
  import opened Cbc

  /** The parts of a cryptodesc the routine looks at. */
  datatype Desc = Desc(skip: nat, len: nat, inject: nat,
                       encrypt: bool, ivExplicit: bool, ivPresent: bool, iv: seq<byte>)

  datatype Code = Done | Einval | Panicked

  /** What `ivp` points at: the local copies, or the block last encrypted in place. */
  datatype IvPtr = InIv | InIv2 | InData(ind: nat, k: nat)

  /** `base` with the first `n` bytes from `skip` on encrypted or decrypted. */
  ghost function Partly(c: Cipher, e: bool, iv: seq<byte>, base: seq<byte>, skip: nat, n: nat): (r: seq<byte>)
    requires Proper(c) && Block(c, iv) && Whole(n, c.size) && skip + n <= |base|
    ensures |r| == |base|
  {
    Splice(base, skip, Crypt(c, e, iv, base[skip..skip + n]))
  }

  lemma PartlyNone(c: Cipher, e: bool, iv: seq<byte>, base: seq<byte>, skip: nat)
    requires Proper(c) && Block(c, iv) && skip <= |base|
    ensures Partly(c, e, iv, base, skip, 0) == base && Chain(c, e, iv, base[skip..skip + 0]) == iv
  {
  }

  /** Processing the next block in the buffer is processing one more block of the whole. */
  lemma PartlyMore(c: Cipher, e: bool, iv: seq<byte>, base: seq<byte>, skip: nat, n: nat, now: seq<byte>)
    requires Proper(c) && Block(c, iv) && Whole(n, c.size) && skip + n + c.size <= |base|
    requires now == Partly(c, e, iv, base, skip, n)
    ensures var at := skip + n;
            var b := base[at..at + c.size];
            var ch := Chain(c, e, iv, base[skip..at]);
            && now[at..at + c.size] == b
            && Whole(n + c.size, c.size)
            && Splice(now, at, BlockOut(c, e, ch, b)) == Partly(c, e, iv, base, skip, n + c.size)
            && Chain(c, e, iv, base[skip..at + c.size]) == ChainOut(c, e, ch, b)
  {
    hide Crypt, Chain, BlockOut, ChainOut, Splice;
    var at := skip + n;
    var p, b := base[skip..at], base[at..at + c.size];
    assert p + b == base[skip..at + c.size];
    CryptSnoc(c, e, iv, p, b);
    var x, y := Crypt(c, e, iv, p), BlockOut(c, e, Chain(c, e, iv, p), b);
    SpliceTwice(base, skip, x, y);
    SpliceKeeps(base, skip, x, at, at + c.size);
    WholeSum(n, c.size, c.size);
  }

  /** The block before the current position, when encrypting, is what comes next is chained to. */
  lemma PartlyLast(c: Cipher, iv: seq<byte>, base: seq<byte>, skip: nat, n: nat)
    requires Proper(c) && Block(c, iv) && Whole(n, c.size) && skip + n <= |base| && n > 0
    ensures Partly(c, true, iv, base, skip, n)[skip + n - c.size..skip + n] == Chain(c, true, iv, base[skip..skip + n])
  {
    hide Crypt, Chain;
    ChainIsLast(c, iv, base[skip..skip + n]);
    var x := Crypt(c, true, iv, base[skip..skip + n]);
    assert Partly(c, true, iv, base, skip, n)[skip + n - c.size..skip + n] == x[n - c.size..];
  }

  /** The locals of swcr_encdec while it walks the buffer. */
  class Walk {
    const uio: Uio
    const c: Cipher
    const e: bool
    var ind: nat
    var k: nat
    var count: nat
    var i: nat
    var iv: seq<byte>
    var iv2: seq<byte>
    var ivp: IvPtr
    ghost const iv0: seq<byte>
    ghost const base: seq<byte>
    ghost const skip: nat
    ghost const shape: seq<seq<byte>>

    constructor (uio: Uio, c: Cipher, e: bool, iv: seq<byte>, skip: nat, len: nat, p: Ptr)
      requires Proper(c) && Block(c, iv) && Whole(len, c.size)
      requires p.At? && Points(uio.iov, skip, p)
      ensures Valid() && this.uio == uio && this.c == c && this.e == e && i == len
      ensures iv0 == iv && base == Flatten(uio.iov) && this.skip == skip && count == skip && shape == uio.iov
      ensures Spot(uio.iov)
    {
      this.uio, this.c, this.e := uio, c, e;
      ind, k, count, i := p.ind, p.off, skip, len;
      this.iv, iv2, ivp := iv, iv, InIv;
      iv0, base, this.skip, shape := iv, Flatten(uio.iov), skip, uio.iov;
      new;
      FlattenAt(uio.iov, p.ind);
      PartlyNone(c, e, iv, base, skip);
    }

    /** The cursor is at `count`. */
    predicate Spot(v: seq<seq<byte>>)
      reads this
    {
      ind < |v| && k <= |v[ind]| && Start(v, ind) + k == count
    }

    ghost predicate Frame()
      reads this`iv, this`iv2, this`count, this`i, uio
    {
      && Proper(c) && c.size > 0 && Block(c, iv0) && Block(c, iv) && Block(c, iv2)
      && SameShape(uio.iov, shape) && base == Flatten(shape)
      && skip <= count <= |base| && Whole(count - skip, c.size) && Whole(i, c.size)
    }

    /** The block to chain to is where `ivp` says. */
    ghost predicate Chained()
      requires Frame()
      reads this`iv, this`iv2, this`ivp, this`count, this`i, uio
    {
      match ivp {
        case InIv => iv == Chain(c, e, iv0, base[skip..count])
        case InIv2 => iv2 == Chain(c, e, iv0, base[skip..count])
        case InData(pi, pk) =>
          e && count > skip && pi < |uio.iov| && pk + c.size <= |uio.iov[pi]| &&
            Start(uio.iov, pi) + pk + c.size == count
      }
    }

    ghost predicate Valid()
      reads this, uio
    {
      Frame() && Chained() && Flatten(uio.iov) == Partly(c, e, iv0, base, skip, count - skip)
    }

    /** `*ivp`, the block to chain to. */
    method Deref() returns (chain: seq<byte>)
      requires Valid()
      ensures chain == Chain(c, e, iv0, base[skip..count])
    {
      hide Flatten, Crypt, Chain, Partly;
      match ivp
      case InIv => chain := iv;
      case InIv2 => chain := iv2;
      case InData(pi, pk) =>
        chain := uio.iov[pi][pk..pk + c.size];
        SliceAt(uio.iov, pi, pk, c.size);
        PartlyLast(c, iv0, base, skip, count - skip);
        WholeAtLeast(count - skip, c.size);
    }

    /** The local copy the next block is chained to, when decrypting. */
    predicate Kept(nivp: IvPtr, blk: seq<byte>)
      reads this`iv, this`iv2
    {
      (nivp == InIv && iv == blk) || (nivp == InIv2 && iv2 == blk)
    }

    /**
     Encrypt or decrypt one block, `blk` being the next of the buffer.  A block to be decrypted is put
     aside first, at `nivp`, where the one it is chained to is not.
     */
    method Transform(blk: seq<byte>) returns (out: seq<byte>, nivp: IvPtr)
      requires Valid() && Block(c, blk)
      modifies this`iv, this`iv2
      ensures Valid() && Block(c, out) && out == BlockOut(c, e, Chain(c, e, iv0, base[skip..count]), blk)
      ensures !e ==> Kept(nivp, blk)
    {
      hide Chain, Partly, Flatten;
      nivp := InIv;
      if e {
        var chain := Deref();
        out := c.enc(Xor(blk, chain));
      } else {
        if ivp == InIv {
          nivp, iv2 := InIv2, blk;
        } else {
          nivp, iv := InIv, blk;
        }
        out := c.dec(blk);
        var chain := Deref();
        out := Xor(out, chain);
      }
    }

    /** The block at `count` has been replaced by `out`: go on to the next. */
    method Record(ghost blk: seq<byte>, out: seq<byte>, nivp: IvPtr, inPlace: bool)
      requires Frame() && i > 0 && count + c.size <= |base|
      requires blk == base[count..count + c.size] && out == BlockOut(c, e, Chain(c, e, iv0, base[skip..count]), blk)
      requires Whole(count - skip + c.size, c.size)
      requires Flatten(uio.iov) == Partly(c, e, iv0, base, skip, count - skip + c.size)
      requires Chain(c, e, iv0, base[skip..count + c.size]) == ChainOut(c, e, Chain(c, e, iv0, base[skip..count]), blk)
      requires inPlace ==> Spot(uio.iov) && k + c.size <= |uio.iov[ind]|
      requires !e ==> Kept(nivp, blk)
      modifies this`iv, this`ivp, this`count, this`i
      ensures Valid() && count == old(count) + c.size && i == old(i) - c.size
    {
      hide Crypt, Chain, Partly, Flatten;
      WholeAtLeast(i, c.size);
      WholeSum(c.size, i - c.size, c.size);
      if !e {
        ivp := nivp;
      } else if inPlace {
        ivp := InData(ind, k);
      } else {
        iv, ivp := out, InIv;
      }
      count := count + c.size;
      i := i - c.size;
    }

    /** Copy the block at `count` out, process it and copy it back. */
    method Replace() returns (ok: bool, blk: seq<byte>, out: seq<byte>, nivp: IvPtr)
      requires Valid()
      modifies uio, this`iv, this`iv2
      ensures SameShape(uio.iov, shape)
      ensures !ok ==> count + c.size > |base|
      ensures ok && !e ==> Kept(nivp, blk)
      ensures ok ==> Frame() && count + c.size <= |base| && Whole(count - skip + c.size, c.size)
      ensures ok ==> blk == base[count..count + c.size] &&
                     out == BlockOut(c, e, Chain(c, e, iv0, base[skip..count]), blk)
      ensures ok ==> Flatten(uio.iov) == Partly(c, e, iv0, base, skip, count - skip + c.size)
      ensures ok ==> Chain(c, e, iv0, base[skip..count + c.size]) ==
                     ChainOut(c, e, Chain(c, e, iv0, base[skip..count]), blk)
    {
      hide Crypt, Chain, Partly, Flatten, BlockOut, ChainOut, Chained, Proper, Splice;
      ShapeTrans(uio.iov, shape);
      out := [];
      nivp := InIv;
      var r := uio.CopyData(count, c.size);
      if r.Panic? { return false, [], [], InIv; }
      blk := r.data;
      PartlyMore(c, e, iv0, base, skip, count - skip, Flatten(uio.iov));
      out, nivp := Transform(blk);
      ok := uio.CopyBack(count, out);
    }

    /** A block that straddles pieces. */
    method Across() returns (ok: bool)
      requires Valid() && Spot(uio.iov) && i > 0
      modifies this, uio
      ensures SameShape(uio.iov, shape)
      ensures !ok ==> old(count) + c.size > |base|
      ensures ok ==> Valid() && Spot(uio.iov) && count == old(count) + c.size && i == old(i) - c.size
      ensures ok && count < |base| ==> k < |uio.iov[ind]|
    {
      hide Crypt, Chain, Partly, Flatten, BlockOut, ChainOut, Chained, Proper;
      var blk, out, nivp;
      ok, blk, out, nivp := Replace();
      if !ok { return; }
      Record(blk, out, nivp, false);
      ShapeTrans(uio.iov, shape);
      var p := uio.GetPtr(count);
      ind, k := p.ind, p.off;
    }

    lemma ShapeTrans(v: seq<seq<byte>>, w: seq<seq<byte>>)
      requires SameShape(v, w)
      ensures |Flatten(v)| == |Flatten(w)| && (v == [] <==> w == [])
    {
      ShapeLength(v, w);
    }

    /** A block within a piece. */
    method Inside()
      requires Valid() && Spot(uio.iov) && i > 0 && k + c.size <= |uio.iov[ind]|
      modifies this, uio
      ensures Valid() && Spot(uio.iov) && count == old(count) + c.size && i == old(i) - c.size
      ensures ind == old(ind) && k == old(k) + c.size
    {
      hide Crypt, Chain, Partly, Flatten, BlockOut, ChainOut, Chained, Proper, Splice;
      var blk := uio.iov[ind][k..k + c.size];
      SliceAt(uio.iov, ind, k, c.size);
      ShapeTrans(uio.iov, shape);
      PartlyMore(c, e, iv0, base, skip, count - skip, Flatten(uio.iov));
      var out, nivp := Transform(blk);
      ghost var before := uio.iov;
      uio.Put(ind, k, out);
      ShapeStart(uio.iov, before, ind);
      Record(blk, out, nivp, true);
      k := k + c.size;
    }

    /** All the blocks that lie within the current piece. */
    method Within()
      requires Valid() && Spot(uio.iov)
      modifies this, uio
      ensures Valid() && Spot(uio.iov) && count + i == old(count + i) && ind == old(ind) && |uio.iov| == |old(uio.iov)|
      ensures i < old(i) || (i == old(i) && k == old(k) && uio.iov == old(uio.iov))
      ensures i == 0 || |uio.iov[ind]| < k + c.size
    {
      hide Crypt, Chain, Partly, Flatten, Chained, Proper;
      while |uio.iov[ind]| >= k + c.size && i > 0
        invariant Valid() && Spot(uio.iov) && count + i == old(count + i) && ind == old(ind)
        invariant i < old(i) || (i == old(i) && k == old(k) && uio.iov == old(uio.iov))
        decreases i
      {
        WholeAtLeast(i, c.size);
        Inside();
      }
    }

    /** The loop over the buffer. */
    method Go() returns (code: Code)
      requires Valid() && Spot(uio.iov)
      modifies this, uio
      ensures SameShape(uio.iov, shape)
      ensures code == Done <==> old(count + i) <= |base|
      ensures code == Done ==> Valid() && count == old(count + i)
      ensures code == Einval ==> skip <= |base| && Whole(|base| - skip, c.size)
      ensures code == Panicked ==> skip <= |base| && !Whole(|base| - skip, c.size)
    {
      hide Crypt, Chain, Partly, Flatten, Chained, Proper, Whole;
      while i > 0
        invariant Valid() && Spot(uio.iov) && count + i == old(count + i)
        decreases i, |uio.iov| - ind
      {
        if |uio.iov[ind]| < k + c.size && |uio.iov[ind]| != k {
          WholeAtLeast(i, c.size);
          ghost var done := count - skip;
          FlattenAt(uio.iov, ind);
          ShapeTrans(uio.iov, shape);
          var ok := Across();
          if !ok {
            Ragged(done, |base| - skip, c.size);
            return Panicked;
          }
          if i == 0 { break; }
        }
        Within();
        if i > 0 && k == |uio.iov[ind]| {
          var more := Hop();
          if !more { return Einval; }
        }
      }
      return Done;
    }

    /** On to the next piece, if there is one. */
    method Hop() returns (more: bool)
      requires Valid() && Spot(uio.iov) && k == |uio.iov[ind]|
      modifies this`k, this`ind
      ensures Valid() && ind == old(ind) + 1
      ensures more ==> Spot(uio.iov)
      ensures !more ==> count == |base|
    {
      hide Crypt, Chain, Partly, Flatten, Proper;
      NextPiece(uio.iov, shape, ind);
      k := 0;
      ind := ind + 1;
      more := ind < |uio.iov|;
    }

    lemma NextPiece(v: seq<seq<byte>>, w: seq<seq<byte>>, j: nat)
      requires SameShape(v, w) && j < |v|
      ensures Start(v, j + 1) == Start(v, j) + |v[j]|
      ensures j + 1 == |v| ==> Start(v, j + 1) == |Flatten(w)|
    {
      FlattenAt(v, j);
      StartEnds(v);
      ShapeLength(v, w);
    }
  }

  lemma WholeAtLeast(n: nat, size: nat)
    requires size > 0 && n > 0 && Whole(n, size)
    ensures n >= size
  {
  }

  /** Part of a block after whole blocks is not a whole number of blocks. */
  lemma Ragged(n: nat, m: nat, size: nat)
    requires size > 0 && Whole(n, size) && n < m < n + size
    ensures !Whole(m, size)
  {
    WholeSum(n, m - n, size);
  }

  /** The initial value swcr_encdec works with. */
  function InitialValue(crd: Desc, size: nat, random: seq<byte>, flat: seq<byte>): seq<byte> {
    if crd.ivExplicit then crd.iv
    else if crd.encrypt then random
    else if crd.inject + size <= |flat| then flat[crd.inject..crd.inject + size]
    else []
  }

  /** The buffer once the initial value has been written to it, if that is asked for. */
  function Prepared(crd: Desc, iv: seq<byte>, flat: seq<byte>): seq<byte> {
    if crd.encrypt && !crd.ivPresent && crd.inject + |iv| <= |flat| then Splice(flat, crd.inject, iv) else flat
  }

  /** An initial value that is written to the buffer or read from it lies within. */
  predicate IvFits(crd: Desc, size: nat, v: seq<seq<byte>>) {
    && (crd.encrypt && !crd.ivPresent ==> crd.inject + size <= |Flatten(v)|)
    && (!crd.encrypt && !crd.ivExplicit ==> crd.inject + size <= |Flatten(v)|)
  }

  /** The buffer is large enough for all the request names. */
  predicate Fits(crd: Desc, size: nat, v: seq<seq<byte>>)
    requires size > 0
  {
    crd.len % size == 0 && v != [] && crd.skip + crd.len <= |Flatten(v)| && IvFits(crd, size, v)
  }

  /**
   The request is refused with an error, where otherwise the copying routines panic: part of a block is
   asked for, the data begins behind the buffer, or the buffer ends too early but after a whole block.
   */
  predicate Refused(crd: Desc, size: nat, v: seq<seq<byte>>)
    requires size > 0
  {
    || crd.len % size != 0
    || (&& IvFits(crd, size, v)
        && (v == [] || crd.skip > |Flatten(v)|
            || (crd.skip + crd.len > |Flatten(v)| && (|Flatten(v)| - crd.skip) % size == 0)))
  }

  /** The buffer after the request: the range from `skip` on in flat CBC, all else as it was. */
  ghost function Processed(c: Cipher, crd: Desc, random: seq<byte>, v: seq<seq<byte>>): seq<byte>
    requires Proper(c) && Block(c, crd.iv) && Block(c, random) && Fits(crd, c.size, v)
  {
    WholeIsMultiple(crd.len, c.size);
    var iv := InitialValue(crd, c.size, random, Flatten(v));
    Partly(c, crd.encrypt, iv, Prepared(crd, iv, Flatten(v)), crd.skip, crd.len)
  }

  // ----- what a request does to the buffer, byte by byte

  /** The part of the buffer the request names. */
  function Data(crd: Desc, flat: seq<byte>): seq<byte>
    requires crd.skip + crd.len <= |flat|
  {
    flat[crd.skip..crd.skip + crd.len]
  }

  /** The place of the initial value does not meet the data. */
  predicate IvApart(crd: Desc, size: nat) {
    crd.inject + size <= crd.skip || crd.skip + crd.len <= crd.inject
  }

  /** The bytes a request may change. */
  predicate Touched(crd: Desc, size: nat, i: int) {
    || crd.skip <= i < crd.skip + crd.len
    || (crd.encrypt && !crd.ivPresent && crd.inject <= i < crd.inject + size)
  }

  /**
   The data is in CBC under `iv`; unless it was there already, `iv` can be read where the request asks
   for it; no other byte has changed.  Should the two places meet, `iv` is written first.
   */
  ghost predicate Encrypted(c: Cipher, crd: Desc, iv: seq<byte>, before: seq<byte>, after: seq<byte>)
    requires Proper(c) && Block(c, iv) && crd.skip + crd.len <= |before|
    requires !crd.ivPresent ==> crd.inject + c.size <= |before|
  {
    && |after| == |before|
    && (forall i :: 0 <= i < |before| && !Touched(crd, c.size, i) ==> after[i] == before[i])
    && (crd.ivPresent || IvApart(crd, c.size) ==> IsCbc(c, iv, Data(crd, before), Data(crd, after)))
    && (!crd.ivPresent ==> IsCbc(c, iv, Data(crd, Splice(before, crd.inject, iv)), Data(crd, after)))
    && (!crd.ivPresent && IvApart(crd, c.size) ==> after[crd.inject..crd.inject + c.size] == iv)
  }

  /** What was there is the CBC form under `iv` of what is there now; no other byte has changed. */
  ghost predicate Decrypted(c: Cipher, crd: Desc, iv: seq<byte>, before: seq<byte>, after: seq<byte>)
    requires Proper(c) && Block(c, iv) && crd.skip + crd.len <= |before|
  {
    && |after| == |before|
    && (forall i :: 0 <= i < |before| && !(crd.skip <= i < crd.skip + crd.len) ==> after[i] == before[i])
    && IsCbc(c, iv, Data(crd, after), Data(crd, before))
  }

  lemma PartlyMeans(c: Cipher, e: bool, iv: seq<byte>, base: seq<byte>, crd: Desc)
    requires Proper(c) && Block(c, iv) && Whole(crd.len, c.size) && crd.skip + crd.len <= |base|
    ensures var r := Partly(c, e, iv, base, crd.skip, crd.len);
      && Data(crd, r) == Crypt(c, e, iv, Data(crd, base))
      && (e ==> IsCbc(c, iv, Data(crd, base), Data(crd, r)))
      && (!e ==> IsCbc(c, iv, Data(crd, r), Data(crd, base)))
      && forall i :: 0 <= i < |base| && !(crd.skip <= i < crd.skip + crd.len) ==> r[i] == base[i]
  {
    hide Crypt, IsCbc, Whole, Proper, Splice;
    var p := Data(crd, base);
    var x := Crypt(c, e, iv, p);
    WrittenAt(base, crd.skip, x);
    if e {
      CryptIsCbc(c, iv, p);
    } else {
      CryptIsCbc(c, iv, x);
      CbcRoundTripBack(c, iv, p);
    }
  }

  /** The initial value is already in the buffer. */
  lemma EncryptPresent(c: Cipher, crd: Desc, iv: seq<byte>, flat: seq<byte>)
    requires Proper(c) && Block(c, iv) && Whole(crd.len, c.size) && crd.skip + crd.len <= |flat|
    requires crd.encrypt && crd.ivPresent
    ensures Encrypted(c, crd, iv, flat, Partly(c, true, iv, flat, crd.skip, crd.len))
  {
    hide Partly, IsCbc, Splice, Whole, Proper;
    PartlyMeans(c, true, iv, flat, crd);
  }

  /** The initial value is written first. */
  lemma EncryptWritten(c: Cipher, crd: Desc, iv: seq<byte>, flat: seq<byte>)
    requires Proper(c) && Block(c, iv) && Whole(crd.len, c.size) && crd.skip + crd.len <= |flat|
    requires crd.encrypt && !crd.ivPresent && crd.inject + c.size <= |flat|
    ensures Encrypted(c, crd, iv, flat, Partly(c, true, iv, Splice(flat, crd.inject, iv), crd.skip, crd.len))
  {
    hide Partly, IsCbc, Splice, Whole, Proper;
    var base := Splice(flat, crd.inject, iv);
    PartlyMeans(c, true, iv, base, crd);
    WrittenAt(flat, crd.inject, iv);
    var after := Partly(c, true, iv, base, crd.skip, crd.len);
    if IvApart(crd, c.size) {
      SpliceKeeps(flat, crd.inject, iv, crd.skip, crd.skip + crd.len);
      SameRange(after, base, crd.inject, c.size);
    }
  }

  /** The initial value is the one given or the random one, and it is in the buffer for the other side. */
  lemma EncryptMeans(c: Cipher, crd: Desc, random: seq<byte>, v: seq<seq<byte>>)
    requires Proper(c) && Block(c, crd.iv) && Block(c, random) && Fits(crd, c.size, v) && crd.encrypt
    ensures Encrypted(c, crd, if crd.ivExplicit then crd.iv else random, Flatten(v), Processed(c, crd, random, v))
  {
    hide Flatten, Partly, Encrypted, Whole, Proper, Splice;
    ProperSize(c);
    WholeIsMultiple(crd.len, c.size);
    if crd.ivPresent {
      EncryptPresent(c, crd, if crd.ivExplicit then crd.iv else random, Flatten(v));
    } else {
      EncryptWritten(c, crd, if crd.ivExplicit then crd.iv else random, Flatten(v));
    }
  }

  lemma WrittenAt(s: seq<byte>, at: nat, w: seq<byte>)
    requires at + |w| <= |s|
    ensures Splice(s, at, w)[at..at + |w|] == w
    ensures forall i :: 0 <= i < |s| && !(at <= i < at + |w|) ==> Splice(s, at, w)[i] == s[i]
  {
    SpliceHas(s, at, w);
  }

  lemma SameRange(a: seq<byte>, b: seq<byte>, at: nat, n: nat)
    requires |a| == |b| && at + n <= |a| && forall i :: at <= i < at + n ==> a[i] == b[i]
    ensures a[at..at + n] == b[at..at + n]
  {
  }

  lemma DecryptMeans(c: Cipher, crd: Desc, random: seq<byte>, v: seq<seq<byte>>)
    requires Proper(c) && Block(c, crd.iv) && Block(c, random) && Fits(crd, c.size, v) && !crd.encrypt
    ensures var flat := Flatten(v);
      Decrypted(c, crd, if crd.ivExplicit then crd.iv else flat[crd.inject..crd.inject + c.size], flat,
                Processed(c, crd, random, v))
  {
    hide Flatten, Partly, IsCbc, Splice, Whole, Proper;
    ProperSize(c);
    WholeIsMultiple(crd.len, c.size);
    var flat := Flatten(v);
    PartlyMeans(c, false, if crd.ivExplicit then crd.iv else flat[crd.inject..crd.inject + c.size], flat, crd);
  }

  lemma ProperSize(c: Cipher)
    requires Proper(c)
    ensures c.size > 0
  {
  }

  /** Find the initial value, and write it to the buffer if asked to. */
  method SetIv(uio: Uio, crd: Desc, size: nat, random: seq<byte>) returns (ok: bool, iv: seq<byte>)
    requires |crd.iv| == |random| == size
    modifies uio
    ensures SameShape(uio.iov, old(uio.iov))
    ensures ok <==> IvFits(crd, size, old(uio.iov))
    ensures ok ==> iv == InitialValue(crd, size, random, Flatten(old(uio.iov))) && |iv| == size
    ensures ok ==> Flatten(uio.iov) == Prepared(crd, iv, Flatten(old(uio.iov)))
  {
    hide Flatten;
    ok := true;
    if crd.encrypt {
      iv := if crd.ivExplicit then crd.iv else random;
      if !crd.ivPresent {
        ok := uio.CopyBack(crd.inject, iv);
      }
    } else if crd.ivExplicit {
      iv := crd.iv;
    } else {
      var r := uio.CopyData(crd.inject, size);
      if r.Panic? { return false, []; }
      iv := r.data;
    }
  }

  /**
   swcr_encdec.  It succeeds exactly when the data is a whole number of blocks and the buffer
   holds all that is asked for; then the range is flat CBC, whatever pieces it is in, and
   every other byte and the size of every piece is as before.
   */
  method EncDec(uio: Uio, crd: Desc, c: Cipher, random: seq<byte>) returns (code: Code)
    requires Proper(c) && Block(c, crd.iv) && Block(c, random)
    modifies uio
    ensures SameShape(uio.iov, old(uio.iov))
    ensures code == Done <==> Fits(crd, c.size, old(uio.iov))
    ensures code == Einval <==> Refused(crd, c.size, old(uio.iov))
    ensures code == Done ==> Flatten(uio.iov) == Processed(c, crd, random, old(uio.iov))
    ensures code == Done && crd.encrypt ==>
      Encrypted(c, crd, if crd.ivExplicit then crd.iv else random, Flatten(old(uio.iov)), Flatten(uio.iov))
    ensures code == Done && !crd.encrypt ==> var flat := Flatten(old(uio.iov));
      Decrypted(c, crd, if crd.ivExplicit then crd.iv else flat[crd.inject..crd.inject + c.size], flat,
                Flatten(uio.iov))
  {
    hide Flatten, Partly, Proper, Splice, Whole, Walk.Chained, Encrypted, Decrypted;
    ProperSize(c);
    WholeIsMultiple(crd.len, c.size);
    if crd.len % c.size != 0 { return Einval; }
    var ok, iv := SetIv(uio, crd, c.size, random);
    if !ok { return Panicked; }
    ShapeLength(uio.iov, old(uio.iov));
    var p := uio.GetPtr(crd.skip);
    if p == Nowhere { return Einval; }
    var w := new Walk(uio, c, crd.encrypt, iv, crd.skip, crd.len, p);
    WholeIsMultiple(|Flatten(uio.iov)| - crd.skip, c.size);
    code := w.Go();
    if code == Done {
      if crd.encrypt {
        EncryptMeans(c, crd, random, old(uio.iov));
      } else {
        DecryptMeans(c, crd, random, old(uio.iov));
      }
    }
  }

  /** Decrypting with the same initial value, under any other split of the bytes, restores them. */
  lemma SplitsDoNotMatter(c: Cipher, crd: Desc, v: seq<seq<byte>>, w: seq<seq<byte>>)
    requires Proper(c) && Block(c, crd.iv) && crd.encrypt && crd.ivExplicit && crd.ivPresent && Fits(crd, c.size, v)
    requires w != [] && Flatten(w) == Processed(c, crd, crd.iv, v)
    ensures Fits(crd.(encrypt := false), c.size, w)
    ensures Processed(c, crd.(encrypt := false), crd.iv, w) == Flatten(v)
  {
    hide Flatten, Crypt, Splice, Whole;
    WholeIsMultiple(crd.len, c.size);
    var flat, p := Flatten(v), Flatten(v)[crd.skip..crd.skip + crd.len];
    var x := Crypt(c, true, crd.iv, p);
    CbcRoundTrip(c, crd.iv, p);
    SpliceUndone(flat, crd.skip, x);
  }

  /**
   The initial value travels in the buffer: decrypting with the value found at `inject`, under any
   other split of the bytes, restores the data, and nothing but the initial value is left behind.
   */
  lemma CarriedIvRestores(c: Cipher, crd: Desc, random: seq<byte>, v: seq<seq<byte>>, back: Desc, w: seq<seq<byte>>)
    requires Proper(c) && Block(c, crd.iv) && Block(c, random) && Fits(crd, c.size, v)
    requires crd.encrypt && !crd.ivPresent && IvApart(crd, c.size)
    requires Block(c, back.iv) && !back.encrypt && !back.ivExplicit
    requires back.skip == crd.skip && back.len == crd.len && back.inject == crd.inject
    requires w != [] && Flatten(w) == Processed(c, crd, random, v)
    ensures Fits(back, c.size, w)
    ensures var plain := Processed(c, back, random, w);
      && |plain| == |Flatten(v)| && Data(crd, plain) == Data(crd, Flatten(v))
      && plain == Splice(Flatten(v), crd.inject, if crd.ivExplicit then crd.iv else random)
  {
    hide Flatten, Whole, Proper, Splice, Partly;
    ProperSize(c);
    WholeIsMultiple(crd.len, c.size);
    ReadBack(c, crd, if crd.ivExplicit then crd.iv else random, Flatten(v));
  }

  /** The same on flat bytes. */
  lemma ReadBack(c: Cipher, crd: Desc, iv: seq<byte>, flat: seq<byte>)
    requires Proper(c) && Block(c, iv) && Whole(crd.len, c.size) && crd.skip + crd.len <= |flat|
    requires crd.inject + c.size <= |flat| && IvApart(crd, c.size)
    ensures var base := Splice(flat, crd.inject, iv);
      var sent := Partly(c, true, iv, base, crd.skip, crd.len);
      && sent[crd.inject..crd.inject + c.size] == iv
      && Partly(c, false, iv, sent, crd.skip, crd.len) == base
      && Data(crd, base) == Data(crd, flat)
  {
    hide Crypt, Whole, Proper, Splice;
    var base := Splice(flat, crd.inject, iv);
    var p := Data(crd, base);
    var x := Crypt(c, true, iv, p);
    SpliceKeeps(flat, crd.inject, iv, crd.skip, crd.skip + crd.len);
    SpliceHas(flat, crd.inject, iv);
    SpliceKeeps(base, crd.skip, x, crd.inject, crd.inject + c.size);
    CbcRoundTrip(c, iv, p);
    SpliceUndone(base, crd.skip, x);
  }
}
