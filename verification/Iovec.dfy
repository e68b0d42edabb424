/**
 Buffers scattered over an iovec array, and the copying routines of sys/crypto/criov.c.
 */
module Iovec {
  import opened Bytes
  import opened Slices

  predicate SameShape(v: seq<seq<byte>>, w: seq<seq<byte>>) {
    |v| == |w| && forall i :: 0 <= i < |v| ==> |v[i]| == |w[i]|
  }

  /** Where piece `i` begins. */
  function Start(v: seq<seq<byte>>, i: nat): nat
    requires i <= |v|
  {
    |Flatten(v[..i])|
  }

  lemma FlattenSplit(v: seq<seq<byte>>, i: nat)
    requires i <= |v|
    ensures Flatten(v) == Flatten(v[..i]) + Flatten(v[i..])
    ensures Start(v, i) <= |Flatten(v)|
  {
    hide Flatten;
    assert v == v[..i] + v[i..];
    FlattenConcat(v[..i], v[i..]);
  }

  lemma FlattenAt(v: seq<seq<byte>>, i: nat)
    requires i < |v|
    ensures Flatten(v) == Flatten(v[..i]) + v[i] + Flatten(v[i + 1..])
    ensures Start(v, i + 1) == Start(v, i) + |v[i]| <= |Flatten(v)|
  {
    hide Flatten;
    FlattenSplit(v, i);
    FlattenCons(v[i..]);
    assert v[i..][1..] == v[i + 1..];
    assert v[..i + 1] == v[..i] + [v[i]];
    FlattenConcat(v[..i], [v[i]]);
    FlattenOne(v[i]);
  }

  lemma StartEnds(v: seq<seq<byte>>)
    ensures Start(v, 0) == 0 && Start(v, |v|) == |Flatten(v)|
  {
    assert v[..|v|] == v;
  }

  /** Part of a piece is part of the whole. */
  lemma SliceAt(v: seq<seq<byte>>, i: nat, off: nat, n: nat)
    requires i < |v| && off + n <= |v[i]|
    ensures var p := Start(v, i) + off; p + n <= |Flatten(v)| && Flatten(v)[p..p + n] == v[i][off..off + n]
  {
    hide Flatten;
    FlattenAt(v, i);
    Middle(Flatten(v[..i]), v[i], Flatten(v[i + 1..]), off, n);
  }

  /** Writing into a piece is writing into the whole. */
  lemma SpliceAt(v: seq<seq<byte>>, i: nat, off: nat, d: seq<byte>)
    requires i < |v| && off + |d| <= |v[i]|
    ensures Start(v, i) + off + |d| <= |Flatten(v)|
    ensures Flatten(v[i := Splice(v[i], off, d)]) == Splice(Flatten(v), Start(v, i) + off, d)
    ensures SameShape(v[i := Splice(v[i], off, d)], v)
  {
    hide Flatten;
    var w := v[i := Splice(v[i], off, d)];
    FlattenAt(v, i);
    FlattenAt(w, i);
    assert w[..i] == v[..i] && w[i + 1..] == v[i + 1..];
    SpliceMiddle(Flatten(v[..i]), v[i], Flatten(v[i + 1..]), off, d);
  }

  lemma SpliceMiddle(a: seq<byte>, m: seq<byte>, b: seq<byte>, off: nat, d: seq<byte>)
    requires off + |d| <= |m|
    ensures Splice(a + m + b, |a| + off, d) == a + Splice(m, off, d) + b
  {
  }

  lemma {:induction false} ShapeLength(v: seq<seq<byte>>, w: seq<seq<byte>>)
    requires SameShape(v, w)
    ensures |Flatten(v)| == |Flatten(w)|
  {
    if v != [] {
      ShapeLength(v[1..], w[1..]);
    }
  }

  lemma ShapeStart(v: seq<seq<byte>>, w: seq<seq<byte>>, i: nat)
    requires SameShape(v, w) && i <= |v|
    ensures Start(v, i) == Start(w, i) && |Flatten(v)| == |Flatten(w)|
  {
    ShapeLength(v[..i], w[..i]);
    ShapeLength(v, w);
  }

  lemma SpliceTwice(s: seq<byte>, at: nat, d: seq<byte>, e: seq<byte>)
    requires at + |d| + |e| <= |s|
    ensures Splice(Splice(s, at, d), at + |d|, e) == Splice(s, at, d + e)
  {
  }

  lemma SpliceUndone(s: seq<byte>, at: nat, d: seq<byte>)
    requires at + |d| <= |s|
    ensures Splice(s, at, d)[at..at + |d|] == d
    ensures Splice(Splice(s, at, d), at, s[at..at + |d|]) == s
  {
  }

  /** cuio_getptr: piece and offset, or nothing. */
  datatype Ptr = Nowhere | At(ind: nat, off: nat)

  /** `p` leads to position `loc`, in the piece that has a byte there if there is one. */
  predicate Points(v: seq<seq<byte>>, loc: nat, p: Ptr)
    requires p.At?
  {
    && p.ind < |v| && p.off <= |v[p.ind]| && Start(v, p.ind) + p.off == loc
    && (p.off == |v[p.ind]| ==> loc == |Flatten(v)|)
  }

  /** Copied bytes, or the panic of a buffer that is too short. */
  datatype Copied = Panic | Bytes(data: seq<byte>)

  class Uio {
    var iov: seq<seq<byte>>

    constructor (iov: seq<seq<byte>>)
      ensures this.iov == iov
    {
      this.iov := iov;
    }

    /** cuio_getptr */
    method GetPtr(loc0: nat) returns (p: Ptr)
      ensures p == Nowhere <==> iov == [] || loc0 > |Flatten(iov)|
      ensures p.At? ==> Points(iov, loc0, p)
    {
      hide Flatten;
      var ind, loc := 0, loc0;
      StartEnds(iov);
      while ind < |iov|
        invariant ind <= |iov| && 0 <= loc && Start(iov, ind) + loc == loc0
      {
        FlattenAt(iov, ind);
        var len := |iov[ind]|;
        if len > loc {
          return At(ind, loc);
        }
        loc := loc - len;
        ind := ind + 1;
      }
      if ind > 0 && loc == 0 {
        FlattenAt(iov, ind - 1);
        return At(ind - 1, |iov[ind - 1]|);
      }
      EmptyFlat();
      return Nowhere;
    }

    /** The skipping loop of the copy routines: the piece and offset of a position, or a panic. */
    method Seek(off0: nat) returns (p: Ptr)
      ensures p == Nowhere <==> off0 > |Flatten(iov)|
      ensures p.At? ==> p.ind <= |iov| && Start(iov, p.ind) + p.off == off0
      ensures p.At? && p.off > 0 ==> p.ind < |iov| && p.off < |iov[p.ind]|
    {
      hide Flatten;
      var off, ind := off0, 0;
      StartEnds(iov);
      while off > 0
        invariant ind <= |iov| && 0 <= off && Start(iov, ind) + off == off0
        decreases |iov| - ind
      {
        if ind == |iov| { return Nowhere; }
        FlattenAt(iov, ind);
        if off < |iov[ind]| { break; }
        off := off - |iov[ind]|;
        ind := ind + 1;
      }
      FlattenSplit(iov, ind);
      return At(ind, off);
    }

    /** cuio_copydata */
    method CopyData(off0: nat, len0: nat) returns (r: Copied)
      ensures r == Panic <==> off0 + len0 > |Flatten(iov)|
      ensures r.Bytes? ==> r.data == Flatten(iov)[off0..off0 + len0]
    {
      hide Flatten;
      var p := Seek(off0);
      if p.Nowhere? { return Panic; }
      var ind: nat, off: nat, len, cp := p.ind, p.off, len0, [];
      FlattenSplit(iov, ind);
      while len > 0
        invariant ind <= |iov| && |cp| + len == len0 && (off > 0 ==> ind < |iov| && off <= |iov[ind]|)
        invariant len > 0 ==> Start(iov, ind) + off == off0 + |cp|
        invariant off0 + |cp| <= |Flatten(iov)| && cp == Flatten(iov)[off0..off0 + |cp|]
        invariant 0 <= len
        decreases |iov| - ind
      {
        if ind == |iov| {
          StartEnds(iov);
          return Panic;
        }
        var count := if |iov[ind]| - off < len then |iov[ind]| - off else len;
        Gathered(iov, ind, off, count, off0, cp);
        cp := cp + iov[ind][off..off + count];
        len := len - count;
        off := 0;
        ind := ind + 1;
      }
      return Bytes(cp);
    }

    /** Write `d` into one piece. */
    method Put(ind: nat, off: nat, d: seq<byte>)
      requires ind < |iov| && off + |d| <= |iov[ind]|
      modifies this
      ensures SameShape(iov, old(iov))
      ensures Start(old(iov), ind) + off + |d| <= |Flatten(old(iov))|
      ensures Flatten(iov) == Splice(Flatten(old(iov)), Start(old(iov), ind) + off, d)
    {
      SpliceAt(iov, ind, off, d);
      iov := iov[ind := Splice(iov[ind], off, d)];
    }

    /** cuio_copyback; the panic leaves a front of `cp0` written. */
    method CopyBack(off0: nat, cp0: seq<byte>) returns (ok: bool)
      modifies this
      ensures ok <==> off0 + |cp0| <= |Flatten(old(iov))|
      ensures ok ==> Flatten(iov) == Splice(Flatten(old(iov)), off0, cp0)
      ensures SameShape(iov, old(iov))
    {
      hide Flatten;
      hide Splice;
      ghost var base, was := Flatten(iov), iov;
      var p := Seek(off0);
      if p.Nowhere? { return false; }
      SpliceNone(base, off0);
      var ind: nat, off: nat, done: nat := p.ind, p.off, 0;
      FlattenSplit(iov, ind);
      while done < |cp0|
        invariant ind <= |iov| && done <= |cp0| && SameShape(iov, was)
        invariant off > 0 ==> ind < |iov| && off <= |iov[ind]|
        invariant done < |cp0| ==> Start(iov, ind) + off == off0 + done
        invariant off0 + done <= |base| && Flatten(iov) == Splice(base, off0, cp0[..done])
        decreases |iov| - ind
      {
        if ind == |iov| {
          StartEnds(iov);
          return false;
        }
        FlattenAt(iov, ind);
        var count := if |iov[ind]| - off < |cp0| - done then |iov[ind]| - off else |cp0| - done;
        ghost var before := iov;
        Put(ind, off, cp0[done..done + count]);
        ShapeStart(before, iov, ind + 1);
        SpliceMore(base, off0, cp0, done, count);
        done := done + count;
        off := 0;
        ind := ind + 1;
      }
      assert cp0[..done] == cp0;
      return true;
    }
  }

  /** One more piece of a copy. */
  lemma Gathered(v: seq<seq<byte>>, ind: nat, off: nat, count: nat, off0: nat, cp: seq<byte>)
    requires ind < |v| && off + count <= |v[ind]| && Start(v, ind) + off == off0 + |cp|
    requires off0 + |cp| <= |Flatten(v)| && cp == Flatten(v)[off0..off0 + |cp|]
    ensures Start(v, ind + 1) == Start(v, ind) + |v[ind]|
    ensures off0 + |cp| + count <= |Flatten(v)|
    ensures cp + v[ind][off..off + count] == Flatten(v)[off0..off0 + |cp| + count]
  {
    hide Flatten;
    FlattenAt(v, ind);
    SliceAt(v, ind, off, count);
    SliceMore(Flatten(v), off0, |cp|, count);
  }

  lemma SliceMore(s: seq<byte>, at: nat, n: nat, count: nat)
    requires at + n + count <= |s|
    ensures s[at..at + n] + s[at + n..at + n + count] == s[at..at + n + count]
  {
  }

  lemma SpliceNone(s: seq<byte>, at: nat)
    requires at <= |s|
    ensures Splice(s, at, []) == s
  {
  }

  lemma SpliceMore(s: seq<byte>, at: nat, d: seq<byte>, n: nat, count: nat)
    requires n + count <= |d| && at + n + count <= |s|
    ensures Splice(Splice(s, at, d[..n]), at + n, d[n..n + count]) == Splice(s, at, d[..n + count])
  {
    SpliceTwice(s, at, d[..n], d[n..n + count]);
    assert d[..n] + d[n..n + count] == d[..n + count];
  }

  lemma EmptyFlat()
    ensures Flatten<byte>([]) == []
  {
  }
}
