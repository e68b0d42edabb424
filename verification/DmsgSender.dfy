/**
 The transmitting half of a plaintext connection: dmsg_iocom_flush1 and dmsg_iocom_flush2.
 */
module DmsgSender {
  import opened DmsgWire
  import opened Slices

  /** The queue `ms` less the first `h` header and `a` data bytes of its first message. */
  function Rest(ms: seq<Packet>, h: nat, a: nat): seq<octet>
    requires Offsets(ms, h, a)
  {
    if ms == [] then [] else ms[0].hdr[h..] + ms[0].aux[a..] + Concat(ms[1..])
  }

  lemma NothingLeft()
    ensures Flatten<octet>([]) == [] && Rest([], 0, 0) == []
  {
  }

  lemma RestWhole(ms: seq<Packet>)
    ensures Rest(ms, 0, 0) == Concat(ms)
  {
  }

  lemma RestNext(ms: seq<Packet>)
    requires ms != []
    ensures Rest(ms, |ms[0].hdr|, |ms[0].aux|) == Rest(ms[1..], 0, 0)
  {
    RestWhole(ms[1..]);
  }

  lemma RestAppend(ms: seq<Packet>, ns: seq<Packet>, h: nat, a: nat)
    requires Offsets(ms, h, a)
    ensures Rest(ms + ns, h, a) == Rest(ms, h, a) + Concat(ns)
  {
    if ms == [] {
      assert ms + ns == ns;
      RestWhole(ns);
    } else {
      assert (ms + ns)[1..] == ms[1..] + ns;
      ConcatMore(ms[1..], ns);
    }
  }

  /** What flush1 makes of the messages handed over, the first of them being number `n`. */
  function PopulateAll(ms: seq<Packet>, n: nat, random: nat -> nat, crc: Crc): (r: seq<Packet>)
    requires forall i :: 0 <= i < |ms| ==> Queueable(ms[i], crc)
    ensures |r| == |ms|
  {
    if ms == [] then [] else [Populate(ms[0], n, random(n), crc)] + PopulateAll(ms[1..], n + 1, random, crc)
  }

  lemma {:induction false} PopulateAllSealed(ms: seq<Packet>, n: nat, random: nat -> nat, crc: Crc)
    requires forall i :: 0 <= i < |ms| ==> Queueable(ms[i], crc)
    ensures SealedAll(PopulateAll(ms, n, random, crc), n, crc)
    ensures forall i :: 0 <= i < |ms| ==> PopulateAll(ms, n, random, crc)[i].aux == ms[i].aux
    ensures forall i :: 0 <= i < |ms| ==> PopulateAll(ms, n, random, crc)[i].auxSize == ms[i].auxSize
  {
    hide Populate, Sealed, Queueable;
    if ms != [] {
      PopulateSeals(ms[0], n, random(n), crc);
      PopulateAllSealed(ms[1..], n + 1, random, crc);
      var rest := PopulateAll(ms[1..], n + 1, random, crc);
      forall i | 0 <= i < |ms|
        ensures Sealed(PopulateAll(ms, n, random, crc)[i], n + i, crc)
      {
        if i > 0 { assert PopulateAll(ms, n, random, crc)[i] == rest[i - 1]; }
      }
    }
  }

  /** Every message comes out with its own content, in its own place. */
  lemma {:induction false} PopulateAllKeeps(ms: seq<Packet>, n: nat, random: nat -> nat, crc: Crc)
    requires forall i :: 0 <= i < |ms| ==> Queueable(ms[i], crc)
    ensures forall i :: 0 <= i < |ms| ==> |ms[i].hdr| >= HDR_SIZE
    ensures forall i :: 0 <= i < |ms| ==> Carries(PopulateAll(ms, n, random, crc)[i], ms[i])
  {
    hide Populate, Carries;
    if ms != [] {
      PopulateKeeps(ms[0], n, random(n), crc);
      PopulateAllKeeps(ms[1..], n + 1, random, crc);
      var rest := PopulateAll(ms[1..], n + 1, random, crc);
      forall i | 0 <= i < |ms|
        ensures Carries(PopulateAll(ms, n, random, crc)[i], ms[i])
      {
        if i > 0 { assert PopulateAll(ms, n, random, crc)[i] == rest[i - 1]; }
      }
    }
  }

  lemma {:induction false} PopulateMore(ms: seq<Packet>, ns: seq<Packet>, n: nat, random: nat -> nat, crc: Crc)
    requires forall i :: 0 <= i < |ms| ==> Queueable(ms[i], crc)
    requires forall i :: 0 <= i < |ns| ==> Queueable(ns[i], crc)
    ensures forall i :: 0 <= i < |ms + ns| ==> Queueable((ms + ns)[i], crc)
    ensures PopulateAll(ms + ns, n, random, crc) ==
            PopulateAll(ms, n, random, crc) + PopulateAll(ns, n + |ms|, random, crc)
  {
    hide Queueable, Populate, PopulateAll;
    if ms == [] {
      PopulateNone(n, random, crc);
      assert ms + ns == ns;
    } else {
      assert (ms + ns)[1..] == ms[1..] + ns;
      PopulateMore(ms[1..], ns, n + 1, random, crc);
      PopulateFirst(ms, n, random, crc);
      PopulateFirst(ms + ns, n, random, crc);
      var a, b := PopulateAll(ms[1..], n + 1, random, crc), PopulateAll(ns, n + |ms|, random, crc);
      var one := [Populate(ms[0], n, random(n), crc)];
      assert one + (a + b) == (one + a) + b;
    }
  }

  lemma PopulateFirst(ms: seq<Packet>, n: nat, random: nat -> nat, crc: Crc)
    requires ms != [] && forall i :: 0 <= i < |ms| ==> Queueable(ms[i], crc)
    ensures PopulateAll(ms, n, random, crc) ==
            [Populate(ms[0], n, random(n), crc)] + PopulateAll(ms[1..], n + 1, random, crc)
  {
    hide Queueable, Populate;
  }

  lemma PopulateNone(n: nat, random: nat -> nat, crc: Crc)
    ensures PopulateAll([], n, random, crc) == []
  {
  }

  lemma PopulateNext(q: seq<Packet>, ms: seq<Packet>, n: nat, random: nat -> nat, crc: Crc)
    requires ms != [] && forall i :: 0 <= i < |ms| ==> Queueable(ms[i], crc)
    ensures (q + [Populate(ms[0], n, random(n), crc)]) + PopulateAll(ms[1..], n + 1, random, crc) ==
            q + PopulateAll(ms, n, random, crc)
    ensures Populate(ms[0], n, random(n), crc).hdr != []
  {
    hide Populate, PopulateAll, Queueable, Get, AuxField, Align;
    PopulateSeals(ms[0], n, random(n), crc);
    PopulateFirst(ms, n, random, crc);
    var one, rest := [Populate(ms[0], n, random(n), crc)], PopulateAll(ms[1..], n + 1, random, crc);
    assert (q + one) + rest == q + (one + rest);
  }

  /** Offsets `h` and `a` into the first message of `ms`. */
  predicate Offsets(ms: seq<Packet>, h: nat, a: nat) {
    && (ms == [] ==> h == a == 0)
    && (ms != [] ==> h <= |ms[0].hdr| && a <= |ms[0].aux| && (a > 0 ==> h == |ms[0].hdr|))
  }

  lemma RestSplit(ms: seq<Packet>, i: nat, h: nat, a: nat)
    requires i < |ms| && Offsets(ms[i..], h, a)
    ensures Rest(ms[i..], h, a) == ms[i].hdr[h..] + (ms[i].aux[a..] + Concat(ms[i + 1..]))
  {
    assert ms[i..][1..] == ms[i + 1..];
    Assoc(ms[i].hdr[h..], ms[i].aux[a..], Concat(ms[i + 1..]));
  }

  lemma RestHeader(ms: seq<Packet>, h: nat, a: nat, n: nat)
    requires ms != [] && Offsets(ms, h, a) && n <= |ms[0].hdr| - h && (a > 0 ==> n == 0)
    ensures n <= |Rest(ms, h, a)| && Rest(ms, h, a)[n..] == Rest(ms, h + n, a)
  {
    assert ms[0].hdr[h..][n..] == ms[0].hdr[h + n..];
  }

  lemma RestData(ms: seq<Packet>, a: nat, n: nat)
    requires ms != [] && a + n <= |ms[0].aux|
    ensures n <= |Rest(ms, |ms[0].hdr|, a)| && Rest(ms, |ms[0].hdr|, a)[n..] == Rest(ms, |ms[0].hdr|, a + n)
  {
    assert ms[0].aux[a..][n..] == ms[0].aux[a + n..];
  }

  lemma SliceSlice(s: seq<octet>, d: nat, n: nat)
    requires d <= n <= |s|
    ensures s[d..][n - d..] == s[n..]
  {
  }

  lemma SkipEmpty(x: seq<octet>, v: seq<octet>, rest: seq<octet>)
    requires v == []
    ensures x + (v + rest) == x + rest
  {
    assert v + rest == rest;
  }

  /** Append a piece to a scatter list that covers the front of `all`. */
  method Piece(iov: seq<seq<octet>>, v: seq<octet>, ghost rest: seq<octet>, ghost all: seq<octet>)
    returns (iov': seq<seq<octet>>)
    requires all == Flatten(iov) + (v + rest)
    ensures iov' == iov + [v] && all == Flatten(iov') + rest
    ensures v != [] ==> Flatten(iov') != []
  {
    iov' := iov + [v];
    FlattenConcat(iov, [v]);
    FlattenOne(v);
    Assoc(Flatten(iov), v, rest);
  }

  /** The scatter list dmsg_iocom_flush2 offers to the socket, of at most MAXIOVEC pieces. */
  method BuildIov(msgq: seq<Packet>, hbytes: nat, abytes: nat) returns (iov: seq<seq<octet>>)
    requires Offsets(msgq, hbytes, abytes) && (msgq != [] ==> hbytes + abytes < |Encode(msgq[0])|)
    requires forall i :: 0 <= i < |msgq| ==> msgq[i].hdr != []
    ensures |iov| <= MAXIOVEC && Flatten(iov) <= Rest(msgq, hbytes, abytes)
    ensures msgq != [] ==> Flatten(iov) != []
  {
    hide Rest, Concat, Flatten;
    iov := [];
    var hoff: nat, aoff: nat, i := hbytes, abytes, 0;
    ghost var all := Rest(msgq, hbytes, abytes);
    assert msgq[0..] == msgq;
    NothingLeft();
    while i < |msgq|
      invariant i <= |msgq| && |iov| < MAXIOVEC
      invariant Offsets(msgq[i..], hoff, aoff)
      invariant all == Flatten(iov) + Rest(msgq[i..], hoff, aoff)
      invariant if i == 0 then hoff == hbytes && aoff == abytes else Flatten(iov) != []
    {
      var m := msgq[i];
      ghost var later := Concat(msgq[i + 1..]);
      RestSplit(msgq, i, hoff, aoff);
      if hoff < |m.hdr| {
        iov := Piece(iov, m.hdr[hoff..], m.aux[aoff..] + later, all);
        if |iov| == MAXIOVEC { break; }
      } else {
        SkipEmpty(Flatten(iov), m.hdr[hoff..], m.aux[aoff..] + later);
      }
      if aoff < |m.aux| {
        iov := Piece(iov, m.aux[aoff..], later, all);
        if |iov| == MAXIOVEC { break; }
      } else {
        SkipEmpty(Flatten(iov), m.aux[aoff..], later);
      }
      hoff, aoff, i := 0, 0, i + 1;
      RestWhole(msgq[i..]);
    }
  }

  class Sender {
    const crc: Crc
    var txmsgq: seq<Packet>     // handed over by dmsg_msg_write
    var msgq: seq<Packet>       // queued for the socket
    var hbytes: nat             // header bytes of the first message already written
    var abytes: nat             // data bytes of the first message already written
    var next: nat               // number of the next message

    predicate Valid()
      reads this
    {
      && (forall i :: 0 <= i < |txmsgq| ==> Queueable(txmsgq[i], crc))
      && (forall i :: 0 <= i < |msgq| ==> msgq[i].hdr != [])
      && Offsets(msgq, hbytes, abytes)
      && (msgq != [] ==> hbytes + abytes < |Encode(msgq[0])|)
    }

    /** The bytes queued for the socket and not yet written. */
    function Unsent(): seq<octet>
      requires Valid()
      reads this
    {
      Rest(msgq, hbytes, abytes)
    }

    constructor (crc: Crc)
      ensures Valid() && this.crc == crc && txmsgq == [] && msgq == [] && next == 0
      ensures Unsent() == []
    {
      this.crc := crc;
      txmsgq, msgq, hbytes, abytes, next := [], [], 0, 0, 0;
    }

    /** dmsg_msg_write hands over a message. */
    method Submit(m: Packet)
      requires Valid() && Queueable(m, crc)
      modifies this`txmsgq
      ensures Valid() && txmsgq == old(txmsgq) + [m] && Unsent() == old(Unsent())
    {
      txmsgq := txmsgq + [m];
    }

    /** The first half of dmsg_iocom_flush1: number, seal and queue what was handed over. */
    method Queue(random: nat -> nat)
      requires Valid()
      modifies this`txmsgq, this`msgq, this`next
      ensures Valid() && txmsgq == []
      ensures next == old(next) + |old(txmsgq)|
      ensures msgq == old(msgq) + PopulateAll(old(txmsgq), old(next), random, crc)
      ensures Unsent() == old(Unsent()) + Concat(PopulateAll(old(txmsgq), old(next), random, crc))
    {
      hide Queueable, Populate, PopulateAll, Rest, Concat;
      ghost var made := PopulateAll(txmsgq, next, random, crc);
      while txmsgq != []
        invariant Valid() && hbytes == old(hbytes) && abytes == old(abytes)
        invariant next + |txmsgq| == old(next) + |old(txmsgq)|
        invariant msgq + PopulateAll(txmsgq, next, random, crc) == old(msgq) + made
        decreases |txmsgq|
      {
        PopulateNext(msgq, txmsgq, next, random, crc);
        var m := txmsgq[0];
        txmsgq := txmsgq[1..];
        msgq := msgq + [Populate(m, next, random(next), crc)];
        next := next + 1;
      }
      PopulateNone(next, random, crc);
      RestAppend(old(msgq), made, hbytes, abytes);
    }

    /** The last part of dmsg_iocom_flush2: take `written` bytes off the queue. */
    method Advance(written: nat)
      requires Valid() && written <= |Unsent()|
      modifies this`msgq, this`hbytes, this`abytes
      ensures Valid() && Unsent() == old(Unsent())[written..]
    {
      hide Queueable, Rest, Concat;
      var nact: nat := written;
      ghost var target := Unsent()[written..];
      NothingLeft();
      while msgq != []
        invariant Valid() && nact <= |Unsent()| && Unsent()[nact..] == target
        decreases |msgq|
      {
        ghost var whole := Unsent();
        var left := |msgq[0].hdr| - hbytes;
        if nact < left {
          RestHeader(msgq, hbytes, abytes, nact);
          hbytes := hbytes + nact;
          nact := 0;
          break;
        }
        RestHeader(msgq, hbytes, abytes, left);
        SliceSlice(whole, left, nact);
        nact := nact - left;
        hbytes := |msgq[0].hdr|;
        ghost var data := Rest(msgq, hbytes, abytes);
        var due := |msgq[0].aux| - abytes;
        if nact < due {
          RestData(msgq, abytes, nact);
          abytes := abytes + nact;
          nact := 0;
          break;
        }
        RestData(msgq, abytes, due);
        SliceSlice(data, due, nact);
        nact := nact - due;
        RestNext(msgq);
        msgq := msgq[1..];
        hbytes, abytes := 0, 0;
      }
      assert nact == 0;
    }

    /** dmsg_iocom_flush2; `accept` is how much the socket would take, none standing for EAGAIN. */
    method Flush2(accept: nat) returns (out: seq<octet>)
      requires Valid()
      modifies this`msgq, this`hbytes, this`abytes
      ensures Valid() && out + Unsent() == old(Unsent()) && |out| <= accept
      ensures accept > 0 && old(msgq) != [] ==> out != []
    {
      var iov := BuildIov(msgq, hbytes, abytes);
      var data := Flatten(iov);
      var n := if accept < |data| then accept else |data|;
      out := data[..n];
      Advance(n);
    }
  }
}
