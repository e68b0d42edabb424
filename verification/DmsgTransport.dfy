/**
 A sender, a socket and a reader together: what is handed to dmsg_msg_write at one end comes
 out of dmsg_ioq_read at the other, whole and in order, whatever pieces it travels in.
 */
module DmsgTransport {
  import opened DmsgWire
  import opened DmsgSender
  import opened DmsgReader

  /** What happens on a connection, in any order. */
  datatype Event =
    | Submit(m: Packet)           // dmsg_msg_write
    | Flush(accept: nat)          // dmsg_iocom_flush1, the socket taking at most `accept` bytes
    | Arrive(pieces: seq<nat>)    // dmsg_ioq_read, the socket giving pieces of these sizes

  predicate AllQueueable(ms: seq<Packet>, crc: Crc) {
    forall i :: 0 <= i < |ms| ==> Queueable(ms[i], crc)
  }

  /** The messages of `ds` are the first of `ms`, in order, each with its whole content. */
  predicate Deliver(ms: seq<Packet>, ds: seq<Packet>) {
    && |ds| <= |ms|
    && (forall k :: 0 <= k < |ds| ==> |ms[k].hdr| >= HDR_SIZE && Carries(ds[k], ms[k]))
  }

  class Connection {
    const tx: Sender
    const sock: Socket
    const rx: Reader
    const random: nat -> nat
    ghost var accepted: seq<Packet>      // handed over and taken up by flush1
    ghost var sealed: seq<Packet>        // what flush1 made of them
    var delivered: seq<Packet>           // delivered by the reader

    ghost predicate Valid()
      reads this, tx, sock, rx, rx.buf
    {
      && rx.sock == sock && rx.crc == tx.crc && tx.Valid() && rx.Fifo() && rx.Sane() && rx.err == NoError && !sock.shut
      && AllQueueable(accepted, tx.crc) && sealed == PopulateAll(accepted, 0, random, tx.crc)
      && SealedAll(sealed, 0, tx.crc)
      && tx.next == |sealed| && rx.next == |delivered| && delivered <= sealed
      && rx.Total() + tx.Unsent() == Concat(sealed[|delivered|..])
    }

    constructor (crc: Crc, random: nat -> nat)
      ensures Valid() && accepted == [] && delivered == [] && tx.txmsgq == []
      ensures fresh(tx) && fresh(sock) && fresh(rx) && fresh(rx.buf) && tx.crc == crc && this.random == random
    {
      var t := new Sender(crc);
      var s := new Socket();
      var r := new Reader(crc, s);
      tx, sock, rx, this.random := t, s, r, random;
      accepted, sealed, delivered := [], [], [];
    }

    method Hand(m: Packet)
      requires Valid() && Queueable(m, tx.crc)
      modifies tx
      ensures Valid() && tx.txmsgq == old(tx.txmsgq) + [m]
    {
      hide Concat, Queueable, Reader.Sane;
      tx.Submit(m);
    }

    /** dmsg_iocom_flush1 */
    method Transmit(accept: nat)
      requires Valid()
      modifies this, tx, sock
      ensures Valid() && delivered == old(delivered)
      ensures accepted == old(accepted) + old(tx.txmsgq) && tx.txmsgq == []
      ensures accept > 0 && old(tx.txmsgq) == [] && old(tx.msgq) != [] ==> |tx.Unsent()| < |old(tx.Unsent())|
    {
      hide Queueable, Concat, Rest, PopulateAll, Reader.Sane, SealedAll;
      ghost var more := tx.txmsgq;
      ghost var made := PopulateAll(more, tx.next, random, tx.crc);
      ghost var before, unsent := rx.Total(), tx.Unsent();
      PopulateMore(accepted, more, 0, random, tx.crc);
      PopulateAllSealed(accepted + more, 0, random, tx.crc);
      PopulateNone(tx.next, random, tx.crc);
      ConcatNone();
      TodoMore(sealed, made, |delivered|);
      ConcatMore(sealed[|delivered|..], made);
      tx.Queue(random);
      ghost var queued := tx.Unsent();
      var out := tx.Flush2(accept);
      Assoc(rx.Held(), sock.data, out);
      sock.data := sock.data + out;
      accepted, sealed := accepted + more, sealed + made;
      Joined(before, unsent, Concat(made), queued, out, tx.Unsent());
    }

    /** What has been delivered is what was handed over, message by message and byte by byte. */
    lemma DeliveredIsAccepted()
      requires Valid()
      ensures Deliver(accepted, delivered)
    {
      hide Carries, Queueable, PopulateAll, Concat, Rest, SealedAll, Reader.Sane;
      PopulateAllKeeps(accepted, 0, random, tx.crc);
      forall k | 0 <= k < |delivered| ensures Carries(delivered[k], accepted[k]) {
        assert delivered[k] == sealed[k];
      }
    }

    /** What has not been delivered is what the reader may expect. */
    lemma TodoGood()
      requires Valid()
      ensures rx.Good(sealed[|delivered|..])
    {
      hide Concat, PopulateAll, Queueable, Rest, Sealed;
      var todo := sealed[|delivered|..];
      forall i | 0 <= i < |todo| ensures Sealed(todo[i], rx.next + i, rx.crc) {
        assert Sealed(sealed[|delivered| + i], 0 + (|delivered| + i), tx.crc);
      }
    }

    /** dmsg_ioq_read, once, and what it delivers. */
    method Receive(pieces: seq<nat>) returns (got: bool)
      requires Valid()
      modifies this`delivered, sock, rx, rx.buf
      ensures Valid()
      ensures got ==> |delivered| == |old(delivered)| + 1
      ensures !got ==> delivered == old(delivered)
      ensures |sock.data| <= |old(sock.data)|
      ensures pieces == [] && !got && tx.Unsent() == [] && |delivered| < |sealed| ==> |sock.data| < |old(sock.data)|
    {
      hide Queueable, Concat, Rest, PopulateAll, Sealed, SealedAll, AllQueueable, Passed, Reader.Sane, GoodStream;
      sock.pieces := pieces;
      ghost var todo := sealed[|delivered|..];
      TodoGood();
      var r := rx.Next(todo);
      got := r.Some?;
      if got {
        OneMore(sealed, delivered, rx.Total(), tx.Unsent());
        delivered := delivered + [r.value];
      } else if tx.Unsent() == [] && |delivered| < |sealed| {
        rx.StalledShort(todo);
        NextTodo(todo);
      }
    }

    /** Whatever happens, in whatever order. */
    method Run(events: seq<Event>)
      requires Valid() && forall i :: 0 <= i < |events| && events[i].Submit? ==> Queueable(events[i].m, tx.crc)
      modifies this, tx, sock, rx, rx.buf
      ensures Valid()
      ensures accepted + tx.txmsgq == old(accepted + tx.txmsgq) + Submitted(events)
      ensures tx.txmsgq == Waiting(old(tx.txmsgq), events)
      ensures Deliver(accepted, delivered)
    {
      hide Queueable, Valid, Deliver;
      for i := 0 to |events|
        invariant Valid()
        invariant accepted + tx.txmsgq == old(accepted + tx.txmsgq) + Submitted(events[..i])
        invariant tx.txmsgq == Waiting(old(tx.txmsgq), events[..i])
      {
        SubmittedMore(events, i);
        WaitingMore(old(tx.txmsgq), events, i);
        ghost var a, t := accepted, tx.txmsgq;
        match events[i]
        case Submit(m) =>
          Hand(m);
          assert a + (t + [m]) == (a + t) + [m];
        case Flush(accept) =>
          Transmit(accept);
          assert (a + t) + [] == a + t;
        case Arrive(pieces) =>
          var _ := Receive(pieces);
      }
      assert events[..|events|] == events;
      DeliveredIsAccepted();
    }

    /** Given time, everything handed over is delivered. */
    method Drain()
      requires Valid()
      modifies this, tx, sock, rx, rx.buf
      ensures Valid() && tx.txmsgq == [] && accepted == old(accepted + tx.txmsgq)
      ensures delivered == PopulateAll(accepted, 0, random, tx.crc)
      ensures |delivered| == |accepted| && Deliver(accepted, delivered)
    {
      hide Queueable, Rest, PopulateAll, Concat, SealedAll, Reader.Sane, Deliver;
      Transmit(1);
      while tx.msgq != []
        invariant Valid() && tx.txmsgq == [] && accepted == old(accepted + tx.txmsgq)
        decreases |tx.Unsent()|
      {
        Transmit(65536);
      }
      NothingLeft();
      while |delivered| < tx.next
        invariant Valid() && tx.txmsgq == [] && tx.msgq == [] && accepted == old(accepted + tx.txmsgq)
        decreases tx.next - |delivered|, |sock.data|
      {
        var _ := Receive([]);
      }
      DeliveredIsAccepted();
    }
  }

  function Submitted(events: seq<Event>): seq<Packet> {
    if events == [] then []
    else Submitted(events[..|events| - 1]) + var e := events[|events| - 1]; if e.Submit? then [e.m] else []
  }

  /** What has been handed over since the last flush. */
  function Waiting(before: seq<Packet>, events: seq<Event>): seq<Packet> {
    if events == [] then before
    else
      match events[|events| - 1]
      case Submit(m) => Waiting(before, events[..|events| - 1]) + [m]
      case Flush(_) => []
      case Arrive(_) => Waiting(before, events[..|events| - 1])
  }

  lemma SubmittedMore(events: seq<Event>, i: nat)
    requires i < |events|
    ensures Submitted(events[..i + 1]) == Submitted(events[..i]) + if events[i].Submit? then [events[i].m] else []
  {
    assert events[..i + 1][..i] == events[..i];
  }

  lemma WaitingMore(before: seq<Packet>, events: seq<Event>, i: nat)
    requires i < |events|
    ensures Waiting(before, events[..i + 1]) ==
      match events[i]
      case Submit(m) => Waiting(before, events[..i]) + [m]
      case Flush(_) => []
      case Arrive(_) => Waiting(before, events[..i])
  {
    assert events[..i + 1][..i] == events[..i];
  }

  lemma ConcatNone()
    ensures Concat([]) == []
  {
  }

  lemma NextTodo(todo: seq<Packet>)
    requires todo != []
    ensures Concat(todo) == Encode(todo[0]) + Concat(todo[1..])
  {
  }

  /** The first message not yet delivered is delivered. */
  lemma OneMore(sealed: seq<Packet>, delivered: seq<Packet>, total: seq<octet>, unsent: seq<octet>)
    requires delivered <= sealed && |delivered| < |sealed|
    requires (Encode(sealed[|delivered|]) + total) + unsent == Concat(sealed[|delivered|..])
    ensures delivered + [sealed[|delivered|]] <= sealed
    ensures total + unsent == Concat(sealed[|delivered| + 1..])
  {
    hide Concat, Encode;
    var todo := sealed[|delivered|..];
    assert todo[0] == sealed[|delivered|] && todo[1..] == sealed[|delivered| + 1..];
    NextTodo(todo);
    Cancel(Encode(todo[0]), total, unsent, Concat(todo[1..]));
  }

  lemma Cancel(m: seq<octet>, total: seq<octet>, unsent: seq<octet>, rest: seq<octet>)
    requires (m + total) + unsent == m + rest
    ensures total + unsent == rest
  {
    assert ((m + total) + unsent)[|m|..] == total + unsent;
    assert (m + rest)[|m|..] == rest;
  }

  lemma TodoMore(sealed: seq<Packet>, made: seq<Packet>, k: nat)
    requires k <= |sealed|
    ensures (sealed + made)[k..] == sealed[k..] + made
  {
  }

  lemma Joined(total: seq<octet>, unsent: seq<octet>, more: seq<octet>, queued: seq<octet>,
               out: seq<octet>, left: seq<octet>)
    requires queued == unsent + more && queued == out + left
    ensures (total + out) + left == (total + unsent) + more
  {
    assert (total + out) + left == total + (out + left);
    assert (total + unsent) + more == total + (unsent + more);
  }
}
