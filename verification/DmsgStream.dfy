/**
 One transaction id seen from outside: the state its initiator keeps, the state the other end
 keeps, and the messages about it still on the way in either direction.

 An id is the address of the initiator's structure, so it can be taken again while messages
 of its last use are still on the way.  `Agreed` lists the situations this can lead to.
 */
module DmsgStream {
  import opened Options
  import opened DmsgState

  /** Tells one use of an id from the next, and says under which transaction it is stacked. */
  datatype Tag = Top | Tag(serial: nat, up: Tag)

  /** A message about a transaction, or one about a transaction stacked under it. */
  datatype Item = Own(cmd: Cmd, tag: Tag) | Sub(tag: Tag) {
    predicate Creates() { Own? && cmd.create }

    predicate Deletes() { Own? && cmd.delete }
  }

  /** The flags one end keeps for a transaction, and which use of the id it is. */
  datatype Half = Half(tx: Dir, rx: Dir, tag: Tag)

  /** Closed in both directions, a transaction is forgotten. */
  function Settle(h: Half): Option<Half> {
    if h.tx.delete && h.rx.delete then None else Some(h)
  }

  predicate NoCreate(c: seq<Item>) { forall i :: 0 <= i < |c| ==> !c[i].Creates() }

  predicate DeleteLast(c: seq<Item>) { forall i :: 0 <= i < |c| - 1 ==> !c[i].Deletes() }

  predicate NoOwn(c: seq<Item>) { forall i :: 0 <= i < |c| ==> c[i].Sub? }

  /** Every item of `c` belongs to the use `t` of the id. */
  predicate Tagged(c: seq<Item>, t: Tag) { forall i :: 0 <= i < |c| ==> c[i].tag == t }

  /** Rest of a message sequence whose first message has been received. */
  predicate Tail(c: seq<Item>) { NoCreate(c) && DeleteLast(c) }

  /** A message sequence from its first message on. */
  predicate Whole(c: seq<Item>) { c != [] && c[0].Creates() && NoCreate(c[1..]) && DeleteLast(c) }

  /** Before its first reply, the other end may already have used the transaction as a circuit. */
  predicate Opens(c: seq<Item>) { c != [] && if c[0].Sub? then Opens(c[1..]) else Whole(c) }

  /** The sequence has been ended by its sender. */
  predicate Closed(c: seq<Item>) { c != [] && c[|c| - 1].Deletes() }

  /** The initiator has not sent anything for the id. */
  predicate Unborn(a: Option<Half>) {
    a.None? || (a.value.tx == NoFlags && a.value.rx == Dir(false, false, true))
  }

  /** The initiator has started the transaction; nothing has come back. */
  predicate Waiting(a: Option<Half>) {
    a.Some? && a.value.tx.create && !a.value.tx.reply && a.value.rx == Dir(false, false, true)
  }

  /** `c` is what the initiator sent so far, all of it still on the way. */
  predicate Sent(a: Option<Half>, c: seq<Item>) {
    if Unborn(a) then c == []
    else Waiting(a) && Whole(c) && Tagged(c, a.value.tag) && (Closed(c) <==> a.value.tx.delete)
  }

  /** `r` is what is on the way to the end holding `h`, in the direction it has received part of. */
  predicate Coming(h: Half, r: seq<Item>, started: bool, ended: bool) {
    && Tagged(r, h.tag)
    && (if !started then NoOwn(r) && !h.rx.create && !ended
        else if h.rx.create then Tail(r) else Opens(r))
    && (h.rx.delete ==> h.rx.create && ended && r == [])
    && (Closed(r) <==> ended && !h.rx.delete)
  }

  /** Neither end knows the id and nothing is on the way, or the initiator has sent all there is. */
  predicate NotYet(a: Option<Half>, b: Option<Half>, c: seq<Item>, r: seq<Item>) {
    b.None? && r == [] && Sent(a, c)
  }

  /** Both ends have the transaction. */
  predicate Live(a: Option<Half>, b: Option<Half>, c: seq<Item>, r: seq<Item>) {
    && a.Some? && b.Some? && a.value.tag == b.value.tag
    && a.value.tx.create && !a.value.tx.reply && a.value.rx.reply
    && b.value.rx.create && !b.value.rx.reply && b.value.tx.reply
    && (b.value.tx.delete ==> b.value.tx.create)
    && !(a.value.tx.delete && a.value.rx.delete) && !(b.value.tx.delete && b.value.rx.delete)
    && Coming(b.value, c, true, a.value.tx.delete)
    && Coming(a.value, r, b.value.tx.create, b.value.tx.delete)
  }

  /** The other end is done; its last messages are on the way to the initiator. */
  predicate Ending(a: Option<Half>, b: Option<Half>, c: seq<Item>, r: seq<Item>) {
    && a.Some? && b.None? && c == []
    && a.value.tx.create && a.value.tx.delete && !a.value.tx.reply && a.value.rx.reply && !a.value.rx.delete
    && Coming(a.value, r, true, true)
  }

  /** The initiator is done, and may have taken the id again; the first `n` messages are from before. */
  predicate StaleAt(a: Option<Half>, b: Option<Half>, c: seq<Item>, r: seq<Item>, n: nat) {
    && b.Some? && r == [] && 0 < n <= |c|
    && b.value.tx.create && b.value.tx.delete && b.value.tx.reply
    && b.value.rx.create && !b.value.rx.delete && !b.value.rx.reply
    && Tail(c[..n]) && Closed(c[..n]) && Tagged(c[..n], b.value.tag) && Sent(a, c[n..])
  }

  ghost predicate Stale(a: Option<Half>, b: Option<Half>, c: seq<Item>, r: seq<Item>) {
    exists n: nat :: StaleAt(a, b, c, r, n)
  }

  ghost predicate Agreed(a: Option<Half>, b: Option<Half>, c: seq<Item>, r: seq<Item>) {
    NotYet(a, b, c, r) || Live(a, b, c, r) || Ending(a, b, c, r) || Stale(a, b, c, r)
  }

  // ----- what either end may do keeps the two agreed

  lemma OpenAgrees(b: Option<Half>, c: seq<Item>, r: seq<Item>, t: Tag)
    requires Agreed(None, b, c, r)
    ensures Agreed(Some(Half(NoFlags, Dir(false, false, true), t)), b, c, r)
  {
    var a := Some(Half(NoFlags, Dir(false, false, true), t));
    if Stale(None, b, c, r) {
      var n: nat :| StaleAt(None, b, c, r, n);
      assert StaleAt(a, b, c, r, n);
    }
  }

  lemma StartAgrees(a: Option<Half>, b: Option<Half>, c: seq<Item>, r: seq<Item>, m: Cmd)
    requires Agreed(a, b, c, r) && a.Some? && !a.value.tx.create && m.create
    ensures Agreed(Some(a.value.(tx := Dir(true, m.delete, false))), b, c + [Own(m, a.value.tag)], r)
    ensures !a.value.tx.delete && !a.value.rx.delete
  {
    var a', i := Some(a.value.(tx := Dir(true, m.delete, false))), Own(m, a.value.tag);
    if Stale(a, b, c, r) {
      var n: nat :| StaleAt(a, b, c, r, n);
      assert (c + [i])[..n] == c[..n];
      assert (c + [i])[n..] == c[n..] + [i];
      assert StaleAt(a', b, c + [i], r, n);
    } else {
      assert c == [];
      assert NotYet(a', b, [i], r);
      assert [i] == c + [i];
    }
  }

  lemma SentMore(a: Option<Half>, c: seq<Item>, i: Item)
    requires Sent(a, c) && !Unborn(a) && !a.value.tx.delete && !i.Creates() && i.tag == a.value.tag
    ensures Sent(Some(a.value.(tx := a.value.tx.(delete := i.Deletes()))), c + [i])
  {
    assert (c + [i])[1..] == c[1..] + [i];
  }

  lemma {:induction false} OpensMore(c: seq<Item>, i: Item)
    requires if i.Creates() then NoOwn(c) else Opens(c) && !Closed(c)
    ensures Opens(c + [i])
  {
    if c == [] {
      assert c + [i] == [i];
    } else if c[0].Sub? {
      assert (c + [i])[1..] == c[1..] + [i];
      if !i.Creates() {
        assert c[1..][|c| - 2] == c[|c| - 1];
      }
      OpensMore(c[1..], i);
    } else {
      assert (c + [i])[1..] == c[1..] + [i];
    }
  }

  /** One more message on its way: a first one if none was sent, and any other one after that. */
  lemma ComingMore(h: Half, c: seq<Item>, started: bool, i: Item)
    requires Coming(h, c, started, false) && i.tag == h.tag
    requires i.Own? ==> i.cmd.create == !started
    ensures Coming(h, c + [i], started || i.Own?, i.Deletes())
  {
    if (started || i.Own?) && !h.rx.create {
      OpensMore(c, i);
    }
  }

  lemma SendAgrees(a: Option<Half>, b: Option<Half>, c: seq<Item>, r: seq<Item>, i: Item)
    requires Agreed(a, b, c, r) && a.Some? && a.value.tx.create && !a.value.tx.delete
    requires !i.Creates() && i.tag == a.value.tag
    ensures Agreed(Settle(a.value.(tx := a.value.tx.(delete := i.Deletes()))), b, c + [i], r)
  {
    var h := a.value.(tx := a.value.tx.(delete := i.Deletes()));
    if Live(a, b, c, r) {
      ComingMore(b.value, c, true, i);
      if Settle(h).Some? {
        assert Live(Some(h), b, c + [i], r);
      } else {
        assert (c + [i])[..|c| + 1] == c + [i];
        assert StaleAt(None, b, c + [i], r, |c| + 1);
      }
    } else if NotYet(a, b, c, r) {
      SentMore(a, c, i);
      assert NotYet(Some(h), b, c + [i], r);
    } else {
      var n: nat :| StaleAt(a, b, c, r, n);
      assert (c + [i])[..n] == c[..n];
      assert (c + [i])[n..] == c[n..] + [i];
      SentMore(a, c[n..], i);
      assert StaleAt(Some(h), b, c + [i], r, n);
    }
  }

  lemma ReplyAgrees(a: Option<Half>, b: Option<Half>, c: seq<Item>, r: seq<Item>, m: Cmd)
    requires Agreed(a, b, c, r) && b.Some? && !b.value.tx.delete && m.create == !b.value.tx.create
    ensures Agreed(a, Settle(b.value.(tx := Dir(true, m.delete, true))), c, r + [Own(m, b.value.tag)])
  {
    var h, i := b.value.(tx := Dir(true, m.delete, true)), Own(m, b.value.tag);
    assert Live(a, b, c, r);
    ComingMore(a.value, r, b.value.tx.create, i);
    if Settle(h).Some? {
      assert Live(a, Some(h), c, r + [i]);
    } else {
      assert Ending(a, None, c, r + [i]);
    }
  }

  /** The other end uses the transaction as a circuit. */
  lemma UseAgrees(a: Option<Half>, b: Option<Half>, c: seq<Item>, r: seq<Item>)
    requires Agreed(a, b, c, r) && b.Some? && !b.value.tx.delete
    ensures Agreed(a, b, c, r + [Sub(b.value.tag)])
  {
    assert Live(a, b, c, r);
    ComingMore(a.value, r, b.value.tx.create, Sub(b.value.tag));
    assert Live(a, b, c, r + [Sub(b.value.tag)]);
  }

  /** What is left of the head of a stream once it has been received but not yet retired. */
  function Pending(i: Item): seq<Item> {
    if i.Deletes() then [Own(i.cmd.(create := false), i.tag)] else []
  }

  /** The reception flags once `i` has been received. */
  function Begun(rx: Dir, i: Item): Dir { if i.Own? then rx.(create := true) else rx }

  lemma TailReceived(h: Half, c: seq<Item>, started: bool, ended: bool)
    requires Coming(h, c, started, ended) && c != []
    ensures !h.rx.delete && c[0].tag == h.tag && (c[0].Own? ==> started && c[0].cmd.create == !h.rx.create)
    ensures Coming(h.(rx := Begun(h.rx, c[0])), Pending(c[0]) + c[1..], started, ended)
  {
    var c' := Pending(c[0]) + c[1..];
    if c[0].Deletes() {
      assert |c| == 1;
      assert c' == [Own(c[0].cmd.(create := false), c[0].tag)];
    } else {
      assert c' == c[1..];
    }
  }

  lemma StaleEnd(a: Option<Half>, b: Option<Half>, c: seq<Item>, r: seq<Item>, n: nat)
    requires StaleAt(a, b, c, r, n) && c[0].Deletes()
    ensures !c[0].Creates() && c[0].tag == b.value.tag && StaleAt(a, b, Pending(c[0]) + c[1..], r, 1)
  {
    var c' := Pending(c[0]) + c[1..];
    assert c[..n][0] == c[0];
    assert n == 1;
    assert c'[..1] == Pending(c[0]);
    assert c'[1..] == c[1..];
  }

  lemma TailRest(c: seq<Item>, t: Tag)
    requires Tail(c) && Closed(c) && Tagged(c, t) && !c[0].Deletes()
    ensures |c| > 1 && Tail(c[1..]) && Closed(c[1..]) && Tagged(c[1..], t)
  {
  }

  lemma StaleMiddle(a: Option<Half>, b: Option<Half>, c: seq<Item>, r: seq<Item>, n: nat)
    requires StaleAt(a, b, c, r, n) && !c[0].Deletes()
    ensures n > 1 && !c[0].Creates() && c[0].tag == b.value.tag && StaleAt(a, b, Pending(c[0]) + c[1..], r, n - 1)
  {
    hide Sent;
    assert c[..n][0] == c[0];
    TailRest(c[..n], b.value.tag);
    hide Tail, Closed, Tagged;
    var c' := Pending(c[0]) + c[1..];
    assert c' == c[1..];
    assert c'[..n - 1] == c[..n][1..];
    assert c'[n - 1..] == c[n..];
  }

  lemma StaleReceived(a: Option<Half>, b: Option<Half>, c: seq<Item>, r: seq<Item>, n: nat)
    requires StaleAt(a, b, c, r, n)
    ensures !c[0].Creates() && c[0].tag == b.value.tag && Stale(a, b, Pending(c[0]) + c[1..], r)
  {
    if c[0].Deletes() {
      StaleEnd(a, b, c, r, n);
    } else {
      StaleMiddle(a, b, c, r, n);
    }
  }

  lemma CommandReceived(a: Option<Half>, b: Option<Half>, c: seq<Item>, r: seq<Item>)
    requires Agreed(a, b, c, r) && c != []
    ensures c[0].Creates() ==> b.None?
    ensures c[0].Creates() ==>
              Agreed(a, Some(Half(Dir(false, false, true), Dir(true, false, false), c[0].tag)),
                     Pending(c[0]) + c[1..], r)
    ensures !c[0].Creates() ==> b.Some? && b.value.rx.create && !b.value.rx.delete && b.value.tag == c[0].tag
    ensures !c[0].Creates() ==> Agreed(a, b, Pending(c[0]) + c[1..], r)
  {
    var c' := Pending(c[0]) + c[1..];
    if NotYet(a, b, c, r) {
      var b' := Some(Half(Dir(false, false, true), Dir(true, false, false), c[0].tag));
      TailReceived(Half(NoFlags, NoFlags, c[0].tag), c, true, a.value.tx.delete);
      assert Live(a, b', c', r);
    } else if Live(a, b, c, r) {
      TailReceived(b.value, c, true, a.value.tx.delete);
      assert Live(a, b, c', r);
    } else {
      var n: nat :| StaleAt(a, b, c, r, n);
      StaleReceived(a, b, c, r, n);
    }
  }

  lemma CommandRetired(a: Option<Half>, b: Option<Half>, c: seq<Item>, r: seq<Item>)
    requires Agreed(a, b, c, r) && c != [] && c[0].Deletes() && !c[0].Creates()
    ensures b.Some? && !b.value.rx.delete
    ensures Agreed(a, Settle(b.value.(rx := b.value.rx.(delete := true))), c[1..], r)
  {
    var h := b.value.(rx := b.value.rx.(delete := true));
    if Live(a, b, c, r) {
      assert |c| == 1;
      if Settle(h).Some? {
        assert Live(a, Some(h), c[1..], r);
      } else {
        assert Ending(a, None, c[1..], r);
      }
    } else {
      var n: nat :| StaleAt(a, b, c, r, n);
      assert c[..n][0] == c[0];
      assert n == 1;
      assert NotYet(a, None, c[1..], r);
    }
  }

  lemma ReplyReceived(a: Option<Half>, b: Option<Half>, c: seq<Item>, r: seq<Item>)
    requires Agreed(a, b, c, r) && r != []
    ensures a.Some? && !a.value.rx.delete && a.value.rx.reply && a.value.tag == r[0].tag && a.value.tx.create
    ensures r[0].Own? ==> r[0].cmd.create == !a.value.rx.create
    ensures Agreed(Some(a.value.(rx := Begun(a.value.rx, r[0]))), b, c, Pending(r[0]) + r[1..])
  {
    var a', r' := Some(a.value.(rx := Begun(a.value.rx, r[0]))), Pending(r[0]) + r[1..];
    if Live(a, b, c, r) {
      TailReceived(a.value, r, b.value.tx.create, b.value.tx.delete);
      assert Live(a', b, c, r');
    } else {
      TailReceived(a.value, r, true, true);
      assert Ending(a', b, c, r');
    }
  }

  lemma ReplyRetired(a: Option<Half>, b: Option<Half>, c: seq<Item>, r: seq<Item>)
    requires Agreed(a, b, c, r) && r != [] && r[0].Deletes() && !r[0].Creates()
    ensures a.Some? && !a.value.rx.delete && a.value.tx.create
    ensures Agreed(Settle(a.value.(rx := a.value.rx.(delete := true))), b, c, r[1..])
  {
    var h := a.value.(rx := a.value.rx.(delete := true));
    if Live(a, b, c, r) {
      assert |r| == 1;
      if Settle(h).Some? {
        assert Live(Some(h), b, c, r[1..]);
      } else {
        assert c[..|c|] == c;
        assert StaleAt(None, b, c, r[1..], |c|);
      }
    } else {
      assert |r| == 1;
      assert NotYet(None, None, c, r[1..]);
    }
  }

  /** With nothing on the way the two ends keep the same transactions, closed to the same extent. */
  lemma QuietMeansEqual(a: Option<Half>, b: Option<Half>)
    requires Agreed(a, b, [], [])
    ensures Unborn(a) <==> b.None?
    ensures !Unborn(a) ==>
              && a.value.tag == b.value.tag
              && a.value.tx.delete == b.value.rx.delete && a.value.rx.delete == b.value.tx.delete
  {
  }
}
