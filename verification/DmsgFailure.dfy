/**
 How dmsg_ioq_read winds a connection down after a link error: each call picks an open
 transaction that has nothing stacked under it, makes up the DELETE its peer will never
 send, and reports the end of the connection only when no transaction is left.

 The application answers with DELETE at once (in the handler) or later, and meanwhile does what it
 likes (`Act`), on this connection and on others: it opens transactions, streams replies and relays.  (An
 operation that trips an assertion ends the program and is no step.)
 On this one it closes children before their parents, and opens nothing under what it has closed.
 */
module DmsgFailure {
  import opened Options
  import opened DmsgState
  import opened DmsgRefs
  import opened DmsgRuns

  /** The open transactions of an iocom. */
  ghost function OpenOf(l: Lib, io: Ref): set<Ref> {
    set r | r in l.mem && l.mem[r].inserted && l.mem[r].iocom == io
  }

  ghost predicate Leaf(l: Lib, io: Ref, r: Ref) {
    r in OpenOf(l, io) && l.mem[r].subq == []
  }

  /** What the scan of the two trees may come up with. */
  ghost predicate Picked(l: Lib, io: Ref, v: Option<Ref>) {
    match v
    case Some(r) => Leaf(l, io, r)
    case None => forall r :: r in OpenOf(l, io) ==> !Leaf(l, io, r)
  }

  /** In-order traversal of the part of a tree that belongs to `io`. */
  ghost predicate Traversal(t: map<Key, Ref>, io: Ref, order: seq<Ref>) {
    && (forall r :: r in order ==> exists k :: k in t && k.iocom == io && t[k] == r)
    && (forall k :: k in t && k.iocom == io ==> t[k] in order)
  }

  /** The scan over staterd_tree and then statewr_tree. */
  method PickVictim(l: Lib, io: Ref, rdOrder: seq<Ref>, wrOrder: seq<Ref>) returns (v: Option<Ref>)
    requires Sound(l) && Traversal(l.rd, io, rdOrder) && Traversal(l.wr, io, wrOrder)
    ensures Picked(l, io, v)
  {
    v := None;
    var order := rdOrder + wrOrder;
    InTraversals(l, io, rdOrder, wrOrder);
    assert forall j :: 0 <= j < |order| ==> order[j] in order;
    for i := 0 to |order|
      invariant v.Some? ==> Leaf(l, io, v.value)
      invariant v.None? ==> forall j :: 0 <= j < i ==> l.mem[order[j]].subq != []
    {
      if v.None? && l.mem[order[i]].subq == [] {
        v := Some(order[i]);
      }
    }
  }

  lemma InTraversals(l: Lib, io: Ref, rdOrder: seq<Ref>, wrOrder: seq<Ref>)
    requires Sound(l) && Traversal(l.rd, io, rdOrder) && Traversal(l.wr, io, wrOrder)
    ensures forall r :: r in rdOrder + wrOrder <==> r in OpenOf(l, io)
  {
    forall r | r in OpenOf(l, io)
      ensures r in rdOrder + wrOrder
    {
      assert At(l, r, multiset{});
    }
  }

  // ----- a forest that is not empty has a leaf

  lemma {:induction false} Highest(rank: map<Ref, nat>, rs: set<Ref>) returns (top: Ref)
    requires rs != {} && forall r :: r in rs ==> r in rank
    ensures top in rs && forall r :: r in rs ==> rank[r] <= rank[top]
    decreases |rs|
  {
    var r :| r in rs;
    top := r;
    assert rs == {r} + (rs - {r});
    if rs - {r} != {} {
      var t := Highest(rank, rs - {r});
      if rank[r] < rank[t] { top := t; }
    }
  }

  lemma LeafExists(l: Lib, io: Ref) returns (r: Ref)
    requires Sound(l) && Forest(l) && OpenOf(l, io) != {}
    ensures Leaf(l, io, r)
  {
    var rank :| Ranked(l.mem, rank);
    forall t | t in OpenOf(l, io) ensures t in rank { assert RankAt(l.mem, rank, t); }
    r := Highest(rank, OpenOf(l, io));
    assert At(l, r, multiset{});
    forall c | c in Kids(l.mem, r)
      ensures c in OpenOf(l, io) && rank[r] < rank[c]
    {
      assert At(l, c, multiset{});
      assert RankAt(l.mem, rank, c);
    }
    assert Kids(l.mem, r) == {};
    NoKids(l.mem, r, l.mem[r]);
  }

  /** No candidate means no open transaction: both trees of the iocom are empty. */
  lemma NoVictimNoTransaction(l: Lib, io: Ref)
    requires Sound(l) && Forest(l) && Picked(l, io, None)
    ensures OpenOf(l, io) == {}
    ensures forall k :: k in l.rd || k in l.wr ==> k.iocom != io
  {
    if OpenOf(l, io) != {} {
      var r := LeafExists(l, io);
    }
    forall k | k in l.rd ensures k.iocom != io { assert l.rd[k] !in OpenOf(l, io); }
    forall k | k in l.wr ensures k.iocom != io { assert l.wr[k] !in OpenOf(l, io); }
  }

  // ----- the made-up DELETE

  /** dmsg_msg_simulate_failure for a transaction whose peer has not closed yet. */
  function SimulatedCmd(s: State, parent: State): Cmd {
    if s.opposite then Cmd(false, true, false, true, false, !parent.opposite)
    else Cmd(!s.rxcmd.create, true, true, true, true, !parent.opposite)
  }

  /**
   The made-up message is the one the peer would have sent: received, it is tied to `r` and to no other
   transaction, exactly if its circuit can still be named: it is open, and 0 is not its id.
   */
  lemma MadeUpIsForIt(l: Lib, io: Ref, r: Ref, addr: Ref)
    requires Sound(l) && r in OpenOf(l, io) && !l.mem[r].rxcmd.delete
    ensures l.mem[r].parent.Some? && l.mem[r].parent.value in l.mem
    ensures var s, p := l.mem[r], l.mem[l.mem[r].parent.value];
      var got := MsgRx(l, io, Msg(s.msgid, p.msgid, SimulatedCmd(s, p)), addr);
      && (got.Ok? <==> (p.root || (p.inserted && p.msgid != 0)) && (s.opposite ==> s.rxcmd.create))
      && (got.Ok? ==> got.value == (WithFlags(l, r, s.txcmd, s.rxcmd.(create := true)), r))
  {
    hide Inv, Settled, Circuit, Lookup, SimulatedCmd;
    MadeUpNames(l, io, r);
    var s := l.mem[r];
    assert s.rxcmd.create ==> WithFlags(l, r, s.txcmd, s.rxcmd.(create := true)) == l;
  }

  lemma MadeUpNames(l: Lib, io: Ref, r: Ref)
    requires Sound(l) && r in OpenOf(l, io)
    ensures l.mem[r].parent.Some? && l.mem[r].parent.value in l.mem
    ensures var s, q := l.mem[r], l.mem[r].parent.value;
      var cmd := SimulatedCmd(s, l.mem[q]);
      var m := Msg(s.msgid, l.mem[q].msgid, cmd);
      && Lookup(l, io, m) == Some(r)
      && (Circuit(l, io, m) == Some(q) <==> l.mem[q].root || (l.mem[q].inserted && l.mem[q].msgid != 0))
      && cmd.abort && cmd.delete && cmd.reply == s.rxcmd.reply == !s.opposite
      && (cmd.create <==> !s.opposite && !s.rxcmd.create)
  {
    assert At(l, r, multiset{});
    var q := l.mem[r].parent.value;
    assert At(l, q, multiset{}) && At(l, io, multiset{});
  }

  datatype Step =
    | Poll(v: Option<Ref>, answer: bool)   // one call of dmsg_ioq_read, the handler and dmsg_state_cleanuprx
    | Act(op: Op)                          // the application does something, here or elsewhere

  /**
   The connection while it winds down.  Addresses are used again, so each transaction has a number of
   its own (`name`, below `next`): `simulated` are those that got a made-up DELETE.  `reports` counts how
   often the end was reported; `eof` says that it was, and that nothing was opened since.
   */
  datatype Trace = Trace(l: Lib, name: map<Ref, nat>, next: nat, simulated: seq<nat>, reports: nat, eof: bool)

  /** On this connection nobody transmits on a transaction whose parent is closed for transmission. */
  predicate ChildrenFirst(l: Lib, io: Ref) {
    forall t :: t in l.mem && l.mem[t].inserted && l.mem[t].iocom == io && !l.mem[t].txcmd.delete ==> Sendable(l, t)
  }

  predicate Here(l: Lib, io: Ref, r: Ref) { r in l.mem && l.mem[r].iocom == io }

  /** Where a relayed transaction is opened. */
  function Target(l: Lib, left: Ref): Option<Ref> {
    if left in l.mem && l.mem[left].parent.Some? && l.mem[left].parent.value in l.mem
    then l.mem[l.mem[left].parent.value].relay else None
  }

  /**
   On `io` nothing is closed before what is stacked under it, nothing is opened under what has been closed,
   and nothing is received any more.
   */
  predicate Orderly(l: Lib, io: Ref, op: Op) {
    match op
    case NewIocom(_) => true
    case Begin(p, _) => Here(l, io, p) ==> !l.mem[p].txcmd.delete
    case Start(r, last) => Here(l, io, r) && last ==> l.mem[r].subq == []
    case Answer(r, last) => Here(l, io, r) && last ==> l.mem[r].subq == [] || l.mem[r].txcmd.delete
    case Receive(other, _, _) => other != io
    case Finish(_, _) => true
    case Seed(_, _) => true
    case Relay(left, _) =>
      var target := Target(l, left);
      target.Some? && Here(l, io, target.value) ==> !l.mem[target.value].txcmd.delete
  }

  ghost predicate Can(l: Lib, io: Ref, step: Step) {
    match step
    case Poll(v, _) => Picked(l, io, v)
    case Act(op) => Allowed(l, op) && !Apply(l, op).Fault? && Orderly(l, io, op)
  }

  /** The transaction that `op` opens on `io`, if it runs through. */
  function Opened(l: Lib, io: Ref, op: Op): Option<Ref> {
    match op
    case Begin(p, addr) => if Here(l, io, p) then Some(addr) else None
    case Relay(left, right) =>
      var target := Target(l, left);
      if target.Some? && Here(l, io, target.value) then Some(right) else None
    case _ => None
  }

  /** The transaction that is there on `io` when `op` is done, and was not before. */
  function Made(l: Lib, io: Ref, op: Op): Option<Ref>
    requires Allowed(l, op)
  {
    if Apply(l, op).Ok? then Opened(l, io, op) else None
  }

  function Only(v: Option<Ref>): set<Ref> { if v.Some? then {v.value} else {} }

  /** Send the closing DELETE on `r` unless that has been done. */
  function Close(l: Lib, r: Ref): Outcome<Lib> {
    if !Allowed(l, Answer(r, true)) then Fault else Apply(l, Answer(r, true))
  }

  function Do(t: Trace, io: Ref, step: Step): Outcome<Trace> {
    match step
    case Act(op) =>
      if !Allowed(t.l, op) then Fault
      else if Apply(t.l, op).Discard? then Ok(t)       // the message is thrown away
      else
        var l1 :- Apply(t.l, op);
        var made := Opened(t.l, io, op);
        if made.None? then Ok(t.(l := l1))
        else Ok(t.(l := l1, name := t.name[made.value := t.next], next := t.next + 1, eof := false))
    case Poll(None, _) => Ok(t.(reports := t.reports + 1, eof := true))
    case Poll(Some(r), answer) =>
      if r !in t.l.mem || r !in t.name || t.l.mem[r].parent.None? || t.l.mem[r].parent.value !in t.l.mem then Fault
      else if t.l.mem[r].rxcmd.delete then Ok(t)
      else
        var cmd := SimulatedCmd(t.l.mem[r], t.l.mem[t.l.mem[r].parent.value]);
        var l1 :- if answer then Close(t.l, r) else Ok(t.l);
        var l2 :- CleanupRx(l1, r, cmd);
        Ok(t.(l := l2, simulated := t.simulated + [t.name[r]]))
  }

  // ----- what one operation does to the transactions of a connection

  /** Transactions other than `r` are as they were, but for counts and queues. */
  predicate OthersSame(l: Lib, r: Ref, l': Lib) {
    forall t :: t in l'.mem && t != r ==>
      t in l.mem && l'.mem[t] == l.mem[t].(refs := l'.mem[t].refs, subq := l'.mem[t].subq)
  }

  lemma ChildrenFirstKeeps(l: Lib, r: Ref, l': Lib, io: Ref)
    requires Inv(l, multiset{}) && Inv(l', multiset{}) && ChildrenFirst(l, io) && OthersSame(l, r, l')
    requires r in l.mem
    requires Here(l, io, r) ==>
               l.mem[r].subq == [] || l.mem[r].txcmd.delete || (r in l'.mem && !l'.mem[r].txcmd.delete)
    requires r in l'.mem && l'.mem[r].inserted && !l'.mem[r].txcmd.delete ==>
               && l.mem[r].inserted && !l.mem[r].txcmd.delete
               && l'.mem[r].parent == l.mem[r].parent && l'.mem[r].iocom == l.mem[r].iocom
    ensures ChildrenFirst(l', io)
  {
    hide Counted, Indexed;
    forall t | t in l'.mem && l'.mem[t].inserted && l'.mem[t].iocom == io && !l'.mem[t].txcmd.delete
      ensures Sendable(l', t)
    {
      assert At(l', t, multiset{});
      assert Sendable(l, t);
      var p := l.mem[t].parent.value;
      assert At(l, r, multiset{}) && At(l, t, multiset{});
      assert p == r ==> t in Kids(l.mem, r);
    }
  }

  lemma RetiredOpen(l: Lib, r: Ref, l': Lib, io: Ref)
    requires r in l.mem && Retired(l, r, l')
    ensures OpenOf(l', io) == OpenOf(l, io) - {r}
  {
  }

  lemma FlagsOpen(l: Lib, r: Ref, tx: Dir, rx: Dir, io: Ref)
    requires r in l.mem
    ensures OpenOf(WithFlags(l, r, tx, rx), io) == OpenOf(l, io)
  {
  }

  /** Closed in both directions after the step, a transaction is gone; closed in one, it is as it was. */
  ghost predicate Updated(l: Lib, r: Ref, l': Lib, io: Ref, tx: Dir, rx: Dir)
    requires r in l.mem
  {
    && OthersSame(l, r, l')
    && (if tx.delete && rx.delete then OpenOf(l', io) == OpenOf(l, io) - {r} && (r in l'.mem ==> !l'.mem[r].inserted)
        else l' == WithFlags(l, r, tx, rx) && OpenOf(l', io) == OpenOf(l, io))
  }

  lemma RetireUpdates(l: Lib, r: Ref, tx: Dir, rx: Dir, io: Ref)
    requires Inv(l, multiset{}) && Stands(l, r) && !l.mem[r].root && tx.delete && rx.delete
    requires tx.reply == l.mem[r].txcmd.reply && rx.reply == l.mem[r].rxcmd.reply
    ensures Update(l, r, tx, rx).Ok? && Inv(Update(l, r, tx, rx).value, multiset{})
    ensures Updated(l, r, Update(l, r, tx, rx).value, io, tx, rx)
  {
    hide Queued, Counted, Indexed, Retire;
    var l1 := WithFlags(l, r, tx, rx);
    FlagsKeep(l, r, tx, rx, multiset{});
    assert At(l1, r, multiset{});
    RetireKeeps(l1, r, multiset{});
    RetireEffect(l1, r);
    RetiredOpen(l1, r, Retire(l1, r, l1.mem[r].opposite).value, io);
    FlagsOpen(l, r, tx, rx, io);
  }

  /** Setting flags, and retiring if both directions are closed, in order. */
  lemma UpdateFirst(l: Lib, io: Ref, r: Ref, tx: Dir, rx: Dir)
    requires Sound(l) && ChildrenFirst(l, io) && r in l.mem && !l.mem[r].root
    requires tx.delete && rx.delete ==> Stands(l, r)
    requires tx.reply == l.mem[r].txcmd.reply && rx.reply == l.mem[r].rxcmd.reply
    requires l.mem[r].txcmd.delete ==> tx.delete
    requires Here(l, io, r) && tx.delete ==> l.mem[r].txcmd.delete || l.mem[r].subq == []
    ensures Update(l, r, tx, rx).Ok? && ChildrenFirst(Update(l, r, tx, rx).value, io)
    ensures Updated(l, r, Update(l, r, tx, rx).value, io, tx, rx)
  {
    hide Queued, Counted, Indexed, Retire, ChildrenFirst;
    if tx.delete && rx.delete {
      RetireUpdates(l, r, tx, rx, io);
    } else {
      FlagsKeep(l, r, tx, rx, multiset{});
      FlagsOpen(l, r, tx, rx, io);
    }
    ChildrenFirstKeeps(l, r, Update(l, r, tx, rx).value, io);
  }

  lemma WriteFirst(l: Lib, io: Ref, r: Ref, cmd: Cmd)
    requires Sound(l) && ChildrenFirst(l, io) && Sendable(l, r) && cmd.reply == l.mem[r].txcmd.reply
    requires Here(l, io, r) && cmd.delete ==> l.mem[r].subq == []
    ensures Write(l, r, cmd).Ok? && ChildrenFirst(Write(l, r, cmd).value.0, io)
    ensures Updated(l, r, Write(l, r, cmd).value.0, io, Written(l.mem[r].txcmd, cmd), l.mem[r].rxcmd)
  {
    hide Queued, Counted, Indexed, Retire, ChildrenFirst, Update, Write;
    assert At(l, r, multiset{});
    UpdateFirst(l, io, r, Written(l.mem[r].txcmd, cmd), l.mem[r].rxcmd);
    WriteIsUpdate(l, r, cmd);
  }

  lemma FinishFirst(l: Lib, io: Ref, r: Ref, cmd: Cmd)
    requires Sound(l) && ChildrenFirst(l, io) && Cleanable(l, r, cmd) && !l.mem[r].root && cmd.delete
    ensures CleanupRx(l, r, cmd).Ok? && ChildrenFirst(CleanupRx(l, r, cmd).value, io)
    ensures Updated(l, r, CleanupRx(l, r, cmd).value, io, l.mem[r].txcmd, l.mem[r].rxcmd.(delete := true))
  {
    hide Queued, Counted, Indexed, Retire, ChildrenFirst;
    var s := l.mem[r];
    assert At(l, r, multiset{});
    UpdateFirst(l, io, r, s.txcmd, s.rxcmd.(delete := true));
  }

  lemma EnterOpen(l: Lib, io: Ref, p: Ref, r: Ref, s: State)
    requires Fresh(l, p, r, s)
    ensures OpenOf(Enter(l, p, r, s), io) == OpenOf(l, io) + if Here(l, io, p) then {r} else {}
    ensures forall t :: t in OpenOf(l, io) ==> Enter(l, p, r, s).mem[t].rxcmd == l.mem[t].rxcmd
    ensures Enter(l, p, r, s).mem[r].rxcmd == s.rxcmd
  {
  }

  lemma EnterSendable(l: Lib, p: Ref, r: Ref, s: State, t: Ref)
    requires Fresh(l, p, r, s) && Sendable(l, t)
    ensures Sendable(Enter(l, p, r, s), t)
  {
  }

  /** A new transaction on `io` has its parent open for transmission. */
  lemma EnterFirst(l: Lib, io: Ref, p: Ref, r: Ref, s: State)
    requires ChildrenFirst(l, io) && Fresh(l, p, r, s) && !s.txcmd.delete
    requires Here(l, io, p) ==> !l.mem[p].txcmd.delete
    ensures ChildrenFirst(Enter(l, p, r, s), io)
  {
    var l' := Enter(l, p, r, s);
    forall t | t in l'.mem && l'.mem[t].inserted && l'.mem[t].iocom == io && !l'.mem[t].txcmd.delete
      ensures Sendable(l', t)
    {
      if t != r {
        EnterSendable(l, p, r, s, t);
      }
    }
  }

  /** Nothing changed but counts and relay pointers. */
  predicate OnlyLinks(l: Lib, l': Lib) {
    && l'.mem.Keys == l.mem.Keys
    && forall t :: t in l.mem ==> l'.mem[t] == l.mem[t].(refs := l'.mem[t].refs, relay := l'.mem[t].relay)
  }

  lemma LinksFirst(l: Lib, l': Lib, io: Ref)
    requires OnlyLinks(l, l') && ChildrenFirst(l, io)
    ensures ChildrenFirst(l', io) && OpenOf(l', io) == OpenOf(l, io)
    ensures forall t :: t in OpenOf(l, io) ==> l'.mem[t].rxcmd == l.mem[t].rxcmd
  {
    forall t | t in l'.mem && l'.mem[t].inserted && l'.mem[t].iocom == io && !l'.mem[t].txcmd.delete
      ensures Sendable(l', t)
    {
      assert Sendable(l, t);
    }
  }

  lemma TieLinks(l: Lib, a: Ref, b: Ref)
    requires a in l.mem && b in l.mem
    ensures OnlyLinks(l, Hold(Hold(WithRelay(WithRelay(l, b, a), a, b), a), b))
  {
    var l' := Hold(Hold(WithRelay(WithRelay(l, b, a), a, b), a), b);
    assert l'.mem.Keys == l.mem.Keys;
  }

  /** The transaction that `op` closes for good. */
  function Closed(l: Lib, op: Op): Option<Ref> {
    match op
    case Start(r, last) => if r in l.mem && last && l.mem[r].rxcmd.delete then Some(r) else None
    case Answer(r, last) =>
      if r in l.mem && last && !l.mem[r].txcmd.delete && l.mem[r].rxcmd.delete then Some(r) else None
    case Finish(r, cmd) =>
      if r in l.mem && !l.mem[r].root && cmd.delete && l.mem[r].txcmd.delete then Some(r) else None
    case _ => None
  }

  /** Reception on the transactions of `io` is as it was, but that `op` may have closed it on one. */
  ghost predicate SameRx(l: Lib, l': Lib, io: Ref, op: Op) {
    forall r :: r in OpenOf(l, io) && r in OpenOf(l', io) ==>
      || l'.mem[r].rxcmd.delete == l.mem[r].rxcmd.delete
      || (op.Finish? && op.cmd.delete && op.r == r && l'.mem[r].rxcmd.delete)
  }

  /** What `op` makes of the open transactions of `io`. */
  ghost predicate Went(l: Lib, io: Ref, op: Op, l': Lib) {
    && ChildrenFirst(l', io) && SameRx(l, l', io, op)
    && OpenOf(l', io) == OpenOf(l, io) - Only(Closed(l, op)) + Only(Opened(l, io, op))
    && (Opened(l, io, op).Some? ==> !l'.mem[Opened(l, io, op).value].rxcmd.delete)
  }

  lemma UpdatedWent(l: Lib, io: Ref, op: Op, l': Lib, r: Ref, tx: Dir, rx: Dir)
    requires r in l.mem && ChildrenFirst(l', io) && Updated(l, r, l', io, tx, rx) && Opened(l, io, op).None?
    requires Closed(l, op) == if tx.delete && rx.delete then Some(r) else None
    requires rx.delete == l.mem[r].rxcmd.delete || (op.Finish? && op.cmd.delete && op.r == r && rx.delete)
    ensures Went(l, io, op, l')
  {
    hide ChildrenFirst;
  }

  lemma NothingWent(l: Lib, io: Ref, op: Op)
    requires ChildrenFirst(l, io) && Opened(l, io, op).None? && Closed(l, op).None?
    ensures Went(l, io, op, l)
  {
  }

  lemma NewIocomWent(l: Lib, io: Ref, addr: Ref)
    requires ChildrenFirst(l, io) && addr !in l.mem
    ensures Went(l, io, NewIocom(addr), l.(mem := l.mem[addr := Root(addr)]))
  {
    var l' := l.(mem := l.mem[addr := Root(addr)]);
    forall t | t in l'.mem && l'.mem[t].inserted && l'.mem[t].iocom == io && !l'.mem[t].txcmd.delete
      ensures Sendable(l', t)
    {
      assert Sendable(l, t);
    }
    assert OpenOf(l', io) == OpenOf(l, io);
  }

  lemma BeginWent(l: Lib, io: Ref, p: Ref, addr: Ref)
    requires Sound(l) && ChildrenFirst(l, io) && Allowed(l, Begin(p, addr)) && Orderly(l, io, Begin(p, addr))
    ensures Went(l, io, Begin(p, addr), Open(l, p, addr))
  {
    hide ChildrenFirst, Enter;
    OpenKeeps(l, p, addr);
    EnterFirst(l, io, p, addr, Local(l, p, addr));
    EnterOpen(l, io, p, addr, Local(l, p, addr));
  }

  lemma StartWent(l: Lib, io: Ref, r: Ref, last: bool)
    requires Sound(l) && ChildrenFirst(l, io) && Allowed(l, Start(r, last)) && Orderly(l, io, Start(r, last))
    ensures Apply(l, Start(r, last)).Ok? && Went(l, io, Start(r, last), Apply(l, Start(r, last)).value)
  {
    hide ChildrenFirst, Write, Went, Updated;
    var cmd := FirstCmd.(delete := last);
    assert At(l, r, multiset{});
    WriteFirst(l, io, r, cmd);
    UpdatedWent(l, io, Start(r, last), Write(l, r, cmd).value.0, r, Written(l.mem[r].txcmd, cmd), l.mem[r].rxcmd);
  }

  lemma AnswerWent(l: Lib, io: Ref, r: Ref, last: bool)
    requires Sound(l) && ChildrenFirst(l, io) && Allowed(l, Answer(r, last)) && Orderly(l, io, Answer(r, last))
    ensures Apply(l, Answer(r, last)).Ok? && Went(l, io, Answer(r, last), Apply(l, Answer(r, last)).value)
  {
    hide ChildrenFirst, Write, Went, Updated;
    if l.mem[r].txcmd.delete {
      NothingWent(l, io, Answer(r, last));
    } else {
      var cmd := ReplyCmd(l.mem[r], last);
      assert At(l, r, multiset{});
      WriteFirst(l, io, r, cmd);
      UpdatedWent(l, io, Answer(r, last), Write(l, r, cmd).value.0, r, Written(l.mem[r].txcmd, cmd), l.mem[r].rxcmd);
    }
  }

  lemma FinishWent(l: Lib, io: Ref, r: Ref, cmd: Cmd)
    requires Sound(l) && ChildrenFirst(l, io) && CleanupRx(l, r, cmd).Ok?
    ensures Went(l, io, Finish(r, cmd), CleanupRx(l, r, cmd).value)
  {
    hide ChildrenFirst, Went, Updated, Retire;
    CleanupRxKeeps(l, r, cmd);
    var s := l.mem[r];
    if s.root || !cmd.delete {
      NothingWent(l, io, Finish(r, cmd));
    } else {
      FinishFirst(l, io, r, cmd);
      UpdatedWent(l, io, Finish(r, cmd), CleanupRx(l, r, cmd).value, r, s.txcmd, s.rxcmd.(delete := true));
    }
  }

  lemma ReceiveWent(l: Lib, io: Ref, other: Ref, m: Msg, addr: Ref)
    requires Sound(l) && ChildrenFirst(l, io) && Allowed(l, Receive(other, m, addr)) && other != io
    requires MsgRx(l, other, m, addr).Ok?
    ensures Went(l, io, Receive(other, m, addr), MsgRx(l, other, m, addr).value.0)
  {
    hide Queued, Counted, Indexed, ChildrenFirst, Enter;
    CircuitHome(l, other, m);
    NothingWent(l, io, Receive(other, m, addr));
    var p := Circuit(l, other, m).value;
    match Lookup(l, other, m)
    case None =>
      if m.cmd.create && !m.cmd.reply {
        EnterFirst(l, io, p, addr, Remote(l, p, m));
        EnterOpen(l, io, p, addr, Remote(l, p, m));
      }
    case Some(r) =>
      if m.cmd.create {
        assert At(l, r, multiset{});
        var rx := Dir(true, false, m.cmd.reply);
        UpdateFirst(l, io, r, l.mem[r].txcmd, rx);
        OtherWent(l, io, Receive(other, m, addr), r, l.mem[r].txcmd, rx);
      }
  }

  lemma OtherWent(l: Lib, io: Ref, op: Op, r: Ref, tx: Dir, rx: Dir)
    requires r in l.mem && !Here(l, io, r) && Opened(l, io, op).None? && Closed(l, op).None?
    requires ChildrenFirst(WithFlags(l, r, tx, rx), io)
    ensures Went(l, io, op, WithFlags(l, r, tx, rx))
  {
    FlagsOpen(l, r, tx, rx, io);
  }

  lemma SeedWent(l: Lib, io: Ref, r: Ref, target: Ref)
    requires ChildrenFirst(l, io) && r in l.mem && target in l.mem
    ensures Went(l, io, Seed(r, target), SeedRelay(l, r, target))
  {
    hide ChildrenFirst;
    var l' := SeedRelay(l, r, target);
    assert l'.mem.Keys == l.mem.Keys;
    LinksFirst(l, l', io);
  }

  lemma RelayWent(l: Lib, io: Ref, left: Ref, right: Ref)
    requires Sound(l) && ChildrenFirst(l, io) && Allowed(l, Relay(left, right)) && Orderly(l, io, Relay(left, right))
    requires RelayOpen(l, left, right).Ok?
    ensures Went(l, io, Relay(left, right), RelayOpen(l, left, right).value)
  {
    hide ChildrenFirst, Enter;
    var target := Target(l, left).value;
    var l1 := Open(l, target, right);
    BeginWent(l, io, target, right);
    TieLinks(l1, left, right);
    LinksFirst(l1, RelayOpen(l, left, right).value, io);
  }

  lemma ActWent(l: Lib, io: Ref, op: Op)
    requires Sound(l) && ChildrenFirst(l, io) && Allowed(l, op) && Apply(l, op).Ok? && Orderly(l, io, op)
    ensures Went(l, io, op, Apply(l, op).value)
  {
    hide ChildrenFirst, Went, Write, CleanupRx, MsgRx, RelayOpen, SeedRelay, Open;
    match op
    case NewIocom(addr) => NewIocomWent(l, io, addr);
    case Begin(p, addr) => BeginWent(l, io, p, addr);
    case Start(r, last) => StartWent(l, io, r, last);
    case Answer(r, last) => AnswerWent(l, io, r, last);
    case Receive(other, m, addr) => ReceiveWent(l, io, other, m, addr);
    case Finish(r, cmd) => FinishWent(l, io, r, cmd);
    case Seed(r, target) => SeedWent(l, io, r, target);
    case Relay(left, right) => RelayWent(l, io, left, right);
  }

  // ----- every way a connection can wind down

  ghost predicate Fine(l: Lib, io: Ref) { Sound(l) && Forest(l) && ChildrenFirst(l, io) }

  lemma ActFine(l: Lib, io: Ref, op: Op)
    requires Fine(l, io) && Allowed(l, op) && Apply(l, op).Ok? && Orderly(l, io, op)
    ensures Fine(Apply(l, op).value, io) && Went(l, io, op, Apply(l, op).value)
  {
    hide Inv, Forest, Apply, ChildrenFirst;
    StepSound(l, op);
    StepForest(l, op);
    ActWent(l, io, op);
  }

  /** Numbers tell the open transactions apart, and one that got a made-up DELETE is closed for reception. */
  ghost predicate Named(t: Trace, io: Ref) {
    && (forall r :: r in OpenOf(t.l, io) ==> r in t.name && t.name[r] < t.next)
    && (forall r, q :: r in OpenOf(t.l, io) && q in OpenOf(t.l, io) && t.name[r] == t.name[q] ==> r == q)
    && (forall r :: r in OpenOf(t.l, io) && t.name[r] in t.simulated ==> t.l.mem[r].rxcmd.delete)
    && (forall i :: i in t.simulated ==> i < t.next)
    && Distinct(t.simulated)
  }

  ghost predicate Winding(t: Trace, io: Ref) {
    Fine(t.l, io) && Named(t, io) && (t.eof ==> OpenOf(t.l, io) == {})
  }

  /** The transactions that may still get a made-up DELETE. */
  ghost function Pending(l: Lib, io: Ref): set<Ref> {
    set r | r in OpenOf(l, io) && !l.mem[r].rxcmd.delete
  }

  lemma NamedAfter(t: Trace, io: Ref, op: Op, l': Lib)
    requires Winding(t, io) && Went(t.l, io, op, l') && Opened(t.l, io, op).None?
    ensures Named(t.(l := l'), io) && OpenOf(l', io) <= OpenOf(t.l, io) && Pending(l', io) <= Pending(t.l, io)
  {
    hide Fine, ChildrenFirst;
  }

  lemma NamedNew(t: Trace, io: Ref, op: Op, l': Lib, r: Ref)
    requires Winding(t, io) && Went(t.l, io, op, l') && Opened(t.l, io, op) == Some(r) && r !in t.l.mem
    ensures Named(t.(l := l', name := t.name[r := t.next], next := t.next + 1, eof := false), io)
    ensures Pending(l', io) <= Pending(t.l, io) + {r}
  {
    hide Fine, ChildrenFirst;
  }

  lemma Fewer(a: set<Ref>, b: set<Ref>)
    requires a <= b
    ensures |a| <= |b|
  {
    if a != b {
      assert b == a + (b - a);
    }
  }

  lemma NewIsFree(l: Lib, io: Ref, op: Op)
    requires Allowed(l, op) && Opened(l, io, op).Some?
    ensures Opened(l, io, op).value !in l.mem
  {
  }

  /** Whatever the application does, here and elsewhere; a message that is thrown away changes nothing. */
  lemma ActStep(t: Trace, io: Ref, op: Op)
    requires Winding(t, io) && Can(t.l, io, Act(op))
    ensures var d := Do(t, io, Act(op));
            && d.Ok? && Winding(d.value, io) && d.value.simulated == t.simulated && d.value.reports == t.reports
            && d.value.next == t.next + |Only(Made(t.l, io, op))|
            && |Pending(d.value.l, io)| <= |Pending(t.l, io)| + (d.value.next - t.next)
            && (Apply(t.l, op).Discard? ==> d.value == t)
  {
    hide Inv, Forest, Apply, ChildrenFirst, Named, Allowed, Orderly;
    if Apply(t.l, op).Ok? {
      ActFine(t.l, io, op);
      var l' := Apply(t.l, op).value;
      match Opened(t.l, io, op)
      case None =>
        NamedAfter(t, io, op, l');
        Fewer(Pending(l', io), Pending(t.l, io));
      case Some(r) =>
        NewIsFree(t.l, io, op);
        NamedNew(t, io, op, l', r);
        Fewer(Pending(l', io), Pending(t.l, io) + {r});
    }
  }

  /** The application closes a leaf, or has done so. */
  lemma CloseFine(l: Lib, io: Ref, r: Ref)
    requires Fine(l, io) && Leaf(l, io, r)
    ensures Allowed(l, Answer(r, true)) && Close(l, r).Ok? && Fine(Close(l, r).value, io)
    ensures Went(l, io, Answer(r, true), Close(l, r).value)
    ensures !l.mem[r].rxcmd.delete ==>
              var l1 := Close(l, r).value;
              r in l1.mem && l1.mem[r].txcmd.delete && l1.mem[r] == l.mem[r].(txcmd := l1.mem[r].txcmd)
  {
    hide Queued, Counted, Indexed, Forest, Went, Write, Retire;
    assert At(l, r, multiset{});
    NeverFaults(l, Answer(r, true));
    ActFine(l, io, Answer(r, true));
    if !l.mem[r].txcmd.delete {
      WriteFirst(l, io, r, ReplyCmd(l.mem[r], true));
    }
  }

  lemma CleanupFine(l: Lib, io: Ref, r: Ref, cmd: Cmd)
    requires Fine(l, io) && r in OpenOf(l, io) && cmd.delete && cmd.reply == l.mem[r].rxcmd.reply
    ensures CleanupRx(l, r, cmd).Ok? && Fine(CleanupRx(l, r, cmd).value, io)
    ensures Went(l, io, Finish(r, cmd), CleanupRx(l, r, cmd).value)
    ensures var l' := CleanupRx(l, r, cmd).value; r in OpenOf(l', io) ==> l'.mem[r].rxcmd.delete
  {
    hide Queued, Counted, Indexed, Forest, Went, Retire;
    assert At(l, r, multiset{});
    NeverFaults(l, Finish(r, cmd));
    ActFine(l, io, Finish(r, cmd));
    FinishFirst(l, io, r, cmd);
  }

  /** A leaf got a made-up DELETE, answered or not. */
  lemma Recorded(t: Trace, io: Ref, r: Ref, l': Lib)
    requires Winding(t, io) && Fine(l', io) && r in Pending(t.l, io)
    requires OpenOf(l', io) <= OpenOf(t.l, io) && Pending(l', io) <= Pending(t.l, io) - {r}
    ensures Winding(t.(l := l', simulated := t.simulated + [t.name[r]]), io)
    ensures |Pending(l', io)| + 1 <= |Pending(t.l, io)|
  {
    hide Fine;
    assert t.name[r] !in t.simulated;
    Fewer(Pending(l', io), Pending(t.l, io) - {r});
    var t' := t.(l := l', simulated := t.simulated + [t.name[r]]);
    forall q | q in OpenOf(l', io) && t.name[q] in t'.simulated
      ensures l'.mem[q].rxcmd.delete
    {
      assert q in Pending(l', io) ==> q in Pending(t.l, io) && q != r;
    }
  }

  /** The handler answers at once: the transaction is gone when the call returns. */
  lemma AnsweredLib(l: Lib, io: Ref, r: Ref, cmd: Cmd)
    requires Fine(l, io) && Leaf(l, io, r) && !l.mem[r].rxcmd.delete && cmd.delete && cmd.reply == l.mem[r].rxcmd.reply
    ensures Close(l, r).Ok? && CleanupRx(Close(l, r).value, r, cmd).Ok?
    ensures var l' := CleanupRx(Close(l, r).value, r, cmd).value;
            && Fine(l', io) && OpenOf(l', io) == OpenOf(l, io) - {r}
            && (forall q :: q in OpenOf(l', io) ==> l'.mem[q].rxcmd.delete == l.mem[q].rxcmd.delete)
            && Pending(l', io) <= Pending(l, io) - {r}
  {
    assert r in OpenOf(l, io);
    hide Fine, ChildrenFirst, Close, CleanupRx, Leaf;
    CloseFine(l, io, r);
    var l1 := Close(l, r).value;
    assert OpenOf(l1, io) == OpenOf(l, io);
    CleanupFine(l1, io, r, cmd);
  }

  lemma UnansweredLib(l: Lib, io: Ref, r: Ref, cmd: Cmd)
    requires Fine(l, io) && r in OpenOf(l, io) && cmd.delete && cmd.reply == l.mem[r].rxcmd.reply
    ensures CleanupRx(l, r, cmd).Ok?
    ensures var l' := CleanupRx(l, r, cmd).value;
            Fine(l', io) && OpenOf(l', io) <= OpenOf(l, io) && Pending(l', io) <= Pending(l, io) - {r}
  {
    hide Fine, ChildrenFirst, CleanupRx;
    CleanupFine(l, io, r, cmd);
  }

  /** What a leaf's made-up DELETE is. */
  lemma LeafCmd(l: Lib, io: Ref, r: Ref)
    requires Fine(l, io) && Leaf(l, io, r)
    ensures l.mem[r].parent.Some? && l.mem[r].parent.value in l.mem
    ensures var cmd := SimulatedCmd(l.mem[r], l.mem[l.mem[r].parent.value]);
            cmd.delete && cmd.reply == l.mem[r].rxcmd.reply
  {
    assert At(l, r, multiset{});
  }

  lemma AnsweredStep(t: Trace, io: Ref, r: Ref)
    requires Winding(t, io) && Leaf(t.l, io, r) && !t.l.mem[r].rxcmd.delete
    ensures var d := Do(t, io, Poll(Some(r), true));
            && d.Ok? && Winding(d.value, io)
            && OpenOf(d.value.l, io) == OpenOf(t.l, io) - {r}
            && d.value == t.(l := d.value.l, simulated := t.simulated + [t.name[r]])
            && (forall q :: q in OpenOf(d.value.l, io) ==> d.value.l.mem[q].rxcmd.delete == t.l.mem[q].rxcmd.delete)
            && |Pending(d.value.l, io)| + 1 <= |Pending(t.l, io)|
  {
    hide Fine, Close, CleanupRx, SimulatedCmd;
    LeafCmd(t.l, io, r);
    var cmd := SimulatedCmd(t.l.mem[r], t.l.mem[t.l.mem[r].parent.value]);
    AnsweredLib(t.l, io, r, cmd);
    Recorded(t, io, r, CleanupRx(Close(t.l, r).value, r, cmd).value);
  }

  /** The handler does not answer yet: the transaction stays, closed for reception. */
  lemma UnansweredStep(t: Trace, io: Ref, r: Ref)
    requires Winding(t, io) && Leaf(t.l, io, r) && !t.l.mem[r].rxcmd.delete
    ensures var d := Do(t, io, Poll(Some(r), false));
            && d.Ok? && Winding(d.value, io)
            && d.value == t.(l := d.value.l, simulated := t.simulated + [t.name[r]])
            && |Pending(d.value.l, io)| + 1 <= |Pending(t.l, io)|
  {
    hide Fine, CleanupRx, SimulatedCmd;
    LeafCmd(t.l, io, r);
    var cmd := SimulatedCmd(t.l.mem[r], t.l.mem[t.l.mem[r].parent.value]);
    UnansweredLib(t.l, io, r, cmd);
    Recorded(t, io, r, CleanupRx(t.l, r, cmd).value);
  }

  lemma StepWinds(t: Trace, io: Ref, step: Step)
    requires Winding(t, io) && Can(t.l, io, step)
    ensures var d := Do(t, io, step);
            && d.Ok? && Winding(d.value, io) && d.value.next >= t.next
            && |d.value.simulated| + |Pending(d.value.l, io)| <=
               |t.simulated| + |Pending(t.l, io)| + (d.value.next - t.next)
  {
    hide Sound, Forest, ChildrenFirst, Apply, Close, CleanupRx;
    match step
    case Act(op) => ActStep(t, io, op);
    case Poll(None, _) => NoVictimNoTransaction(t.l, io);
    case Poll(Some(r), answer) =>
      LeafCmd(t.l, io, r);
      if !t.l.mem[r].rxcmd.delete {
        if answer { AnsweredStep(t, io, r); } else { UnansweredStep(t, io, r); }
      }
  }

  /** Perform the steps in turn, passing over those that cannot happen. */
  ghost function Wind(t: Trace, io: Ref, steps: seq<Step>): Outcome<Trace>
    decreases |steps|
  {
    if steps == [] then Ok(t)
    else if !Can(t.l, io, steps[0]) then Wind(t, io, steps[1..])
    else
      var t1 :- Do(t, io, steps[0]);
      Wind(t1, io, steps[1..])
  }

  /**
   However the calls and all that the application does interleave: nothing asserts, no transaction is
   given two made-up DELETEs, no more are given than there were transactions and were opened since, and
   the end is reported only when both trees of the iocom are empty.
   */
  lemma {:induction false} WindDown(t: Trace, io: Ref, steps: seq<Step>)
    requires Winding(t, io)
    ensures Wind(t, io, steps).Ok?
    ensures var t' := Wind(t, io, steps).value;
            && Winding(t', io) && Distinct(t'.simulated) && t'.next >= t.next
            && |t'.simulated| + |Pending(t'.l, io)| <= |t.simulated| + |Pending(t.l, io)| + (t'.next - t.next)
            && (t'.eof ==> forall k :: k in t'.l.rd || k in t'.l.wr ==> k.iocom != io)
    decreases |steps|
  {
    hide Fine, Can, Do, Pending;
    if steps == [] {
      if t.eof { EmptyTrees(t.l, io); }
    } else if !Can(t.l, io, steps[0]) {
      WindDown(t, io, steps[1..]);
    } else {
      StepWinds(t, io, steps[0]);
      WindDown(Do(t, io, steps[0]).value, io, steps[1..]);
    }
  }

  lemma EmptyTrees(l: Lib, io: Ref)
    requires Fine(l, io) && OpenOf(l, io) == {}
    ensures forall k :: k in l.rd || k in l.wr ==> k.iocom != io
  {
    NoVictimNoTransaction(l, io);
  }

  /** A number above all of `s`. */
  ghost function Above(s: set<Ref>): (n: nat)
    ensures forall r :: r in s ==> r < n
  {
    if s == {} then 0
    else
      var r :| r in s;
      assert forall q :: q in s ==> q == r || q in s - {r};
      var m := Above(s - {r});
      if r < m then m else r + 1
  }

  /** The link fails: transactions are numbered by their addresses. */
  ghost function Fails(l: Lib): Trace {
    Trace(l, map r | r in l.mem :: r, Above(l.mem.Keys), [], 0, false)
  }

  /** The same from every state the library can be in when the link fails, children having closed first so far. */
  lemma FailureAfterAnyRun(ops: seq<Op>, io: Ref, steps: seq<Step>)
    requires ChildrenFirst(Run(Nothing, ops), io)
    ensures var t := Fails(Run(Nothing, ops));
            var d := Wind(t, io, steps);
            && d.Ok? && Distinct(d.value.simulated) && d.value.next >= t.next
            && |d.value.simulated| <= |OpenOf(t.l, io)| + (d.value.next - t.next)
            && (d.value.eof ==> forall k :: k in d.value.l.rd || k in d.value.l.wr ==> k.iocom != io)
  {
    hide Wind, Run;
    assert Ranked(Nothing.mem, map[]);
    RunKeeps(Nothing, ops);
    var t := Fails(Run(Nothing, ops));
    WindDown(t, io, steps);
    Fewer(Pending(t.l, io), OpenOf(t.l, io));
  }

  // ----- handlers that answer at once

  ghost predicate Responsive(l: Lib, io: Ref) {
    forall r :: r in OpenOf(l, io) ==> !l.mem[r].rxcmd.delete
  }

  /** Every step can happen, every call has its DELETE answered, and nothing else closes reception on `io`. */
  ghost predicate Prompt(t: Trace, io: Ref, steps: seq<Step>)
    decreases |steps|
  {
    steps != [] ==>
      && Can(t.l, io, steps[0]) && Do(t, io, steps[0]).Ok?
      && (match steps[0]
          case Poll(_, answer) => answer
          case Act(op) => op.Finish? && op.cmd.delete ==> op.r !in OpenOf(t.l, io))
      && Prompt(Do(t, io, steps[0]).value, io, steps[1..])
  }

  function Polls(steps: seq<Step>): nat {
    if steps == [] then 0 else (if steps[0].Poll? then 1 else 0) + Polls(steps[1..])
  }

  /** One step: a call closes one transaction or reports the end; anything else at most opens one. */
  lemma PromptStep(t: Trace, io: Ref, step: Step)
    requires Winding(t, io) && Responsive(t.l, io) && Prompt(t, io, [step])
    ensures var t' := Do(t, io, step).value;
            && Winding(t', io) && Responsive(t'.l, io) && t'.next >= t.next
            && |OpenOf(t'.l, io)| + |t'.simulated| == |OpenOf(t.l, io)| + |t.simulated| + (t'.next - t.next)
            && |t'.simulated| + t'.reports == |t.simulated| + t.reports + (if step.Poll? then 1 else 0)
            && (step.Poll? ==> t'.next == t.next && (OpenOf(t.l, io) == {} <==> t'.reports > t.reports))
  {
    hide Fine, Named;
    assert [step][0] == step;
    StepWinds(t, io, step);
    match step
    case Poll(None, _) => NoVictim(t.l, io);
    case Poll(Some(r), _) =>
      AnsweredStep(t, io, r);
      assert OpenOf(t.l, io) == OpenOf(t.l, io) - {r} + {r};
    case Act(op) => PromptAct(t, io, op);
  }

  lemma NoVictim(l: Lib, io: Ref)
    requires Fine(l, io) && Picked(l, io, None)
    ensures OpenOf(l, io) == {}
  {
    NoVictimNoTransaction(l, io);
  }

  lemma PromptLib(l: Lib, io: Ref, op: Op, l': Lib)
    requires Responsive(l, io) && Went(l, io, op, l') && (Opened(l, io, op).Some? ==> Opened(l, io, op).value !in l.mem)
    requires op.Finish? && op.cmd.delete ==> op.r !in OpenOf(l, io)
    ensures Responsive(l', io) && |OpenOf(l', io)| == |OpenOf(l, io)| + |Only(Opened(l, io, op))|
  {
    hide ChildrenFirst;
    NoneClosed(l, io, op);
    hide OpenOf, Closed, Opened;
    assert OpenOf(l', io) == OpenOf(l, io) + Only(Opened(l, io, op));
  }

  /** What is open for reception does not leave. */
  lemma NoneClosed(l: Lib, io: Ref, op: Op)
    requires Responsive(l, io) && (op.Finish? && op.cmd.delete ==> op.r !in OpenOf(l, io))
    ensures OpenOf(l, io) - Only(Closed(l, op)) == OpenOf(l, io)
    ensures Opened(l, io, op).Some? && Opened(l, io, op).value !in l.mem ==> Opened(l, io, op).value !in OpenOf(l, io)
  {
  }

  lemma PromptAct(t: Trace, io: Ref, op: Op)
    requires Winding(t, io) && Responsive(t.l, io) && Can(t.l, io, Act(op))
    requires op.Finish? && op.cmd.delete ==> op.r !in OpenOf(t.l, io)
    ensures var t' := Do(t, io, Act(op)).value;
            && Responsive(t'.l, io)
            && |OpenOf(t'.l, io)| == |OpenOf(t.l, io)| + |Only(Made(t.l, io, op))|
  {
    hide Fine, Named, Apply, Allowed, Orderly, Went, OpenOf, Opened, Responsive;
    ActStep(t, io, op);
    if Apply(t.l, op).Ok? {
      ActFine(t.l, io, op);
      if Opened(t.l, io, op).Some? {
        NewIsFree(t.l, io, op);
      }
      PromptLib(t.l, io, op, Apply(t.l, op).value);
    }
  }

  /**
   If every handler answers DELETE with DELETE: calls close one transaction each until none is left, and
   only then report the end.  So after more calls than there were transactions, those opened meanwhile
   included, the end has been reported.
   */
  lemma {:induction false} DrainsMeanwhile(t: Trace, io: Ref, steps: seq<Step>)
    requires Winding(t, io) && Responsive(t.l, io) && Prompt(t, io, steps)
    ensures Wind(t, io, steps).Ok?
    ensures var t' := Wind(t, io, steps).value;
            && t'.next >= t.next
            && |OpenOf(t'.l, io)| + |t'.simulated| == |OpenOf(t.l, io)| + |t.simulated| + (t'.next - t.next)
            && |t'.simulated| + t'.reports == |t.simulated| + t.reports + Polls(steps)
            && (Polls(steps) > |OpenOf(t.l, io)| + (t'.next - t.next) ==> t'.reports > t.reports)
    decreases |steps|
  {
    hide Fine, Named, Can, Do, OpenOf;
    if steps != [] {
      PromptFirst(t, io, steps);
      PromptStep(t, io, steps[0]);
      DrainsMeanwhile(Do(t, io, steps[0]).value, io, steps[1..]);
    }
  }

  lemma PromptFirst(t: Trace, io: Ref, steps: seq<Step>)
    requires steps != [] && Prompt(t, io, steps)
    ensures Prompt(t, io, [steps[0]])
  {
    assert [steps[0]][1..] == [];
  }

  /** Calls alone: each closes one transaction until none is left, and the call after that reports the end. */
  lemma {:induction false} Drains(t: Trace, io: Ref, steps: seq<Step>)
    requires Winding(t, io) && Responsive(t.l, io) && Prompt(t, io, steps)
    requires forall i :: 0 <= i < |steps| ==> steps[i].Poll?
    ensures Wind(t, io, steps).Ok?
    ensures var t' := Wind(t, io, steps).value; var n := |OpenOf(t.l, io)|;
            && |OpenOf(t'.l, io)| == (if |steps| <= n then n - |steps| else 0)
            && |t'.simulated| == |t.simulated| + (if |steps| <= n then |steps| else n)
            && t'.eof == (t.eof || |steps| > n)
    decreases |steps|
  {
    hide Fine, Named, Can, OpenOf;
    if steps != [] {
      PromptFirst(t, io, steps);
      PromptStep(t, io, steps[0]);
      CallEnds(t, io, steps[0]);
      Drains(Do(t, io, steps[0]).value, io, steps[1..]);
    }
  }

  lemma CallEnds(t: Trace, io: Ref, step: Step)
    requires Winding(t, io) && step.Poll? && Can(t.l, io, step) && Do(t, io, step).Ok?
    ensures Do(t, io, step).value.eof == (t.eof || Do(t, io, step).value.reports > t.reports)
    ensures OpenOf(t.l, io) == {} ==> |OpenOf(t.l, io)| == 0
    ensures t.eof ==> OpenOf(t.l, io) == {}
  {
  }
}
