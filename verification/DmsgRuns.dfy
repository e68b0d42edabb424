/**
 Every run of the transaction operations, in any order, on any number of iocoms.
 */
module DmsgRuns {
  import opened Options
  import opened DmsgState
  import opened DmsgRefs

  datatype Op =
    | NewIocom(addr: Ref)                    // dmsg_iocom_init
    | Begin(parent: Ref, addr: Ref)          // dmsg_msg_alloc with CREATE
    | Start(r: Ref, last: bool)              // dmsg_msg_write of that message, with or without DELETE
    | Answer(r: Ref, last: bool)             // dmsg_state_reply (last) or dmsg_state_result
    | Receive(io: Ref, m: Msg, addr: Ref)    // dmsg_state_msgrx
    | Finish(r: Ref, cmd: Cmd)               // dmsg_state_cleanuprx
    | Seed(r: Ref, target: Ref)              // dmsg_generate_relay
    | Relay(left: Ref, right: Ref)           // dmsg_state_relay on a new sub-transaction

  const FirstCmd := Cmd(true, false, false, false, false, false)

  /**
   What the source asks of whoever performs the operation.  It asks nothing of a clean-up: what message it
   comes after is up to the other end.
   */
  predicate Allowed(l: Lib, op: Op) {
    match op
    case NewIocom(addr) => addr !in l.mem && addr != 0
    case Begin(p, addr) => p in l.mem && addr !in l.mem && addr != 0
    case Start(r, _) => Sendable(l, r) && !l.mem[r].opposite && !l.mem[r].txcmd.create
    case Answer(r, _) => r in l.mem && !l.mem[r].root && (l.mem[r].txcmd.delete || Sendable(l, r))
    case Receive(io, m, addr) => io in l.mem && l.mem[io].root && addr !in l.mem && addr != 0 && !Collides(l, io, m)
    case Finish(_, _) => true
    case Seed(r, target) =>
      r in l.mem && target in l.mem && target != r && !l.mem[r].root && l.mem[r].inserted && l.mem[r].relay.None?
    case Relay(left, right) =>
      && left in l.mem && !l.mem[left].root && l.mem[left].inserted && l.mem[left].relay.None?
      && l.mem[left].parent.Some? && l.mem[left].parent.value in l.mem
      && l.mem[l.mem[left].parent.value].relay.Some?
      && right !in l.mem && right != 0
  }

  function Apply(l: Lib, op: Op): Outcome<Lib>
    requires Allowed(l, op)
  {
    match op
    case NewIocom(addr) => Ok(l.(mem := l.mem[addr := Root(addr)]))
    case Begin(p, addr) => Ok(Open(l, p, addr))
    case Start(r, last) =>
      var w :- Write(l, r, FirstCmd.(delete := last));
      Ok(w.0)
    case Answer(r, last) =>
      if l.mem[r].txcmd.delete then Ok(l)
      else
        var w :- Write(l, r, ReplyCmd(l.mem[r], last));
        Ok(w.0)
    case Receive(io, m, addr) =>
      var rx :- MsgRx(l, io, m, addr);
      Ok(rx.0)
    case Finish(r, cmd) => CleanupRx(l, r, cmd)
    case Seed(r, target) => Ok(SeedRelay(l, r, target))
    case Relay(left, right) => RelayOpen(l, left, right)
  }

  lemma NewIocomAt(l: Lib, addr: Ref, t: Ref)
    requires Inv(l, multiset{}) && addr !in l.mem && addr != 0
    requires t in l.mem && At(l, t, multiset{})
    ensures At(l.(mem := l.mem[addr := Root(addr)]), t, multiset{})
  {
    var mem := l.mem[addr := Root(addr)];
    assert Kids(mem, t) == Kids(l.mem, t);
    assert Users(mem, t) == Users(l.mem, t);
  }

  /** Nothing points to an address that is not allocated. */
  lemma NoDangling(l: Lib, addr: Ref)
    requires Inv(l, multiset{}) && addr !in l.mem
    ensures Kids(l.mem, addr) == {} && Users(l.mem, addr) == {}
  {
    forall t | t in l.mem
      ensures l.mem[t].parent != Some(addr) && l.mem[t].relay != Some(addr)
    {
      assert At(l, t, multiset{});
    }
  }

  lemma NewIocomSelf(l: Lib, addr: Ref)
    requires Inv(l, multiset{}) && addr !in l.mem && addr != 0
    ensures At(l.(mem := l.mem[addr := Root(addr)]), addr, multiset{})
  {
    NoDangling(l, addr);
    var mem := l.mem[addr := Root(addr)];
    assert Kids(mem, addr) == Kids(l.mem, addr);
    assert Users(mem, addr) == Users(l.mem, addr);
  }

  lemma NewIocomKeeps(l: Lib, addr: Ref)
    requires Sound(l) && addr !in l.mem && addr != 0
    ensures Sound(l.(mem := l.mem[addr := Root(addr)]))
  {
    hide At;
    var l' := l.(mem := l.mem[addr := Root(addr)]);
    forall t | t in l'.mem
      ensures At(l', t, multiset{})
    {
      if t == addr {
        NewIocomSelf(l, addr);
      } else {
        assert At(l, t, multiset{});
        NewIocomAt(l, addr, t);
      }
    }
  }

  lemma NewIocomForest(l: Lib, addr: Ref)
    requires Inv(l, multiset{}) && Forest(l) && addr !in l.mem
    ensures Forest(l.(mem := l.mem[addr := Root(addr)]))
  {
    var mem := l.mem[addr := Root(addr)];
    var rank :| Ranked(l.mem, rank);
    var rank' := rank[addr := 0];
    NoDangling(l, addr);
    forall t | t in mem
      ensures RankAt(mem, rank', t)
    {
      if t != addr {
        assert RankAt(l.mem, rank, t);
        assert t !in Kids(l.mem, addr);
      }
    }
    assert Ranked(mem, rank');
  }

  /**
   Only a message from the other end can upset this end: every operation of this end, performed as the
   source asks, runs through, whatever happened before.  The clean-up after a message does exactly if
   the message is `Cleanable`.
   */
  lemma NeverFaults(l: Lib, op: Op)
    requires Sound(l) && Allowed(l, op) && !op.Receive?
    ensures Apply(l, op).Ok? <==> (op.Finish? ==> Cleanable(l, op.r, op.cmd))
  {
    match op
    case NewIocom(_) =>
    case Begin(_, _) =>
    case Start(r, last) =>
      assert At(l, r, multiset{});
      WriteKeeps(l, r, FirstCmd.(delete := last));
    case Answer(r, last) =>
      if !l.mem[r].txcmd.delete {
        WriteKeeps(l, r, ReplyCmd(l.mem[r], last));
      }
    case Finish(r, cmd) => CleanupRxKeeps(l, r, cmd);
    case Seed(_, _) =>
    case Relay(left, _) =>
      assert At(l, l.mem[left].parent.value, multiset{});
  }

  /** What writing on `r`, closing it or not, leaves of it. */
  ghost predicate Spoken(l: Lib, r: Ref, last: bool, l': Lib)
    requires r in l.mem
  {
    var s := l.mem[r];
    if last && s.rxcmd.delete then !Stands(l', r) && forall t :: t != r ==> (Stands(l', t) <==> Stands(l, t))
    else
      && r in l'.mem && l' == l.(mem := l.mem[r := l'.mem[r]])
      && l'.mem[r] == s.(txcmd := l'.mem[r].txcmd)
      && l'.mem[r].txcmd.create && l'.mem[r].txcmd.delete == last && l'.mem[r].txcmd.reply == s.txcmd.reply
  }

  /** A reply that does not close the transaction leaves it open; one that does closes it, or ends it. */
  lemma AnswerMeans(l: Lib, r: Ref, last: bool)
    requires Sound(l) && Sendable(l, r)
    ensures Allowed(l, Answer(r, last)) && Apply(l, Answer(r, last)).Ok?
    ensures Spoken(l, r, last, Apply(l, Answer(r, last)).value)
  {
    hide Queued, Counted, Indexed, Retire;
    assert At(l, r, multiset{});
    WriteSpoken(l, r, ReplyCmd(l.mem[r], last), last);
  }

  /** So does the first message of a transaction. */
  lemma StartMeans(l: Lib, r: Ref, last: bool)
    requires Sound(l) && Allowed(l, Start(r, last))
    ensures Apply(l, Start(r, last)).Ok? && Spoken(l, r, last, Apply(l, Start(r, last)).value)
  {
    hide Queued, Counted, Indexed, Retire;
    assert At(l, r, multiset{});
    WriteSpoken(l, r, FirstCmd.(delete := last), last);
  }

  lemma WriteSpoken(l: Lib, r: Ref, cmd: Cmd, last: bool)
    requires Sound(l) && Sendable(l, r) && cmd.reply == l.mem[r].txcmd.reply && cmd.delete == last
    requires cmd.create || l.mem[r].txcmd.create
    ensures Write(l, r, cmd).Ok? && Spoken(l, r, last, Write(l, r, cmd).value.0)
  {
    hide Queued, Counted, Indexed, Retire, Write;
    assert At(l, r, multiset{});
    var tx, rx := Written(l.mem[r].txcmd, cmd), l.mem[r].rxcmd;
    var l1 := WithFlags(l, r, tx, rx);
    if last && rx.delete {
      FlagsKeep(l, r, tx, rx, multiset{});
      assert At(l1, r, multiset{});
      RetireKeeps(l1, r, multiset{});
      RetireEffect(l1, r);
    }
    WriteIsUpdate(l, r, cmd);
  }

  lemma StepSound(l: Lib, op: Op)
    requires Sound(l) && Allowed(l, op) && Apply(l, op).Ok?
    ensures Sound(Apply(l, op).value)
  {
    match op
    case NewIocom(addr) => NewIocomKeeps(l, addr);
    case Begin(p, addr) => OpenKeeps(l, p, addr);
    case Start(r, last) =>
      assert At(l, r, multiset{});
      WriteKeeps(l, r, FirstCmd.(delete := last));
    case Answer(r, last) =>
      if !l.mem[r].txcmd.delete {
        WriteKeeps(l, r, ReplyCmd(l.mem[r], last));
      }
    case Receive(io, m, addr) => MsgRxKeeps(l, io, m, addr);
    case Finish(r, cmd) => CleanupRxKeeps(l, r, cmd);
    case Seed(r, target) => SeedRelayKeeps(l, r, target);
    case Relay(left, right) => RelayOpenKeeps(l, left, right);
  }

  lemma RetireParents(l: Lib, r: Ref)
    requires r in l.mem && l.mem[r].parent != Some(r) && Retire(l, r, l.mem[r].opposite).Ok?
    ensures NoNewParent(l, Retire(l, r, l.mem[r].opposite).value)
  {
    RetireEffect(l, r);
  }

  lemma ParentsStep(l: Lib, l1: Lib, l2: Lib)
    requires NoNewParent(l, l1) && NoNewParent(l1, l2)
    ensures NoNewParent(l, l2)
  {
  }

  lemma CleanupTxParents(l: Lib, r: Ref, cmd: Cmd)
    requires r in l.mem && CleanupTx(l, r, cmd).Ok? && l.mem[r].txcmd.reply == l.mem[r].opposite
    requires !l.mem[r].root ==> l.mem[r].parent != Some(r)
    ensures NoNewParent(l, CleanupTx(l, r, cmd).value)
  {
    var s := l.mem[r];
    var l1 := l.(mem := l.mem[r := s.(txcmd := s.txcmd.(delete := true))]);
    assert NoNewParent(l, l1);
    if !s.root && cmd.delete && s.rxcmd.delete {
      RetireParents(l1, r);
      ParentsStep(l, l1, CleanupTx(l, r, cmd).value);
    }
  }

  lemma WriteParents(l: Lib, r: Ref, cmd: Cmd)
    requires Sendable(l, r) && cmd.reply == l.mem[r].txcmd.reply == l.mem[r].opposite && Write(l, r, cmd).Ok?
    requires l.mem[r].parent != Some(r)
    ensures NoNewParent(l, Write(l, r, cmd).value.0)
  {
    var s := l.mem[r];
    var l1 := if cmd.create then l.(mem := l.mem[r := s.(txcmd := Dir(true, false, cmd.reply))]) else l;
    CleanupTxParents(l1, r, cmd);
  }

  lemma FinishParents(l: Lib, r: Ref, cmd: Cmd)
    requires r in l.mem && CleanupRx(l, r, cmd).Ok?
    requires l.mem[r].inserted ==> l.mem[r].rxcmd.reply == !l.mem[r].opposite
    requires !l.mem[r].root ==> l.mem[r].parent != Some(r)
    ensures NoNewParent(l, CleanupRx(l, r, cmd).value)
  {
    var s := l.mem[r];
    var l1 := l.(mem := l.mem[r := s.(rxcmd := s.rxcmd.(delete := true))]);
    assert NoNewParent(l, l1);
    if !s.root && cmd.delete && s.txcmd.delete {
      RetireParents(l1, r);
      ParentsStep(l, l1, CleanupRx(l, r, cmd).value);
    }
  }

  lemma ReceiveForest(l: Lib, io: Ref, m: Msg, addr: Ref)
    requires Sound(l) && Forest(l) && Allowed(l, Receive(io, m, addr)) && MsgRx(l, io, m, addr).Ok?
    ensures Forest(MsgRx(l, io, m, addr).value.0)
  {
    if Lookup(l, io, m).None? && m.cmd.create && !m.cmd.reply {
      var p := Circuit(l, io, m).value;
      CircuitHome(l, io, m);
      ForestGrows(l, p, addr, Remote(l, p, m));
    } else {
      ForestShrinks(l, MsgRx(l, io, m, addr).value.0);
    }
  }

  lemma RelayForest(l: Lib, left: Ref, right: Ref)
    requires Sound(l) && Forest(l) && Allowed(l, Relay(left, right)) && RelayOpen(l, left, right).Ok?
    ensures Forest(RelayOpen(l, left, right).value)
  {
    hide Queued, Counted, Indexed;
    var target := l.mem[l.mem[left].parent.value].relay.value;
    assert At(l, l.mem[left].parent.value, multiset{});
    OpenKeeps(l, target, right);
    ForestGrows(l, target, right, Local(l, target, right));
    ForestShrinks(Open(l, target, right), RelayOpen(l, left, right).value);
  }

  lemma StepForest(l: Lib, op: Op)
    requires Sound(l) && Allowed(l, op) && Apply(l, op).Ok? && Forest(l)
    ensures Forest(Apply(l, op).value)
  {
    hide Queued, Counted, Indexed, Retire, Forest;
    match op
    case NewIocom(addr) => NewIocomForest(l, addr);
    case Begin(p, addr) =>
      OpenKeeps(l, p, addr);
      ForestGrows(l, p, addr, Local(l, p, addr));
    case Start(r, last) =>
      assert At(l, r, multiset{});
      WriteParents(l, r, FirstCmd.(delete := last));
      ForestShrinks(l, Apply(l, op).value);
    case Answer(r, last) =>
      if !l.mem[r].txcmd.delete {
        assert At(l, r, multiset{});
        WriteParents(l, r, ReplyCmd(l.mem[r], last));
        ForestShrinks(l, Apply(l, op).value);
      }
    case Receive(io, m, addr) => ReceiveForest(l, io, m, addr);
    case Finish(r, cmd) =>
      assert At(l, r, multiset{});
      FinishParents(l, r, cmd);
      ForestShrinks(l, Apply(l, op).value);
    case Seed(r, target) => ForestShrinks(l, Apply(l, op).value);
    case Relay(left, right) => RelayForest(l, left, right);
  }

  const Nothing := Lib(map[], map[], map[])

  /** Perform the operations in turn; one that is refused, or whose message is thrown away, changes nothing. */
  function Run(l: Lib, ops: seq<Op>): Lib
    decreases |ops|
  {
    if ops == [] then l
    else
      var op := ops[0];
      if Allowed(l, op) && Apply(l, op).Ok? then Run(Apply(l, op).value, ops[1..])
      else Run(l, ops[1..])
  }

  lemma {:induction false} RunKeeps(l: Lib, ops: seq<Op>)
    requires Sound(l) && Forest(l)
    ensures Sound(Run(l, ops)) && Forest(Run(l, ops))
    decreases |ops|
  {
    if ops != [] {
      var op := ops[0];
      if Allowed(l, op) && Apply(l, op).Ok? {
        StepSound(l, op);
        StepForest(l, op);
        RunKeeps(Apply(l, op).value, ops[1..]);
      } else {
        RunKeeps(l, ops[1..]);
      }
    }
  }

  /**
   In every reachable state the count of each transaction is one if it is indexed (or is a
   root), plus the transactions stacked under it, plus those that relay to it; and it is in
   its parent's queue exactly while it is in its tree.
   */
  lemma RefsExact(ops: seq<Op>, r: Ref)
    requires r in Run(Nothing, ops).mem
    ensures var l := Run(Nothing, ops);
            var s := l.mem[r];
            && s.refs == Base(s) + |Kids(l.mem, r)| + |Users(l.mem, r)|
            && (!s.root ==> (s.inserted <==> s.parent.Some?))
            && (s.inserted ==> s.parent.Some? && s.parent.value in l.mem && r in l.mem[s.parent.value].subq)
            && (forall p :: p in l.mem && r in l.mem[p].subq ==> s.inserted && s.parent == Some(p))
            && (s.inserted <==> (KeyOf(s) in l.rd && l.rd[KeyOf(s)] == r) || (KeyOf(s) in l.wr && l.wr[KeyOf(s)] == r))
  {
    var l := Run(Nothing, ops);
    assert Ranked(Nothing.mem, map[]);
    RunKeeps(Nothing, ops);
    assert At(l, r, multiset{});
    var s := l.mem[r];
    if s.inserted {
      assert At(l, s.parent.value, multiset{});
      assert r in Kids(l.mem, s.parent.value);
    }
    forall p | p in l.mem && r in l.mem[p].subq
      ensures s.inserted && s.parent == Some(p)
    {
      assert At(l, p, multiset{});
      assert r in Kids(l.mem, p);
    }
  }

  /** A structure is freed only when nothing refers to it, and as soon as nothing does. */
  lemma FreedExactly(ops: seq<Op>, op: Op, r: Ref)
    requires var l := Run(Nothing, ops);
             Allowed(l, op) && Apply(l, op).Ok? && r in l.mem && !l.mem[r].root
    ensures var l' := Apply(Run(Nothing, ops), op).value;
            r in l'.mem <==>
              || (exists t :: t in l'.mem && (l'.mem[t].parent == Some(r) || l'.mem[t].relay == Some(r)))
              || (exists k :: k in l'.rd && l'.rd[k] == r)
              || (exists k :: k in l'.wr && l'.wr[k] == r)
  {
    var l := Run(Nothing, ops);
    assert Ranked(Nothing.mem, map[]);
    RunKeeps(Nothing, ops);
    StepSound(l, op);
    var l' := Apply(l, op).value;
    if r in l'.mem {
      assert At(l', r, multiset{});
      if l'.mem[r].inserted {
        assert KeyOf(l'.mem[r]) in l'.rd || KeyOf(l'.mem[r]) in l'.wr;
      } else {
        NotRoot(l, op, r);
        assert Kids(l'.mem, r) + Users(l'.mem, r) != {};
        var t :| t in Kids(l'.mem, r) + Users(l'.mem, r);
      }
    } else {
      forall t | t in l'.mem
        ensures l'.mem[t].parent != Some(r) && l'.mem[t].relay != Some(r)
      {
        assert At(l', t, multiset{});
      }
    }
  }

  lemma NotRoot(l: Lib, op: Op, r: Ref)
    requires Sound(l) && Allowed(l, op) && Apply(l, op).Ok? && r in l.mem && !l.mem[r].root
    ensures r in Apply(l, op).value.mem ==> !Apply(l, op).value.mem[r].root
  {
    hide Queued, Counted, Indexed, Retire, Trees;
    match op
    case NewIocom(addr) =>
    case Begin(p, addr) =>
    case Start(q, last) =>
      assert At(l, q, multiset{});
      WriteParents(l, q, FirstCmd.(delete := last));
    case Answer(q, last) =>
      if !l.mem[q].txcmd.delete {
        assert At(l, q, multiset{});
        WriteParents(l, q, ReplyCmd(l.mem[q], last));
      }
    case Receive(io, m, addr) =>
    case Finish(q, cmd) =>
      assert At(l, q, multiset{});
      FinishParents(l, q, cmd);
    case Seed(q, target) =>
    case Relay(left, right) =>
  }
}
