/**
 A received message, its handler and the clean-up after it (the loop of dmsg_iocom_core).  While the
 handler runs, anything may happen, on this connection and on others.
 */
module DmsgHandlers {
  import opened Options
  import opened DmsgState
  import opened DmsgRefs
  import opened DmsgRuns

  /** Nothing else closes the reception of `r` meanwhile: a connection handles one message at a time. */
  predicate Quiet(ops: seq<Op>, r: Ref) {
    forall i :: 0 <= i < |ops| && ops[i].Finish? && ops[i].r == r ==> !ops[i].cmd.delete
  }

  /** The structure is a root, or a transaction open for reception. */
  predicate Sits(l: Lib, r: Ref, root: bool, reply: bool) {
    && r in l.mem && l.mem[r].root == root
    && (!root ==> l.mem[r].inserted && !l.mem[r].rxcmd.delete && l.mem[r].rxcmd.reply == reply)
  }

  // ----- what is open for reception stays

  lemma UpdateSits(l: Lib, q: Ref, tx: Dir, rx: Dir, r: Ref, root: bool, reply: bool)
    requires Sound(l) && Stands(l, q) && Sits(l, r, root, reply)
    requires tx.reply == l.mem[q].txcmd.reply && rx.reply == l.mem[q].rxcmd.reply
    requires q == r ==> !rx.delete
    ensures Update(l, q, tx, rx).Ok? ==> Sits(Update(l, q, tx, rx).value, r, root, reply)
  {
    hide Queued, Counted, Indexed, Retire;
    assert At(l, q, multiset{});
    var l1 := WithFlags(l, q, tx, rx);
    if tx.delete && rx.delete && Update(l, q, tx, rx).Ok? {
      RetireEffect(l1, q);
    }
  }

  lemma WriteSits(l: Lib, q: Ref, cmd: Cmd, r: Ref, root: bool, reply: bool)
    requires Sound(l) && Sendable(l, q) && cmd.reply == l.mem[q].txcmd.reply && Sits(l, r, root, reply)
    ensures Write(l, q, cmd).Ok? ==> Sits(Write(l, q, cmd).value.0, r, root, reply)
  {
    hide Queued, Counted, Indexed, Retire, Write;
    assert At(l, q, multiset{});
    var tx, rx := Written(l.mem[q].txcmd, cmd), l.mem[q].rxcmd;
    if q == r {
      assert !rx.delete;
    }
    UpdateSits(l, q, tx, rx, r, root, reply);
    if tx.delete && rx.delete {
      FlagsKeep(l, q, tx, rx, multiset{});
      assert At(WithFlags(l, q, tx, rx), q, multiset{});
      RetireKeeps(WithFlags(l, q, tx, rx), q, multiset{});
    }
    WriteIsUpdate(l, q, cmd);
  }

  lemma FinishSits(l: Lib, q: Ref, cmd: Cmd, r: Ref, root: bool, reply: bool)
    requires Sound(l) && CleanupRx(l, q, cmd).Ok? && Sits(l, r, root, reply) && (q == r ==> root || !cmd.delete)
    ensures Sits(CleanupRx(l, q, cmd).value, r, root, reply)
  {
    hide Queued, Counted, Indexed, Retire;
    CleanupRxKeeps(l, q, cmd);
    var s := l.mem[q];
    if !s.root && cmd.delete && s.txcmd.delete {
      UpdateSits(l, q, s.txcmd, s.rxcmd.(delete := true), r, root, reply);
      assert At(l, q, multiset{});
    }
  }

  lemma ReceiveSits(l: Lib, io: Ref, m: Msg, addr: Ref, r: Ref, root: bool, reply: bool)
    requires Sound(l) && Allowed(l, Receive(io, m, addr)) && MsgRx(l, io, m, addr).Ok? && Sits(l, r, root, reply)
    ensures Sits(MsgRx(l, io, m, addr).value.0, r, root, reply)
  {
  }

  lemma RelaySits(l: Lib, left: Ref, right: Ref, r: Ref, root: bool, reply: bool)
    requires Allowed(l, Relay(left, right)) && RelayOpen(l, left, right).Ok? && Sits(l, r, root, reply)
    ensures Sits(RelayOpen(l, left, right).value, r, root, reply)
  {
    var target := l.mem[l.mem[left].parent.value].relay.value;
    var l1 := Open(l, target, right);
    assert Sits(l1, r, root, reply);
  }

  lemma StepSits(l: Lib, op: Op, r: Ref, root: bool, reply: bool)
    requires Sound(l) && Allowed(l, op) && Apply(l, op).Ok? && Sits(l, r, root, reply) && (!root ==> Quiet([op], r))
    ensures Sits(Apply(l, op).value, r, root, reply)
  {
    hide Queued, Counted, Indexed, Retire, Write, CleanupRx, MsgRx, RelayOpen;
    assert [op][0] == op;
    match op
    case NewIocom(_) =>
    case Begin(_, _) =>
    case Start(q, last) =>
      assert At(l, q, multiset{});
      WriteSits(l, q, FirstCmd.(delete := last), r, root, reply);
    case Answer(q, last) =>
      if !l.mem[q].txcmd.delete {
        WriteSits(l, q, ReplyCmd(l.mem[q], last), r, root, reply);
      }
    case Receive(io, m, addr) => ReceiveSits(l, io, m, addr, r, root, reply);
    case Finish(q, cmd) => FinishSits(l, q, cmd, r, root, reply);
    case Seed(_, _) =>
    case Relay(left, right) => RelaySits(l, left, right, r, root, reply);
  }

  lemma {:induction false} RunSits(l: Lib, ops: seq<Op>, r: Ref, root: bool, reply: bool)
    requires Sound(l) && Sits(l, r, root, reply) && (!root ==> Quiet(ops, r))
    ensures Sound(Run(l, ops)) && Sits(Run(l, ops), r, root, reply)
    decreases |ops|
  {
    hide Inv, Sits, Apply, Allowed;
    if ops != [] {
      var op := ops[0];
      if Allowed(l, op) && Apply(l, op).Ok? {
        StepSound(l, op);
        StepSits(l, op, r, root, reply);
        RunSits(Apply(l, op).value, ops[1..], r, root, reply);
      } else {
        RunSits(l, ops[1..], r, root, reply);
      }
    }
  }

  // ----- the clean-up

  /** What the clean-up can rely on: the message fits the transaction, whose reception was not closed before. */
  predicate InTurn(l: Lib, r: Ref, cmd: Cmd)
    requires r in l.mem
  {
    var s := l.mem[r];
    s.root || (!s.rxcmd.delete && (cmd.delete ==> cmd.reply == s.rxcmd.reply))
  }

  /** However the handler goes about it, the clean-up trips no assertion and touches no freed structure. */
  ghost predicate Safe(l: Lib, r: Ref, cmd: Cmd) {
    forall ops :: Quiet(ops, r) ==> CleanupRx(Run(l, ops), r, cmd).Ok?
  }

  lemma InTurnIsSafe(l: Lib, r: Ref, cmd: Cmd)
    requires Sound(l) && r in l.mem && (l.mem[r].root || Stands(l, r)) && InTurn(l, r, cmd)
    ensures Safe(l, r, cmd)
  {
    hide Inv, Run, CleanupRx;
    assert l.mem[r].inserted ==> At(l, r, multiset{}) by { StandsAt(l, r); }
    forall ops | Quiet(ops, r)
      ensures CleanupRx(Run(l, ops), r, cmd).Ok?
    {
      RunSits(l, ops, r, l.mem[r].root, l.mem[r].rxcmd.reply);
      CleanupRxKeeps(Run(l, ops), r, cmd);
    }
  }

  lemma StandsAt(l: Lib, r: Ref)
    requires Sound(l) && r in l.mem
    ensures At(l, r, multiset{})
  {
  }

  /** The handler that answers with DELETE at once. */
  function Closing(r: Ref): seq<Op> { [Answer(r, true)] }

  lemma RunClosing(l: Lib, r: Ref)
    requires Sound(l) && Sendable(l, r)
    ensures Allowed(l, Answer(r, true)) && Apply(l, Answer(r, true)).Ok?
    ensures Run(l, Closing(r)) == Apply(l, Answer(r, true)).value && Quiet(Closing(r), r)
    ensures Sound(Run(l, Closing(r)))
  {
    hide Inv, Apply;
    NeverFaults(l, Answer(r, true));
    StepSound(l, Answer(r, true));
    assert Closing(r)[1..] == [];
  }

  /** After that the transaction is closed for transmission, and gone if its reception was closed. */
  lemma AfterClosing(l: Lib, r: Ref)
    requires Sound(l) && Sendable(l, r)
    ensures var l' := Run(l, Closing(r));
            && (!l.mem[r].rxcmd.delete ==>
                  r in l'.mem && !l'.mem[r].root && l'.mem[r].txcmd.delete && l'.mem[r].rxcmd == l.mem[r].rxcmd)
            && (l.mem[r].rxcmd.delete && r in l'.mem ==>
                  !l'.mem[r].root && !l'.mem[r].inserted && l'.mem[r].txcmd.delete)
            && (l.mem[r].rxcmd.delete && Kids(l.mem, r) == {} && Users(l.mem, r) == {} ==> r !in l'.mem)
  {
    hide Queued, Indexed, Retire, Run, Write;
    RunClosing(l, r);
    assert At(l, r, multiset{});
    var s := l.mem[r];
    var tx := Written(s.txcmd, ReplyCmd(s, true));
    var l1 := WithFlags(l, r, tx, s.rxcmd);
    if s.rxcmd.delete {
      FlagsKeep(l, r, tx, s.rxcmd, multiset{});
      assert At(l1, r, multiset{});
      RetireKeeps(l1, r, multiset{});
      RetireEffect(l1, r);
      var l' := Retire(l1, r, s.opposite).value;
      WriteIsUpdate(l, r, ReplyCmd(s, true));
      FreedAlone(l, l1, r, l', tx);
    } else {
      WriteIsUpdate(l, r, ReplyCmd(s, true));
    }
  }

  lemma FreedAlone(l: Lib, l1: Lib, r: Ref, l': Lib, tx: Dir)
    requires r in l.mem && l1 == WithFlags(l, r, tx, l.mem[r].rxcmd) && Retired(l1, r, l') && Inv(l', multiset{})
    requires !l.mem[r].root
    ensures Kids(l.mem, r) == {} && Users(l.mem, r) == {} ==> r !in l'.mem
  {
    hide Inv;
    HasReference(l', r);
    assert Kids(l'.mem, r) <= Kids(l.mem, r) && Users(l'.mem, r) <= Users(l.mem, r);
  }

  /** A structure that is in no tree is kept by another one. */
  lemma HasReference(l: Lib, r: Ref)
    requires Inv(l, multiset{}) && (r in l.mem ==> !l.mem[r].root && !l.mem[r].inserted)
    ensures r in l.mem ==> Kids(l.mem, r) != {} || Users(l.mem, r) != {}
  {
    if r in l.mem {
      assert At(l, r, multiset{});
    }
  }

  /**
   The exact condition, for every message on an open transaction: the clean-up is safe for all handlers
   if and only if the message fits the transaction and its reception was not closed before.  (For a message
   that closes nothing this takes that nothing else keeps the structure, since it is then merely read.)
   */
  lemma SafeIffInTurn(l: Lib, r: Ref, cmd: Cmd)
    requires Sound(l) && Stands(l, r) && (l.mem[r].txcmd.delete || Sendable(l, r))
    requires cmd.delete || (Kids(l.mem, r) == {} && Users(l.mem, r) == {})
    ensures Safe(l, r, cmd) <==> InTurn(l, r, cmd)
  {
    assert Run(l, []) == l;
    hide Queued, Counted, Indexed, Run, CleanupRx;
    StandsAt(l, r);
    if InTurn(l, r, cmd) {
      InTurnIsSafe(l, r, cmd);
    } else if l.mem[r].txcmd.delete {
      Unsafe(l, r, cmd, []);
    } else {
      AfterClosing(l, r);
      RunClosing(l, r);
      Unsafe(l, r, cmd, Closing(r));
    }
  }

  lemma Unsafe(l: Lib, r: Ref, cmd: Cmd, ops: seq<Op>)
    requires Quiet(ops, r) && Sound(Run(l, ops)) && !Cleanable(Run(l, ops), r, cmd)
    ensures !Safe(l, r, cmd)
  {
    CleanupRxKeeps(Run(l, ops), r, cmd);
  }

  // ----- a message from the wire

  /** An accepted message is tied to a root or to an open transaction; one with CREATE is always in turn. */
  lemma AcceptedStands(l: Lib, io: Ref, m: Msg, addr: Ref)
    requires Sound(l) && Allowed(l, Receive(io, m, addr)) && MsgRx(l, io, m, addr).Ok?
    ensures var (l', r) := MsgRx(l, io, m, addr).value;
            && Sound(l') && r in l'.mem && (l'.mem[r].root || Stands(l', r))
            && (m.cmd.create ==> InTurn(l', r, m.cmd))
  {
    MsgRxKeeps(l, io, m, addr);
  }

  /**
   Whatever message is accepted and whatever its handler does: the clean-up runs through if the message
   starts something, or fits its transaction and comes before the end of it.
   */
  lemma CleanedAfterHandler(l: Lib, io: Ref, m: Msg, addr: Ref, ops: seq<Op>)
    requires Sound(l) && Allowed(l, Receive(io, m, addr)) && MsgRx(l, io, m, addr).Ok?
    requires var (l', r) := MsgRx(l, io, m, addr).value;
             Quiet(ops, r) && (r in l'.mem && !m.cmd.create ==> InTurn(l', r, m.cmd))
    ensures var (l', r) := MsgRx(l, io, m, addr).value;
            CleanupRx(Run(l', ops), r, m.cmd).Ok? && Sound(CleanupRx(Run(l', ops), r, m.cmd).value)
  {
    hide Inv, Run, CleanupRx, MsgRx, InTurn;
    AcceptedStands(l, io, m, addr);
    var (l', r) := MsgRx(l, io, m, addr).value;
    InTurnIsSafe(l', r, m.cmd);
    RunSound(l', ops);
    CleanupRxKeeps(Run(l', ops), r, m.cmd);
  }

  lemma {:induction false} RunSound(l: Lib, ops: seq<Op>)
    requires Sound(l)
    ensures Sound(Run(l, ops))
    decreases |ops|
  {
    hide Inv, Apply, Allowed;
    if ops != [] {
      if Allowed(l, ops[0]) && Apply(l, ops[0]).Ok? {
        StepSound(l, ops[0]);
        RunSound(Apply(l, ops[0]).value, ops[1..]);
      } else {
        RunSound(l, ops[1..]);
      }
    }
  }

  // ----- two messages that are not in turn

  const Start0 := Lib(map[1 := Root(1)], map[], map[])
  const Command := Msg(7, 0, Cmd(true, false, false, false, false, false))
  const Last := Cmd(false, true, false, false, false, false)

  /** The other end starts transaction 7, which gets the address 2. */
  lemma OneTransaction() returns (l: Lib)
    ensures MsgRx(Start0, 1, Command, 2) == Ok((l, 2)) && Sound(l) && Sendable(l, 2)
    ensures l.mem.Keys == {1, 2} && l.mem[2] == Remote(Start0, 1, Command) && l.mem[1].root
    ensures l.rd == map[Key(1, 7) := 2] && l.wr == map[]
    ensures Kids(l.mem, 2) == {} && Users(l.mem, 2) == {}
  {
    assert Kids(Start0.mem, 1) == {} && Users(Start0.mem, 1) == {};
    assert At(Start0, 1, multiset{});
    MsgRxKeeps(Start0, 1, Command, 2);
    l := MsgRx(Start0, 1, Command, 2).value.0;
  }

  /** We close it; the other end's DELETE has the REPLY flag of the other direction: the assertion fires. */
  lemma WrongReplyExample()
    ensures var l := Run(MsgRx(Start0, 1, Command, 2).value.0, Closing(2));
            var m := Msg(7, 0, Last.(reply := true));
            MsgRx(Start0, 1, Command, 2).Ok? && MsgRx(l, 1, m, 3) == Ok((l, 2)) && CleanupRx(l, 2, m.cmd).Fault?
  {
    var l0 := OneTransaction();
    AfterClosing(l0, 2);
    RunClosing(l0, 2);
    ExampleKeeps(l0);
    CleanupRxKeeps(Run(l0, Closing(2)), 2, Last.(reply := true));
  }

  lemma ExampleKeeps(l: Lib)
    requires Sound(l) && Sendable(l, 2) && l.mem[2] == Remote(Start0, 1, Command) && l.rd == map[Key(1, 7) := 2]
    requires 1 in l.mem
    ensures var l' := Run(l, Closing(2));
            l'.rd == l.rd && 2 in l'.mem && l'.mem[2].parent == Some(1) && l'.mem[2].rxcmd.create && 1 in l'.mem
  {
    RunClosing(l, 2);
    WriteIsUpdate(l, 2, ReplyCmd(l.mem[2], true));
  }

  /** The other end sends DELETE twice, and the second is answered: the clean-up looks at what has been freed. */
  lemma SecondDeleteExample()
    ensures var l0 := MsgRx(Start0, 1, Command, 2).value.0;
            var m := Msg(7, 0, Last);
            && MsgRx(Start0, 1, Command, 2).Ok?
            && MsgRx(l0, 1, m, 3) == Ok((l0, 2)) && CleanupRx(l0, 2, Last).Ok?
            && var l1 := CleanupRx(l0, 2, Last).value;
               && MsgRx(l1, 1, m, 3) == Ok((l1, 2))
               && 2 !in Run(l1, Closing(2)).mem && CleanupRx(Run(l1, Closing(2)), 2, Last).Fault?
  {
    var l0 := OneTransaction();
    CleanupRxKeeps(l0, 2, Last);
    var l1 := CleanupRx(l0, 2, Last).value;
    assert l1 == WithFlags(l0, 2, l0.mem[2].txcmd, l0.mem[2].rxcmd.(delete := true));
    SameKids(l0.mem, 2, l1.mem[2], 2);
    SameUsers(l0.mem, 2, l1.mem[2], 2);
    AfterClosing(l1, 2);
  }
}
