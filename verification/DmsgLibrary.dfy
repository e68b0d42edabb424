/**
 The transaction operations as the source performs them, updating the structures in place.  Each
 keeps every count, queue and tree entry exact, and together they carry out the runs of `DmsgRuns`.
 */
module DmsgLibrary {
  import opened Options
  import opened DmsgState
  import opened DmsgRefs
  import opened DmsgRuns

  /** Structures other than those of `touched` are as they were. */
  ghost predicate Untouched(l: Lib, l': Lib, touched: set<Ref>) {
    forall t :: t !in touched ==> (t in l.mem <==> t in l'.mem) && (t in l.mem ==> l'.mem[t] == l.mem[t])
  }

  /** Nothing about the structures has changed but the flags of `r`. */
  ghost predicate OnlyFlags(l: Lib, l': Lib, r: Ref) {
    && r in l.mem && r in l'.mem && l'.rd == l.rd && l'.wr == l.wr && Untouched(l, l', {r})
    && l'.mem[r] == l.mem[r].(txcmd := l'.mem[r].txcmd, rxcmd := l'.mem[r].rxcmd)
  }

  /** Some structure is stacked under `r` or relays to it. */
  ghost predicate Referenced(l: Lib, r: Ref) {
    exists t :: t in l.mem && (l.mem[t].parent == Some(r) || l.mem[t].relay == Some(r))
  }

  lemma AllocatedIffReferenced(l: Lib, r: Ref)
    requires Sound(l) && (r in l.mem ==> !l.mem[r].root && !l.mem[r].inserted)
    ensures r in l.mem <==> Referenced(l, r)
  {
    if r in l.mem {
      assert At(l, r, multiset{});
      assert Kids(l.mem, r) + Users(l.mem, r) != {};
      var t :| t in Kids(l.mem, r) + Users(l.mem, r);
    } else {
      NoDangling(l, r);
      assert forall t :: t in l.mem ==> t !in Kids(l.mem, r) && t !in Users(l.mem, r);
    }
  }

  lemma Allocated(l: Lib, r: Ref, x: multiset<Ref>)
    requires Inv(l, x) && x[r] > 0
    ensures r in l.mem
  {
  }

  /** What closing `r` leaves: its flags set, or the transaction gone, and freed unless referred to. */
  ghost predicate Closing(l: Lib, l': Lib, r: Ref, closed: bool)
    requires r in l.mem
  {
    if !closed then OnlyFlags(l, l', r)
    else
      && !Stands(l', r) && (r in l'.mem <==> Referenced(l', r))
      && (forall t :: Stands(l', t) <==> Stands(l, t) && t != r)
  }

  class Library {
    var mem: map<Ref, State>
    var rd: map<Key, Ref>
    var wr: map<Key, Ref>

    function Value(): Lib
      reads this
    {
      Lib(mem, rd, wr)
    }

    /** Counts, queues and trees are exact, and no transaction is its own ancestor. */
    ghost predicate Valid()
      reads this
    {
      Sound(Value()) && Forest(Value())
    }

    constructor ()
      ensures Valid() && Value() == Nothing
    {
      mem, rd, wr := map[], map[], map[];
      new;
      assert Ranked(mem, map[]);
    }

    /** dmsg_iocom_init, as far as transactions go. */
    method AddIocom(r: Ref)
      requires Valid() && r !in mem && r != 0
      modifies this
      ensures Valid() && Untouched(old(Value()), Value(), {r})
      ensures r in mem && mem[r].root && mem[r].subq == [] && rd == old(rd) && wr == old(wr)
      ensures Value() == Apply(old(Value()), NewIocom(r)).value
    {
      NewIocomKeeps(Value(), r);
      NewIocomForest(Value(), r);
      mem := mem[r := Root(r)];
    }

    /** dmsg_state_hold; `x` are the references the running code holds. */
    method HoldState(r: Ref, ghost x: multiset<Ref>)
      requires Inv(Value(), x) && r in mem
      modifies this`mem
      ensures Inv(Value(), x + multiset{r}) && Value() == Hold(old(Value()), r)
    {
      HoldKeeps(Value(), r, x);
      mem := mem[r := mem[r].(refs := mem[r].refs + 1)];
    }

    /** dmsg_state_drop of a reference the running code holds: the structure is freed exactly with its last one. */
    method DropState(r: Ref, ghost x: multiset<Ref>)
      requires Inv(Value(), x) && x[r] > 0
      modifies this`mem
      ensures Inv(Value(), x - multiset{r}) && Untouched(old(Value()), Value(), {r})
      ensures r !in mem <==>
        Base(old(mem)[r]) == 0 && Kids(old(mem), r) == {} && Users(old(mem), r) == {} && x[r] == 1
      ensures Drop(old(Value()), r) == Ok(Value())
    {
      hide Inv;
      DropKeeps(Value(), r, x);
      Allocated(Value(), r, x);
      mem := mem[r := mem[r].(refs := mem[r].refs - 1)];
      if mem[r].refs == 0 {
        assert !mem[r].root && !mem[r].inserted && mem[r].subq == [];
        assert mem - {r} == old(mem) - {r};
        mem := mem - {r};
      }
    }

    /** Link a structure just allocated at `r` under `p` and into its tree. */
    method Insert(p: Ref, r: Ref, s: State)
      requires Valid() && Fresh(Value(), p, r, s) && !(s.txcmd.delete && s.rxcmd.delete)
      modifies this
      ensures Valid() && Untouched(old(Value()), Value(), {p, r})
      ensures p in mem && r in mem && mem[r] == s && mem[p].subq == old(mem)[p].subq + [r]
      ensures mem[p].refs == old(mem)[p].refs + 1
      ensures Find(if s.opposite then rd else wr, KeyOf(s)) == Some(r)
      ensures Value() == Enter(old(Value()), p, r, s)
    {
      EnterKeeps(Value(), p, r, s, multiset{});
      ForestGrows(Value(), p, r, s);
      HoldState(p, multiset{});
      mem := mem[r := s];
      if s.opposite {
        rd := rd[Key(s.iocom, s.msgid) := r];
      } else {
        wr := wr[Key(s.iocom, s.msgid) := r];
      }
      mem := mem[p := mem[p].(subq := mem[p].subq + [r])];
      assert Value() == Enter(old(Value()), p, r, s);
    }

    /** dmsg_msg_alloc with CREATE; `r` is what malloc returned. */
    method AllocCreate(p: Ref, r: Ref)
      requires Valid() && p in mem && r !in mem && r != 0
      modifies this
      ensures Valid() && Untouched(old(Value()), Value(), {p, r})
      ensures Stands(Value(), r) && mem[r].parent == Some(p) && mem[r].msgid == r && !mem[r].opposite
      ensures p in mem && !mem[r].txcmd.create && !mem[r].rxcmd.create && Find(wr, Key(mem[p].iocom, r)) == Some(r)
      ensures Value() == Open(old(Value()), p, r)
    {
      OpenKeeps(Value(), p, r);
      Insert(p, r, Local(Value(), p, r));
    }

    /**
     The common tail of the two cleanup routines: the transaction leaves tree and queue and gives up its
     references.
     */
    method RetireState(r: Ref, fromRd: bool)
      requires Inv(Value(), multiset{}) && Stands(Value(), r) && fromRd == mem[r].opposite
      modifies this
      ensures Inv(Value(), multiset{}) && Retired(old(Value()), r, Value())
      ensures Retire(old(Value()), r, old(mem)[r].opposite) == Ok(Value())
    {
      hide Inv, Drop;
      RetireStands(Value(), r);
      var s := mem[r];
      var k := Key(s.iocom, s.msgid);
      if fromRd {
        rd := rd - {k};
      } else {
        wr := wr - {k};
      }
      var p := s.parent.value;
      mem := mem[p := mem[p].(subq := Without(mem[p].subq, r))];
      mem := mem[r := mem[r].(inserted := false, parent := None, relay := None)];
      ghost var x := Released(s, r);
      assert Value() == Unlinked(old(Value()), r);
      DropState(p, x);
      x := x - multiset{p};
      if s.relay.Some? {
        DropState(s.relay.value, x);
        x := x - multiset{s.relay.value};
      }
      assert x == multiset{r};
      DropState(r, x);
      assert multiset{r} - multiset{r} == multiset{};
    }

    /** dmsg_state_cleanuptx: the transaction closes, and is gone exactly if the other direction was closed. */
    method CleanTransmit(r: Ref, cmd: Cmd)
      requires Valid() && r in mem
      requires mem[r].root || (mem[r].inserted && !mem[r].txcmd.delete && cmd.reply == mem[r].txcmd.reply)
      modifies this
      ensures Valid() && CleanupTx(old(Value()), r, cmd) == Ok(Value())
      ensures Closing(old(Value()), Value(), r, !old(mem)[r].root && cmd.delete && old(mem)[r].rxcmd.delete)
      ensures !old(mem)[r].root && Stands(Value(), r) ==>
        mem[r].txcmd.delete == cmd.delete && mem[r].rxcmd == old(mem)[r].rxcmd
    {
      hide Inv, Retire, Forest;
      CleanTransmitKeeps(Value(), r, cmd);
      if mem[r].root {
      } else if cmd.delete {
        ghost var l := Value();
        mem := mem[r := mem[r].(txcmd := mem[r].txcmd.(delete := true))];
        if mem[r].rxcmd.delete {
          ghost var l1 := Value();
          RetireState(r, mem[r].txcmd.reply);
          ClosedBy(l, l1, r, Value());
        }
      }
    }

    /**
     dmsg_state_cleanuprx after any message: `ok` unless an assertion fires or the structure has been freed.
     The assertions are looked at before anything is changed, since nothing comes after one that fires.
     */
    method CleanReceive(r: Ref, cmd: Cmd) returns (ok: bool)
      requires Valid()
      modifies this
      ensures Valid() && (ok <==> Cleanable(old(Value()), r, cmd))
      ensures !ok ==> Value() == old(Value()) && CleanupRx(old(Value()), r, cmd).Fault?
      ensures ok ==> CleanupRx(old(Value()), r, cmd) == Ok(Value())
      ensures ok ==> Closing(old(Value()), Value(), r, !old(mem)[r].root && cmd.delete && old(mem)[r].txcmd.delete)
      ensures ok && !old(mem)[r].root && r in mem && cmd.delete ==>
        mem[r].rxcmd.delete && mem[r].txcmd == old(mem)[r].txcmd
    {
      hide Inv, Retire, Forest;
      CleanReceiveKeeps(Value(), r, cmd);
      ok := r in mem;
      if ok && !mem[r].root && cmd.delete {
        if mem[r].txcmd.delete && (!mem[r].inserted || cmd.reply != mem[r].rxcmd.reply) {
          return false;
        }
        ghost var l := Value();
        mem := mem[r := mem[r].(rxcmd := mem[r].rxcmd.(delete := true))];
        if mem[r].txcmd.delete {
          ghost var l1 := Value();
          RetireState(r, !mem[r].rxcmd.reply);
          ClosedBy(l, l1, r, Value());
        }
      }
    }

    /**
     dmsg_msg_write on a transaction that may transmit.  `m` goes to the link: it names the
     transaction and its circuit, from the receiver's point of view.
     */
    method WriteMsg(r: Ref, cmd: Cmd) returns (m: Msg)
      requires Valid() && Sendable(Value(), r) && cmd.reply == mem[r].txcmd.reply
      modifies this
      ensures Valid() && Write(old(Value()), r, cmd) == Ok((Value(), m))
      ensures var s := old(mem)[r];
        var p := old(mem)[s.parent.value];
        && m.msgid == s.msgid && m.circuit == p.msgid
        && m.cmd.create == cmd.create && m.cmd.delete == cmd.delete && m.cmd.reply == cmd.reply
        && (s.opposite ==> m.cmd.revtrans) && (p.opposite ==> m.cmd.revcirc)
      ensures Closing(old(Value()), Value(), r, cmd.delete && old(mem)[r].rxcmd.delete)
      ensures Stands(Value(), r) ==> mem[r].txcmd == Written(old(mem)[r].txcmd, cmd)
    {
      hide Inv, Forest, Retire;
      ghost var l := Value();
      CreateSent(l, r, cmd);
      m := Header(Value(), r, cmd);
      if !mem[r].root && cmd.create {
        mem := mem[r := mem[r].(txcmd := Dir(true, false, cmd.reply))];
      }
      ghost var l1 := Value();
      assert l1 == Created(l, r, cmd);
      CleanTransmit(r, cmd);
      ClosingLater(l, l1, Value(), r, cmd.delete && l.mem[r].rxcmd.delete);
    }

    /**
     dmsg_state_msgrx: the message's state, or the error that is reported.  A message that starts
     a transaction is refused exactly if its id is open; any other needs an open transaction.
     */
    method ReceiveMsg(io: Ref, m: Msg, addr: Ref) returns (e: Outcome<Ref>)
      requires Valid() && io in mem && mem[io].root && addr !in mem && addr != 0
      modifies this
      ensures e.Ok? ==> (Valid() <==> !Collides(old(Value()), io, m))
      ensures !e.Ok? ==> Value() == old(Value())
      ensures e.Fault? <==> Refused(old(Value()), io, m)
      ensures e.Discard? <==> !Refused(old(Value()), io, m) && Stray(old(Value()), io, m) && m.cmd.abort
      ensures e.Ok? ==> Accepted(old(Value()), io, m, addr, e.value, Value())
      ensures e.Ok? ==> MsgRx(old(Value()), io, m, addr) == Ok((Value(), e.value))
      ensures !e.Ok? ==> MsgRx(old(Value()), io, m, addr) == e.PropagateFailure()
    {
      hide Inv, Forest, Enter, OnlyFlags, Untouched;
      MsgRxOutcome(Value(), io, m, addr);
      var pstate := Circuit(Value(), io, m);
      if pstate.None? || pstate.value !in mem {
        return Fault;
      }
      var p := pstate.value;
      var found := Lookup(Value(), io, m);
      if found.Some? && (found.value !in mem || mem[found.value].parent != Some(p)) {
        return Fault;
      }
      if m.cmd.create && !m.cmd.reply {
        if found.Some? {
          return Fault;
        }
        OpenRemote(p, m, addr);
        return Ok(addr);
      }
      if m.cmd.create {
        if found.None? || mem[found.value].rxcmd.reply != m.cmd.reply {
          return Fault;
        }
        var r := found.value;
        mem := mem[r := mem[r].(rxcmd := Dir(true, false, m.cmd.reply))];
        return Ok(r);
      }
      if found.None? || !mem[found.value].rxcmd.create {
        if m.cmd.abort {
          return Discard;
        }
        if m.cmd.delete {
          return Fault;
        }
      }
      return Ok(if found.Some? then found.value else io);
    }

    /** The structure for a transaction the other end starts. */
    method OpenRemote(p: Ref, m: Msg, addr: Ref)
      requires p in mem && addr !in mem
      modifies this
      ensures Value() == Enter(old(Value()), p, addr, Remote(old(Value()), p, m))
    {
      mem := mem[p := mem[p].(refs := mem[p].refs + 1)];
      var s := Remote(Value(), p, m);
      mem := mem[addr := s];
      if Key(s.iocom, s.msgid) !in rd {
        rd := rd[Key(s.iocom, s.msgid) := addr];
      }
      mem := mem[p := mem[p].(subq := mem[p].subq + [addr])];
    }

    /** dmsg_generate_relay, as far as the relay pointer goes. */
    method Seed(r: Ref, target: Ref)
      requires Valid() && Allowed(Value(), DmsgRuns.Seed(r, target))
      modifies this
      ensures Valid() && Value() == SeedRelay(old(Value()), r, target)
      ensures Untouched(old(Value()), Value(), {r, target}) && r in mem && mem[r].relay == Some(target)
    {
      SeedRelayKeeps(Value(), r, target);
      ForestShrinks(Value(), SeedRelay(Value(), r, target));
      mem := mem[r := mem[r].(relay := Some(target))];
      mem := mem[target := mem[target].(refs := mem[target].refs + 1)];
    }

    /**
     dmsg_state_relay on the first message of a sub-transaction: its counterpart opens, and the two hold
     each other.
     */
    method RelayCreate(left: Ref, right: Ref)
      requires Valid() && Allowed(Value(), Relay(left, right))
      modifies this
      ensures Valid() && RelayOpen(old(Value()), left, right) == Ok(Value())
      ensures Stands(Value(), left) && Stands(Value(), right)
      ensures mem[left].relay == Some(right) && mem[right].relay == Some(left)
      ensures mem[right].parent == old(mem)[old(mem)[left].parent.value].relay &&
              mem[left].parent == old(mem)[left].parent
    {
      hide Inv, Forest;
      NeverFaults(Value(), Relay(left, right));
      StepSound(Value(), Relay(left, right));
      StepForest(Value(), Relay(left, right));
      var target := mem[mem[left].parent.value].relay.value;
      RelayTarget(Value(), left);
      AllocCreate(target, right);
      Tie(left, right);
    }

    /** Two transactions that relay to each other hold one another. */
    method Tie(left: Ref, right: Ref)
      requires left in mem && right in mem && left != right
      modifies this`mem
      ensures Value() == Hold(Hold(WithRelay(WithRelay(old(Value()), right, left), left, right), left), right)
    {
      mem := mem[right := mem[right].(relay := Some(left))];
      mem := mem[left := mem[left].(relay := Some(right))];
      mem := mem[left := mem[left].(refs := mem[left].refs + 1)];
      mem := mem[right := mem[right].(refs := mem[right].refs + 1)];
    }

    /** One operation of a run; `false` if the message is thrown away or an assertion fires. */
    method Perform(op: Op) returns (done: bool)
      requires Valid() && Allowed(Value(), op)
      modifies this
      ensures Valid() && done == Apply(old(Value()), op).Ok?
      ensures Value() == if done then Apply(old(Value()), op).value else old(Value())
      ensures op.Start? || (op.Answer? && !old(mem)[op.r].txcmd.delete) ==>
        done && Spoken(old(Value()), op.r, op.last, Value())
      ensures op.Answer? && old(mem)[op.r].txcmd.delete ==> done && Value() == old(Value())
    {
      hide Inv, Forest, Retire, Write, CleanupRx, Closing, RelayOpen, Spoken;
      done := true;
      if op.Start? { StartMeans(Value(), op.r, op.last); }
      if op.Answer? && !mem[op.r].txcmd.delete { AnswerMeans(Value(), op.r, op.last); }
      match op
      case NewIocom(addr) => AddIocom(addr);
      case Begin(p, addr) => AllocCreate(p, addr);
      case Start(r, last) =>
        FirstIsCommand(Value(), r);
        var m := WriteMsg(r, FirstCmd.(delete := last));
      case Answer(r, last) =>
        if !mem[r].txcmd.delete {
          var m := WriteMsg(r, ReplyCmd(mem[r], last));
        }
      case Receive(io, m, addr) =>
        var e := ReceiveMsg(io, m, addr);
        done := e.Ok?;
      case Finish(r, cmd) => done := CleanReceive(r, cmd);
      case Seed(r, target) => this.Seed(r, target);
      case Relay(left, right) => RelayCreate(left, right);
    }

    /** Any sequence of operations: the in-place code goes through the run of `DmsgRuns`. */
    method PerformAll(ops: seq<Op>)
      requires Valid()
      modifies this
      ensures Valid() && Value() == Run(old(Value()), ops)
    {
      hide Inv, Forest, Apply;
      var i: nat := 0;
      assert ops[0..] == ops;
      while i < |ops|
        invariant i <= |ops| && Valid() && Run(Value(), ops[i..]) == Run(old(Value()), ops)
      {
        assert ops[i..][0] == ops[i] && ops[i..][1..] == ops[i + 1..];
        if Allowed(Value(), ops[i]) {
          var done := Perform(ops[i]);
        }
        i := i + 1;
      }
    }
  }

  // ----- writing

  function Created(l: Lib, r: Ref, cmd: Cmd): Lib
    requires r in l.mem
  {
    if cmd.create then WithFlags(l, r, Dir(true, false, cmd.reply), l.mem[r].rxcmd) else l
  }

  lemma CreateSent(l: Lib, r: Ref, cmd: Cmd)
    requires Sound(l) && Forest(l) && Sendable(l, r) && cmd.reply == l.mem[r].txcmd.reply
    ensures Sound(Created(l, r, cmd)) && Forest(Created(l, r, cmd)) && OnlyFlags(l, Created(l, r, cmd), r)
  {
    FlagsSet(l, r, Dir(true, false, cmd.reply), l.mem[r].rxcmd);
    ForestShrinks(l, Created(l, r, cmd));
  }

  lemma ClosingLater(l: Lib, l1: Lib, l': Lib, r: Ref, closed: bool)
    requires OnlyFlags(l, l1, r) && Closing(l1, l', r, closed)
    ensures Closing(l, l', r, closed)
  {
  }

  lemma FirstIsCommand(l: Lib, r: Ref)
    requires Sound(l) && Sendable(l, r) && !l.mem[r].opposite
    ensures !l.mem[r].txcmd.reply
  {
    assert At(l, r, multiset{});
  }

  // ----- receiving

  /** The open transaction a message names. */
  function Target(l: Lib, io: Ref, m: Msg): Option<State> {
    var found := Lookup(l, io, m);
    if found.Some? && found.value in l.mem then Some(l.mem[found.value]) else None
  }

  /** The message needs an open transaction whose reception has begun, and there is none. */
  predicate Stray(l: Lib, io: Ref, m: Msg) {
    var target := Target(l, io, m);
    !m.cmd.create && (target.None? || !target.value.rxcmd.create)
  }

  /** An assertion of dmsg_state_msgrx fires. */
  predicate Refused(l: Lib, io: Ref, m: Msg) {
    var circuit, target := Circuit(l, io, m), Target(l, io, m);
    || circuit.None?                                                          // missing parent
    || (target.Some? && target.value.parent != circuit)                       // another circuit
    || (m.cmd.create && !m.cmd.reply && target.Some?)                         // duplicate transaction
    || (m.cmd.create && m.cmd.reply && (target.None? || !target.value.rxcmd.reply))
    || (Stray(l, io, m) && m.cmd.delete && !m.cmd.abort)                      // missing or reused state
  }

  /** The message is tied to a new transaction, to the open one it names, or to none. */
  ghost predicate Accepted(l: Lib, io: Ref, m: Msg, addr: Ref, r: Ref, l': Lib) {
    var circuit, found := Circuit(l, io, m), Lookup(l, io, m);
    if m.cmd.create && !m.cmd.reply then
      && r == addr && Stands(l', r) && l'.mem[r].parent == circuit && l'.mem[r].msgid == m.msgid && l'.mem[r].opposite
      && (!Collides(l, io, m) ==> Find(l'.rd, Key(io, m.msgid)) == Some(r))
      && circuit.Some? && Untouched(l, l', {r, circuit.value})
    else if found.Some? then
      && r == found.value && OnlyFlags(l, l', r) && l'.mem[r].txcmd == l.mem[r].txcmd
      && (m.cmd.create ==> l'.mem[r].rxcmd.create) && (!m.cmd.create ==> l' == l)
    else r == io && l' == l
  }

  /** What a message names is open. */
  lemma Named(l: Lib, io: Ref, m: Msg)
    requires Sound(l) && io in l.mem && l.mem[io].root
    ensures Lookup(l, io, m).Some? ==> Lookup(l, io, m).value in l.mem && Stands(l, Lookup(l, io, m).value)
    ensures Circuit(l, io, m).Some? ==> Circuit(l, io, m).value in l.mem && l.mem[Circuit(l, io, m).value].iocom == io
  {
    if Circuit(l, io, m).Some? { CircuitHome(l, io, m); }
  }

  /** The cases of dmsg_state_msgrx, by what the message names. */
  lemma MsgRxOutcome(l: Lib, io: Ref, m: Msg, addr: Ref)
    requires Sound(l) && Forest(l) && io in l.mem && l.mem[io].root && addr !in l.mem && addr != 0
    ensures Lookup(l, io, m).Some? ==> Lookup(l, io, m).value in l.mem && Stands(l, Lookup(l, io, m).value)
    ensures Circuit(l, io, m).Some? ==> Circuit(l, io, m).value in l.mem && l.mem[Circuit(l, io, m).value].iocom == io
    ensures var rx := MsgRx(l, io, m, addr);
      && (rx.Fault? <==> Refused(l, io, m))
      && (rx.Discard? <==> !Refused(l, io, m) && Stray(l, io, m) && m.cmd.abort)
      && (rx.Ok? ==> Accepted(l, io, m, addr, rx.value.1, rx.value.0))
      && (rx.Ok? ==> (Sound(rx.value.0) && Forest(rx.value.0) <==> !Collides(l, io, m)))
  {
    hide Inv, Forest;
    Named(l, io, m);
    MsgRxKeeps(l, io, m, addr);
    if MsgRx(l, io, m, addr).Ok? && !Collides(l, io, m) {
      ReceiveForest(l, io, m, addr);
    }
  }

  lemma RelayTarget(l: Lib, left: Ref)
    requires Sound(l) && Stands(l, left) && l.mem[left].parent.Some? && l.mem[left].parent.value in l.mem
    requires l.mem[l.mem[left].parent.value].relay.Some?
    ensures l.mem[l.mem[left].parent.value].relay.value in l.mem
  {
    assert At(l, l.mem[left].parent.value, multiset{});
  }

  // ----- closing

  lemma ClosedBy(l: Lib, l1: Lib, r: Ref, l': Lib)
    requires Sound(l') && OnlyFlags(l, l1, r) && Retired(l1, r, l') && !l.mem[r].root
    ensures Closing(l, l', r, true)
  {
    hide Inv;
    AllocatedIffReferenced(l', r);
  }

  lemma FlagsSet(l: Lib, r: Ref, tx: Dir, rx: Dir)
    requires Sound(l) && Stands(l, r) && tx.reply == l.mem[r].txcmd.reply && rx.reply == l.mem[r].rxcmd.reply
    ensures Inv(WithFlags(l, r, tx, rx), multiset{}) && OnlyFlags(l, WithFlags(l, r, tx, rx), r)
    ensures !l.mem[r].root && l.mem[r].txcmd.reply == l.mem[r].opposite && l.mem[r].rxcmd.reply == !l.mem[r].opposite
  {
    assert At(l, r, multiset{});
    FlagsKeep(l, r, tx, rx, multiset{});
  }

  lemma CleanTransmitKeeps(l: Lib, r: Ref, cmd: Cmd)
    requires Sound(l) && Forest(l) && r in l.mem
    requires l.mem[r].root || (l.mem[r].inserted && !l.mem[r].txcmd.delete && cmd.reply == l.mem[r].txcmd.reply)
    ensures CleanupTx(l, r, cmd).Ok? && Sound(CleanupTx(l, r, cmd).value) && Forest(CleanupTx(l, r, cmd).value)
    ensures !l.mem[r].root ==> l.mem[r].txcmd.reply == l.mem[r].opposite
    ensures !l.mem[r].root && cmd.delete ==>
      Inv(l.(mem := l.mem[r := l.mem[r].(txcmd := l.mem[r].txcmd.(delete := true))]), multiset{})
  {
    hide Retire;
    var s := l.mem[r];
    if !s.root {
      FlagsSet(l, r, s.txcmd.(delete := true), s.rxcmd);
      CleanupTxKeeps(l, r, cmd);
      assert At(l, r, multiset{});
      CleanupTxParents(l, r, cmd);
      ForestShrinks(l, CleanupTx(l, r, cmd).value);
    }
  }

  lemma CleanReceiveKeeps(l: Lib, r: Ref, cmd: Cmd)
    requires Sound(l) && Forest(l)
    ensures CleanupRx(l, r, cmd).Ok? <==> Cleanable(l, r, cmd)
    ensures !CleanupRx(l, r, cmd).Ok? ==> CleanupRx(l, r, cmd).Fault?
    ensures CleanupRx(l, r, cmd).Ok? ==> Sound(CleanupRx(l, r, cmd).value) && Forest(CleanupRx(l, r, cmd).value)
    ensures Stands(l, r) ==> !l.mem[r].root && l.mem[r].rxcmd.reply == !l.mem[r].opposite
    ensures r in l.mem && !l.mem[r].root && cmd.delete ==>
      Inv(l.(mem := l.mem[r := l.mem[r].(rxcmd := l.mem[r].rxcmd.(delete := true))]), multiset{})
  {
    hide Retire;
    CleanupRxKeeps(l, r, cmd);
    NeverDiscards(l, r, cmd);
    if r in l.mem {
      var s := l.mem[r];
      assert At(l, r, multiset{});
      if !s.root {
        FlagsKeep(l, r, s.txcmd, s.rxcmd.(delete := true), multiset{});
      }
      if Cleanable(l, r, cmd) {
        FinishParents(l, r, cmd);
        ForestShrinks(l, CleanupRx(l, r, cmd).value);
      }
    }
  }

  lemma NeverDiscards(l: Lib, r: Ref, cmd: Cmd)
    ensures !CleanupRx(l, r, cmd).Discard?
  {
  }

  /** What retiring needs and does, for a transaction that is in its tree. */
  lemma RetireStands(l: Lib, r: Ref)
    requires Inv(l, multiset{}) && Stands(l, r)
    ensures l.mem[r].parent.Some? && l.mem[r].parent.value in l.mem && l.mem[r].parent.value != r && !l.mem[r].root
    ensures CanUnlink(l, r) && Inv(Unlinked(l, r), Released(l.mem[r], r))
    ensures Retire(l, r, l.mem[r].opposite).Ok? && Retired(l, r, Retire(l, r, l.mem[r].opposite).value)
  {
    assert At(l, r, multiset{});
    UnlinkKeeps(l, r, multiset{});
    assert multiset{} + Released(l.mem[r], r) == Released(l.mem[r], r);
    RetireKeeps(l, r, multiset{});
    RetireEffect(l, r);
  }
}
