/**
 Transaction state of libdmsg (lib/libdmsg/msg.c).

 A `Lib` value is everything the transaction code keeps: the allocated `dmsg_state`
 structures and the two indices (`staterd_tree`, `statewr_tree`) of every iocom.
 A structure is named by its address, and an address is also the message id a locally
 initiated transaction goes by, so an id comes back as soon as its structure is freed.

 Each operation is a function on `Lib`.  An assertion of the source that does not hold, and
 a use of a structure that has been freed, yield `Fault`; a message the source throws away
 (`DMSG_IOQ_ERROR_EALREADY`) yields `Discard`.
 */
module DmsgState {
  import opened Options

  datatype Outcome<+T> = Ok(value: T) | Discard | Fault {
    predicate IsFailure() { !Ok? }
    function PropagateFailure<U>(): Outcome<U>
      requires !Ok?
    {
      if Discard? then Discard else Fault
    }
    function Extract(): T
      requires Ok?
    {
      value
    }
  }

  type Ref = nat

  /** The flag bits of `dmsg_hdr.cmd`. */
  datatype Cmd = Cmd(create: bool, delete: bool, reply: bool, abort: bool, revtrans: bool, revcirc: bool)

  datatype Msg = Msg(msgid: nat, circuit: nat, cmd: Cmd)

  /** The bits of `txcmd` and `rxcmd` that the transaction code looks at. */
  datatype Dir = Dir(create: bool, delete: bool, reply: bool)

  /** Position in one of the two trees; an iocom is named by the address of its `state0`. */
  datatype Key = Key(iocom: Ref, msgid: nat)

  datatype State = State(
    iocom: Ref,
    parent: Option<Ref>,
    relay: Option<Ref>,
    subq: seq<Ref>,
    msgid: nat,
    txcmd: Dir,
    rxcmd: Dir,
    root: bool,
    opposite: bool,
    inserted: bool,
    refs: int)

  datatype Lib = Lib(mem: map<Ref, State>, rd: map<Key, Ref>, wr: map<Key, Ref>)

  const NoFlags := Dir(false, false, false)

  /** `iocom->state0` as dmsg_iocom_init leaves it. */
  function Root(r: Ref): State {
    State(r, Some(r), None, [], 0, NoFlags, NoFlags, true, false, false, 1)
  }

  function Without(q: seq<Ref>, r: Ref): seq<Ref> {
    if q == [] then [] else if q[0] == r then q[1..] else [q[0]] + Without(q[1..], r)
  }

  // ----- reference counts (dmsg_state_hold, dmsg_state_drop, dmsg_state_free)

  function Hold(l: Lib, r: Ref): Lib
    requires r in l.mem
  {
    l.(mem := l.mem[r := l.mem[r].(refs := l.mem[r].refs + 1)])
  }

  function Drop(l: Lib, r: Ref): Outcome<Lib> {
    if r !in l.mem then Fault
    else
      var s := l.mem[r];
      if s.refs != 1 then Ok(l.(mem := l.mem[r := s.(refs := s.refs - 1)]))
      else if s.root || s.inserted || s.subq != [] then Fault
      else Ok(l.(mem := l.mem - {r}))
  }

  // ----- opening a transaction

  /** The structure allocated for a transaction this end starts. */
  function Local(l: Lib, p: Ref, r: Ref): State
    requires p in l.mem
  {
    State(l.mem[p].iocom, Some(p), None, [], r, NoFlags, Dir(false, false, true), false, false, true, 1)
  }

  /** The structure allocated for a transaction the other end starts with `m`. */
  function Remote(l: Lib, p: Ref, m: Msg): State
    requires p in l.mem
  {
    State(l.mem[p].iocom, Some(p), None, [], m.msgid, Dir(false, false, true),
          Dir(true, false, m.cmd.reply), false, true, true, 1)
  }

  /** RB_INSERT: an entry already there under the same key stays, and the new one is not linked. */
  function Inserted(t: map<Key, Ref>, k: Key, r: Ref): map<Key, Ref> {
    if k in t then t else t[k := r]
  }

  /** Enter a new structure under `p`: hold the parent, queue it there, index it. */
  function Enter(l: Lib, p: Ref, r: Ref, s: State): Lib
    requires p in l.mem
  {
    var h := Hold(l, p);
    var q := h.mem[p];
    var mem := h.mem[r := s][p := q.(subq := q.subq + [r])];
    if s.opposite then Lib(mem, Inserted(h.rd, Key(s.iocom, s.msgid), r), h.wr)
    else Lib(mem, h.rd, Inserted(h.wr, Key(s.iocom, s.msgid), r))
  }

  /** dmsg_msg_alloc with CREATE and without REPLY: a new transaction stacked under `p`. */
  function Open(l: Lib, p: Ref, r: Ref): Lib
    requires p in l.mem
  {
    Enter(l, p, r, Local(l, p, r))
  }

  // ----- closing a transaction

  /** Take a transaction out of its tree and its parent's queue and give up its references. */
  function Retire(l: Lib, r: Ref, fromRd: bool): Outcome<Lib>
    requires r in l.mem
  {
    var s := l.mem[r];
    if !s.inserted || s.parent.None? || s.parent.value !in l.mem then Fault
    else
      Release(Unlink(l, r, s.parent.value, Key(s.iocom, s.msgid), fromRd), s.parent.value, s.relay, r)
  }

  function Release(l: Lib, parent: Ref, relay: Option<Ref>, r: Ref): Outcome<Lib> {
    var l1 :- Drop(l, parent);
    var l2 :- if relay.Some? then Drop(l1, relay.value) else Ok(l1);
    Drop(l2, r)
  }

  function Unlink(l: Lib, r: Ref, p: Ref, k: Key, fromRd: bool): Lib
    requires r in l.mem && p in l.mem
  {
    var mem := l.mem[p := l.mem[p].(subq := Without(l.mem[p].subq, r))];
    Lib(mem[r := mem[r].(inserted := false, parent := None, relay := None)],
        if fromRd then l.rd - {k} else l.rd,
        if fromRd then l.wr else l.wr - {k})
  }

  /** dmsg_state_cleanuptx: state processing for a message about to be queued. */
  function CleanupTx(l: Lib, r: Ref, cmd: Cmd): Outcome<Lib>
  {
    if r !in l.mem then Fault
    else
      var s := l.mem[r];
      if s.root || !cmd.delete then Ok(l)
      else if s.txcmd.delete then Fault
      else
        var l1 := l.(mem := l.mem[r := s.(txcmd := s.txcmd.(delete := true))]);
        if !s.rxcmd.delete then Ok(l1)
        else if s.txcmd.reply != cmd.reply then Fault
        else Retire(l1, r, s.txcmd.reply)
  }

  /** dmsg_state_cleanuprx: state processing after the handler of a received message returned. */
  function CleanupRx(l: Lib, r: Ref, cmd: Cmd): Outcome<Lib>
  {
    if r !in l.mem then Fault
    else
      var s := l.mem[r];
      if s.root || !cmd.delete then Ok(l)
      else
        var l1 := l.(mem := l.mem[r := s.(rxcmd := s.rxcmd.(delete := true))]);
        if !s.txcmd.delete then Ok(l1)
        else if s.rxcmd.reply != cmd.reply then Fault
        else Retire(l1, r, !s.rxcmd.reply)
  }

  // ----- transmitting

  /** The header dmsg_msg_alloc builds for a message on transaction `r`. */
  function Header(l: Lib, r: Ref, cmd: Cmd): Msg
    requires r in l.mem && l.mem[r].parent.Some? && l.mem[r].parent.value in l.mem
  {
    var s := l.mem[r];
    var p := l.mem[s.parent.value];
    Msg(s.msgid, p.msgid, cmd.(revtrans := cmd.revtrans || s.opposite, revcirc := cmd.revcirc || p.opposite))
  }

  /**
   dmsg_msg_write.  The parent must still be open for transmission: the simulated failure that
   answers the other case is not part of this model.
   */
  function Write(l: Lib, r: Ref, cmd: Cmd): Outcome<(Lib, Msg)>
    requires r in l.mem && l.mem[r].parent.Some? && l.mem[r].parent.value in l.mem
    requires !l.mem[l.mem[r].parent.value].txcmd.delete
  {
    var s := l.mem[r];
    var l1 := if s.root || !cmd.create then l
              else l.(mem := l.mem[r := s.(txcmd := Dir(true, false, cmd.reply))]);
    var l2 :- CleanupTx(l1, r, cmd);
    Ok((l2, Header(l, r, cmd)))
  }

  /** The command dmsg_state_reply (`last`) and dmsg_state_result send on transaction `r`. */
  function ReplyCmd(s: State, last: bool): Cmd {
    Cmd(!s.root && !s.txcmd.create, last, s.txcmd.reply, false, false, false)
  }

  // ----- receiving

  function Find(t: map<Key, Ref>, k: Key): Option<Ref> {
    if k in t then Some(t[k]) else None
  }

  /** The circuit a received message belongs to; `None` if it names no open transaction. */
  function Circuit(l: Lib, io: Ref, m: Msg): Option<Ref> {
    if m.circuit == 0 then Some(io)
    else Find(if m.cmd.revcirc then l.wr else l.rd, Key(io, m.circuit))
  }

  /** The open transaction a received message names. */
  function Lookup(l: Lib, io: Ref, m: Msg): Option<Ref> {
    Find(if m.cmd.revtrans then l.wr else l.rd, Key(io, m.msgid))
  }

  /**
   dmsg_state_msgrx on iocom `io`; `addr` is the address a new structure would get.
   The second component is the state the message is tied to.
   */
  function MsgRx(l: Lib, io: Ref, m: Msg, addr: Ref): Outcome<(Lib, Ref)> {
    var pstate := Circuit(l, io, m);
    if pstate.None? || pstate.value !in l.mem then Fault
    else
      var p := pstate.value;
      match Lookup(l, io, m)
      case Some(r) =>
        if r !in l.mem || l.mem[r].parent != Some(p) then Fault
        else
          var s := l.mem[r];
          if m.cmd.create && !m.cmd.reply then Fault                     // duplicate transaction
          else if m.cmd.create then
            if s.rxcmd.reply != m.cmd.reply then Fault
            else Ok((l.(mem := l.mem[r := s.(rxcmd := Dir(true, false, m.cmd.reply))]), r))
          else if s.rxcmd.create then Ok((l, r))
          else if m.cmd.abort then Discard
          else if m.cmd.delete then Fault                                // reused-state
          else Ok((l, r))
      case None =>
        if m.cmd.create && !m.cmd.reply then Ok((Enter(l, p, addr, Remote(l, p, m)), addr))
        else if m.cmd.create then Fault                                  // no-state(r)
        else if m.cmd.abort then Discard
        else if m.cmd.delete then Fault                                  // missing-state, no-state(r,d)
        else Ok((l, io))
  }

  // ----- relaying

  /** dmsg_generate_relay: transactions opened under `r` go to the circuit `target`. */
  function SeedRelay(l: Lib, r: Ref, target: Ref): Lib
    requires r in l.mem && target in l.mem
  {
    var l1 := l.(mem := l.mem[r := l.mem[r].(relay := Some(target))]);
    Hold(l1, target)
  }

  /** dmsg_state_relay on a new sub-transaction `left`: open its counterpart and tie the two. */
  function RelayOpen(l: Lib, left: Ref, right: Ref): Outcome<Lib>
    requires left in l.mem
  {
    var s := l.mem[left];
    if s.parent.None? || s.parent.value !in l.mem || s.relay.Some? then Fault
    else
      var target := l.mem[s.parent.value].relay;
      if target.None? || target.value !in l.mem then Fault
      else
        var l1 := Open(l, target.value, right);
        if left !in l1.mem || right !in l1.mem then Fault
        else
          var l2 := l1.(mem := l1.mem[right := l1.mem[right].(relay := Some(left))]);
          var l3 := l2.(mem := l2.mem[left := l2.mem[left].(relay := Some(right))]);
          Ok(Hold(Hold(l3, left), right))
  }
}
