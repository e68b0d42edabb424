/**
 One end of a connection, and what each operation does to the flags it keeps for each id.
 Transactions may be stacked under one another to any depth.
 */
module DmsgPeers {
  import opened Options
  import opened DmsgState
  import opened DmsgRefs
  import opened DmsgStream

  /** Address of `iocom->state0`. */
  const ROOT: Ref := 1

  /** A structure of the only iocom; one that is no longer inserted has been closed both ways. */
  predicate Plain(r: Ref, s: State) {
    && s.iocom == ROOT && s.relay.None? && (s.root <==> r == ROOT) && (s.root ==> !s.opposite)
    && (!s.root && !s.inserted ==> s.txcmd.delete && s.rxcmd.delete)
  }

  /** A library state with one iocom and no relays. */
  ghost predicate Single(l: Lib) {
    Inv(l, multiset{}) && ROOT in l.mem && forall r {:trigger l.mem[r]} :: r in l.mem ==> Plain(r, l.mem[r])
  }

  /** No two structures have the same tag. */
  predicate Apart(g: map<Ref, Tag>) { forall r, t :: r in g && t in g && g[r] == g[t] ==> r == t }

  /** The tag of a structure names the tag of its parent. */
  predicate Stacked(l: Lib, g: map<Ref, Tag>, r: Ref)
    requires r in l.mem && r in g
  {
    && (r == ROOT ==> g[r] == Top)
    && (!l.mem[r].root && l.mem[r].parent.Some? ==>
          l.mem[r].parent.value in g && g[r].Tag? && g[r].up == g[l.mem[r].parent.value])
  }

  /** The tags of the structures tell them apart and follow the stacking. */
  predicate Labelled(l: Lib, g: map<Ref, Tag>) {
    g.Keys == l.mem.Keys && Apart(g) && forall r :: r in l.mem ==> Stacked(l, g, r)
  }

  /** The transaction is at top level, or the one it is stacked under is known to the other end or on its way there. */
  predicate Reached(l: Lib, r: Ref) {
    && r in l.mem && l.mem[r].parent.Some? && l.mem[r].parent.value in l.mem
    && var p := l.mem[l.mem[r].parent.value]; p.root || p.opposite || p.txcmd.create
  }

  /** Every transaction that has been started is stacked under one that has. */
  predicate Carried(l: Lib) {
    forall r {:trigger l.mem[r]} :: r in l.mem && l.mem[r].inserted && (l.mem[r].opposite || l.mem[r].txcmd.create) ==>
      Reached(l, r)
  }

  ghost predicate Tidy(l: Lib, g: map<Ref, Tag>) { Single(l) && Settled(l) && Labelled(l, g) && Carried(l) }

  function Tree(l: Lib, opp: bool): map<Key, Ref> { if opp then l.rd else l.wr }

  /** What this end keeps for an id: of a transaction of its own, or (`opp`) of the other end's. */
  function View(l: Lib, g: map<Ref, Tag>, opp: bool, id: nat): Option<Half> {
    var t := Tree(l, opp);
    var k := Key(ROOT, id);
    if k in t && t[k] in l.mem && t[k] in g then Some(Half(l.mem[t[k]].txcmd, l.mem[t[k]].rxcmd, g[t[k]])) else None
  }

  /** The tags of the structures that are left. */
  function Left(g: map<Ref, Tag>, l: Lib): map<Ref, Tag> { map r | r in g && r in l.mem :: g[r] }

  /** The structure at `t` is still there, with the same name and the same reception flags. */
  predicate Stays(l: Lib, g: map<Ref, Tag>, l': Lib, g': map<Ref, Tag>, t: Ref)
    requires t in l.mem
  {
    && t in l'.mem && l'.mem[t].opposite == l.mem[t].opposite && l'.mem[t].msgid == l.mem[t].msgid
    && l'.mem[t].rxcmd == l.mem[t].rxcmd
    && t in g && t in g' && g'[t] == g[t]
  }

  /** Structures in use other than `r` stay. */
  predicate OthersStay(l: Lib, g: map<Ref, Tag>, l': Lib, g': map<Ref, Tag>, r: Ref) {
    forall t :: t in l.mem && t != r && Base(l.mem[t]) == 1 ==> Stays(l, g, l', g', t)
  }

  /** The step changed what is kept for one id, to `v`, and nothing else. */
  ghost predicate Changed(l: Lib, g: map<Ref, Tag>, l': Lib, g': map<Ref, Tag>, opp: bool, id: nat, v: Option<Half>) {
    forall o, i {:trigger View(l', g', o, i)} ::
      View(l', g', o, i) == if o == opp && i == id then v else View(l, g, o, i)
  }

  /** The transaction at `r` is the one the view shows. */
  lemma ViewOf(l: Lib, g: map<Ref, Tag>, r: Ref)
    requires Single(l) && Labelled(l, g) && r in l.mem && l.mem[r].inserted
    ensures r != ROOT
    ensures View(l, g, l.mem[r].opposite, l.mem[r].msgid) == Some(Half(l.mem[r].txcmd, l.mem[r].rxcmd, g[r]))
    ensures Key(ROOT, l.mem[r].msgid) in Tree(l, l.mem[r].opposite)
    ensures Tree(l, l.mem[r].opposite)[Key(ROOT, l.mem[r].msgid)] == r
    ensures l.mem[r].txcmd.reply == l.mem[r].opposite && l.mem[r].rxcmd.reply == !l.mem[r].opposite
    ensures !l.mem[r].opposite ==> l.mem[r].msgid == r && r != 0
  {
    assert At(l, r, multiset{});
    assert Plain(r, l.mem[r]);
  }

  lemma ViewEntry(l: Lib, g: map<Ref, Tag>, opp: bool, id: nat)
    requires Single(l) && Labelled(l, g)
    ensures View(l, g, opp, id).Some? <==> Key(ROOT, id) in Tree(l, opp)
    ensures View(l, g, opp, id).Some? ==>
              var r := Tree(l, opp)[Key(ROOT, id)];
              && r in l.mem && r != ROOT && l.mem[r].inserted && l.mem[r].opposite == opp && l.mem[r].msgid == id
              && View(l, g, opp, id) == Some(Half(l.mem[r].txcmd, l.mem[r].rxcmd, g[r]))
  {
    var k := Key(ROOT, id);
    if k in Tree(l, opp) {
      assert Entry(l, k, Tree(l, opp)[k], opp);
    }
  }

  /** An open transaction's parent is there and carries the tag its own tag names. */
  lemma ParentOf(l: Lib, g: map<Ref, Tag>, r: Ref)
    requires Single(l) && Labelled(l, g) && r in l.mem && l.mem[r].inserted
    ensures l.mem[r].parent.Some? && l.mem[r].parent.value in l.mem && l.mem[r].parent.value != r
    ensures g[r].Tag? && g[r].up == g[l.mem[r].parent.value]
    ensures g[r].up == Top <==> l.mem[r].parent.value == ROOT
  {
    assert At(l, r, multiset{});
    assert Plain(r, l.mem[r]);
  }

  // ----- opening

  lemma EnterSingle(l: Lib, p: Ref, r: Ref, s: State)
    requires Single(l) && Settled(l) && Fresh(l, p, r, s) && !s.txcmd.delete
    ensures Single(Enter(l, p, r, s)) && Settled(Enter(l, p, r, s))
  {
    hide Inv;
    EnterKeeps(l, p, r, s, multiset{});
    assert Plain(p, l.mem[p]);
    assert r != ROOT;
    var l' := Enter(l, p, r, s);
    forall t | t in l'.mem
      ensures Plain(t, l'.mem[t])
    {
      assert t != r ==> Plain(t, l.mem[t]);
    }
  }

  lemma NewTag(g: map<Ref, Tag>, r: Ref, t: Tag)
    requires Apart(g) && r !in g && forall q :: q in g ==> g[q] != t
    ensures Apart(g[r := t])
  {
  }

  lemma EnterLabelled(l: Lib, g: map<Ref, Tag>, p: Ref, r: Ref, s: State, t: Tag)
    requires Labelled(l, g) && Fresh(l, p, r, s) && ROOT in l.mem && p in g
    requires t.Tag? && t.up == g[p] && forall q :: q in g ==> g[q] != t
    ensures Labelled(Enter(l, p, r, s), g[r := t])
  {
    hide Apart;
    var l', g' := Enter(l, p, r, s), g[r := t];
    assert l'.mem.Keys == l.mem.Keys + {r};
    forall q | q in l'.mem
      ensures Stacked(l', g', q)
    {
      assert q != r ==> Stacked(l, g, q);
    }
    NewTag(g, r, t);
  }

  lemma EnterSees(l: Lib, g: map<Ref, Tag>, p: Ref, r: Ref, s: State, t: Tag, o: bool, i: nat)
    requires Single(l) && Labelled(l, g) && Fresh(l, p, r, s)
    ensures View(Enter(l, p, r, s), g[r := t], o, i) ==
              if o == s.opposite && i == s.msgid then Some(Half(s.txcmd, s.rxcmd, t)) else View(l, g, o, i)
  {
    hide Inv, Apart, Stacked;
    assert Plain(p, l.mem[p]);
    ViewEntry(l, g, o, i);
  }

  lemma EnterCarried(l: Lib, p: Ref, r: Ref, s: State)
    requires Carried(l) && Fresh(l, p, r, s)
    requires s.opposite || s.txcmd.create ==> l.mem[p].root || l.mem[p].opposite || l.mem[p].txcmd.create
    ensures Carried(Enter(l, p, r, s))
  {
    var l' := Enter(l, p, r, s);
    forall t | t in l'.mem && l'.mem[t].inserted && (l'.mem[t].opposite || l'.mem[t].txcmd.create)
      ensures Reached(l', t)
    {
      assert t != r ==> Reached(l, t);
    }
  }

  lemma EnterOthers(l: Lib, g: map<Ref, Tag>, p: Ref, r: Ref, s: State, t: Tag)
    requires g.Keys == l.mem.Keys && Fresh(l, p, r, s)
    ensures OthersStay(l, g, Enter(l, p, r, s), g[r := t], r)
  {
  }

  lemma EnterView(l: Lib, g: map<Ref, Tag>, p: Ref, r: Ref, s: State, t: Tag)
    requires Tidy(l, g) && Fresh(l, p, r, s) && !s.txcmd.delete
    requires s.opposite || s.txcmd.create ==> l.mem[p].root || l.mem[p].opposite || l.mem[p].txcmd.create
    requires t.Tag? && t.up == g[p] && forall q :: q in g ==> g[q] != t
    ensures Tidy(Enter(l, p, r, s), g[r := t])
    ensures Changed(l, g, Enter(l, p, r, s), g[r := t], s.opposite, s.msgid, Some(Half(s.txcmd, s.rxcmd, t)))
    ensures OthersStay(l, g, Enter(l, p, r, s), g[r := t], r)
  {
    assert ROOT in l.mem;
    hide Single, View, Apart, Stacked, Enter, OthersStay, Settled, Carried;
    var l', g' := Enter(l, p, r, s), g[r := t];
    EnterSingle(l, p, r, s);
    EnterLabelled(l, g, p, r, s, t);
    EnterOthers(l, g, p, r, s, t);
    EnterCarried(l, p, r, s);
    forall o, i
      ensures View(l', g', o, i) ==
                if o == s.opposite && i == s.msgid then Some(Half(s.txcmd, s.rxcmd, t)) else View(l, g, o, i)
    {
      EnterSees(l, g, p, r, s, t, o, i);
    }
  }

  // ----- flags

  lemma FlagsSingle(l: Lib, r: Ref, tx: Dir, rx: Dir)
    requires Single(l) && r in l.mem && l.mem[r].inserted
    requires tx.reply == l.mem[r].txcmd.reply && rx.reply == l.mem[r].rxcmd.reply
    ensures Single(WithFlags(l, r, tx, rx))
  {
    assert At(l, r, multiset{});
    hide At;
    hide Inv;
    assert Plain(r, l.mem[r]);
    FlagsKeep(l, r, tx, rx, multiset{});
    var l' := WithFlags(l, r, tx, rx);
    forall t | t in l'.mem
      ensures Plain(t, l'.mem[t])
    {
      assert Plain(t, l.mem[t]);
    }
  }

  lemma FlagsView(l: Lib, g: map<Ref, Tag>, r: Ref, tx: Dir, rx: Dir)
    requires Single(l) && Labelled(l, g) && r in l.mem && l.mem[r].inserted
    requires tx.reply == l.mem[r].txcmd.reply && rx.reply == l.mem[r].rxcmd.reply
    ensures Single(WithFlags(l, r, tx, rx)) && Labelled(WithFlags(l, r, tx, rx), g)
    ensures Changed(l, g, WithFlags(l, r, tx, rx), g, l.mem[r].opposite, l.mem[r].msgid, Some(Half(tx, rx, g[r])))
  {
    hide Inv, Apart;
    var l' := WithFlags(l, r, tx, rx);
    ViewOf(l, g, r);
    FlagsSingle(l, r, tx, rx);
    assert l'.mem.Keys == l.mem.Keys;
    forall t | t in l'.mem
      ensures Stacked(l', g, t)
    {
      assert Stacked(l, g, t);
    }
    forall o, i
      ensures View(l', g, o, i) ==
                if o == l.mem[r].opposite && i == l.mem[r].msgid then Some(Half(tx, rx, g[r])) else View(l, g, o, i)
    {
      ViewEntry(l, g, o, i);
    }
  }

  /** A transaction may be marked as started once the one it is stacked under is. */
  lemma FlagsCarried(l: Lib, r: Ref, tx: Dir, rx: Dir)
    requires Carried(l) && r in l.mem && (l.mem[r].txcmd.create ==> tx.create)
    requires tx.create ==> Reached(l, r)
    ensures Carried(WithFlags(l, r, tx, rx))
  {
    var l' := WithFlags(l, r, tx, rx);
    forall t | t in l'.mem && l'.mem[t].inserted && (l'.mem[t].opposite || l'.mem[t].txcmd.create)
      ensures Reached(l', t)
    {
      assert Reached(l, t);
    }
  }

  // ----- closing

  lemma ParentsThere(l: Lib, t: Ref)
    requires Inv(l, multiset{}) && t in l.mem && !l.mem[t].root && l.mem[t].parent.Some?
    ensures l.mem[t].parent.value in l.mem
  {
    assert At(l, t, multiset{});
  }

  lemma RetiredCarried(l: Lib, r: Ref, l': Lib)
    requires Carried(l) && r in l.mem && Retired(l, r, l') && Single(l')
    ensures Carried(l')
  {
    forall t | t in l'.mem && l'.mem[t].inserted && (l'.mem[t].opposite || l'.mem[t].txcmd.create)
      ensures Reached(l', t)
    {
      assert At(l', t, multiset{});
      assert Reached(l, t);
    }
  }

  lemma RetiredSingle(l: Lib, r: Ref, l': Lib)
    requires Single(l) && r in l.mem && l.mem[r].inserted && Retired(l, r, l') && Inv(l', multiset{})
    requires l.mem[r].txcmd.delete && l.mem[r].rxcmd.delete
    ensures Single(l')
  {
    assert At(l, r, multiset{});
    hide Inv;
    forall t | t in l'.mem
      ensures Plain(t, l'.mem[t])
    {
      assert Plain(t, l.mem[t]);
    }
    assert Plain(r, l.mem[r]) && Plain(ROOT, l.mem[ROOT]);
  }

  lemma RetiredLabelled(l: Lib, g: map<Ref, Tag>, r: Ref, l': Lib)
    requires Labelled(l, g) && r in l.mem && Retired(l, r, l') && Inv(l', multiset{})
    ensures Labelled(l', Left(g, l'))
  {
    hide Inv;
    var g' := Left(g, l');
    assert g'.Keys == l'.mem.Keys;
    forall t | t in l'.mem
      ensures Stacked(l', g', t)
    {
      assert Stacked(l, g, t);
      if !l'.mem[t].root && l'.mem[t].parent.Some? { ParentsThere(l', t); }
    }
  }

  lemma RetiredView(l: Lib, g: map<Ref, Tag>, r: Ref, l': Lib, o: bool, i: nat)
    requires Single(l) && Labelled(l, g) && r in l.mem && l.mem[r].inserted && Retired(l, r, l')
    ensures View(l', Left(g, l'), o, i) ==
              if o == l.mem[r].opposite && i == l.mem[r].msgid then None else View(l, g, o, i)
  {
    ViewEntry(l, g, o, i);
    ViewOf(l, g, r);
  }

  lemma RetireView(l: Lib, g: map<Ref, Tag>, r: Ref)
    requires Single(l) && Labelled(l, g) && r in l.mem && l.mem[r].inserted
    requires l.mem[r].txcmd.delete && l.mem[r].rxcmd.delete
    ensures Retire(l, r, l.mem[r].opposite).Ok?
    ensures var l' := Retire(l, r, l.mem[r].opposite).value;
            && Single(l') && Labelled(l', Left(g, l')) && Retired(l, r, l')
            && Changed(l, g, l', Left(g, l'), l.mem[r].opposite, l.mem[r].msgid, None)
  {
    assert At(l, r, multiset{});
    RetireKeeps(l, r, multiset{});
    var l' := Retire(l, r, l.mem[r].opposite).value;
    ParentOf(l, g, r);
    RetireEffect(l, r);
    RetiredSingle(l, r, l');
    RetiredLabelled(l, g, r, l');
    forall o, i
      ensures View(l', Left(g, l'), o, i) ==
                if o == l.mem[r].opposite && i == l.mem[r].msgid then None else View(l, g, o, i)
    {
      RetiredView(l, g, r, l', o, i);
    }
  }

  lemma RetiredRest(l: Lib, g: map<Ref, Tag>, r: Ref, l1: Lib, l': Lib)
    requires Settled(l) && Labelled(l, g) && r in l.mem && r in l1.mem
    requires l1 == WithFlags(l, r, l1.mem[r].txcmd, l1.mem[r].rxcmd) && Retired(l1, r, l')
    ensures Settled(l') && OthersStay(l, g, l', Left(g, l'), r)
  {
    forall t | t in l'.mem && l'.mem[t].inserted
      ensures !(l'.mem[t].txcmd.delete && l'.mem[t].rxcmd.delete)
    {
      assert t != r && l1.mem[t] == l.mem[t];
    }
    forall t | t in l.mem && t != r && Base(l.mem[t]) == 1
      ensures Stays(l, g, l', Left(g, l'), t)
    {
      assert l1.mem[t] == l.mem[t];
    }
  }

  lemma UpdateView(l: Lib, g: map<Ref, Tag>, r: Ref, tx: Dir, rx: Dir)
    requires Tidy(l, g) && r in l.mem && l.mem[r].inserted
    requires tx.reply == l.mem[r].txcmd.reply && rx.reply == l.mem[r].rxcmd.reply
    requires (l.mem[r].txcmd.create ==> tx.create) && (tx.create ==> Reached(l, r))
    ensures Update(l, r, tx, rx).Ok?
    ensures var l' := Update(l, r, tx, rx).value;
            && Tidy(l', Left(g, l'))
            && Changed(l, g, l', Left(g, l'), l.mem[r].opposite, l.mem[r].msgid, Settle(Half(tx, rx, g[r])))
            && OthersStay(l, g, l', Left(g, l'), r)
            && (!(tx.delete && rx.delete) && rx == l.mem[r].rxcmd ==> Stays(l, g, l', Left(g, l'), r))
  {
    hide Single, Retire, Retired, Carried, Reached;
    FlagsView(l, g, r, tx, rx);
    FlagsCarried(l, r, tx, rx);
    var l1 := WithFlags(l, r, tx, rx);
    if tx.delete && rx.delete {
      RetireView(l1, g, r);
      RetiredRest(l, g, r, l1, Retire(l1, r, l.mem[r].opposite).value);
      RetiredCarried(l1, r, Retire(l1, r, l.mem[r].opposite).value);
    } else {
      assert Left(g, l1) == g;
    }
  }

  // ----- the operations

  lemma OpenView(l: Lib, g: map<Ref, Tag>, p: Ref, addr: Ref, t: Tag)
    requires Tidy(l, g) && p in l.mem && addr !in l.mem && addr != 0
    requires t.Tag? && t.up == g[p] && forall q :: q in g ==> g[q] != t
    ensures Tidy(Open(l, p, addr), g[addr := t]) && View(l, g, false, addr).None?
    ensures Changed(l, g, Open(l, p, addr), g[addr := t], false, addr, Some(Half(NoFlags, Dir(false, false, true), t)))
    ensures OthersStay(l, g, Open(l, p, addr), g[addr := t], addr)
  {
    OpenKeeps(l, p, addr);
    assert Plain(p, l.mem[p]);
    ViewEntry(l, g, false, addr);
    EnterView(l, g, p, addr, Local(l, p, addr), t);
  }

  lemma WriteView(l: Lib, g: map<Ref, Tag>, r: Ref, cmd: Cmd)
    requires Tidy(l, g) && Sendable(l, r) && Reached(l, r) && cmd.reply == l.mem[r].txcmd.reply
    requires !cmd.revtrans && !cmd.revcirc
    ensures Write(l, r, cmd).Ok?
    ensures var p := l.mem[l.mem[r].parent.value];
            Write(l, r, cmd).value.1 ==
              Msg(l.mem[r].msgid, p.msgid, cmd.(revtrans := l.mem[r].opposite, revcirc := p.opposite))
    ensures var l' := Write(l, r, cmd).value.0;
            && Tidy(l', Left(g, l'))
            && Changed(l, g, l', Left(g, l'), l.mem[r].opposite, l.mem[r].msgid,
                       Settle(Half(Written(l.mem[r].txcmd, cmd), l.mem[r].rxcmd, g[r])))
            && OthersStay(l, g, l', Left(g, l'), r)
            && (!l.mem[r].rxcmd.delete ==> Stays(l, g, l', Left(g, l'), r))
  {
    ViewOf(l, g, r);
    UpdateView(l, g, r, Written(l.mem[r].txcmd, cmd), l.mem[r].rxcmd);
    WriteIsUpdate(l, r, cmd);
  }

  lemma CleanupView(l: Lib, g: map<Ref, Tag>, r: Ref, cmd: Cmd)
    requires Tidy(l, g) && r in l.mem && l.mem[r].inserted && cmd.delete && cmd.reply == l.mem[r].rxcmd.reply
    ensures CleanupRx(l, r, cmd).Ok?
    ensures var l' := CleanupRx(l, r, cmd).value;
            && Tidy(l', Left(g, l'))
            && Changed(l, g, l', Left(g, l'), l.mem[r].opposite, l.mem[r].msgid,
                       Settle(Half(l.mem[r].txcmd, l.mem[r].rxcmd.(delete := true), g[r])))
  {
    var s := l.mem[r];
    ViewOf(l, g, r);
    assert Plain(r, s);
    UpdateView(l, g, r, s.txcmd, s.rxcmd.(delete := true));
    assert CleanupRx(l, r, cmd) == Update(l, r, s.txcmd, s.rxcmd.(delete := true));
  }

  /** The circuit a message names is open here, and is the use of its id that `t` stands for. */
  ghost predicate OnCircuit(l: Lib, g: map<Ref, Tag>, m: Msg, t: Tag) {
    if m.circuit == 0 then t == Top
    else
      var v := View(l, g, !m.cmd.revcirc, m.circuit);
      v.Some? && v.value.tag == t
  }

  lemma CircuitFound(l: Lib, g: map<Ref, Tag>, m: Msg, t: Tag)
    requires Tidy(l, g) && OnCircuit(l, g, m, t)
    ensures Circuit(l, ROOT, m).Some? && Circuit(l, ROOT, m).value in l.mem && g[Circuit(l, ROOT, m).value] == t
    ensures var p := l.mem[Circuit(l, ROOT, m).value];
            if m.circuit == 0 then p.root
            else p.opposite == !m.cmd.revcirc && p.txcmd == View(l, g, !m.cmd.revcirc, m.circuit).value.tx
  {
    assert Plain(ROOT, l.mem[ROOT]);
    ViewEntry(l, g, !m.cmd.revcirc, m.circuit);
  }

  /** The first message of a command opens a transaction the other end started. */
  lemma CreateView(l: Lib, g: map<Ref, Tag>, m: Msg, addr: Ref, t: Tag)
    requires Tidy(l, g) && addr !in l.mem && addr != 0
    requires t.Tag? && OnCircuit(l, g, m, t.up) && forall q :: q in g ==> g[q] != t
    requires m.circuit != 0 && m.cmd.revcirc ==> View(l, g, false, m.circuit).value.tx.create
    requires m.cmd.create && !m.cmd.reply && !m.cmd.revtrans && View(l, g, true, m.msgid).None?
    ensures MsgRx(l, ROOT, m, addr).Ok? && MsgRx(l, ROOT, m, addr).value.1 == addr
    ensures var l' := MsgRx(l, ROOT, m, addr).value.0;
            && Tidy(l', g[addr := t]) && addr in l'.mem && addr != ROOT && l'.mem[addr].inserted
            && l'.mem[addr].opposite && l'.mem[addr].msgid == m.msgid
            && !l'.mem[addr].rxcmd.delete && !l'.mem[addr].rxcmd.reply
            && Changed(l, g, l', g[addr := t], true, m.msgid,
                       Some(Half(Dir(false, false, true), Dir(true, false, false), t)))
  {
    ViewEntry(l, g, true, m.msgid);
    CircuitFound(l, g, m, t.up);
    var p := Circuit(l, ROOT, m).value;
    assert Plain(p, l.mem[p]);
    EnterView(l, g, p, addr, Remote(l, p, m), t);
  }

  /** A message about a transaction that is open here finds it, under the circuit it names. */
  lemma Found(l: Lib, g: map<Ref, Tag>, m: Msg, t: Tag) returns (r: Ref)
    requires Tidy(l, g) && t.Tag? && OnCircuit(l, g, m, t.up)
    requires var v := View(l, g, !m.cmd.revtrans, m.msgid); v.Some? && v.value.tag == t
    ensures Lookup(l, ROOT, m) == Some(r) && r in l.mem && l.mem[r].inserted && r != ROOT && g[r] == t
    ensures l.mem[r].opposite == !m.cmd.revtrans && l.mem[r].msgid == m.msgid
    ensures View(l, g, !m.cmd.revtrans, m.msgid) == Some(Half(l.mem[r].txcmd, l.mem[r].rxcmd, t))
    ensures Circuit(l, ROOT, m).Some? && l.mem[r].parent == Circuit(l, ROOT, m) && Circuit(l, ROOT, m).value in l.mem
    ensures l.mem[r].txcmd.reply == l.mem[r].opposite && l.mem[r].rxcmd.reply == !l.mem[r].opposite
  {
    ViewEntry(l, g, !m.cmd.revtrans, m.msgid);
    r := Tree(l, !m.cmd.revtrans)[Key(ROOT, m.msgid)];
    hide Single;
    ViewOf(l, g, r);
    ParentOf(l, g, r);
    CircuitFound(l, g, m, t.up);
  }

  /** Any other message finds its transaction and at most marks its reception as begun. */
  lemma FoundView(l: Lib, g: map<Ref, Tag>, m: Msg, addr: Ref, t: Tag)
    requires Tidy(l, g) && m.cmd.reply == m.cmd.revtrans && t.Tag? && OnCircuit(l, g, m, t.up)
    requires m.cmd.create ==> m.cmd.reply
    requires View(l, g, !m.cmd.revtrans, m.msgid).Some?
    requires var h := View(l, g, !m.cmd.revtrans, m.msgid).value;
             !h.rx.delete && m.cmd.create == !h.rx.create && h.tag == t
    ensures MsgRx(l, ROOT, m, addr).Ok?
    ensures var (l', r) := MsgRx(l, ROOT, m, addr).value;
            var h := View(l, g, !m.cmd.revtrans, m.msgid).value;
            && Tidy(l', g) && r in l'.mem && r != ROOT && l'.mem[r].inserted && g[r] == t
            && l'.mem[r].opposite == !m.cmd.revtrans && l'.mem[r].msgid == m.msgid
            && l'.mem[r].rxcmd.reply == m.cmd.reply && !l'.mem[r].rxcmd.delete
            && Changed(l, g, l', g, !m.cmd.revtrans, m.msgid, Some(h.(rx := h.rx.(create := true))))
  {
    hide Single, Labelled, Circuit, Lookup;
    var r := Found(l, g, m, t);
    if m.cmd.create {
      FlagsView(l, g, r, l.mem[r].txcmd, Dir(true, false, true));
      FlagsCarried(l, r, l.mem[r].txcmd, Dir(true, false, true));
      assert l.mem[r].rxcmd.(create := true) == Dir(true, false, true);
    } else {
      assert l.mem[r].rxcmd.(create := true) == l.mem[r].rxcmd;
    }
  }

  /** A one-off message is tied to no transaction. */
  lemma OneOffView(l: Lib, g: map<Ref, Tag>, m: Msg, addr: Ref)
    requires Tidy(l, g) && m.circuit == 0 && m.msgid == 0
    requires !m.cmd.create && !m.cmd.delete && !m.cmd.abort && !m.cmd.revtrans
    ensures MsgRx(l, ROOT, m, addr) == Ok((l, ROOT)) || View(l, g, true, 0).Some?
  {
    ViewEntry(l, g, true, 0);
  }
}
